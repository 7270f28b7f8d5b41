/**
 * The catalog screen (src/components/Pokedex.tsx): the first 151 Pokémon,
 * filtered by a search text and an optional type, coloured by type, and a
 * detail modal that opens after a short "reveal" pause.
 *
 * The filter, the colour and translation tables and the choice of the
 * Portuguese description are pure functions; the reveal is a small class
 * over the component's `revealing`, `selectedPokemon` and `showModal`
 * state. Fetched data comes in as values: the network is not modelled.
 */
module Pokedex {
  import opened Wrappers

  /** A roster entry as the list keeps it. */
  datatype PokemonData = PokemonData(id: int, name: string, image: string, types: seq<string>)

  // ---------------------------------------------------------------------
  // Text: lower case and `includes`

  /** `toLowerCase` on one character, for the ASCII letters. */
  function LowerChar(c: char): (r: char)
    ensures !('A' <= r <= 'Z')
    ensures !('A' <= c <= 'Z') ==> r == c
    ensures 'A' <= c <= 'Z' ==> 'a' <= r <= 'z' && r as int - c as int == 'a' as int - 'A' as int
  {
    if 'A' <= c <= 'Z' then (c as int + 32) as char else c
  }

  /** `toLowerCase` on a string, character by character. */
  function Lower(s: string): (r: string)
    ensures |r| == |s|
    ensures forall i | 0 <= i < |r| :: !('A' <= r[i] <= 'Z')
    ensures forall i | 0 <= i < |s| :: !('A' <= s[i] <= 'Z') ==> r[i] == s[i]
    ensures forall i | 0 <= i < |s| ::
              'A' <= s[i] <= 'Z' ==> r[i] as int == s[i] as int + ('a' as int - 'A' as int)
  {
    seq(|s|, i requires 0 <= i < |s| => LowerChar(s[i]))
  }

  /** `needle` occurs in `hay` starting at index `i`. */
  ghost predicate OccursAt(needle: string, hay: string, i: int) {
    0 <= i && i + |needle| <= |hay| && hay[i..i + |needle|] == needle
  }

  /** `needle` is a substring of `hay`. */
  ghost predicate Occurs(needle: string, hay: string) {
    exists i :: OccursAt(needle, hay, i)
  }

  /** `hay.includes(needle)`: try every start position from the left. */
  function Includes(hay: string, needle: string): (r: bool)
    ensures needle == [] ==> r
    ensures r ==> |needle| <= |hay|
    decreases |hay|
  {
    needle <= hay || (hay != [] && Includes(hay[1..], needle))
  }

  /** `includes` answers exactly the substring question, the empty needle included. */
  lemma {:induction false} IncludesIsOccurrence(hay: string, needle: string)
    ensures Includes(hay, needle) <==> Occurs(needle, hay)
    decreases |hay|
  {
    if needle <= hay {
      assert OccursAt(needle, hay, 0);
    } else {
      assert !OccursAt(needle, hay, 0);
      if hay != [] {
        IncludesIsOccurrence(hay[1..], needle);
        if Occurs(needle, hay[1..]) {
          var i :| OccursAt(needle, hay[1..], i);
          assert hay[i + 1..i + 1 + |needle|] == hay[1..][i..i + |needle|];
          assert OccursAt(needle, hay, i + 1);
        }
        if Occurs(needle, hay) {
          var i :| OccursAt(needle, hay, i);
          assert hay[1..][i - 1..i - 1 + |needle|] == hay[i..i + |needle|];
          assert OccursAt(needle, hay[1..], i - 1);
        }
      }
    }
  }

  // ---------------------------------------------------------------------
  // The list filter

  /** `typeFilter ? pokemon.types.includes(typeFilter) : true`; "" is falsy. */
  predicate MatchesType(p: PokemonData, typeFilter: Option<string>) {
    typeFilter.Some? && typeFilter.value != "" ==> typeFilter.value in p.types
  }

  /** `pokemon.name.toLowerCase().includes(search.toLowerCase())`. */
  predicate MatchesName(p: PokemonData, search: string) {
    Includes(Lower(p.name), Lower(search))
  }

  /** The `filteredPokemons` callback. */
  predicate Keeps(p: PokemonData, search: string, typeFilter: Option<string>) {
    MatchesName(p, search) && MatchesType(p, typeFilter)
  }

  /** `pokemons.filter(...)`. */
  function FilterPokemons(pokemons: seq<PokemonData>, search: string, typeFilter: Option<string>)
    : (r: seq<PokemonData>)
    ensures |r| <= |pokemons|
  {
    if pokemons == [] then []
    else
      (if Keeps(pokemons[0], search, typeFilter) then [pokemons[0]] else [])
      + FilterPokemons(pokemons[1..], search, typeFilter)
  }

  /** `a` is `b` with some elements left out, the rest in their order. */
  predicate IsSubsequence<T(==)>(a: seq<T>, b: seq<T>)
    decreases |b|
  {
    if a == [] then true
    else if b == [] then false
    else (a[0] == b[0] && IsSubsequence(a[1..], b[1..])) || IsSubsequence(a, b[1..])
  }

  /** The filtered list keeps the roster's order and adds nothing. */
  lemma {:induction false} FilterIsSubsequence(pokemons: seq<PokemonData>, search: string, typeFilter: Option<string>)
    ensures IsSubsequence(FilterPokemons(pokemons, search, typeFilter), pokemons)
  {
    if pokemons != [] {
      var rest := FilterPokemons(pokemons[1..], search, typeFilter);
      FilterIsSubsequence(pokemons[1..], search, typeFilter);
      if Keeps(pokemons[0], search, typeFilter) {
        assert FilterPokemons(pokemons, search, typeFilter) == [pokemons[0]] + rest;
        assert ([pokemons[0]] + rest)[1..] == rest;
      } else {
        assert FilterPokemons(pokemons, search, typeFilter) == rest;
      }
    }
  }

  /**
   * Soundness and completeness of the filter: an entry is shown exactly
   * when it is in the roster, its lower-cased name contains the lower-cased
   * search, and a non-empty type filter is among its types.
   */
  lemma {:induction false} FilterMembership(pokemons: seq<PokemonData>, search: string, typeFilter: Option<string>)
    ensures forall p :: p in FilterPokemons(pokemons, search, typeFilter) <==>
      && p in pokemons
      && Occurs(Lower(search), Lower(p.name))
      && (typeFilter.Some? && typeFilter.value != "" ==> typeFilter.value in p.types)
  {
    if pokemons != [] {
      FilterMembership(pokemons[1..], search, typeFilter);
      IncludesIsOccurrence(Lower(pokemons[0].name), Lower(search));
      assert pokemons == [pokemons[0]] + pokemons[1..];
      forall p | p in pokemons
        ensures Keeps(p, search, typeFilter) <==> Occurs(Lower(search), Lower(p.name)) && MatchesType(p, typeFilter)
      {
        IncludesIsOccurrence(Lower(p.name), Lower(search));
      }
    }
  }

  /** With an empty search and no type filter the whole roster is shown, unchanged. */
  lemma {:induction false} FilterWithoutCriteria(pokemons: seq<PokemonData>, typeFilter: Option<string>)
    requires typeFilter.None? || typeFilter.value == ""
    ensures FilterPokemons(pokemons, "", typeFilter) == pokemons
  {
    if pokemons != [] {
      FilterWithoutCriteria(pokemons[1..], typeFilter);
      assert Lower("") == "";
      assert Keeps(pokemons[0], "", typeFilter);
      assert [pokemons[0]] + pokemons[1..] == pokemons;
    }
  }

  // ---------------------------------------------------------------------
  // Type colours and translations

  /** The colour a type name gets when it is not in the table. */
  const DefaultColor: string := "#ddd"

  /** `getTypeColor`'s table. */
  const TypeColors: map<string, string> := map[
    "fire" := "#F08030", "water" := "#6890F0", "grass" := "#78C850",
    "electric" := "#F8D030", "psychic" := "#F85888", "ice" := "#98D8D8",
    "dragon" := "#7038F8", "dark" := "#705848", "fairy" := "#EE99AC",
    "normal" := "#A8A878", "bug" := "#A8B820", "poison" := "#A040A0",
    "ground" := "#E0C068", "flying" := "#A890F0", "fighting" := "#C03028",
    "rock" := "#B8A038", "ghost" := "#705898", "steel" := "#B8B8D0"]

  /** `typeTranslations`: the Portuguese name of each type. */
  const TypeTranslations: map<string, string> := map[
    "normal" := "normal", "fire" := "fogo", "water" := "água",
    "electric" := "elétrico", "grass" := "grama", "ice" := "gelo",
    "fighting" := "lutador", "poison" := "venenoso", "ground" := "terrestre",
    "flying" := "voador", "psychic" := "psíquico", "bug" := "inseto",
    "rock" := "pedra", "ghost" := "fantasma", "dragon" := "dragão",
    "dark" := "sombrio", "steel" := "aço", "fairy" := "fada"]

  /**
   * `getTypeColor(type)`: the table's colour for a listed type, the
   * default for every other string; no listed type uses the default.
   */
  function TypeColor(t: string): (c: string)
    ensures t in TypeColors ==> c == TypeColors[t]
    ensures c == DefaultColor <==> t !in TypeColors
  {
    if t in TypeColors then TypeColors[t] else DefaultColor
  }

  /** `typeTranslations[type] || type`: the translation, or the raw name. */
  function DisplayType(t: string): (d: string)
    ensures t in TypeTranslations ==> d == TypeTranslations[t] && d != ""
    ensures t !in TypeTranslations ==> d == t
  {
    if t in TypeTranslations then TypeTranslations[t] else t
  }

  /**
   * The two tables list the same eighteen types, so every type offered in
   * the type menu has a colour of its own and every coloured type a
   * translation.
   */
  lemma TablesAgree()
    ensures TypeTranslations.Keys == TypeColors.Keys
    ensures forall t | t in TypeTranslations :: TypeColor(t) != DefaultColor
  {
  }

  // The two lookups as written: `colors[type] || "#ddd"` and
  // `typeTranslations[t] || t` index plain object literals, which also
  // answer for the names Object.prototype provides.

  /** A JavaScript value read from a `Record<string, string>` literal. */
  datatype JsValue = Str(s: string) | Inherited(member: string) | Undefined

  /** The names every object literal inherits from Object.prototype. */
  const ObjectPrototypeMembers: set<string> := {
    "constructor", "hasOwnProperty", "isPrototypeOf", "propertyIsEnumerable",
    "toLocaleString", "toString", "valueOf", "__proto__",
    "__defineGetter__", "__defineSetter__", "__lookupGetter__", "__lookupSetter__"}

  /** `table[key]` on an object literal. */
  function RecordGet(table: map<string, string>, key: string): JsValue {
    if key in table then Str(table[key])
    else if key in ObjectPrototypeMembers then Inherited(key)
    else Undefined
  }

  /** `v || fallback`: the empty string and `undefined` are falsy, functions and objects are not. */
  function JsOr(v: JsValue, fallback: string): JsValue {
    match v
    case Str(s) => if s == "" then Str(fallback) else v
    case Inherited(_) => v
    case Undefined => Str(fallback)
  }

  /** `getTypeColor` as written. */
  function TypeColorAsWritten(t: string): (v: JsValue)
    ensures !v.Undefined?
    ensures v.Inherited? <==> t in ObjectPrototypeMembers
  {
    JsOr(RecordGet(TypeColors, t), DefaultColor)
  }

  /** `typeTranslations[t] || t` as written. */
  function DisplayTypeAsWritten(t: string): (v: JsValue)
    ensures !v.Undefined?
    ensures v.Inherited? <==> t in ObjectPrototypeMembers
  {
    JsOr(RecordGet(TypeTranslations, t), t)
  }

  /** For the type "constructor" the colour is the Object function, not the default. */
  lemma ColorAsWrittenMissesDefault()
    ensures TypeColorAsWritten("constructor") == Inherited("constructor") != Str(DefaultColor)
  {
  }

  /** For the type "constructor" the label is the Object function, not the raw name. */
  lemma TranslationAsWrittenMissesFallback()
    ensures DisplayTypeAsWritten("constructor") == Inherited("constructor") != Str("constructor")
  {
  }

  /** Off the inherited names, the lookups as written agree with `TypeColor` and `DisplayType`. */
  lemma LookupsAsWrittenAgreeElsewhere(t: string)
    requires t !in ObjectPrototypeMembers
    ensures TypeColorAsWritten(t) == Str(TypeColor(t))
    ensures DisplayTypeAsWritten(t) == Str(DisplayType(t))
  {
  }

  // ---------------------------------------------------------------------
  // The Portuguese description

  /** One of the species' `flavor_text_entries`. */
  datatype FlavorTextEntry = FlavorTextEntry(flavorText: string, language: string)

  /** The language whose text is shown. */
  const DescriptionLanguage: string := "pt"

  /** The form feed character, `\f`. */
  const FormFeed: char := 12 as char

  /** `entries.find(entry => entry.language.name === lang)`. */
  function FindByLanguage(entries: seq<FlavorTextEntry>, lang: string): (r: Option<FlavorTextEntry>)
    ensures r.None? <==> forall e | e in entries :: e.language != lang
    ensures r.Some? ==> r.value in entries && r.value.language == lang
  {
    if entries == [] then None
    else if entries[0].language == lang then Some(entries[0])
    else FindByLanguage(entries[1..], lang)
  }

  /** `text.replace(/\f/g, " ")`. */
  function ReplaceFormFeeds(text: string): (r: string)
    ensures |r| == |text| && FormFeed !in r
    ensures forall i | 0 <= i < |text| :: r[i] == (if text[i] == FormFeed then ' ' else text[i])
  {
    if text == [] then []
    else [if text[0] == FormFeed then ' ' else text[0]] + ReplaceFormFeeds(text[1..])
  }

  /** `find(...)?.flavor_text.replace(/\f/g, " ") || ""`. */
  function Description(entries: seq<FlavorTextEntry>): (d: string)
    ensures FormFeed !in d
  {
    match FindByLanguage(entries, DescriptionLanguage)
    case Some(e) => ReplaceFormFeeds(e.flavorText)
    case None => ""
  }

  /** The description is the first Portuguese entry's text, form feeds turned into spaces. */
  lemma {:induction false} DescriptionIsFirstPortuguese(entries: seq<FlavorTextEntry>, k: nat)
    requires k < |entries| && entries[k].language == DescriptionLanguage
    requires forall j | 0 <= j < k :: entries[j].language != DescriptionLanguage
    ensures Description(entries) == ReplaceFormFeeds(entries[k].flavorText)
  {
    if k > 0 {
      DescriptionIsFirstPortuguese(entries[1..], k - 1);
    }
  }

  /** Without a Portuguese entry the description is empty. */
  lemma DescriptionWithoutPortuguese(entries: seq<FlavorTextEntry>)
    requires forall j | 0 <= j < |entries| :: entries[j].language != DescriptionLanguage
    ensures Description(entries) == ""
  {
    assert forall e | e in entries :: e.language != DescriptionLanguage;
  }

  // ---------------------------------------------------------------------
  // The detail modal and its reveal

  /** What `api.get("pokemon/<id>")` yields, in the API's units. */
  datatype PokemonRecord = PokemonRecord(
    id: int, name: string, types: seq<string>, image: string,
    height: int, weight: int, abilities: seq<string>)

  /** `PokemonDetails`, with height and weight kept in the API's units. */
  datatype PokemonDetails = PokemonDetails(
    id: int, name: string, types: seq<string>, image: string,
    height: int, weight: int, abilities: seq<string>, description: string)

  /** The `details` object built in `fetchPokemonDetails`. */
  function BuildDetails(pokemon: PokemonRecord, entries: seq<FlavorTextEntry>): (d: PokemonDetails)
    ensures d.id == pokemon.id && d.name == pokemon.name && d.types == pokemon.types
    ensures d.image == pokemon.image && d.abilities == pokemon.abilities
    ensures d.height == pokemon.height && d.weight == pokemon.weight
    ensures d.description == Description(entries) && FormFeed !in d.description
  {
    PokemonDetails(pokemon.id, pokemon.name, pokemon.types, pokemon.image,
                   pokemon.height, pokemon.weight, pokemon.abilities, Description(entries))
  }

  /** The catalog screen's `revealing`, `selectedPokemon` and `showModal` state. */
  class DetailView {
    var revealing: bool
    var selectedPokemon: Option<PokemonDetails>
    var showModal: bool
    /** Details whose 1000 ms reveal timer is set but has not fired. */
    var pendingReveals: seq<PokemonDetails>

    /** The suspense overlay shows only while a reveal is due; the modal only with details. */
    ghost predicate Valid()
      reads this
    {
      (revealing ==> pendingReveals != []) && (showModal ==> selectedPokemon.Some?)
    }

    constructor ()
      ensures Valid()
      ensures !revealing && selectedPokemon == None && !showModal && pendingReveals == []
    {
      revealing, selectedPokemon, showModal, pendingReveals := false, None, false, [];
    }

    /** The modal is rendered: `showModal && selectedPokemon`. */
    predicate ModalVisible()
      reads this
    {
      showModal && selectedPokemon.Some?
    }

    /** Under `Valid`, the `&& selectedPokemon` half of the modal's guard never decides. */
    lemma ModalGuardIsShowModal()
      requires Valid()
      ensures ModalVisible() <==> showModal
    {
    }

    /**
     * `fetchPokemonDetails(id)`, given what its two requests returned
     * (`None` for a failed one): on success the suspense starts and the
     * reveal timer is set; a failure is only logged.
     */
    method FetchPokemonDetails(pokemon: Option<PokemonRecord>, species: Option<seq<FlavorTextEntry>>)
      returns (ok: bool)
      requires Valid()
      modifies this
      ensures Valid()
      ensures ok == (pokemon.Some? && species.Some?)
      ensures ok ==> revealing && pendingReveals == old(pendingReveals) + [BuildDetails(pokemon.value, species.value)]
      ensures ok ==> selectedPokemon == old(selectedPokemon) && showModal == old(showModal)
      ensures !ok ==> unchanged(this)
    {
      ok := pokemon.Some? && species.Some?;
      if ok {
        revealing := true;
        pendingReveals := pendingReveals + [BuildDetails(pokemon.value, species.value)];
      }
    }

    /** The reveal timer of the i-th pending fetch fires. */
    method RevealTimerFires(i: nat)
      requires Valid() && i < |pendingReveals|
      modifies this
      ensures Valid() && ModalVisible()
      ensures selectedPokemon == Some(old(pendingReveals[i])) && showModal && !revealing
      ensures pendingReveals == old(pendingReveals[..i] + pendingReveals[i + 1..])
    {
      selectedPokemon := Some(pendingReveals[i]);
      showModal := true;
      revealing := false;
      pendingReveals := pendingReveals[..i] + pendingReveals[i + 1..];
    }

    /** A click on the backdrop or the close button. */
    method CloseModal()
      requires Valid()
      modifies this
      ensures Valid() && !ModalVisible()
      ensures !showModal
      ensures selectedPokemon == old(selectedPokemon) && revealing == old(revealing) && pendingReveals == old(pendingReveals)
    {
      showModal := false;
    }
  }
}
