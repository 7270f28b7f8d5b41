# Pokédex and "Who's that Pokémon?" — a verified model

This project models the two pieces of logic in a small React application
that browses the first 151 Pokémon and runs a ten-round guessing game.

- **Quiz** (`jogo.dfy`, module `Jogo`, from `src/pages/Jogo.tsx`). The
  component's state hooks (`round`, `score`, `selected`, `isLoading`,
  `correctPokemon`, `options`) are the fields of class `Jogo.Quiz`. What lies
  outside the component becomes an input or an explicit step:
  - every `Math.random()` value is a `real` in [0, 1) passed by the caller;
  - `api.get("pokemon/<id>")` is an opaque function from id to an optional
    option, where `None` is a rejected request;
  - the `[round]` effect that runs `generateRound` is `StartRound`, which is
    enabled when `round` differs from the value the effect last ran for
    (`effectRound`);
  - the 2000 ms timer is `FinishPreparing` and the 1500 ms timer is `Advance`.
    Several preparation timers can be pending at once, so they are kept in a
    list and any of them may fire.
  - The class invariant `Quiz.Valid` bounds the round to 1..11 and the score
    by the number of answered rounds. It also keeps the answer among the four
    options, and four distinct ids in 1..151 in every pending round.
- **Catalog** (`pokedex.dfy`, module `Pokedex`, from
  `src/components/Pokedex.tsx`):
  - the list filter, `getTypeColor`, the type translations and the choice of
    the Portuguese description are functions, with lemmas;
  - the reveal/modal sequence is class `Pokedex.DetailView` over `revealing`,
    `selectedPokemon` and `showModal`.
- `wrappers.dfy` holds the `Option` type, which stands for `T | null`.

Two behaviours of the code are easy to miss; the model follows the code:

- One might expect `score <= round - 1` to hold at every moment. It does
  not: between a correct answer and its advance timer, the score can equal
  the round. The invariant proved is `score <= round - 1`, plus one while an
  advance is pending. On the end screen this gives `score <= 10`.
- One might expect a failed fetch in `generateRound` to be reported to the
  caller. It is not caught: the round stays on the loading screen and
  nothing is scheduled (`StartRound` returns `FetchFailed`).

## Model

| member | source | states |
|---|---|---|
| `Jogo.ScaledFloor` | src/pages/Jogo.tsx:44 | `Math.floor(r * n)` for a random `r` in [0, 1) is an index in 0..n-1, so the picked answer is one of the fetched results |
| `Jogo.IdFromRoll` | src/pages/Jogo.tsx:28 | every drawn id `Math.floor(r * 151) + 1` lies in 1..151 |
| `Jogo.FirstDistinctFrom` | src/pages/Jogo.tsx:26-31 | continuing from a distinct prefix of at most 4 ids, the collected ids stay distinct, at most 4, and extend that prefix |
| `Jogo.FirstDistinct` | src/pages/Jogo.tsx:26-31 | the first (up to) four distinct drawn ids in order of first appearance, as `Set` insertion order and `Array.from` give them: distinct, at most 4 |
| `Jogo.FirstDistinctFromDrawn` | src/pages/Jogo.tsx:26-31 | every id the loop adds was drawn, and when it stops short of four ids every drawn id is among them |
| `Jogo.DrawIds` | src/pages/Jogo.tsx:26-31 | the draw loop yields exactly `FirstDistinct(draws)`: distinct ids in 1..151, each one drawn, at most 4; it has fewer than 4 only when every draw in the stream is already among them |
| `Jogo.FetchAll` | src/pages/Jogo.tsx:33-42 | `Promise.all` yields one result per id, in id order, exactly when every request succeeds |
| `Jogo.ShuffleArray` | src/pages/Jogo.tsx:55-57 | sorting in place with arbitrary comparator answers leaves a permutation of the array: same elements, same multiplicities |
| `Jogo.Quiz.constructor` | src/pages/Jogo.tsx:11-16 | initial state: round 1, score 0, nothing selected, not loading, no answer, no options |
| `Jogo.Quiz.StartRound` | src/pages/Jogo.tsx:18-47 | runs when `round` changed; clears `selected`, sets `isLoading`; the outcome is determined: `DrawsExhausted` iff the draws hold fewer than 4 distinct ids, `FetchFailed` iff they hold 4 and some fetch fails, otherwise a round is scheduled with ids `FirstDistinct(draws)`, results `FetchAll` of them, and answer `results[floor(pickRoll * 4)]`; round, score and shown options unchanged |
| `Jogo.Quiz.FinishPreparing` | src/pages/Jogo.tsx:48-52 | the timer sets `correctPokemon` to the round's answer and `options` to a permutation of its results, and clears `isLoading` |
| `Jogo.Quiz.HandleAnswer` | src/pages/Jogo.tsx:59-67 | sets `selected := name`; the score rises by exactly 1 iff `name` equals the answer's name exactly, and is otherwise unchanged; schedules the advance to `round + 1`; no further answer is possible |
| `Jogo.Quiz.ClickOption` | src/pages/Jogo.tsx:131-136 | a click on the k-th shown option is accepted iff the quiz is not over, not loading and nothing is selected yet; a rejected click changes nothing; an accepted one records the name, sets the advance timer to `round + 1`, scores a point exactly when the name is the answer's, and changes nothing else |
| `Jogo.Quiz.Advance` | src/pages/Jogo.tsx:64-66 | the advance timer increases `round` by exactly 1 and leaves `score` unchanged |
| `Jogo.Quiz.FinalScore` | src/pages/Jogo.tsx:69-73 | on the end screen (`round > 10`) the score shown is between 0 and 10 |
| `Jogo.Quiz.Restart` | src/pages/Jogo.tsx:74-77 | only on the end screen: sets `round` to 1 and `score` to 0, and the round effect will run again |
| `Jogo.ClickAsWritten` | src/pages/Jogo.tsx:136 | a click gated by the buttons as written changes nothing when they are disabled; otherwise it records the name, and it scores a point exactly when the buttons are enabled and the name is the answer's; the loading flag and the answer are never changed |
| `Jogo.ButtonsDisabledAsWritten` | src/pages/Jogo.tsx:136 | `!!selected \|\| isLoading` differs from "something selected or loading" exactly when the selected name is "" and the round is not loading |
| `Jogo.EmptyNameScoresTwice` | src/pages/Jogo.tsx:136 | as written, an answer named "" leaves the buttons enabled, so one round can score 2 |
| `Pokedex.LowerChar` | src/components/Pokedex.tsx:64 | `toLowerCase` on one character: the result is never an upper-case ASCII letter; A-Z map to a-z, anything else is unchanged |
| `Pokedex.Lower` | src/components/Pokedex.tsx:64 | `toLowerCase` keeps the length, turns each of A-Z into its own letter in a-z, and keeps every other character |
| `Pokedex.Includes` | src/components/Pokedex.tsx:64 | `includes` holds for the empty needle and only for needles no longer than the text; exact meaning in `IncludesIsOccurrence` |
| `Pokedex.IncludesIsOccurrence` | src/components/Pokedex.tsx:64 | `includes` is true exactly when the needle occurs as a substring, the empty needle included |
| `Pokedex.FilterPokemons` | src/components/Pokedex.tsx:63-67 | `pokemons.filter(...)` is never longer than the roster; which entries it keeps, and in what order, is in the three lemmas below |
| `Pokedex.FilterIsSubsequence` | src/components/Pokedex.tsx:63-67 | the filtered list is a subsequence of `pokemons`: nothing added, original order kept |
| `Pokedex.FilterMembership` | src/components/Pokedex.tsx:63-67 | an entry is shown iff it is in the roster, its lower-cased name contains the lower-cased search, and a non-empty type filter is among its types (soundness and completeness) |
| `Pokedex.FilterWithoutCriteria` | src/components/Pokedex.tsx:64-65 | with an empty search and no type filter, the whole roster is returned unchanged |
| `Pokedex.TypeColor` | src/components/Pokedex.tsx:90-113 | the table's colour for the 18 listed types; `"#ddd"` exactly for every other string |
| `Pokedex.DisplayType` | src/components/Pokedex.tsx:323 | a type with a translation shows a non-empty Portuguese name; any other falls back to its raw name |
| `Pokedex.TablesAgree` | src/components/Pokedex.tsx:69-110 | the translation table and the colour table list the same types, so every type in the type menu has a non-default colour |
| `Pokedex.TypeColorAsWritten` | src/components/Pokedex.tsx:112 | `colors[type] \|\| "#ddd"` as written is never `undefined`, and is an inherited member exactly for the Object.prototype names |
| `Pokedex.DisplayTypeAsWritten` | src/components/Pokedex.tsx:407 | `typeTranslations[t] \|\| t` as written is never `undefined`, and is an inherited member exactly for the Object.prototype names |
| `Pokedex.ColorAsWrittenMissesDefault` | src/components/Pokedex.tsx:112 | as written, `getTypeColor("constructor")` gives the inherited Object function, not `"#ddd"` |
| `Pokedex.TranslationAsWrittenMissesFallback` | src/components/Pokedex.tsx:407 | as written, the label of type "constructor" is the inherited Object function, not the raw name |
| `Pokedex.LookupsAsWrittenAgreeElsewhere` | src/components/Pokedex.tsx:112 | for every name not inherited from Object.prototype, both lookups as written agree with `TypeColor` and `DisplayType` |
| `Pokedex.FindByLanguage` | src/components/Pokedex.tsx:129-130 | `find` returns an entry of the given language from the list, and nothing only when no entry has that language |
| `Pokedex.ReplaceFormFeeds` | src/components/Pokedex.tsx:131 | every form feed becomes a space, every other character stays, the length is kept; no form feed remains |
| `Pokedex.Description` | src/components/Pokedex.tsx:128-131 | the description never contains a form feed |
| `Pokedex.DescriptionIsFirstPortuguese` | src/components/Pokedex.tsx:128-131 | the description is the text of the first `"pt"` entry, with form feeds replaced by spaces |
| `Pokedex.DescriptionWithoutPortuguese` | src/components/Pokedex.tsx:128-131 | without a `"pt"` entry the description is `""` |
| `Pokedex.BuildDetails` | src/components/Pokedex.tsx:120-132 | the details copy id, name, types, image and abilities from the fetched record, keep height and weight in the API's units (see Left out), and the description is `Description` of the species entries, free of form feeds |
| `Pokedex.DetailView.constructor` | src/components/Pokedex.tsx:32-34 | no details selected, no modal, no suspense overlay |
| `Pokedex.DetailView.FetchPokemonDetails` | src/components/Pokedex.tsx:115-145 | when both requests succeed, `revealing` is set and a reveal of the built details is scheduled; a failed request changes nothing |
| `Pokedex.DetailView.RevealTimerFires` | src/components/Pokedex.tsx:137-141 | the reveal timer sets `selectedPokemon` to the details, sets `showModal` and clears `revealing` |
| `Pokedex.DetailView.ModalGuardIsShowModal` | src/components/Pokedex.tsx:371 | while the view is consistent, the modal shows exactly when `showModal` is set: the `&& selectedPokemon` half of the guard never decides |
| `Pokedex.DetailView.CloseModal` | src/components/Pokedex.tsx:373 | closing clears `showModal` only; `selectedPokemon` and the reveal state are unchanged |

## Findings

| source | as written | input that shows it | evidently intended | confidence | as-written member | corrected member |
|---|---|---|---|---|---|---|
| src/pages/Jogo.tsx:136 | the buttons are disabled when `!!selected`, and an empty selected name is falsy | the answer's name is "": clicking it twice scores 2 points in one round | a selection of any name disables the buttons, so one answer per round | not executed; needs an empty name, which the catalog API does not serve | `Jogo.EmptyNameScoresTwice` | `Jogo.Quiz.ClickOption` |
| src/components/Pokedex.tsx:112 | `colors[type]` reads a plain object literal, which also has the members inherited from Object.prototype | type "constructor" yields the Object function, which is truthy, instead of `"#ddd"` | `"#ddd"` for every type not in the table | not executed; follows from JavaScript property lookup; the API's type names never hit it | `Pokedex.ColorAsWrittenMissesDefault` | `Pokedex.TypeColor` |
| src/components/Pokedex.tsx:407 | `typeTranslations[t]` has the same inherited members | type "constructor" is labelled with the Object function instead of "constructor" | the raw name for every type without a translation | not executed; follows from JavaScript property lookup; the API's type names never hit it | `Pokedex.TranslationAsWrittenMissesFallback` | `Pokedex.DisplayType` |

## Left out

- Network access: the roster load (src/components/Pokedex.tsx:36-61) is not modelled, and every other request is an input value. `Promise.all`'s concurrency is reduced to its all-or-nothing result.
- Logging of errors to the console (src/components/Pokedex.tsx:55-57, 142-144): it has no observable effect. A failed detail fetch leaves the state unchanged.
- Audio playback (src/pages/Jogo.tsx:46, src/components/Pokedex.tsx:134): fire-and-forget side effects.
- Timer durations (2000, 1500 and 1000 ms): only the order of the state changes is modelled, as step methods.
- Jogo.ShuffleArray: how evenly the random comparator spreads the permutations is not modelled, nor which algorithm the JavaScript engine's `sort` uses. The model's insertion-style swap sort only shows that any answers yield a permutation.
- Jogo.DrawIds: the random stream is finite. When it ends before four distinct ids have appeared, the model reports the loop as unfinished. The source loops on, and ends with probability 1.
- Jogo.Quiz.ClickOption: clicks are only accepted after the `[round]` effect of the current render has run. React flushes that effect before the next click; the model does not show this.
- The candidates are distinct by requested id. The ids and names that the fetches return are opaque and may repeat.
- Pokedex.BuildDetails: leaves out the height and weight `/ 10` (src/components/Pokedex.tsx:125-126): floating-point division for display. `PokemonDetails` keeps the API's integer units.
- `toLowerCase` covers the ASCII letters only; Unicode case mapping is not modelled.
- JSX and styling are not modelled, nor the `window.location` navigation. The type-menu toggle (`showTypeMenu`) is left out too. The `setSearch` and `setTypeFilter` handlers only store a value, which the filter takes as a parameter.
- The list's card colour `getTypeColor(pokemon.types[0])` for a Pokémon without types is not modelled.
- src/App.tsx: router configuration only.
