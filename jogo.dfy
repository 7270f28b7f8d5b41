/**
 * The "Who's that Pokémon?" quiz screen (src/pages/Jogo.tsx).
 *
 * Ten rounds; each round draws four distinct Pokédex ids from 1..151,
 * fetches them, hides one of them as the answer and shows the four names
 * in a shuffled order. One answer is accepted per round; a correct one
 * scores a point. After round 10 the end screen offers a restart.
 *
 * The component's state hooks become the fields of class `Quiz`. What
 * happens outside the component becomes an explicit input or step:
 *   - every `Math.random()` value is a `real` in [0, 1) given by the caller;
 *   - each `api.get` is an opaque function from id to an optional option
 *     (`None` is a rejected request);
 *   - each `setTimeout` callback is a step method the environment fires;
 *   - the `[round]` effect is `StartRound`, enabled when `round` differs
 *     from the value the effect last ran for.
 */
module Jogo {
  import opened Wrappers

  /** Ids are drawn from 1..PoolSize. */
  const PoolSize: nat := 151
  /** Candidates per round. */
  const RoundSize: nat := 4
  /** The end screen is shown once `round` exceeds this. */
  const TotalRounds: nat := 10

  /** One candidate: the `{ id, name, image }` a fetch yields. */
  datatype PokemonOption = PokemonOption(id: int, name: string, image: string)

  /** `Math.random()` values: each in [0, 1). */
  predicate ValidRolls(rolls: seq<real>) {
    forall k | 0 <= k < |rolls| :: 0.0 <= rolls[k] < 1.0
  }

  /** `Math.floor(roll * n)`: a uniformly drawn index below `n`. */
  function ScaledFloor(roll: real, n: nat): (k: int)
    requires 0.0 <= roll < 1.0 && n > 0
    ensures 0 <= k < n
  {
    assert roll * (n as real) < n as real by {
      assert (1.0 - roll) * (n as real) > 0.0;
    }
    (roll * n as real).Floor
  }

  /** `Math.floor(Math.random() * 151) + 1`: one drawn Pokédex id. */
  function IdFromRoll(roll: real): (id: int)
    requires 0.0 <= roll < 1.0
    ensures 1 <= id <= PoolSize
  {
    ScaledFloor(roll, PoolSize) + 1
  }

  predicate Distinct(s: seq<int>) {
    forall i, j | 0 <= i < j < |s| :: s[i] != s[j]
  }

  /**
   * The ids the draw loop collects, continuing from `acc`: each draw's id is
   * added when it is new, until four are held or the draws run out.
   */
  function FirstDistinctFrom(draws: seq<real>, acc: seq<int>): (r: seq<int>)
    requires ValidRolls(draws) && |acc| <= RoundSize && Distinct(acc)
    ensures |r| <= RoundSize && Distinct(r) && acc <= r
    decreases |draws|
  {
    if |acc| == RoundSize || draws == [] then acc
    else
      var id := IdFromRoll(draws[0]);
      FirstDistinctFrom(draws[1..], if id in acc then acc else acc + [id])
  }

  /**
   * What `FirstDistinctFrom` adds to `acc` was drawn, and when it stops short
   * of four ids every draw's id is among them.
   */
  lemma {:induction false} FirstDistinctFromDrawn(draws: seq<real>, acc: seq<int>)
    requires ValidRolls(draws) && |acc| <= RoundSize && Distinct(acc)
    ensures forall id | id in FirstDistinctFrom(draws, acc) ::
              id in acc || exists k | 0 <= k < |draws| :: IdFromRoll(draws[k]) == id
    ensures |FirstDistinctFrom(draws, acc)| < RoundSize ==>
              forall k | 0 <= k < |draws| :: IdFromRoll(draws[k]) in FirstDistinctFrom(draws, acc)
    decreases |draws|
  {
    if |acc| == RoundSize || draws == [] {
    } else {
      var id := IdFromRoll(draws[0]);
      var next := if id in acc then acc else acc + [id];
      var rest := draws[1..];
      var r := FirstDistinctFrom(rest, next);
      assert r == FirstDistinctFrom(draws, acc);
      FirstDistinctFromDrawn(rest, next);
      forall x | x in r
        ensures x in acc || exists k | 0 <= k < |draws| :: IdFromRoll(draws[k]) == x
      {
        if x !in next {
          var j :| 0 <= j < |rest| && IdFromRoll(rest[j]) == x;
          assert draws[j + 1] == rest[j];
        } else if x !in acc {
          assert IdFromRoll(draws[0]) == x;
        }
      }
      if |r| < RoundSize {
        forall k | 0 <= k < |draws|
          ensures IdFromRoll(draws[k]) in r
        {
          if k == 0 {
            assert id in next && next <= r;
          } else {
            assert draws[k] == rest[k - 1];
          }
        }
      }
    }
  }

  /** The first (up to) four distinct drawn ids, in the order they first appear. */
  function FirstDistinct(draws: seq<real>): (r: seq<int>)
    requires ValidRolls(draws)
    ensures |r| <= RoundSize && Distinct(r)
  {
    FirstDistinctFrom(draws, [])
  }

  /**
   * The id-draw loop `while (ids.size < 4) ids.add(...)`, with the set kept
   * in insertion order as a JavaScript `Set` is. The random stream is the
   * finite sequence `draws`; when it runs out before four distinct ids have
   * appeared the loop has not finished yet, and fewer than four come back.
   */
  method DrawIds(draws: seq<real>) returns (ids: seq<int>)
    requires ValidRolls(draws)
    ensures |ids| <= RoundSize && Distinct(ids)
    ensures forall id | id in ids :: 1 <= id <= PoolSize
    ensures forall id | id in ids :: exists k | 0 <= k < |draws| :: IdFromRoll(draws[k]) == id
    ensures |ids| < RoundSize ==> forall k | 0 <= k < |draws| :: IdFromRoll(draws[k]) in ids
    ensures ids == FirstDistinct(draws)
  {
    ids := [];
    var k := 0;
    while |ids| < RoundSize && k < |draws|
      invariant 0 <= k <= |draws|
      invariant |ids| <= RoundSize && Distinct(ids)
      invariant FirstDistinctFrom(draws[k..], ids) == FirstDistinct(draws)
    {
      var id := IdFromRoll(draws[k]);
      assert draws[k..][0] == draws[k] && draws[k..][1..] == draws[k + 1..];
      if id !in ids {
        ids := ids + [id];
      }
      k := k + 1;
    }
    FirstDistinctFromDrawn(draws, []);
  }

  /**
   * `Promise.all(idArray.map(fetch))`: the results in id order when every
   * request succeeds, and a rejection when any one of them fails.
   */
  function FetchAll(ids: seq<int>, fetch: int -> Option<PokemonOption>): (r: Option<seq<PokemonOption>>)
    ensures r.Some? <==> forall k | 0 <= k < |ids| :: fetch(ids[k]).Some?
    ensures r.Some? ==> |r.value| == |ids| && forall k | 0 <= k < |ids| :: r.value[k] == fetch(ids[k]).value
  {
    if ids == [] then Some([])
    else match (fetch(ids[0]), FetchAll(ids[1..], fetch))
      case (Some(first), Some(rest)) => Some([first] + rest)
      case _ => None
  }

  /**
   * `shuffleArray`: `arr.sort(() => Math.random() - 0.5)`, sorting in place
   * with a comparator whose answers are random. The k-th answer is
   * `before(k)` ("the later element goes first"). Whatever the answers, the
   * array ends up a permutation of what it held.
   */
  method ShuffleArray(a: array<PokemonOption>, before: nat -> bool)
    modifies a
    ensures multiset(a[..]) == multiset(old(a[..]))
  {
    var asked: nat := 0;
    var i := 1;
    while i < a.Length
      invariant multiset(a[..]) == multiset(old(a[..]))
    {
      var j := i;
      while 0 < j
        invariant j <= i < a.Length
        invariant multiset(a[..]) == multiset(old(a[..]))
      {
        var swap := before(asked);
        asked := asked + 1;
        if !swap {
          break;
        }
        a[j - 1], a[j] := a[j], a[j - 1];
        j := j - 1;
      }
      i := i + 1;
    }
  }

  /** A round whose data is fetched and whose 2000 ms reveal timer is pending. */
  datatype Prepared = Prepared(ids: seq<int>, results: seq<PokemonOption>, correct: PokemonOption)

  /** Four distinct ids in range, one fetched result each, the answer among them. */
  ghost predicate WellPrepared(p: Prepared) {
    && |p.ids| == RoundSize && Distinct(p.ids)
    && (forall id | id in p.ids :: 1 <= id <= PoolSize)
    && |p.results| == RoundSize
    && p.correct in p.results
  }

  /** How a `generateRound` call ended. */
  datatype RoundStatus =
    | Scheduled(round: Prepared)   // the 2000 ms timer is set
    | DrawsExhausted               // the id-draw loop is still looking for ids
    | FetchFailed                  // `Promise.all` rejected; nothing catches it

  class Quiz {
    var round: int
    var score: int
    var selected: Option<string>
    var isLoading: bool
    var correctPokemon: Option<PokemonOption>
    var options: seq<PokemonOption>
    /** The value of `round` the `[round]` effect last ran for; 0 before mount. */
    var effectRound: int
    /** Rounds whose 2000 ms preparation timer is set but has not fired. */
    var preparing: seq<Prepared>
    /** The value the pending 1500 ms timer will give `round` (captured `round + 1`). */
    var advanceTo: Option<int>

    /**
     * The state machine's invariant. Each accepted answer sets the advance
     * timer and each advance adds one to `round`, so the points scored are
     * bounded by the rounds answered: `round - 1`, plus one while the
     * answer of the current round is waiting for its advance.
     */
    ghost predicate Valid()
      reads this
    {
      && 1 <= round <= TotalRounds + 1
      && 0 <= score <= round - 1 + (if advanceTo.Some? then 1 else 0)
      && (advanceTo.Some? ==>
            advanceTo.value == round + 1 && round <= TotalRounds
            && selected.Some? && effectRound == round)
      && (round > TotalRounds ==> effectRound >= TotalRounds)
      && (forall p | p in preparing :: WellPrepared(p))
      && (correctPokemon.None? ==> options == [])
      && (correctPokemon.Some? ==> |options| == RoundSize && correctPokemon.value in options)
    }

    /** The initial `useState` values, before the mount effect has run. */
    constructor ()
      ensures Valid()
      ensures round == 1 && score == 0 && selected == None && !isLoading
      ensures correctPokemon == None && options == []
      ensures effectRound == 0 && preparing == [] && advanceTo == None
    {
      round, score, selected, isLoading := 1, 0, None, false;
      correctPokemon, options := None, [];
      effectRound, preparing, advanceTo := 0, [], None;
    }

    /** `round > 10`: the end screen is shown instead of the question. */
    predicate GameOver()
      reads this
    {
      round > TotalRounds
    }

    /**
     * The option buttons are rendered and enabled: not on the end screen,
     * not loading, nothing selected yet, and the effect of the current
     * render has run (React flushes it before the next click).
     */
    predicate Answerable()
      reads this
    {
      round <= TotalRounds && effectRound == round && selected.None? && !isLoading
    }

    /**
     * `generateRound`, run by the `[round]` effect: clear the selection,
     * show the loading screen, draw four ids, fetch them, pick the answer
     * with `pickRoll`, and set the 2000 ms timer.
     */
    method StartRound(draws: seq<real>, fetch: int -> Option<PokemonOption>, pickRoll: real)
      returns (status: RoundStatus)
      requires Valid() && effectRound != round
      requires ValidRolls(draws) && 0.0 <= pickRoll < 1.0
      modifies this
      ensures Valid()
      ensures selected == None && isLoading && effectRound == round
      ensures round == old(round) && score == old(score) && advanceTo == old(advanceTo)
      ensures correctPokemon == old(correctPokemon) && options == old(options)
      ensures preparing == old(preparing) + (if status.Scheduled? then [status.round] else [])
      ensures status.DrawsExhausted? <==> |FirstDistinct(draws)| < RoundSize
      ensures status.FetchFailed? <==>
                |FirstDistinct(draws)| == RoundSize && FetchAll(FirstDistinct(draws), fetch).None?
      ensures status.Scheduled? ==>
                && WellPrepared(status.round)
                && status.round.ids == FirstDistinct(draws)
                && FetchAll(status.round.ids, fetch) == Some(status.round.results)
                && status.round.correct == status.round.results[ScaledFloor(pickRoll, RoundSize)]
    {
      selected := None;
      isLoading := true;
      effectRound := round;
      var ids := DrawIds(draws);
      if |ids| < RoundSize {
        return DrawsExhausted;
      }
      var fetched := FetchAll(ids, fetch);
      if fetched.None? {
        return FetchFailed;
      }
      var results := fetched.value;
      var correct := results[ScaledFloor(pickRoll, |results|)];
      var p := Prepared(ids, results, correct);
      preparing := preparing + [p];
      status := Scheduled(p);
    }

    /**
     * The 2000 ms timer of a prepared round fires: the answer is set, the
     * options become the shuffled results and the loading screen goes.
     */
    method FinishPreparing(i: nat, before: nat -> bool)
      requires Valid() && i < |preparing|
      modifies this
      ensures Valid()
      ensures correctPokemon == Some(old(preparing[i]).correct)
      ensures multiset(options) == multiset(old(preparing[i]).results)
      ensures !isLoading
      ensures preparing == old(preparing[..i] + preparing[i + 1..])
      ensures round == old(round) && score == old(score) && selected == old(selected)
      ensures effectRound == old(effectRound) && advanceTo == old(advanceTo)
    {
      var p := preparing[i];
      var a := new PokemonOption[|p.results|](k requires 0 <= k < |p.results| => p.results[k]);
      assert a[..] == p.results;
      ShuffleArray(a, before);
      assert p in preparing && WellPrepared(p);
      assert p.correct in multiset(p.results);
      assert p.correct in multiset(a[..]);
      correctPokemon := Some(p.correct);
      options := a[..];
      isLoading := false;
      preparing := preparing[..i] + preparing[i + 1..];
    }

    /**
     * `handleAnswer(name)`, reached only through an enabled option button:
     * record the choice, score it by exact string equality, and set the
     * 1500 ms advance timer.
     */
    method HandleAnswer(name: string)
      requires Valid() && Answerable()
      modifies this
      ensures Valid() && !Answerable()
      ensures selected == Some(name)
      ensures score == old(score) + 1 <==> old(correctPokemon).Some? && name == old(correctPokemon).value.name
      ensures score == old(score) || score == old(score) + 1
      ensures advanceTo == Some(old(round) + 1)
      ensures round == old(round) && isLoading == old(isLoading) && effectRound == old(effectRound)
      ensures correctPokemon == old(correctPokemon) && options == old(options) && preparing == old(preparing)
    {
      selected := Some(name);
      if correctPokemon.Some? && name == correctPokemon.value.name {
        score := score + 1;
      }
      advanceTo := Some(round + 1);
    }

    /** A click on the k-th option button: accepted only when it is enabled. */
    method ClickOption(k: nat) returns (accepted: bool)
      requires Valid()
      modifies this
      ensures Valid()
      ensures accepted == (old(Answerable()) && k < |old(options)|)
      ensures old(GameOver()) || old(selected).Some? || old(isLoading) ==> !accepted
      ensures accepted ==> selected == Some(old(options)[k].name) && !Answerable()
      ensures accepted ==> advanceTo == Some(old(round) + 1)
      ensures accepted ==> (score == old(score) + 1 <==> old(options)[k].name == old(correctPokemon).value.name)
      ensures score == old(score) || (accepted && score == old(score) + 1)
      ensures accepted ==> round == old(round) && isLoading == old(isLoading) && effectRound == old(effectRound)
      ensures accepted ==> correctPokemon == old(correctPokemon) && options == old(options) && preparing == old(preparing)
      ensures !accepted ==> unchanged(this)
    {
      accepted := Answerable() && k < |options|;
      if accepted {
        HandleAnswer(options[k].name);
      }
    }

    /** The 1500 ms timer fires: `setRound(round + 1)` with the captured round. */
    method Advance()
      requires Valid() && advanceTo.Some?
      modifies this
      ensures Valid()
      ensures round == old(round) + 1 && score == old(score) && advanceTo == None
      ensures selected == old(selected) && isLoading == old(isLoading) && effectRound == old(effectRound)
      ensures correctPokemon == old(correctPokemon) && options == old(options) && preparing == old(preparing)
    {
      round := advanceTo.value;
      advanceTo := None;
    }

    /** The score on the end screen, shown as "score / 10". */
    function FinalScore(): (s: int)
      reads this
      requires Valid() && GameOver()
      ensures 0 <= s <= TotalRounds
    {
      score
    }

    /** "Jogar novamente": only on the end screen; back to round 1 with no points. */
    method Restart() returns (accepted: bool)
      requires Valid()
      modifies this
      ensures Valid()
      ensures accepted == old(GameOver())
      ensures accepted ==> round == 1 && score == 0 && effectRound == old(effectRound) && effectRound != round
      ensures selected == old(selected) && isLoading == old(isLoading) && advanceTo == old(advanceTo)
      ensures correctPokemon == old(correctPokemon) && options == old(options) && preparing == old(preparing)
      ensures !accepted ==> unchanged(this)
    {
      accepted := GameOver();
      if accepted {
        round, score := 1, 0;
      }
    }
  }

  // The answer buttons as written: `disabled={!!selected || isLoading}`.

  /** JavaScript truthiness makes a selected empty name count as no selection. */
  function ButtonsDisabledAsWritten(selected: Option<string>, isLoading: bool): (r: bool)
    ensures r != (selected.Some? || isLoading) <==> selected == Some("") && !isLoading
  {
    (selected.Some? && selected.value != "") || isLoading
  }

  /** What the answer buttons read and write, as written. */
  datatype Screen = Screen(selected: Option<string>, isLoading: bool, score: int, correctName: Option<string>)

  /** A click on an option named `name`, gated by the buttons as written. */
  function ClickAsWritten(s: Screen, name: string): (t: Screen)
    ensures t.score == s.score || t.score == s.score + 1
    ensures ButtonsDisabledAsWritten(s.selected, s.isLoading) ==> t == s
    ensures !ButtonsDisabledAsWritten(s.selected, s.isLoading) ==> t.selected == Some(name)
    ensures t.isLoading == s.isLoading && t.correctName == s.correctName
    ensures t.score == s.score + 1 <==>
              !ButtonsDisabledAsWritten(s.selected, s.isLoading) && s.correctName == Some(name)
  {
    if ButtonsDisabledAsWritten(s.selected, s.isLoading) then s
    else s.(selected := Some(name), score := s.score + (if s.correctName == Some(name) then 1 else 0))
  }

  /** With an answer named "", the buttons stay enabled and one round scores twice. */
  lemma EmptyNameScoresTwice()
    ensures var s := Screen(None, false, 0, Some(""));
            ClickAsWritten(ClickAsWritten(s, ""), "").score == 2
  {
  }
}
