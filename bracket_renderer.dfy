/**
 * `renderNativeBracket` without the DOM: matches are grouped by round
 * (a missing or zero round counts as round 1), the groups are emitted in
 * ascending round order with their matches in input order, and each match
 * becomes a card with two labels ("TBD" when there is no name) and the
 * winner, opponent 1 taking precedence.
 */
module BracketRenderer {
  import opened Wrappers
  import BracketGenerator

  /** An `opponent1`/`opponent2` object as the renderer reads it. */
  datatype ViewOpponent = ViewOpponent(name: Option<string>, result: Option<string>)

  /** A match object; `round` is `None` when missing. */
  datatype ViewMatch = ViewMatch(round: Option<int>, opponent1: Option<ViewOpponent>, opponent2: Option<ViewOpponent>)

  /** `data.matches`: missing or falsy, a truthy value that is not an array, or an array. */
  datatype MatchesField = Absent | NotAnArray | Items(items: seq<ViewMatch>)

  /** One `bracket-match` div: the two labels, the winner line and the `winner` class. */
  datatype MatchCard = MatchCard(p1: string, p2: string, winner: Option<string>, winnerClass: bool)

  /** One `bracket-round` div. */
  datatype RoundColumn = RoundColumn(round: int, cards: seq<MatchCard>)

  /** What the container ends up holding: the error line, or the round columns in order. */
  datatype Rendering = InvalidData | Columns(columns: seq<RoundColumn>)

  const Tbd := "TBD"

  /** `match.round || 1`. */
  function RoundKey(m: ViewMatch): int {
    if m.round.None? || m.round.value == 0 then 1 else m.round.value
  }

  /** `match.opponentN?.name || "TBD"`. */
  function Label(o: Option<ViewOpponent>): string {
    if o.Some? && o.value.name.Some? && o.value.name.value != "" then o.value.name.value else Tbd
  }

  /** `match.opponentN?.result === "win"`. */
  predicate Won(o: Option<ViewOpponent>) {
    o.Some? && o.value.result == Some("win")
  }

  /** The `winner` expression: opponent 1's label if it won, else opponent 2's if it won, else null. */
  function WinnerOf(m: ViewMatch): Option<string> {
    if Won(m.opponent1) then Some(Label(m.opponent1))
    else if Won(m.opponent2) then Some(Label(m.opponent2))
    else None
  }

  function Card(m: ViewMatch): MatchCard {
    var w := WinnerOf(m);
    MatchCard(Label(m.opponent1), Label(m.opponent2), w, w.Some? && w.value != "")
  }

  /** A label is never empty, so the `winner` class is set exactly when some opponent won. */
  lemma WinnerClassIffWon(m: ViewMatch)
    ensures Card(m).winnerClass <==> Won(m.opponent1) || Won(m.opponent2)
    ensures Won(m.opponent1) ==> Card(m).winner == Some(Card(m).p1)
    ensures !Won(m.opponent1) && Won(m.opponent2) ==> Card(m).winner == Some(Card(m).p2)
  {
  }

  function Cards(ms: seq<ViewMatch>): seq<MatchCard>
  {
    seq(|ms|, i requires 0 <= i < |ms| => Card(ms[i]))
  }

  /** `rounds[k]` after the `forEach`: the matches of round `k`, in input order. */
  function InRound(ms: seq<ViewMatch>, k: int): seq<ViewMatch>
  {
    if |ms| == 0 then []
    else InRound(ms[..|ms| - 1], k) + (if RoundKey(ms[|ms| - 1]) == k then [ms[|ms| - 1]] else [])
  }

  /** The keys of `rounds` after the `forEach`. */
  function RoundKeys(ms: seq<ViewMatch>): set<int>
  {
    if |ms| == 0 then {} else RoundKeys(ms[..|ms| - 1]) + {RoundKey(ms[|ms| - 1])}
  }

  /**
   * Every occurrence of a match lands in the group of its own round and in
   * no other group.
   */
  lemma {:induction false} InRoundCounts(ms: seq<ViewMatch>, k: int, m: ViewMatch)
    ensures multiset(InRound(ms, k))[m] == if RoundKey(m) == k then multiset(ms)[m] else 0
  {
    if |ms| > 0 {
      InRoundCounts(ms[..|ms| - 1], k, m);
      assert ms == ms[..|ms| - 1] + [ms[|ms| - 1]];
    }
  }

  /** A round has a group exactly when some match is in it. */
  lemma {:induction false} RoundKeysExact(ms: seq<ViewMatch>, k: int)
    ensures k in RoundKeys(ms) <==> InRound(ms, k) != []
    ensures k in RoundKeys(ms) <==> exists i :: 0 <= i < |ms| && RoundKey(ms[i]) == k
  {
    if |ms| > 0 {
      var init := ms[..|ms| - 1];
      RoundKeysExact(init, k);
      if k in RoundKeys(init) {
        var i :| 0 <= i < |init| && RoundKey(init[i]) == k;
        assert ms[i] == init[i];
      }
      if exists i :: 0 <= i < |ms| && RoundKey(ms[i]) == k {
        var i :| 0 <= i < |ms| && RoundKey(ms[i]) == k;
        if i < |init| {
          assert init[i] == ms[i];
        }
      }
    }
  }

  predicate StrictlyIncreasing(s: seq<int>) {
    forall i, j :: 0 <= i < j < |s| ==> s[i] < s[j]
  }

  function InsertAscending(x: int, s: seq<int>): seq<int>
  {
    if |s| == 0 || x <= s[0] then [x] + s else [s[0]] + InsertAscending(x, s[1..])
  }

  /** The numeric `sort((a, b) => a[0] - b[0])` of the round keys. */
  function SortAscending(s: seq<int>): seq<int>
  {
    if |s| == 0 then [] else InsertAscending(s[0], SortAscending(s[1..]))
  }

  lemma {:induction false} InsertAscendingFacts(x: int, s: seq<int>)
    requires StrictlyIncreasing(s) && x !in s
    ensures StrictlyIncreasing(InsertAscending(x, s))
    ensures |InsertAscending(x, s)| == |s| + 1
    ensures forall y :: y in InsertAscending(x, s) <==> y == x || y in s
  {
    if |s| > 0 && x > s[0] {
      var tail := InsertAscending(x, s[1..]);
      InsertAscendingFacts(x, s[1..]);
      assert s == [s[0]] + s[1..];
      forall j | 0 <= j < |tail|
        ensures s[0] < tail[j]
      {
        assert tail[j] in tail;
      }
    }
  }

  /** Sorting distinct keys lists each of them once, in strictly ascending order. */
  lemma {:induction false} SortAscendingFacts(s: seq<int>)
    requires forall i, j :: 0 <= i < j < |s| ==> s[i] != s[j]
    ensures StrictlyIncreasing(SortAscending(s))
    ensures |SortAscending(s)| == |s|
    ensures forall y :: y in SortAscending(s) <==> y in s
  {
    if |s| > 0 {
      SortAscendingFacts(s[1..]);
      assert s == [s[0]] + s[1..];
      assert s[0] !in s[1..];
      InsertAscendingFacts(s[0], SortAscending(s[1..]));
    }
  }

  /**
   * Groups the matches into `rounds` (the `forEach`), with `order` the
   * order in which the keys were first created.
   */
  method GroupByRound(ms: seq<ViewMatch>) returns (rounds: map<int, seq<ViewMatch>>, order: seq<int>)
    ensures rounds.Keys == RoundKeys(ms)
    ensures forall k :: k in rounds ==> rounds[k] == InRound(ms, k)
    ensures forall k :: k in order <==> k in rounds
    ensures forall i, j :: 0 <= i < j < |order| ==> order[i] != order[j]
  {
    rounds, order := map[], [];
    for i := 0 to |ms|
      invariant rounds.Keys == RoundKeys(ms[..i])
      invariant forall k :: k in rounds ==> rounds[k] == InRound(ms[..i], k)
      invariant forall k :: k in order <==> k in rounds
      invariant forall a, b :: 0 <= a < b < |order| ==> order[a] != order[b]
    {
      assert ms[..i + 1][..i] == ms[..i];
      var round := RoundKey(ms[i]);
      if round !in rounds {
        RoundKeysExact(ms[..i], round);
        rounds := rounds[round := []];
        order := order + [round];
      }
      rounds := rounds[round := rounds[round] + [ms[i]]];
    }
    assert ms[..|ms|] == ms;
  }

  /** The inner `forEach` that renders one card per match of a round. */
  method RenderCards(group: seq<ViewMatch>) returns (cards: seq<MatchCard>)
    ensures cards == Cards(group)
  {
    cards := [];
    for t := 0 to |group|
      invariant cards == Cards(group)[..t]
    {
      cards := cards + [Card(group[t])];
    }
  }

  /** `renderNativeBracket(container, data)`, returning what the container ends up showing. */
  method RenderNativeBracket(matches: MatchesField) returns (out: Rendering)
    ensures matches.Items? <==> out.Columns?
    ensures out.Columns? ==> StrictlyIncreasing(RoundsOf(out.columns))
    ensures out.Columns? ==> forall k :: k in RoundsOf(out.columns) <==> k in RoundKeys(matches.items)
    ensures out.Columns? ==> forall c :: c in out.columns ==> c.cards == Cards(InRound(matches.items, c.round))
  {
    if !matches.Items? {
      return InvalidData;
    }
    var ms := matches.items;
    var rounds, order := GroupByRound(ms);
    var keys := SortAscending(order);
    SortAscendingFacts(order);
    var columns: seq<RoundColumn> := [];
    for c := 0 to |keys|
      invariant |columns| == c
      invariant forall t :: 0 <= t < c ==> columns[t] == RoundColumn(keys[t], Cards(InRound(ms, keys[t])))
    {
      var key := keys[c];
      assert key in order by {
        assert key in keys;
      }
      var cards := RenderCards(rounds[key]);
      columns := columns + [RoundColumn(key, cards)];
    }
    assert RoundsOf(columns) == keys;
    out := Columns(columns);
  }

  function RoundsOf(columns: seq<RoundColumn>): seq<int>
  {
    seq(|columns|, i requires 0 <= i < |columns| => columns[i].round)
  }

  /**
   * The generator's opponent objects carry only an `id`, so a generated
   * match read by this renderer shows "TBD" on both sides and no winner.
   */
  function FromGenerated(m: BracketGenerator.Match): ViewMatch
  {
    ViewMatch(Some(m.round as int),
      if m.opponent1.Some? then Some(ViewOpponent(None, None)) else None,
      if m.opponent2.Some? then Some(ViewOpponent(None, None)) else None)
  }

  lemma GeneratedMatchShowsTbd(m: BracketGenerator.Match)
    ensures Card(FromGenerated(m)) == MatchCard(Tbd, Tbd, None, false)
  {
  }
}
