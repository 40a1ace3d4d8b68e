/**
 * `generate_bracket` of the matchmaking server: a single-elimination
 * bracket built from a shuffled list of player names. The shuffle's output
 * is a parameter (the random number generator is not modelled); the slot
 * list is padded with byes up to the next power of two, real players get
 * participant ids from their slot index, adjacent slots form round-1
 * matches, and empty later rounds follow, each half as large, down to the
 * one-match final.
 */
module BracketGenerator {
  import opened Wrappers

  type Name = string

  datatype Participant = Participant(id: nat, name: Name)

  /** `{"id": pid, "score": None}`; the score is always null. */
  datatype Opponent = Opponent(id: nat, score: Option<int>)

  datatype Match = Match(
    id: nat, stageId: nat, round: nat, group: nat, childCount: nat, status: nat,
    opponent1: Option<Opponent>, opponent2: Option<Opponent>)

  datatype Stage = Stage(id: nat, name: string, tournamentId: nat, kind: string, number: nat)

  datatype Bracket = Bracket(stages: seq<Stage>, matches: seq<Match>, participants: seq<Participant>)

  /**
   * What the Python code raises for fewer than two names: `math.log2(0)`
   * is a `ValueError`, and with one name `participant_map[1]` is a `KeyError`.
   */
  datatype BracketError = LogOfZero | MissingSlot

  /** One entry of `all_rounds` / `current_round`: the two participant ids or `None`. */
  datatype Pairing = Pairing(p1: Option<nat>, p2: Option<nat>)

  const StageId: nat := 1
  const MainStage := Stage(StageId, "Main", 0, "single_elimination", 1)

  function Pow2(k: nat): (p: nat)
    ensures p >= 1
  {
    if k == 0 then 1 else 2 * Pow2(k - 1)
  }

  /**
   * `math.ceil(math.log2(n))` on the integers: the least `k` with `n <= 2^k`.
   */
  function CeilLog2(n: nat): (k: nat)
    requires n >= 1
    ensures n <= Pow2(k)
    ensures k == 0 || Pow2(k - 1) < n
  {
    if n <= 1 then 0 else 1 + CeilLog2((n + 1) / 2)
  }

  /** A slot holds a real player when its name is truthy: not a bye and not "". */
  predicate Present(slot: Option<Name>) {
    slot.Some? && slot.value != ""
  }

  /** `players + [None] * byes`. */
  function Slots(shuffled: seq<Name>, size: nat): seq<Option<Name>>
    requires |shuffled| <= size
  {
    seq(size, i requires 0 <= i < size => if i < |shuffled| then Some(shuffled[i]) else None)
  }

  /** The padded list holds the names in order, then byes. */
  lemma SlotsAt(shuffled: seq<Name>, size: nat)
    requires |shuffled| <= size
    ensures |Slots(shuffled, size)| == size
    ensures forall i :: 0 <= i < |shuffled| ==> Slots(shuffled, size)[i] == Some(shuffled[i])
    ensures forall i :: |shuffled| <= i < size ==> Slots(shuffled, size)[i] == None
  {
  }

  /** `participant_map[i]`: the id `i + 1` of a real player, `None` for a bye. */
  function SlotId(slots: seq<Option<Name>>, i: nat): Option<nat>
    requires i < |slots|
  {
    if Present(slots[i]) then Some(i + 1) else None
  }

  /** The whole `participant_map`, indexed by slot. */
  function SlotIds(slots: seq<Option<Name>>): seq<Option<nat>>
  {
    seq(|slots|, i requires 0 <= i < |slots| => SlotId(slots, i))
  }

  /** `2 ** math.ceil(math.log2(n))`. */
  function NextPower(n: nat): nat
    requires n >= 1
  {
    Pow2(CeilLog2(n))
  }

  /** The `participants` list built by the `for` loop over the first `|slots|` slots. */
  function ParticipantsOf(slots: seq<Option<Name>>): seq<Participant>
  {
    if |slots| == 0 then []
    else
      var last := slots[|slots| - 1];
      ParticipantsOf(slots[..|slots| - 1]) + (if Present(last) then [Participant(|slots|, last.value)] else [])
  }

  /** The round-1 comprehension: slots `2k` and `2k + 1` make pairing `k`. */
  function RoundOnePairs(ids: seq<Option<nat>>): seq<Pairing>
    requires |ids| % 2 == 0
  {
    seq(|ids| / 2, k requires 0 <= k < |ids| / 2 => Pairing(ids[2 * k], ids[2 * k + 1]))
  }

  /** `{"id": pid, "score": None} if pid else None`. */
  function OpponentOf(pid: Option<nat>): Option<Opponent>
  {
    if pid.Some? && pid.value != 0 then Some(Opponent(pid.value, None)) else None
  }

  /** The match record appended for one pairing. */
  function MatchOf(p: Pairing, id: nat, round: nat): Match
  {
    Match(id, StageId, round, 0, 1, 0, OpponentOf(p.p1), OpponentOf(p.p2))
  }

  /** The match records of one round, with consecutive ids from `firstId`. */
  function EmitRound(pairs: seq<Pairing>, firstId: nat, round: nat): seq<Match>
  {
    seq(|pairs|, k requires 0 <= k < |pairs| => MatchOf(pairs[k], firstId + k, round))
  }

  function EmptyPairs(n: nat): seq<Pairing>
  {
    seq(n, _ => Pairing(None, None))
  }

  /**
   * What the `while current_round` loop appends, starting from the pairings
   * `pairs` of round `round` and match id `firstId`.
   */
  function Rounds(pairs: seq<Pairing>, firstId: nat, round: nat): seq<Match>
    decreases |pairs|
  {
    if |pairs| == 0 then []
    else EmitRound(pairs, firstId, round) + Rounds(EmptyPairs(|pairs| / 2), firstId + |pairs|, round + 1)
  }

  /** The bracket `generate_bracket` returns once the list is in the order `shuffled`. */
  function BracketOf(shuffled: seq<Name>): Result<Bracket, BracketError>
  {
    if |shuffled| == 0 then Failure(LogOfZero)
    else
      var slots := Slots(shuffled, NextPower(|shuffled|));
      if |slots| % 2 == 1 then Failure(MissingSlot)
      else Success(BracketOfSlots(slots))
  }

  /** The bracket built from an even number of slots. */
  function BracketOfSlots(slots: seq<Option<Name>>): Bracket
    requires |slots| % 2 == 0
  {
    Bracket([MainStage], Rounds(RoundOnePairs(SlotIds(slots)), 1, 1), ParticipantsOf(slots))
  }

  lemma {:induction false} Pow2Monotone(a: nat, b: nat)
    requires a <= b
    ensures Pow2(a) <= Pow2(b)
    decreases b
  {
    if a < b {
      Pow2Monotone(a, b - 1);
    }
  }

  /**
   * Starting from `2^k` pairings, the loop emits `2^(k+1) - 1` matches with
   * consecutive ids, in rounds `round` to `round + k`; the first `2^k` are the
   * given pairings and every later match has no opponents.
   */
  lemma {:induction false} RoundsShape(pairs: seq<Pairing>, firstId: nat, round: nat, k: nat)
    requires |pairs| == Pow2(k)
    decreases k
    ensures var ms := Rounds(pairs, firstId, round);
      && |ms| == 2 * Pow2(k) - 1
      && (forall j :: 0 <= j < |ms| ==> ms[j].id == firstId + j)
      && (forall j :: 0 <= j < |ms| ==> round <= ms[j].round <= round + k)
      && (forall j :: 0 <= j < |pairs| ==> ms[j] == MatchOf(pairs[j], firstId + j, round))
      && (forall j :: |pairs| <= j < |ms| ==> ms[j].opponent1 == None && ms[j].opponent2 == None)
      && (forall j :: 0 <= j < |ms| ==>
            ms[j].stageId == StageId && ms[j].group == 0 && ms[j].status == 0 && ms[j].childCount == 1)
  {
    var ms := Rounds(pairs, firstId, round);
    if k == 0 {
      assert ms == EmitRound(pairs, firstId, round) + Rounds(EmptyPairs(0), firstId + 1, round + 1);
    } else {
      var rest := Rounds(EmptyPairs(Pow2(k - 1)), firstId + |pairs|, round + 1);
      RoundsShape(EmptyPairs(Pow2(k - 1)), firstId + |pairs|, round + 1, k - 1);
      assert ms == EmitRound(pairs, firstId, round) + rest;
      forall j | |pairs| <= j < |ms|
        ensures ms[j] == rest[j - |pairs|]
      {
      }
    }
  }

  /**
   * For the blocks of `2^k, 2^(k-1), ..., 1` matches laid one after the
   * other, the number of whole blocks before index `j`.
   */
  function Block(k: nat, j: nat): nat
    decreases k
  {
    if k == 0 || j < Pow2(k) then 0 else 1 + Block(k - 1, j - Pow2(k))
  }

  /** Index `j` lies in block `t` exactly when it is between the sizes of the blocks before and through `t`. */
  lemma {:induction false} BlockRange(k: nat, t: nat, j: nat)
    requires t <= k && j < 2 * Pow2(k) - 1
    ensures Block(k, j) == t <==> 2 * Pow2(k) - 2 * Pow2(k - t) <= j < 2 * Pow2(k) - Pow2(k - t)
    decreases k
  {
    if k > 0 {
      var p := Pow2(k);
      assert p == 2 * Pow2(k - 1);
      if t > 0 {
        Pow2Monotone(k - t + 1, k);
        assert Pow2(k - t + 1) == 2 * Pow2(k - t);
        if j >= p {
          assert k - 1 - (t - 1) == k - t;
          BlockRange(k - 1, t - 1, j - p);
        }
      }
    }
  }

  /** Starting from `2^k` pairings, the match at index `j` is in round `round + Block(k, j)`. */
  lemma {:induction false} RoundAt(pairs: seq<Pairing>, firstId: nat, round: nat, k: nat, j: nat)
    requires |pairs| == Pow2(k)
    requires j < |Rounds(pairs, firstId, round)|
    ensures Rounds(pairs, firstId, round)[j].round == round + Block(k, j)
    decreases k
  {
    var ms := Rounds(pairs, firstId, round);
    var rest := Rounds(EmptyPairs(|pairs| / 2), firstId + |pairs|, round + 1);
    assert ms == EmitRound(pairs, firstId, round) + rest;
    if j >= |pairs| {
      assert k > 0;
      assert |pairs| / 2 == Pow2(k - 1);
      assert ms[j] == rest[j - |pairs|];
      RoundAt(EmptyPairs(|pairs| / 2), firstId + |pairs|, round + 1, k - 1, j - |pairs|);
    }
  }

  /** The first matches emitted are those of the given pairings, in order. */
  lemma RoundsFirst(pairs: seq<Pairing>, firstId: nat, round: nat, j: nat)
    requires j < |pairs|
    ensures j < |Rounds(pairs, firstId, round)|
    ensures Rounds(pairs, firstId, round)[j] == MatchOf(pairs[j], firstId + j, round)
  {
    var rest := Rounds(EmptyPairs(|pairs| / 2), firstId + |pairs|, round + 1);
    assert Rounds(pairs, firstId, round) == EmitRound(pairs, firstId, round) + rest;
  }

  lemma {:induction false} RoundsLength(pairs: seq<Pairing>, firstId: nat, round: nat, k: nat)
    requires |pairs| == Pow2(k)
    ensures |Rounds(pairs, firstId, round)| == 2 * Pow2(k) - 1
    decreases k
  {
    if k > 0 {
      assert |pairs| / 2 == Pow2(k - 1);
      RoundsLength(EmptyPairs(|pairs| / 2), firstId + |pairs|, round + 1, k - 1);
    }
  }

  /**
   * Starting from `2^k` pairings, the match at index `j` is in round
   * `round + t` exactly when `j` lies in the `t`-th block: the blocks have
   * `2^k, 2^(k-1), ..., 1` matches, one after the other.
   */
  lemma RoundMembership(pairs: seq<Pairing>, firstId: nat, round: nat, k: nat, t: nat)
    requires |pairs| == Pow2(k) && t <= k
    ensures var ms := Rounds(pairs, firstId, round);
      forall j :: 0 <= j < |ms| ==>
        (ms[j].round == round + t <==> 2 * Pow2(k) - 2 * Pow2(k - t) <= j < 2 * Pow2(k) - Pow2(k - t))
  {
    var ms := Rounds(pairs, firstId, round);
    RoundsLength(pairs, firstId, round, k);
    forall j | 0 <= j < |ms|
      ensures ms[j].round == round + t <==> 2 * Pow2(k) - 2 * Pow2(k - t) <= j < 2 * Pow2(k) - Pow2(k - t)
    {
      RoundAt(pairs, firstId, round, k, j);
      BlockRange(k, t, j);
    }
  }

  /**
   * The `participants` list holds exactly the real players of the slots,
   * each with the id of its slot, in slot order.
   */
  lemma {:induction false} ParticipantsOfSlots(slots: seq<Option<Name>>)
    ensures var ps := ParticipantsOf(slots);
      && (forall a, b :: 0 <= a < b < |ps| ==> ps[a].id < ps[b].id)
      && (forall p :: p in ps <==> 1 <= p.id <= |slots| && slots[p.id - 1] == Some(p.name) && p.name != "")
  {
    if |slots| > 0 {
      var init := slots[..|slots| - 1];
      ParticipantsOfSlots(init);
      var ps := ParticipantsOf(slots);
      forall p
        ensures p in ps <==> 1 <= p.id <= |slots| && slots[p.id - 1] == Some(p.name) && p.name != ""
      {
        if 1 <= p.id < |slots| {
          assert slots[p.id - 1] == init[p.id - 1];
        }
      }
    }
  }

  /** With only real players before the byes, player `i` is participant `i + 1`. */
  lemma {:induction false} ParticipantsInOrder(slots: seq<Option<Name>>, n: nat)
    requires n <= |slots|
    requires forall i :: 0 <= i < n ==> Present(slots[i])
    requires forall i :: n <= i < |slots| ==> slots[i] == None
    ensures var ps := ParticipantsOf(slots);
      |ps| == n && forall i :: 0 <= i < n ==> slots[i].Some? && ps[i] == Participant(i + 1, slots[i].value)
    decreases |slots|
  {
    if |slots| > 0 {
      var init := slots[..|slots| - 1];
      if n == |slots| {
        ParticipantsInOrder(init, n - 1);
      } else {
        ParticipantsInOrder(init, n);
      }
    }
  }

  /** No bracket for fewer than two names; always one for two or more. */
  lemma BracketNeedsTwoPlayers(shuffled: seq<Name>)
    ensures |shuffled| == 0 ==> BracketOf(shuffled) == Failure(LogOfZero)
    ensures |shuffled| == 1 ==> BracketOf(shuffled) == Failure(MissingSlot)
    ensures |shuffled| >= 2 <==> BracketOf(shuffled).Success?
  {
    if |shuffled| >= 2 {
      TwoOrMore(shuffled);
    }
  }

  /** For `n >= 2`, `next_power` is twice a power of two (so even), at least `n` and below `2n`. */
  lemma NextPowerBounds(n: nat)
    requires n >= 2
    ensures var k := CeilLog2(n);
      && k >= 1 && NextPower(n) == 2 * Pow2(k - 1)
      && n <= NextPower(n) < 2 * n
  {
    var k := CeilLog2(n);
    assert k != 0;
    var half := Pow2(k - 1);
    assert NextPower(n) == 2 * half;
    assert half < n;
  }

  lemma DoubleIsEven(h: nat)
    ensures (2 * h) % 2 == 0
  {
  }

  /** The bracket of two or more names, with `next_power` even and below `2n`. */
  lemma TwoOrMore(shuffled: seq<Name>)
    requires |shuffled| >= 2
    ensures var k := CeilLog2(|shuffled|); var slots := Slots(shuffled, NextPower(|shuffled|));
      && k >= 1 && NextPower(|shuffled|) == 2 * Pow2(k - 1)
      && |shuffled| <= NextPower(|shuffled|) < 2 * |shuffled|
      && |slots| % 2 == 0
      && BracketOf(shuffled) == Success(BracketOfSlots(slots))
  {
    NextPowerBounds(|shuffled|);
    var slots := Slots(shuffled, NextPower(|shuffled|));
    var half := Pow2(CeilLog2(|shuffled|) - 1);
    assert |slots| == 2 * half;
    assert |slots| % 2 == 0 by {
      DoubleIsEven(half);
    }

  }

  /** The matches of the bracket of two or more names: the rounds grown from `next_power / 2` pairings. */
  lemma BracketMatchList(shuffled: seq<Name>)
    requires |shuffled| >= 2
    ensures BracketOf(shuffled).Success?
    ensures var k := CeilLog2(|shuffled|); var slots := Slots(shuffled, NextPower(|shuffled|));
      && k >= 1 && NextPower(|shuffled|) == 2 * Pow2(k - 1)
      && |slots| % 2 == 0 && |RoundOnePairs(SlotIds(slots))| == Pow2(k - 1)
      && BracketOf(shuffled).value.matches == Rounds(RoundOnePairs(SlotIds(slots)), 1, 1)
  {
    TwoOrMore(shuffled);
  }

  /**
   * For `n >= 2` names: `next_power` is the least power of two `>= n`, the
   * bracket has one stage, `next_power - 1` matches with ids
   * `1 .. next_power - 1` in list order, all rounds between 1 and
   * `log2(next_power)`, and the fixed `stage_id`, `group`, `status` and
   * `child_count`.
   */
  lemma BracketMatches(shuffled: seq<Name>)
    requires |shuffled| >= 2
    ensures BracketOf(shuffled).Success?
    ensures var k := CeilLog2(|shuffled|); var nextPower := NextPower(|shuffled|);
      var b := BracketOf(shuffled).value;
      && k >= 1 && |shuffled| <= nextPower < 2 * |shuffled|
      && b.stages == [MainStage]
      && |b.matches| == nextPower - 1
      && (forall j :: 0 <= j < |b.matches| ==> b.matches[j].id == j + 1)
      && (forall j :: 0 <= j < |b.matches| ==> 1 <= b.matches[j].round <= k)
      && (forall j :: 0 <= j < |b.matches| ==>
            b.matches[j].stageId == 1 && b.matches[j].group == 0
            && b.matches[j].status == 0 && b.matches[j].childCount == 1)
  {
    TwoOrMore(shuffled);
    var k := CeilLog2(|shuffled|);
    var slots := Slots(shuffled, NextPower(|shuffled|));
    RoundsShape(RoundOnePairs(SlotIds(slots)), 1, 1, k - 1);
  }

  /**
   * Round `r` (for `1 <= r <= log2(next_power)`) is the block of
   * `2^(log2(next_power) - r)` matches that starts after the matches of
   * the earlier rounds; so every round is half the one before and the last
   * round is the single final match.
   */
  lemma BracketRound(shuffled: seq<Name>, r: nat)
    requires |shuffled| >= 2
    requires 1 <= r <= CeilLog2(|shuffled|)
    ensures BracketOf(shuffled).Success?
    ensures var k := CeilLog2(|shuffled|); var nextPower := NextPower(|shuffled|);
      var ms := BracketOf(shuffled).value.matches;
      forall j :: 0 <= j < |ms| ==>
        (ms[j].round == r <==> nextPower - 2 * Pow2(k - r) <= j < nextPower - Pow2(k - r))
  {
    BracketMatchList(shuffled);
    var k := CeilLog2(|shuffled|);
    var slots := Slots(shuffled, NextPower(|shuffled|));
    RoundMembership(RoundOnePairs(SlotIds(slots)), 1, 1, k - 1, r - 1);
    assert k - 1 - (r - 1) == k - r;
  }

  /**
   * Round-1 match `k` opposes the ids of slots `2k` and `2k + 1`: slot `i`
   * holds the `i`-th shuffled name with id `i + 1`, unless `i >= n` (a bye at
   * the end) or the name is "" (both give a null opponent).
   */
  lemma BracketRoundOne(shuffled: seq<Name>, k: nat)
    requires |shuffled| >= 2
    requires k < NextPower(|shuffled|) / 2
    ensures BracketOf(shuffled).Success?
    ensures var m := BracketOf(shuffled).value.matches[k];
      && m.round == 1
      && m.opponent1 == (if 2 * k < |shuffled| && shuffled[2 * k] != "" then Some(Opponent(2 * k + 1, None)) else None)
      && m.opponent2 == (if 2 * k + 1 < |shuffled| && shuffled[2 * k + 1] != "" then Some(Opponent(2 * k + 2, None)) else None)
  {
    BracketMatchList(shuffled);
    var slots := Slots(shuffled, NextPower(|shuffled|));
    var ids := SlotIds(slots);
    var pairs := RoundOnePairs(ids);
    RoundsFirst(pairs, 1, 1, k);
    assert pairs[k] == Pairing(ids[2 * k], ids[2 * k + 1]);
    assert ids[2 * k] == SlotId(slots, 2 * k) && ids[2 * k + 1] == SlotId(slots, 2 * k + 1);
    assert slots[2 * k] == if 2 * k < |shuffled| then Some(shuffled[2 * k]) else None;
    assert slots[2 * k + 1] == if 2 * k + 1 < |shuffled| then Some(shuffled[2 * k + 1]) else None;
  }

  /** Every match after round 1 is created with both opponents null. */
  lemma BracketLaterRoundsEmpty(shuffled: seq<Name>)
    requires |shuffled| >= 2
    ensures BracketOf(shuffled).Success?
    ensures var ms := BracketOf(shuffled).value.matches;
      forall j :: NextPower(|shuffled|) / 2 <= j < |ms| ==>
        ms[j].round > 1 && ms[j].opponent1 == None && ms[j].opponent2 == None
  {
    TwoOrMore(shuffled);
    var k := CeilLog2(|shuffled|);
    var slots := Slots(shuffled, NextPower(|shuffled|));
    var pairs := RoundOnePairs(SlotIds(slots));
    RoundsShape(pairs, 1, 1, k - 1);
    var ms := Rounds(pairs, 1, 1);
    forall j | NextPower(|shuffled|) / 2 <= j < |ms|
      ensures ms[j].round > 1
    {
      RoundAt(pairs, 1, 1, k - 1, j);
    }
  }

  predicate Seats(m: Match, id: nat) {
    (m.opponent1.Some? && m.opponent1.value.id == id) || (m.opponent2.Some? && m.opponent2.value.id == id)
  }

  /** A listed participant is a non-empty name at the slot its id gives, within the real players. */
  lemma ParticipantSlot(shuffled: seq<Name>, p: Participant)
    requires BracketOf(shuffled).Success?
    requires p in BracketOf(shuffled).value.participants
    ensures |shuffled| >= 2 && 1 <= p.id <= |shuffled| && shuffled[p.id - 1] == p.name && p.name != ""
  {
    BracketNeedsTwoPlayers(shuffled);
    BracketParticipants(shuffled);
  }

  /** Every participant is an opponent in exactly one match: round-1 match `(id - 1) / 2`. */
  lemma ParticipantSeatedOnce(shuffled: seq<Name>, p: Participant, j: nat)
    requires BracketOf(shuffled).Success?
    requires p in BracketOf(shuffled).value.participants
    requires j < |BracketOf(shuffled).value.matches|
    ensures Seats(BracketOf(shuffled).value.matches[j], p.id) <==> j == (p.id - 1) / 2
  {
    ParticipantSlot(shuffled, p);
    var half := NextPower(|shuffled|) / 2;
    if j < half {
      BracketRoundOne(shuffled, j);
    } else {
      BracketLaterRoundsEmpty(shuffled);
      NextPowerBounds(|shuffled|);
      assert (p.id - 1) / 2 < half;
    }
  }

  /**
   * `participants` lists the non-empty names with their slot ids, in
   * shuffled order; when no name is empty, the `i`-th shuffled name is
   * participant `i + 1` and there are exactly `n` of them.
   */
  lemma BracketParticipants(shuffled: seq<Name>)
    requires |shuffled| >= 2
    ensures BracketOf(shuffled).Success?
    ensures var ps := BracketOf(shuffled).value.participants;
      && (forall a, b :: 0 <= a < b < |ps| ==> ps[a].id < ps[b].id)
      && (forall p :: p in ps <==> 1 <= p.id <= |shuffled| && shuffled[p.id - 1] == p.name && p.name != "")
      && ((forall i :: 0 <= i < |shuffled| ==> shuffled[i] != "") ==>
            |ps| == |shuffled| && forall i :: 0 <= i < |shuffled| ==> ps[i] == Participant(i + 1, shuffled[i]))
  {
    TwoOrMore(shuffled);
    var slots := Slots(shuffled, NextPower(|shuffled|));
    NextPowerBounds(|shuffled|);
    SlotsAt(shuffled, NextPower(|shuffled|));
    ParticipantsOfSlots(slots);
    var ps := ParticipantsOf(slots);
    forall p
      ensures p in ps <==> 1 <= p.id <= |shuffled| && shuffled[p.id - 1] == p.name && p.name != ""
    {
    }
    if forall i :: 0 <= i < |shuffled| ==> shuffled[i] != "" {
      ParticipantsInOrder(slots, |shuffled|);
    }
  }

  /** `random.shuffle(players)`, with the generator's choice given as `order`. */
  method Shuffle(players: array<Name>, order: seq<Name>)
    requires |order| == players.Length && multiset(order) == multiset(players[..])
    modifies players
    ensures players[..] == order
    ensures multiset(players[..]) == old(multiset(players[..]))
  {
    for i := 0 to players.Length
      invariant players[..i] == order[..i]
    {
      players[i] := order[i];
    }
    assert players[..] == players[..players.Length];
  }

  /** The `for` loop that fills `participants` and `participant_map`. */
  method NumberSlots(fullPlayers: seq<Option<Name>>) returns (participants: seq<Participant>, participantMap: seq<Option<nat>>)
    ensures participants == ParticipantsOf(fullPlayers)
    ensures |participantMap| == |fullPlayers|
    ensures forall i :: 0 <= i < |fullPlayers| ==> participantMap[i] == SlotId(fullPlayers, i)
  {
    participants, participantMap := [], [];
    for i := 0 to |fullPlayers|
      invariant participants == ParticipantsOf(fullPlayers[..i])
      invariant |participantMap| == i
      invariant forall j :: 0 <= j < i ==> participantMap[j] == SlotId(fullPlayers, j)
    {
      var pid := i + 1;
      assert fullPlayers[..i + 1][..i] == fullPlayers[..i];
      if Present(fullPlayers[i]) {
        participants := participants + [Participant(pid, fullPlayers[i].value)];
        participantMap := participantMap + [Some(pid)];
      } else {
        participantMap := participantMap + [None];
      }
    }
    assert fullPlayers[..|fullPlayers|] == fullPlayers;
  }

  /** The inner `for pairing in current_round` loop: one match per pairing, ids counting up. */
  method EmitRoundMatches(matches: seq<Match>, currentRound: seq<Pairing>, matchId: nat, roundNumber: nat)
    returns (matches': seq<Match>, matchId': nat)
    ensures matches' == matches + EmitRound(currentRound, matchId, roundNumber)
    ensures matchId' == matchId + |currentRound|
  {
    matches', matchId' := matches, matchId;
    for k := 0 to |currentRound|
      invariant matches' == matches + EmitRound(currentRound, matchId, roundNumber)[..k]
      invariant matchId' == matchId + k
    {
      matches' := matches' + [MatchOf(currentRound[k], matchId', roundNumber)];
      matchId' := matchId' + 1;
    }
  }

  /** One turn of the `while current_round` loop: this round's matches, then the rounds grown from half as many empty pairings. */
  lemma RoundsStep(pairs: seq<Pairing>, firstId: nat, round: nat)
    requires |pairs| > 0
    ensures Rounds(pairs, firstId, round)
            == EmitRound(pairs, firstId, round) + Rounds(EmptyPairs(|pairs| / 2), firstId + |pairs|, round + 1)
    ensures |EmptyPairs(|pairs| / 2)| == |pairs| / 2
  {
  }

  /** The `while current_round` loop that appends every round's matches. */
  method EmitMatches(allRounds: seq<Pairing>) returns (matches: seq<Match>)
    ensures matches == Rounds(allRounds, 1, 1)
  {
    matches := [];
    var matchId := 1;
    var currentRound := allRounds;
    var roundNumber := 1;
    while |currentRound| > 0
      invariant matches + Rounds(currentRound, matchId, roundNumber) == Rounds(allRounds, 1, 1)
      decreases |currentRound|
    {
      ghost var firstId := matchId;
      matches, matchId := EmitRoundMatches(matches, currentRound, matchId, roundNumber);
      var nextRoundSize := |currentRound| / 2;
      RoundsStep(currentRound, firstId, roundNumber);
      currentRound := EmptyPairs(nextRoundSize);
      roundNumber := roundNumber + 1;
      if nextRoundSize == 0 {
        break;
      }
    }
  }

  /**
   * `generate_bracket(players)`: shuffles the caller's list in place and
   * returns the bracket of the shuffled order, or the error Python raises.
   */
  method GenerateBracket(players: array<Name>, order: seq<Name>) returns (r: Result<Bracket, BracketError>)
    requires |order| == players.Length && multiset(order) == multiset(players[..])
    modifies players
    ensures players[..] == order
    ensures multiset(players[..]) == old(multiset(players[..]))
    ensures r == BracketOf(order)
  {
    Shuffle(players, order);
    var n := players.Length;
    if n == 0 {
      return Failure(LogOfZero);
    }
    var nextPower := NextPower(n);
    var fullPlayers := Slots(players[..], nextPower);
    var participants, participantMap := NumberSlots(fullPlayers);
    if |participantMap| % 2 == 1 {
      return Failure(MissingSlot);
    }
    var matches := EmitMatches(RoundOnePairs(participantMap));
    assert participantMap == SlotIds(fullPlayers);
    r := Success(Bracket([MainStage], matches, participants));
  }
}
