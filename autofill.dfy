/** Filling the empty seats of a queued match with ranked candidates
    (handleAutoFillMatch, App.tsx:150-191). */
module AutoFill {
  import opened Types
  import opened Constants
  import opened Matches
  import opened Seating
  import opened Sorting
  import opened Fairness

  /** The placeholder slots among the first n, in slot order (`emptySlotIndices` for n = 4). */
  function EmptyIn(m: Match, n: nat): (r: seq<nat>)
    requires n <= 4
    ensures forall x: nat :: x in r <==> x < n && IsPlaceholderPlayer(Slots(m)[x])
    ensures forall i, j :: 0 <= i < j < |r| ==> r[i] < r[j]
    ensures |r| <= n
  {
    if n == 0 then []
    else
      var prev := EmptyIn(m, n - 1);
      var r := prev + (if IsPlaceholderPlayer(Slots(m)[n - 1]) then [n - 1] else []);
      assert forall k :: 0 <= k < |prev| ==> prev[k] < n - 1 by {
        forall k | 0 <= k < |prev|
          ensures prev[k] < n - 1
        {
          var x: nat := prev[k];
          assert x in prev;
        }
      }
      r
  }

  /** How many empty slots come before slot s: which candidate an empty slot s receives. */
  function Rank(m: Match, s: nat): nat
    requires s <= 4
  {
    |EmptyIn(m, s)|
  }

  /** The candidate index the loop has reached at the j-th empty slot is j. */
  lemma {:induction false} RankOfEmpty(m: Match, n: nat, j: nat)
    requires n <= 4 && j < |EmptyIn(m, n)|
    ensures EmptyIn(m, n)[j] < 4 && Rank(m, EmptyIn(m, n)[j]) == j
  {
    if j < |EmptyIn(m, n - 1)| {
      RankOfEmpty(m, n - 1, j);
    }
  }

  lemma {:induction false} RankMonotone(m: Match, a: nat, b: nat)
    requires a <= b <= 4
    ensures Rank(m, a) <= Rank(m, b)
  {
    if a < b {
      RankMonotone(m, a, b - 1);
    }
  }

  /** Distinct empty slots receive distinct candidates. */
  lemma RankStrict(m: Match, s: nat, t: nat)
    requires s < t < 4 && IsPlaceholderPlayer(Slots(m)[s])
    ensures Rank(m, s) < Rank(m, t)
  {
    RankMonotone(m, s + 1, t);
  }

  /** Every empty slot is in the list of empty slots. */
  lemma RankBelowCount(m: Match, s: nat)
    requires s < 4 && IsPlaceholderPlayer(Slots(m)[s])
    ensures Rank(m, s) < |EmptyIn(m, 4)|
  {
    RankMonotone(m, s + 1, 4);
  }

  /** The seats after the first j empty slots have been offered a candidate. */
  function FilledUpTo(m: Match, cands: seq<Player>, j: nat): (r: seq<Player>)
    ensures |r| == 4
  {
    seq(4, s requires 0 <= s < 4 =>
      if IsPlaceholderPlayer(Slots(m)[s]) && Rank(m, s) < j && Rank(m, s) < |cands| then cands[Rank(m, s)]
      else Slots(m)[s])
  }

  /** The match after filling: its empty slots, in slot order, hold the candidates in order
      while candidates last; its real seats are untouched. */
  predicate FilledFrom(m: Match, cands: seq<Player>, r: Match)
  {
    r.id == m.id && r.courtId == m.courtId && r.startTime == m.startTime &&
    forall s | 0 <= s < 4 ::
      Slots(r)[s] == if IsPlaceholderPlayer(Slots(m)[s]) && Rank(m, s) < |cands| then cands[Rank(m, s)] else Slots(m)[s]
  }

  /** Two empty slots with the same rank are the same slot. */
  lemma RankInjective(m: Match, s: nat, t: nat)
    requires s < 4 && t < 4 && IsPlaceholderPlayer(Slots(m)[s]) && IsPlaceholderPlayer(Slots(m)[t])
    requires Rank(m, s) == Rank(m, t)
    ensures s == t
  {
    if s < t {
      RankStrict(m, s, t);
    } else if t < s {
      RankStrict(m, t, s);
    }
  }

  /** The j-th empty slot is offered candidate j. */
  lemma FilledAt(m: Match, cands: seq<Player>, j: nat)
    requires j < |EmptyIn(m, 4)|
    ensures var e := EmptyIn(m, 4)[j];
            e < 4 && FilledUpTo(m, cands, j + 1)[e] == if j < |cands| then cands[j] else FilledUpTo(m, cands, j)[e]
  {
    var e := EmptyIn(m, 4)[j];
    RankOfEmpty(m, 4, j);
    assert e in EmptyIn(m, 4);
  }

  /** Any other slot keeps what it held. */
  lemma FilledElsewhere(m: Match, cands: seq<Player>, j: nat, s: nat)
    requires j < |EmptyIn(m, 4)| && s < 4 && s != EmptyIn(m, 4)[j]
    ensures FilledUpTo(m, cands, j + 1)[s] == FilledUpTo(m, cands, j)[s]
  {
    var e := EmptyIn(m, 4)[j];
    RankOfEmpty(m, 4, j);
    assert e in EmptyIn(m, 4);
    if IsPlaceholderPlayer(Slots(m)[s]) && Rank(m, s) == j {
      RankInjective(m, s, e);
    }
  }

  /** Offering the j-th empty slot its candidate changes that slot only. */
  lemma FilledStep(m: Match, cands: seq<Player>, j: nat)
    requires j < |EmptyIn(m, 4)|
    ensures var e := EmptyIn(m, 4)[j];
            e < 4 &&
            FilledUpTo(m, cands, j + 1) ==
              if j < |cands| then FilledUpTo(m, cands, j)[e := cands[j]] else FilledUpTo(m, cands, j)
  {
    var e := EmptyIn(m, 4)[j];
    FilledAt(m, cands, j);
    var before, after := FilledUpTo(m, cands, j), FilledUpTo(m, cands, j + 1);
    forall s | 0 <= s < 4 && s != e
      ensures after[s] == before[s]
    {
      FilledElsewhere(m, cands, j, s);
    }
    if j < |cands| {
      SameAtAllSeats(after, before[e := cands[j]]);
    } else {
      SameAtAllSeats(after, before);
    }
  }

  /** Two seat lists that agree seat by seat are equal. */
  lemma SameAtAllSeats(a: seq<Player>, b: seq<Player>)
    requires |a| == 4 && |b| == 4
    requires forall s :: 0 <= s < 4 ==> a[s] == b[s]
    ensures a == b
  {
  }

  /** The `emptySlotIndices.forEach` loop with its `candidateIdx`. */
  method FillEmptySlots(m: Match, cands: seq<Player>) returns (r: Match)
    ensures FilledFrom(m, cands, r)
  {
    var empties := EmptyIn(m, 4);
    r := m;
    var candidateIdx := 0;
    var j := 0;
    assert FilledUpTo(m, cands, 0) == Slots(m);
    while j < |empties|
      invariant 0 <= j <= |empties|
      invariant candidateIdx == if j < |cands| then j else |cands|
      invariant r.id == m.id && r.courtId == m.courtId && r.startTime == m.startTime
      invariant Slots(r) == FilledUpTo(m, cands, j)
    {
      var slotIdx := empties[j];
      FilledStep(m, cands, j);
      if candidateIdx < |cands| {
        r := UpdateMatchSlot(r, slotIdx, cands[candidateIdx]);
        candidateIdx := candidateIdx + 1;
      }
      j := j + 1;
    }
    forall s | 0 <= s < 4 && IsPlaceholderPlayer(Slots(m)[s])
      ensures Rank(m, s) < j
    {
      RankBelowCount(m, s);
    }
  }

  /** With at least as many candidates as empty seats, no seat stays empty when the candidates are real. */
  lemma FillCompletes(m: Match, cands: seq<Player>, r: Match)
    requires FilledFrom(m, cands, r) && |cands| >= |EmptyIn(m, 4)|
    requires forall k :: 0 <= k < |cands| ==> !IsPlaceholderPlayer(cands[k])
    ensures forall s :: 0 <= s < 4 ==> !IsPlaceholderPlayer(Slots(r)[s])
  {
    forall s | 0 <= s < 4
      ensures !IsPlaceholderPlayer(Slots(r)[s])
    {
      if IsPlaceholderPlayer(Slots(m)[s]) {
        RankBelowCount(m, s);
      }
    }
  }

  /** Filling queued match i from a list of newcomers keeps the seat invariants. */
  lemma FillKeepsSeatInvariants(courts: seq<Court>, queue: seq<Match>, i: nat, cands: seq<Player>, r: Match)
    requires Exclusive(courts, queue) && SeatsTagged(courts, queue)
    requires i < |queue| && FilledFrom(queue[i], cands, r) && Newcomers(courts, queue, cands)
    ensures Exclusive(courts, queue[i := r]) && SeatsTagged(courts, queue[i := r])
  {
    var m := queue[i];
    var nq := queue[i := r];
    var isNew := (p: Pos) => p.QueueSeat? && p.index == i && p.slot < 4 &&
                             IsPlaceholderPlayer(Slots(m)[p.slot]) && Rank(m, p.slot) < |cands|;
    forall p | RealAt(courts, nq, p) && isNew(p)
      ensures Occupant(courts, nq, p).value == cands[Rank(m, p.slot)]
    {
    }
    forall p1, p2 | p1 != p2 && RealAt(courts, nq, p1) && RealAt(courts, nq, p2) && isNew(p1) && isNew(p2)
      ensures Occupant(courts, nq, p1).value.id != Occupant(courts, nq, p2).value.id
    {
      if p1.slot < p2.slot {
        RankStrict(m, p1.slot, p2.slot);
      } else {
        RankStrict(m, p2.slot, p1.slot);
      }
    }
    ExclusiveAfterPlacing(courts, queue, courts, nq, p => p, isNew);
    TaggedAfterPlacing(courts, queue, courts, nq, p => p, isNew);
  }
}
