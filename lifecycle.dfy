/** The match lifecycle and roster handlers of App.tsx as the state updates they
    make: assignMatchToCourt, finishMatch, clearCourt, resetAllStats,
    handleRemovePlayer and handleTogglePause. */
module Lifecycle {
  import opened Types
  import opened Constants
  import opened Matches
  import opened Seating
  import opened Pairing
  import opened Sorting
  import opened Fairness
  import opened Moves

  /** How many signatures the history keeps. */
  const HISTORY_SIZE_LIMIT: nat := 20

  /** No seat of the match is empty (the `!slots.some(isPlaceholder)` test). */
  predicate AllReal(m: Match)
  {
    forall k | 0 <= k < 4 :: !IsPlaceholderPlayer(Slots(m)[k])
  }

  /** The history after a match goes on court: its signature is appended only when all four
      seats are real, keeping the latest twenty entries. */
  function RecordPlayed(history: seq<Signature>, m: Match): (r: seq<Signature>)
    ensures !AllReal(m) ==> r == history
    ensures AllReal(m) ==>
              |r| == (if |history| < HISTORY_SIZE_LIMIT then |history| + 1 else HISTORY_SIZE_LIMIT) &&
              r[|r| - 1] == MatchSignature(m) &&
              r[..|r| - 1] == history[|history| + 1 - |r|..]
  {
    if AllReal(m) then
      var r := LastN(history + [MatchSignature(m)], HISTORY_SIZE_LIMIT);
      assert r[..|r| - 1] == (history + [MatchSignature(m)])[|history| + 1 - |r|..|history|];
      r
    else history
  }

  /** The court list with the match of every court whose id is `courtId` replaced. */
  function SetCourtMatch(courts: seq<Court>, courtId: int, m: Option<Match>): (r: seq<Court>)
    ensures |r| == |courts|
    ensures forall i :: 0 <= i < |courts| ==>
              r[i].id == courts[i].id && r[i].name == courts[i].name &&
              r[i].currentMatch == if courts[i].id == courtId then m else courts[i].currentMatch
  {
    seq(|courts|, i requires 0 <= i < |courts| =>
      if courts[i].id == courtId then courts[i].(currentMatch := m) else courts[i])
  }

  /** The queue head as it goes on court: with the court's id and its start time. */
  function Activate(m: Match, courtId: int, now: int): (r: Match)
    ensures Slots(r) == Slots(m) && r.id == m.id && r.courtId == courtId && r.startTime == now
  {
    m.(courtId := courtId, startTime := now)
  }

  /** Where each seat after assignMatchToCourt comes from: the target court's seats from the
      queue head, queue seats from one index further back, other courts from themselves. */
  function AssignSource(courts: seq<Court>, courtId: int, p: Pos): Pos
  {
    match p
    case CourtSeat(c, s) => if c < |courts| && courts[c].id == courtId then QueueSeat(0, s) else p
    case QueueSeat(i, s) => QueueSeat(i + 1, s)
  }

  /** assignMatchToCourt seat by seat: the court with the id shows the old queue head, the queue
      shifts up by one, every other court is unchanged. */
  lemma AssignOccupancy(courts: seq<Court>, queue: seq<Match>, courtId: int, now: int, p: Pos)
    requires |queue| > 0
    ensures var nc := SetCourtMatch(courts, courtId, Some(Activate(queue[0], courtId, now)));
            Occupant(nc, queue[1..], p) == Occupant(courts, queue, AssignSource(courts, courtId, p))
  {
  }

  /** assignMatchToCourt keeps the seat invariants (a court that was busy loses its match). */
  lemma AssignKeepsSeatInvariants(courts: seq<Court>, queue: seq<Match>, courtId: int, now: int)
    requires |queue| > 0 && CourtIdsUnique(courts)
    requires Exclusive(courts, queue) && SeatsTagged(courts, queue)
    ensures var nc := SetCourtMatch(courts, courtId, Some(Activate(queue[0], courtId, now)));
            Exclusive(nc, queue[1..]) && SeatsTagged(nc, queue[1..]) && CourtIdsUnique(nc)
  {
    var nc := SetCourtMatch(courts, courtId, Some(Activate(queue[0], courtId, now)));
    var f := p => AssignSource(courts, courtId, p);
    forall p
      ensures Occupant(nc, queue[1..], p) == Occupant(courts, queue, f(p))
    {
      AssignOccupancy(courts, queue, courtId, now, p);
    }
    ExclusiveAfterPlacing(courts, queue, nc, queue[1..], f, p => false);
    TaggedAfterPlacing(courts, queue, nc, queue[1..], f, p => false);
  }

  /** Every seat of the updated courts is empty or copies the same seat before. */
  lemma ClearedOccupancy(courts: seq<Court>, queue: seq<Match>, courtId: int, p: Pos)
    ensures var nc := SetCourtMatch(courts, courtId, None);
            Occupant(nc, queue, p).None? || Occupant(nc, queue, p) == Occupant(courts, queue, p)
  {
  }

  /** clearCourt (and the court update of finishMatch) keeps the seat invariants. */
  lemma ClearKeepsSeatInvariants(courts: seq<Court>, queue: seq<Match>, courtId: int)
    requires CourtIdsUnique(courts) && Exclusive(courts, queue) && SeatsTagged(courts, queue)
    ensures var nc := SetCourtMatch(courts, courtId, None);
            Exclusive(nc, queue) && SeatsTagged(nc, queue) && CourtIdsUnique(nc)
  {
    var nc := SetCourtMatch(courts, courtId, None);
    forall p
      ensures Occupant(nc, queue, p).None? || Occupant(nc, queue, p) == Occupant(courts, queue, p)
    {
      ClearedOccupancy(courts, queue, courtId, p);
    }
    ExclusiveAfterPlacing(courts, queue, nc, queue, p => p, p => false);
    TaggedAfterPlacing(courts, queue, nc, queue, p => p, p => false);
  }

  /** The participant test of finishMatch. */
  predicate Participant(m: Match, id: string)
  {
    SlotOf(m, id).Some?
  }

  /** A roster entry after finishMatch. */
  function CreditPlayer(p: Player, m: Match, now: int): Player
  {
    if Participant(m, p.id) && !IsPlaceholderPlayer(p)
    then p.(gamesPlayed := p.gamesPlayed + 1, lastMatchTime := Some(now))
    else p
  }

  /** finishMatch's roster update: every real participant gains a game and the finishing time;
      every other entry is unchanged. */
  function Credit(players: seq<Player>, m: Match, now: int): (r: seq<Player>)
    ensures |r| == |players|
    ensures forall i :: 0 <= i < |players| && Participant(m, players[i].id) && !IsPlaceholderPlayer(players[i]) ==>
              r[i] == players[i].(gamesPlayed := players[i].gamesPlayed + 1, lastMatchTime := Some(now))
    ensures forall i :: 0 <= i < |players| && !(Participant(m, players[i].id) && !IsPlaceholderPlayer(players[i])) ==>
              r[i] == players[i]
  {
    seq(|players|, i requires 0 <= i < |players| => CreditPlayer(players[i], m, now))
  }

  /** Some roster entry has id `id`. */
  predicate OnRoster(players: seq<Player>, id: string)
  {
    exists k :: 0 <= k < |players| && players[k].id == id
  }

  lemma {:induction false} SeedGamesCredit(players: seq<Player>, m: Match, now: int, id: string)
    requires forall k :: 0 <= k < |players| ==> !IsPlaceholderPlayer(players[k])
    ensures SeedGames(Credit(players, m, now), id) ==
            SeedGames(players, id) + (if Participant(m, id) && OnRoster(players, id) then 1 else 0)
  {
    if players != [] {
      var n := |players| - 1;
      var r := Credit(players, m, now);
      CreditSplits(players, m, now);
      assert SeedGames(r, id) == if r[n].id == id then r[n].gamesPlayed else SeedGames(r[..n], id);
      if players[n].id != id {
        SeedGamesCredit(players[..n], m, now, id);
        OnRosterBeforeLast(players, id);
      }
    }
  }

  /** An id other than the last entry's is on the roster exactly when it is on the rest. */
  lemma OnRosterBeforeLast(players: seq<Player>, id: string)
    requires players != [] && players[|players| - 1].id != id
    ensures OnRoster(players, id) == OnRoster(players[..|players| - 1], id)
  {
    var init := players[..|players| - 1];
    if OnRoster(players, id) {
      var k :| 0 <= k < |players| && players[k].id == id;
      assert init[k] == players[k];
    }
    if OnRoster(init, id) {
      var k :| 0 <= k < |init| && init[k].id == id;
      assert players[k] == init[k];
    }
  }

  /** The update of a roster is the update of all but its last entry, then of the last. */
  lemma CreditSplits(players: seq<Player>, m: Match, now: int)
    requires players != []
    ensures var n := |players| - 1;
            Credit(players, m, now)[..n] == Credit(players[..n], m, now) &&
            Credit(players, m, now)[n] == CreditPlayer(players[n], m, now)
  {
    var n := |players| - 1;
    assert forall i | 0 <= i < n :: Credit(players, m, now)[..n][i] == Credit(players[..n], m, now)[i];
  }

  lemma {:induction false} CourtGamesCleared(courts: seq<Court>, courtId: int, ci: nat, id: string)
    requires CourtIdsUnique(courts) && ci < |courts| && courts[ci].id == courtId
    requires courts[ci].currentMatch.Some?
    ensures CourtGames(SetCourtMatch(courts, courtId, None), id) ==
            CourtGames(courts, id) - RealCount(Slots(courts[ci].currentMatch.value), id)
  {
    var n := |courts| - 1;
    var nc := SetCourtMatch(courts, courtId, None);
    var init := courts[..n];
    assert nc[..n] == SetCourtMatch(init, courtId, None);
    if ci < n {
      CourtGamesCleared(init, courtId, ci, id);
    } else {
      assert forall i :: 0 <= i < n ==> init[i].id != courtId;
      assert SetCourtMatch(init, courtId, None) == init;
    }
  }

  /** A played game is counted once: finishing a court's match moves each of its real players'
      game from the court projection into the recorded count, so no roster player's projected
      games change. */
  lemma FinishKeepsProjectedGames(players: seq<Player>, courts: seq<Court>, queue: seq<Match>,
                                  courtId: int, ci: nat, now: int, id: string)
    requires CourtIdsUnique(courts) && Exclusive(courts, queue) && SeatsTagged(courts, queue)
    requires forall k :: 0 <= k < |players| ==> !IsPlaceholderPlayer(players[k]) && WellTagged(players[k])
    requires ci < |courts| && courts[ci].id == courtId && courts[ci].currentMatch.Some?
    requires OnRoster(players, id)
    ensures var m := courts[ci].currentMatch.value;
            ProjectedGames(Credit(players, m, now), SetCourtMatch(courts, courtId, None), queue, id) ==
            ProjectedGames(players, courts, queue, id)
  {
    var m := courts[ci].currentMatch.value;
    SeedGamesCredit(players, m, now, id);
    CourtGamesCleared(courts, courtId, ci, id);
    SeatsAtMostOnce(courts, queue, CourtSeat(ci, 0), m, id);
    var k :| 0 <= k < |players| && players[k].id == id;
    if Participant(m, id) {
      var s := SlotOf(m, id).value;
      assert Occupant(courts, queue, CourtSeat(ci, s)) == Some(Slots(m)[s]);
      assert WellTagged(Slots(m)[s]);
      assert WellTagged(players[k]);
      RealCountComplete(Slots(m), s, id);
    } else {
      RealCountZero(Slots(m), id);
    }
  }

  /** resetAllStats' roster update. */
  function ResetPlayers(players: seq<Player>): (r: seq<Player>)
    ensures |r| == |players|
    ensures forall i :: 0 <= i < |players| ==>
              r[i] == players[i].(gamesPlayed := 0, lastMatchTime := Some(0))
  {
    seq(|players|, i requires 0 <= i < |players| => players[i].(gamesPlayed := 0, lastMatchTime := Some(0)))
  }

  /** resetAllStats' court update: every court idle. */
  function IdleCourts(courts: seq<Court>): (r: seq<Court>)
    ensures |r| == |courts|
    ensures forall i :: 0 <= i < |courts| ==> r[i] == courts[i].(currentMatch := None)
  {
    seq(|courts|, i requires 0 <= i < |courts| => courts[i].(currentMatch := None))
  }

  /** The roster filter of handleRemovePlayer. */
  function RemoveFromRoster(players: seq<Player>, id: string): (r: seq<Player>)
    ensures forall p :: p in r <==> p in players && p.id != id
    ensures |r| <= |players|
  {
    if players == [] then []
    else
      var last := players[|players| - 1];
      RemoveFromRoster(players[..|players| - 1], id) + (if last.id != id then [last] else [])
  }

  /** Removing a player keeps the roster real, well tagged and free of duplicate ids. */
  lemma {:induction false} RemoveKeepsRosterTagged(players: seq<Player>, id: string)
    requires RosterTagged(players)
    ensures RosterTagged(RemoveFromRoster(players, id))
  {
    if players != [] {
      var init := players[..|players| - 1];
      var last := players[|players| - 1];
      assert RosterTagged(init);
      RemoveKeepsRosterTagged(init, id);
      var r := RemoveFromRoster(players, id);
      forall k | 0 <= k < |r|
        ensures !IsPlaceholderPlayer(r[k]) && WellTagged(r[k])
      {
        assert r[k] in r;
        var j :| 0 <= j < |players| && players[j] == r[k];
      }
      forall q | q in RemoveFromRoster(init, id)
        ensures q.id != last.id
      {
        var j :| 0 <= j < |init| && init[j] == q;
        assert players[j] == q;
      }
    }
  }

  /** `idx` lists, in increasing order, the roster indices that `r` keeps: exactly those whose
      id differs from `id`. */
  ghost predicate KeptInOrder(players: seq<Player>, id: string, r: seq<Player>, idx: seq<nat>)
  {
    |idx| == |r| &&
    (forall i :: 0 <= i < |idx| ==> idx[i] < |players| && r[i] == players[idx[i]]) &&
    (forall i, j :: 0 <= i < j < |idx| ==> idx[i] < idx[j]) &&
    (forall j :: 0 <= j < |players| && players[j].id != id ==> j in idx)
  }

  /** One step of the filter: a last player with another id is kept at the end. */
  lemma KeptInOrderKeep(players: seq<Player>, id: string, r0: seq<Player>, prev: seq<nat>)
    requires players != [] && players[|players| - 1].id != id
    requires KeptInOrder(players[..|players| - 1], id, r0, prev)
    ensures KeptInOrder(players, id, r0 + [players[|players| - 1]], prev + [|players| - 1])
  {
    var n := |players| - 1;
    var init := players[..n];
    var r := r0 + [players[n]];
    var idx := prev + [n];
    forall i | 0 <= i < |idx|
      ensures idx[i] < |players| && r[i] == players[idx[i]]
    {
      if i < |prev| {
        assert idx[i] == prev[i] && r[i] == r0[i] && init[prev[i]] == players[prev[i]];
      }
    }
    forall j | 0 <= j < |players| && players[j].id != id
      ensures j in idx
    {
      if j < n {
        assert init[j] == players[j];
        assert j in prev;
      }
    }
  }

  /** One step of the filter: a last player with the removed id is dropped. */
  lemma KeptInOrderDrop(players: seq<Player>, id: string, r0: seq<Player>, prev: seq<nat>)
    requires players != [] && players[|players| - 1].id == id
    requires KeptInOrder(players[..|players| - 1], id, r0, prev)
    ensures KeptInOrder(players, id, r0, prev)
  {
    var init := players[..|players| - 1];
    forall i | 0 <= i < |prev|
      ensures prev[i] < |players| && r0[i] == players[prev[i]]
    {
      assert init[prev[i]] == players[prev[i]];
    }
    forall j | 0 <= j < |players| && players[j].id != id
      ensures j in prev
    {
      assert init[j] == players[j];
    }
  }

  /** The last step of the roster filter. */
  lemma RemoveFromRosterLast(players: seq<Player>, id: string)
    requires players != []
    ensures var n := |players| - 1;
            RemoveFromRoster(players, id) ==
            RemoveFromRoster(players[..n], id) + (if players[n].id != id then [players[n]] else [])
  {
  }

  /** RemoveFromRoster keeps a subsequence: the kept players stay in roster order, and every
      roster index whose id differs from the removed one is kept. */
  lemma {:induction false} RosterKeptIndices(players: seq<Player>, id: string) returns (idx: seq<nat>)
    ensures KeptInOrder(players, id, RemoveFromRoster(players, id), idx)
  {
    if players == [] {
      idx := [];
    } else {
      var n := |players| - 1;
      var prev := RosterKeptIndices(players[..n], id);
      RemoveFromRosterLast(players, id);
      if players[n].id != id {
        KeptInOrderKeep(players, id, RemoveFromRoster(players[..n], id), prev);
        idx := prev + [n];
      } else {
        KeptInOrderDrop(players, id, RemoveFromRoster(players[..n], id), prev);
        idx := prev;
      }
    }
  }

  /** A queued match is dropped by handleRemovePlayer when any seat holds the id. */
  predicate HasSeatId(m: Match, id: string)
  {
    SlotOf(m, id).Some?
  }

  /** The queue filter of handleRemovePlayer: whole matches holding the id are dropped. */
  function DropMatchesWith(queue: seq<Match>, id: string): (r: seq<Match>)
    ensures |r| <= |queue|
  {
    if queue == [] then []
    else
      var last := queue[|queue| - 1];
      DropMatchesWith(queue[..|queue| - 1], id) + (if !HasSeatId(last, id) then [last] else [])
  }

  /** The filter keeps exactly the queued matches in which no seat holds the id. */
  lemma {:induction false} DropMatchesWithKeeps(queue: seq<Match>, id: string)
    ensures forall m :: m in DropMatchesWith(queue, id) <==> m in queue && !HasSeatId(m, id)
  {
    if queue != [] {
      var n := |queue| - 1;
      DropMatchesWithKeeps(queue[..n], id);
      assert queue == queue[..n] + [queue[n]];
    }
  }

  /** DropMatchesWith keeps a subsequence: which old index each kept match comes from. */
  lemma {:induction false} DropIndices(queue: seq<Match>, id: string) returns (idx: seq<nat>)
    ensures var r := DropMatchesWith(queue, id);
            |idx| == |r| &&
            (forall i :: 0 <= i < |idx| ==> idx[i] < |queue| && r[i] == queue[idx[i]]) &&
            (forall i, j :: 0 <= i < j < |idx| ==> idx[i] < idx[j])
  {
    if queue == [] {
      idx := [];
    } else {
      var n := |queue| - 1;
      var init := queue[..n];
      var prev := DropIndices(init, id);
      var r0 := DropMatchesWith(init, id);
      var r := DropMatchesWith(queue, id);
      if !HasSeatId(queue[n], id) {
        assert r == r0 + [queue[n]];
        idx := prev + [n];
        forall i | 0 <= i < |idx|
          ensures idx[i] < |queue| && r[i] == queue[idx[i]]
        {
          if i < |prev| {
            assert idx[i] == prev[i] && r[i] == r0[i] && init[prev[i]] == queue[prev[i]];
          }
        }
      } else {
        assert r == r0;
        idx := prev;
        forall i | 0 <= i < |idx|
          ensures idx[i] < |queue| && r[i] == queue[idx[i]]
        {
          assert init[prev[i]] == queue[prev[i]];
        }
      }
    }
  }

  /** handleRemovePlayer keeps the invariants on seats and on queued match ids. */
  lemma RemoveKeepsSeatInvariants(courts: seq<Court>, queue: seq<Match>, id: string)
    requires Exclusive(courts, queue) && SeatsTagged(courts, queue) && MatchIdsUnique(queue)
    ensures var nq := DropMatchesWith(queue, id);
            Exclusive(courts, nq) && SeatsTagged(courts, nq) && MatchIdsUnique(nq)
  {
    var nq := DropMatchesWith(queue, id);
    var idx := DropIndices(queue, id);
    var f := (p: Pos) => match p
                        case CourtSeat(_, _) => p
                        case QueueSeat(i, s) => if i < |idx| then QueueSeat(idx[i], s) else p;
    forall p
      ensures Occupant(courts, nq, p).Some? ==> Occupant(courts, nq, p) == Occupant(courts, queue, f(p))
    {
    }
    forall p1, p2 | p1 != p2 && RealAt(courts, nq, p1) && RealAt(courts, nq, p2)
      ensures f(p1) != f(p2)
    {
      if p1.QueueSeat? && p2.QueueSeat? && p1.index != p2.index {
        assert idx[p1.index] != idx[p2.index];
      }
    }
    ExclusiveAfterPlacing(courts, queue, courts, nq, f, p => false);
    TaggedAfterPlacing(courts, queue, courts, nq, f, p => false);
    forall i, j | 0 <= i < j < |nq|
      ensures nq[i].id != nq[j].id
    {
      assert nq[i] == queue[idx[i]] && nq[j] == queue[idx[j]];
    }
  }

  /** After handleRemovePlayer no queued seat holds the id. */
  lemma RemoveClearsQueue(queue: seq<Match>, id: string, i: nat, s: nat)
    ensures !QueueHolds(DropMatchesWith(queue, id), i, s, id)
  {
    var nq := DropMatchesWith(queue, id);
    if i < |nq| && s < 4 {
      DropMatchesWithKeeps(queue, id);
      assert nq[i] in nq;
    }
  }

  /** handleTogglePause's roster update. */
  function TogglePaused(players: seq<Player>, id: string): (r: seq<Player>)
    ensures |r| == |players|
    ensures forall i :: 0 <= i < |players| ==>
              r[i] == if players[i].id == id then players[i].(isPaused := !players[i].isPaused) else players[i]
  {
    seq(|players|, i requires 0 <= i < |players| =>
      if players[i].id == id then players[i].(isPaused := !players[i].isPaused) else players[i])
  }

  /** Toggling twice restores the roster. */
  lemma TogglePausedTwice(players: seq<Player>, id: string)
    ensures TogglePaused(TogglePaused(players, id), id) == players
  {
  }
}
