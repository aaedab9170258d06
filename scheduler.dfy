/** The state of the App component and its handlers (App.tsx): the roster, the courts, the
    match queue and the signature history, updated in place by each handler. `now` stands for
    Date.now(); generated ids, placeholder suffixes and random jitter are parameters. */
module App {
  import opened Types
  import opened Constants
  import opened Levels
  import opened Matches
  import opened Seating
  import opened Sorting
  import opened Fairness
  import opened Pairing
  import opened Moves
  import opened Lifecycle
  import opened Replenish
  import opened AutoFill

  /** The fourteen players the app starts with (no games, never played, none paused). */
  const SEED_ROSTER: seq<Player> := [
    Player("1", "瑞育", "14", 0, None, false, false, Female),
    Player("2", "Kiki", "8", 0, None, false, false, Female),
    Player("3", "傑克", "8", 0, None, false, false, Male),
    Player("4", "大衛", "3", 0, None, false, false, Male),
    Player("5", "依依", "13", 0, None, false, false, Female),
    Player("6", "凱文", "18", 0, None, false, false, Male),
    Player("7", "麥可", "2", 0, None, false, false, Male),
    Player("8", "莎拉", "9", 0, None, false, false, Female),
    Player("9", "湯姆", "15", 0, None, false, false, Male),
    Player("10", "艾美", "7", 0, None, false, false, Female),
    Player("11", "雷歐", "17", 0, None, false, false, Male),
    Player("12", "妮娜", "1", 0, None, false, false, Female),
    Player("13", "志豪", "12", 0, None, false, false, Male),
    Player("14", "美玲", "6", 0, None, false, false, Female)
  ]

  /** The seed roster holds fourteen real players under distinct ids. */
  lemma SeedRosterTagged()
    ensures RosterTagged(SEED_ROSTER)
  {
    SeedRosterReal();
    SeedRosterDistinct();
  }

  /** No seed player is an empty seat, and no seed id is in the placeholder name space. */
  lemma SeedRosterReal()
    ensures forall k :: 0 <= k < |SEED_ROSTER| ==> !IsPlaceholderPlayer(SEED_ROSTER[k]) && WellTagged(SEED_ROSTER[k])
  {
    forall k | 0 <= k < |SEED_ROSTER|
      ensures 1 <= |SEED_ROSTER[k].id| <= 2 && !SEED_ROSTER[k].isPlaceholder
    {
    }
  }

  /** The seed ids are pairwise distinct. */
  lemma SeedRosterDistinct()
    ensures DistinctBy(SEED_ROSTER, (p: Player) => p.id)
  {
    forall i, j | 0 <= i < j < |SEED_ROSTER|
      ensures SEED_ROSTER[i].id != SEED_ROSTER[j].id
    {
    }
  }

  /** Courts 1..n, named "場地 <k>", all idle. */
  function InitialCourts(n: nat): (r: seq<Court>)
    ensures |r| == n && CourtIdsUnique(r)
    ensures forall i :: 0 <= i < n ==> r[i] == Court(i + 1, "場地 " + Decimal(i + 1), None)
  {
    seq(n, i requires 0 <= i < n => Court(i + 1, "場地 " + Decimal(i + 1), None))
  }

  /** No seat is occupied when every court is idle and the queue is empty. */
  lemma NothingSeated(courts: seq<Court>)
    requires forall i :: 0 <= i < |courts| ==> courts[i].currentMatch.None?
    ensures Exclusive(courts, []) && SeatsTagged(courts, [])
  {
    assert forall p :: Occupant(courts, [], p).None?;
  }

  /** The match synthesized for an idle target court (used only when the target is a court). */
  function ManualMatch(target: Target, manualId: string, now: int, suffixes: seq<string>): Match
    requires |suffixes| == 4
  {
    EmptyMatch(manualId, if target.ToCourt? then target.courtId else 0, now, suffixes)
  }

  /** `players.find(p => p.id === id)`. */
  function FindPlayer(players: seq<Player>, id: string): (r: Option<nat>)
    ensures r.Some? ==> r.value < |players| && players[r.value].id == id
    ensures r.Some? ==> forall j :: 0 <= j < r.value ==> players[j].id != id
    ensures r.None? ==> forall j :: 0 <= j < |players| ==> players[j].id != id
  {
    if players == [] then None
    else match FindPlayer(players[..|players| - 1], id)
      case Some(k) => Some(k)
      case None => if players[|players| - 1].id == id then Some(|players| - 1) else None
  }

  /** handleSubstitution's findSlot: the slot of `pid` in the addressed match, None for -1. */
  function SubstitutionSlot(courts: seq<Court>, queue: seq<Match>, target: Target, pid: string): (r: Option<nat>)
    ensures r.Some? ==> r.value < 4 && TargetPos(courts, queue, target, r.value).Some? &&
                        Holds(courts, queue, TargetPos(courts, queue, target, r.value).value, pid)
    ensures r.Some? ==> forall s :: 0 <= s < r.value ==>
                          !Holds(courts, queue, TargetPos(courts, queue, target, s).value, pid)
    ensures r.None? ==> forall s :: TargetPos(courts, queue, target, s).Some? ==>
                          !Holds(courts, queue, TargetPos(courts, queue, target, s).value, pid)
  {
    match target
    case ToCourt(cid) =>
      var ci := FindCourt(courts, cid);
      if ci.None? || courts[ci.value].currentMatch.None? then None
      else SlotOf(courts[ci.value].currentMatch.value, pid)
    case ToQueue(mid) =>
      var qi := FindMatch(queue, mid);
      if qi.None? then None else SlotOf(queue[qi.value], pid)
  }

  /** Who the substitution modal was opened for: a seat's container and its current occupant. */
  datatype SubstitutionTarget = SubstitutionTarget(target: Target, playerId: string)

  class Scheduler {
    var players: seq<Player>
    var courts: seq<Court>
    var matchQueue: seq<Match>
    var matchHistory: seq<Signature>

    /** The history is bounded, container ids are unique, the roster is real with distinct ids,
        every real player sits in at most one seat, and placeholders are exactly the seats
        with placeholder ids. */
    ghost predicate Valid()
      reads this
    {
      |matchHistory| <= HISTORY_SIZE_LIMIT &&
      CourtIdsUnique(courts) && MatchIdsUnique(matchQueue) &&
      RosterTagged(players) &&
      Exclusive(courts, matchQueue) && SeatsTagged(courts, matchQueue)
    }

    /** The initialization effect: the seed roster and two idle courts. */
    constructor ()
      ensures Valid()
      ensures players == SEED_ROSTER && courts == InitialCourts(DEFAULT_COURT_COUNT)
      ensures matchQueue == [] && matchHistory == []
    {
      players := SEED_ROSTER;
      courts := InitialCourts(DEFAULT_COURT_COUNT);
      matchQueue := [];
      matchHistory := [];
      SeedRosterTagged();
      NothingSeated(InitialCourts(DEFAULT_COURT_COUNT));
    }

    /** One pass of the queue-generation effect. */
    method Replenish(now: int, jitter: seq<real>, matchId: string, draftId: string, suffixes: seq<string>)
      requires Valid() && ValidJitter(jitter) && |suffixes| == 4
      requires NewMatchId(matchQueue, matchId) && NewMatchId(matchQueue, draftId)
      modifies this
      ensures Valid()
      ensures matchQueue == Replenished(old(players), old(courts), old(matchQueue), old(matchHistory),
                                        now, jitter, matchId, draftId, suffixes)
      ensures players == old(players) && courts == old(courts) && matchHistory == old(matchHistory)
    {
      ReplenishKeepsInvariants(players, courts, matchQueue, matchHistory, now, jitter, matchId, draftId, suffixes);
      matchQueue := ReplenishQueue(players, courts, matchQueue, matchHistory, now, jitter, matchId, draftId, suffixes);
    }

    /** assignMatchToCourt: the queue head goes on the court, stamped with its id and `now`; a
        match with four real players is recorded in the history. */
    method AssignMatchToCourt(courtId: int, now: int)
      requires Valid()
      modifies this
      ensures Valid()
      ensures old(matchQueue) == [] ==> courts == old(courts) && matchQueue == [] && matchHistory == old(matchHistory)
      ensures old(matchQueue) != [] ==>
                courts == SetCourtMatch(old(courts), courtId, Some(Activate(old(matchQueue)[0], courtId, now))) &&
                matchQueue == old(matchQueue)[1..] &&
                matchHistory == RecordPlayed(old(matchHistory), old(matchQueue)[0])
      ensures players == old(players)
    {
      if |matchQueue| == 0 {
        return;
      }
      var matchToPlay := matchQueue[0];
      AssignKeepsSeatInvariants(courts, matchQueue, courtId, now);
      matchHistory := RecordPlayed(matchHistory, matchToPlay);
      courts := SetCourtMatch(courts, courtId, Some(Activate(matchToPlay, courtId, now)));
      matchQueue := matchQueue[1..];
    }

    /** finishMatch: the court's match ends, its real players are credited, and no rostered
        player's projected games change. */
    method FinishMatch(courtId: int, now: int)
      requires Valid()
      modifies this
      ensures Valid()
      ensures var ci := FindCourt(old(courts), courtId);
              if ci.Some? && old(courts)[ci.value].currentMatch.Some?
              then players == Credit(old(players), old(courts)[ci.value].currentMatch.value, now) &&
                   courts == SetCourtMatch(old(courts), courtId, None)
              else players == old(players) && courts == old(courts)
      ensures matchQueue == old(matchQueue) && matchHistory == old(matchHistory)
      ensures forall id :: OnRoster(old(players), id) ==>
                ProjectedGames(players, courts, matchQueue, id) ==
                ProjectedGames(old(players), old(courts), old(matchQueue), id)
    {
      var ci := FindCourt(courts, courtId);
      if ci.Some? && courts[ci.value].currentMatch.Some? {
        var m := courts[ci.value].currentMatch.value;
        forall id | OnRoster(players, id)
          ensures ProjectedGames(Credit(players, m, now), SetCourtMatch(courts, courtId, None), matchQueue, id) ==
                  ProjectedGames(players, courts, matchQueue, id)
        {
          FinishKeepsProjectedGames(players, courts, matchQueue, courtId, ci.value, now, id);
        }
        ClearKeepsSeatInvariants(courts, matchQueue, courtId);
        players := Credit(players, m, now);
        courts := SetCourtMatch(courts, courtId, None);
      }
    }

    /** clearCourt: the court becomes idle without crediting anyone. */
    method ClearCourt(courtId: int)
      requires Valid()
      modifies this
      ensures Valid()
      ensures courts == SetCourtMatch(old(courts), courtId, None)
      ensures players == old(players) && matchQueue == old(matchQueue) && matchHistory == old(matchHistory)
    {
      ClearKeepsSeatInvariants(courts, matchQueue, courtId);
      courts := SetCourtMatch(courts, courtId, None);
    }

    /** resetAllStats: after confirmation every count and time is reset, every court idle,
        the queue and the history empty. */
    method ResetAllStats(confirmed: bool)
      requires Valid()
      modifies this
      ensures Valid()
      ensures !confirmed ==> players == old(players) && courts == old(courts) &&
                             matchQueue == old(matchQueue) && matchHistory == old(matchHistory)
      ensures confirmed ==> players == ResetPlayers(old(players)) && courts == IdleCourts(old(courts)) &&
                            matchQueue == [] && matchHistory == []
    {
      if !confirmed {
        return;
      }
      players := ResetPlayers(players);
      courts := IdleCourts(courts);
      matchQueue := [];
      matchHistory := [];
      NothingSeated(courts);
    }

    /** handleRemovePlayer: the player leaves the roster and every queued match holding the id
        is dropped whole; courts keep playing. */
    method RemovePlayer(id: string)
      requires Valid()
      modifies this
      ensures Valid()
      ensures players == RemoveFromRoster(old(players), id)
      ensures matchQueue == DropMatchesWith(old(matchQueue), id)
      ensures forall i, s :: !QueueHolds(matchQueue, i, s, id)
      ensures courts == old(courts) && matchHistory == old(matchHistory)
    {
      RemoveKeepsRosterTagged(players, id);
      RemoveKeepsSeatInvariants(courts, matchQueue, id);
      players := RemoveFromRoster(players, id);
      matchQueue := DropMatchesWith(matchQueue, id);
      forall i, s
        ensures !QueueHolds(matchQueue, i, s, id)
      {
        RemoveClearsQueue(old(matchQueue), id, i, s);
      }
    }

    /** handleTogglePause. */
    method TogglePause(id: string)
      requires Valid()
      modifies this
      ensures Valid()
      ensures players == TogglePaused(old(players), id)
      ensures courts == old(courts) && matchQueue == old(matchQueue) && matchHistory == old(matchHistory)
    {
      players := TogglePaused(players, id);
    }

    /** executeMoveOrSwap: the mover takes the target seat and the seat's previous occupant (or a
        fresh placeholder) takes the mover's old seat; an idle target court gets a match of
        placeholders first. `phSuffix` names the fresh placeholder, `manualId` and
        `manualSuffixes` the synthesized match. */
    method ExecuteMoveOrSwap(mover: Player, target: Target, slot: int, now: int,
                             phSuffix: string, manualId: string, manualSuffixes: seq<string>)
      requires Valid() && |manualSuffixes| == 4
      requires !IsPlaceholderPlayer(mover) && WellTagged(mover)
      modifies this
      ensures Valid()
      ensures courts == MovedCourts(old(courts), old(matchQueue), target, slot, mover, MakePlaceholder(phSuffix),
                                    ManualMatch(target, manualId, now, manualSuffixes))
      ensures matchQueue == MovedQueue(old(courts), old(matchQueue), target, slot, mover, MakePlaceholder(phSuffix))
      ensures players == old(players) && matchHistory == old(matchHistory)
    {
      var vacant := MakePlaceholder(phSuffix);
      var synth := ManualMatch(target, manualId, now, manualSuffixes);
      var sourcePos := FindPlayerPosition(courts, matchQueue, mover.id);
      var targetPlayer := TargetOccupant(courts, matchQueue, target, slot, vacant);
      MoveKeepsSeatInvariants(courts, matchQueue, target, slot, mover, vacant, synth);
      MoveKeepsIds(courts, matchQueue, target, slot, mover, sourcePos, targetPlayer, synth);
      courts := MoveCourts(courts, target, slot, mover, sourcePos, targetPlayer, synth);
      matchQueue := MoveQueue(matchQueue, target, slot, mover, sourcePos, targetPlayer);
    }

    /** handleAutoFillSlot: the best-ranked candidate moves into the slot; nothing happens
        when no one is available. */
    method AutoFillSlot(matchId: string, slot: int, now: int,
                        phSuffix: string, manualId: string, manualSuffixes: seq<string>)
      requires Valid() && |manualSuffixes| == 4
      modifies this
      ensures Valid()
      ensures var cands := Ranking(old(players), old(courts), old(matchQueue), now);
              if cands == [] then courts == old(courts) && matchQueue == old(matchQueue)
              else courts == MovedCourts(old(courts), old(matchQueue), ToQueue(matchId), slot, cands[0],
                                         MakePlaceholder(phSuffix), ManualMatch(ToQueue(matchId), manualId, now, manualSuffixes)) &&
                   matchQueue == MovedQueue(old(courts), old(matchQueue), ToQueue(matchId), slot, cands[0],
                                            MakePlaceholder(phSuffix))
      ensures players == old(players) && matchHistory == old(matchHistory)
    {
      var candidates := BestCandidates(players, courts, matchQueue, now);
      if |candidates| == 0 {
        return;
      }
      RankingNewcomers(players, courts, matchQueue, now);
      ExecuteMoveOrSwap(candidates[0], ToQueue(matchId), slot, now, phSuffix, manualId, manualSuffixes);
    }

    /** handleAutoFillMatch: the match's empty slots, in slot order, take the best-ranked
        candidates while they last; real seats and every other match are untouched. */
    method AutoFillMatch(matchId: string, now: int)
      requires Valid()
      modifies this
      ensures Valid()
      ensures |matchQueue| == |old(matchQueue)|
      ensures var qi := FindMatch(old(matchQueue), matchId);
              (qi.None? ==> matchQueue == old(matchQueue)) &&
              (qi.Some? ==>
                 (forall j :: 0 <= j < |matchQueue| && j != qi.value ==> matchQueue[j] == old(matchQueue)[j]) &&
                 FilledFrom(old(matchQueue)[qi.value], Ranking(old(players), old(courts), old(matchQueue), now),
                            matchQueue[qi.value]))
      ensures players == old(players) && courts == old(courts) && matchHistory == old(matchHistory)
    {
      var candidates := BestCandidates(players, courts, matchQueue, now);
      var qi := FindMatch(matchQueue, matchId);
      if qi.None? {
        return;
      }
      var m := matchQueue[qi.value];
      var emptySlotIndices := EmptyIn(m, 4);
      if |emptySlotIndices| == 0 || |candidates| == 0 {
        NothingToFill(m, candidates);
        return;
      }
      var updated := FillEmptySlots(m, candidates);
      RankingNewcomers(players, courts, matchQueue, now);
      FillKeepsSeatInvariants(courts, matchQueue, qi.value, candidates, updated);
      matchQueue := matchQueue[qi.value := updated];
    }

    /** handleSubstitution: the chosen roster player takes the seat of the player the modal
        was opened for, when that player still sits in the addressed match. */
    method Substitution(sub: Option<SubstitutionTarget>, newPlayerId: string, now: int,
                        phSuffix: string, manualId: string, manualSuffixes: seq<string>)
      requires Valid() && |manualSuffixes| == 4
      modifies this
      ensures Valid()
      ensures var k := FindPlayer(old(players), newPlayerId);
              var slotIdx := if sub.Some? then SubstitutionSlot(old(courts), old(matchQueue), sub.value.target, sub.value.playerId) else None;
              if sub.None? || k.None? || slotIdx.None?
              then courts == old(courts) && matchQueue == old(matchQueue)
              else var p := old(players)[k.value];
                   courts == MovedCourts(old(courts), old(matchQueue), sub.value.target, slotIdx.value, p,
                                         MakePlaceholder(phSuffix), ManualMatch(sub.value.target, manualId, now, manualSuffixes)) &&
                   matchQueue == MovedQueue(old(courts), old(matchQueue), sub.value.target, slotIdx.value, p,
                                            MakePlaceholder(phSuffix))
      ensures players == old(players) && matchHistory == old(matchHistory)
    {
      if sub.None? {
        return;
      }
      var k := FindPlayer(players, newPlayerId);
      if k.None? {
        return;
      }
      var newPlayer := players[k.value];
      var slotIdx := SubstitutionSlot(courts, matchQueue, sub.value.target, sub.value.playerId);
      if slotIdx.Some? {
        ExecuteMoveOrSwap(newPlayer, sub.value.target, slotIdx.value, now, phSuffix, manualId, manualSuffixes);
      }
    }

    /** handlePlayerDrop: a dragged player moves onto a court slot. */
    method PlayerDrop(dragged: Option<Player>, courtId: int, slot: int, now: int,
                      phSuffix: string, manualId: string, manualSuffixes: seq<string>)
      requires Valid() && |manualSuffixes| == 4
      requires dragged.Some? ==> !IsPlaceholderPlayer(dragged.value) && WellTagged(dragged.value)
      modifies this
      ensures Valid()
      ensures dragged.None? ==> courts == old(courts) && matchQueue == old(matchQueue)
      ensures dragged.Some? ==>
                courts == MovedCourts(old(courts), old(matchQueue), ToCourt(courtId), slot, dragged.value,
                                      MakePlaceholder(phSuffix), ManualMatch(ToCourt(courtId), manualId, now, manualSuffixes)) &&
                matchQueue == MovedQueue(old(courts), old(matchQueue), ToCourt(courtId), slot, dragged.value,
                                         MakePlaceholder(phSuffix))
      ensures players == old(players) && matchHistory == old(matchHistory)
    {
      if dragged.None? {
        return;
      }
      ExecuteMoveOrSwap(dragged.value, ToCourt(courtId), slot, now, phSuffix, manualId, manualSuffixes);
    }

    /** handleQueueDrop: a dragged player moves into a queue slot; one dragged from the bench
        is refused when already on a court or in the queue. */
    method QueueDrop(dragged: Option<Player>, fromBench: bool, matchId: string, slot: int, now: int,
                     phSuffix: string, manualId: string, manualSuffixes: seq<string>)
      requires Valid() && |manualSuffixes| == 4
      requires dragged.Some? ==> !IsPlaceholderPlayer(dragged.value) && WellTagged(dragged.value)
      modifies this
      ensures Valid()
      ensures dragged.None? || (fromBench && dragged.value.id in SeatIds(old(courts), old(matchQueue))) ==>
                courts == old(courts) && matchQueue == old(matchQueue)
      ensures dragged.Some? && !(fromBench && dragged.value.id in SeatIds(old(courts), old(matchQueue))) ==>
                courts == MovedCourts(old(courts), old(matchQueue), ToQueue(matchId), slot, dragged.value,
                                      MakePlaceholder(phSuffix), ManualMatch(ToQueue(matchId), manualId, now, manualSuffixes)) &&
                matchQueue == MovedQueue(old(courts), old(matchQueue), ToQueue(matchId), slot, dragged.value,
                                         MakePlaceholder(phSuffix))
      ensures players == old(players) && matchHistory == old(matchHistory)
    {
      if dragged.None? {
        return;
      }
      if fromBench {
        var isOnCourt := dragged.value.id in CourtIds(courts);
        if isOnCourt {
          return;
        }
        var isAlreadyInQueue := dragged.value.id in QueueIds(matchQueue);
        if isAlreadyInQueue {
          return;
        }
      }
      ExecuteMoveOrSwap(dragged.value, ToQueue(matchId), slot, now, phSuffix, manualId, manualSuffixes);
    }
  }

  /** Filling a match with no empty slot, or from no candidates, changes nothing. */
  lemma NothingToFill(m: Match, cands: seq<Player>)
    requires |EmptyIn(m, 4)| == 0 || |cands| == 0
    ensures FilledFrom(m, cands, m)
  {
    forall s | 0 <= s < 4 && IsPlaceholderPlayer(Slots(m)[s])
      ensures Rank(m, s) >= |cands|
    {
      assert s in EmptyIn(m, 4);
    }
  }
}
