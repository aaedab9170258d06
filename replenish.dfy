/** The queue-generation effect of App.tsx (lines 195-291), one pass: decide whether the
    queue needs a match, build one from the four best-ranked players or append a draft. */
module Replenish {
  import opened Types
  import opened Constants
  import opened Matches
  import opened Seating
  import opened Sorting
  import opened Pairing
  import opened Fairness

  /** `courts.every(c => c.currentMatch)`. */
  predicate AllCourtsBusy(courts: seq<Court>)
  {
    forall i | 0 <= i < |courts| :: courts[i].currentMatch.Some?
  }

  /** The buffer the queue is grown to: 4 while every court plays, 6 while one is idle. */
  function TargetQueueSize(courts: seq<Court>): nat
  {
    if AllCourtsBusy(courts) then 4 else 6
  }

  /** `findIndex(isDraftMatch)`. */
  function FirstDraft(queue: seq<Match>): (r: Option<nat>)
    ensures r.Some? ==> r.value < |queue| && IsDraftMatch(queue[r.value])
    ensures r.Some? ==> forall j :: 0 <= j < r.value ==> !IsDraftMatch(queue[j])
    ensures r.None? ==> forall j :: 0 <= j < |queue| ==> !IsDraftMatch(queue[j])
  {
    if queue == [] then None
    else match FirstDraft(queue[..|queue| - 1])
      case Some(d) => Some(d)
      case None => if IsDraftMatch(queue[|queue| - 1]) then Some(|queue| - 1) else None
  }

  /** `needGeneration`: the queue is short, or holds a draft that might be filled. */
  predicate NeedsGeneration(courts: seq<Court>, queue: seq<Match>)
  {
    |queue| < TargetQueueSize(courts) || FirstDraft(queue).Some?
  }

  /** The pairing of the four selected players. */
  function PairUp(sel: seq<Player>, history: seq<Signature>, jitter: seq<real>, matchId: string): Match
    requires |sel| == 4 && |jitter| == 3
  {
    BuildMatch(sel, ChosenSplit(Skills(sel), Repetitions(sel, history), jitter), matchId)
  }

  /** The `setMatchQueue` updater for a built match: it replaces the first draft, or is
      appended while the queue is below the target size. */
  function Enqueue(queue: seq<Match>, target: nat, m: Match): seq<Match>
  {
    match FirstDraft(queue)
    case Some(d) => queue[d := m]
    case None => if |queue| < target then queue + [m] else queue
  }

  /** When generation is needed, the built match lands over the first draft or at the end. */
  lemma EnqueueCases(queue: seq<Match>, target: nat, m: Match)
    requires |queue| < target || FirstDraft(queue).Some?
    ensures var r := Enqueue(queue, target, m);
            (exists d :: 0 <= d < |queue| && IsDraftMatch(queue[d]) && r == queue[d := m] &&
                         forall j :: 0 <= j < d ==> !IsDraftMatch(queue[j])) ||
            ((forall j :: 0 <= j < |queue| ==> !IsDraftMatch(queue[j])) && r == queue + [m])
  {
    var fd := FirstDraft(queue);
    if fd.Some? {
      var d := fd.value;
      assert IsDraftMatch(queue[d]);
    }
  }

  /** The updater adds at most one match, only below the target size, and keeps every non-draft. */
  lemma EnqueueBounded(queue: seq<Match>, target: nat, m: Match)
    ensures var r := Enqueue(queue, target, m);
            |queue| <= |r| <= |queue| + 1 &&
            (|r| == |queue| + 1 ==> |r| <= target) &&
            forall j :: 0 <= j < |queue| && !IsDraftMatch(queue[j]) ==> r[j] == queue[j]
  {
  }

  /** The updater either keeps the queue or places the match over a draft or at the end. */
  lemma EnqueuePlace(queue: seq<Match>, target: nat, m: Match) returns (d: nat)
    ensures var r := Enqueue(queue, target, m);
            r == queue || (d <= |queue| && (d < |queue| ==> IsDraftMatch(queue[d])) && r == Place(queue, d, m))
  {
    d := if FirstDraft(queue).Some? then FirstDraft(queue).value else |queue|;
  }

  /** The steps after getBestCandidates, from the ranked candidates: with four of them a
      match is built and enqueued, otherwise a short queue gains a draft. */
  function Generate(courts: seq<Court>, queue: seq<Match>, cands: seq<Player>, history: seq<Signature>,
                    jitter: seq<real>, matchId: string, draftId: string, suffixes: seq<string>): seq<Match>
    requires |jitter| == 3 && |suffixes| == 4
  {
    if |cands| >= 4 then Enqueue(queue, TargetQueueSize(courts), PairUp(cands[..4], history, jitter, matchId))
    else if |queue| < TargetQueueSize(courts) then queue + [EmptyMatch(draftId, 0, 0, suffixes)]
    else queue
  }

  /** The queue after one pass of the effect. `now` stands for Date.now(), `jitter` for the
      three Math.random()*5 draws, `matchId` and `draftId` for the generated ids and
      `suffixes` for the four placeholder ids of a draft. */
  function Replenished(players: seq<Player>, courts: seq<Court>, queue: seq<Match>, history: seq<Signature>,
                       now: int, jitter: seq<real>, matchId: string, draftId: string, suffixes: seq<string>): seq<Match>
    requires |jitter| == 3 && |suffixes| == 4
  {
    if |players| < 4 || !NeedsGeneration(courts, queue) then queue
    else Generate(courts, queue, Ranking(players, courts, queue, now), history, jitter, matchId, draftId, suffixes)
  }

  /** The effect body, one pass: the guards, then the candidates. */
  method ReplenishQueue(players: seq<Player>, courts: seq<Court>, queue: seq<Match>, history: seq<Signature>,
                        now: int, jitter: seq<real>, matchId: string, draftId: string, suffixes: seq<string>)
    returns (q: seq<Match>)
    requires |jitter| == 3 && |suffixes| == 4
    ensures q == Replenished(players, courts, queue, history, now, jitter, matchId, draftId, suffixes)
  {
    q := queue;
    if |players| < 4 {
      return;
    }
    var targetQueueSize := TargetQueueSize(courts);
    var firstDraftIndex := FirstDraft(queue);
    var needGeneration := |queue| < targetQueueSize || firstDraftIndex.Some?;
    if needGeneration {
      var sortedCandidates := BestCandidates(players, courts, queue, now);
      q := GenerateQueue(courts, queue, sortedCandidates, history, jitter, matchId, draftId, suffixes);
    }
  }

  /** The effect body from `sortedCandidates` on: pair the top four and place the match, or
      append a draft. */
  method GenerateQueue(courts: seq<Court>, queue: seq<Match>, sortedCandidates: seq<Player>, history: seq<Signature>,
                       jitter: seq<real>, matchId: string, draftId: string, suffixes: seq<string>)
    returns (q: seq<Match>)
    requires |jitter| == 3 && |suffixes| == 4
    ensures q == Generate(courts, queue, sortedCandidates, history, jitter, matchId, draftId, suffixes)
  {
    q := queue;
    var targetQueueSize := TargetQueueSize(courts);
    if |sortedCandidates| >= 4 {
      var newMatch := PairSelected(sortedCandidates[..4], history, jitter, matchId);
      q := EnqueueMatch(queue, targetQueueSize, newMatch);
    } else if |queue| < targetQueueSize {
      q := queue + [EmptyMatch(draftId, 0, 0, suffixes)];
    }
  }

  /** The four selected players, split by the penalty optimiser. */
  method PairSelected(selectedPlayers: seq<Player>, history: seq<Signature>, jitter: seq<real>, matchId: string)
    returns (newMatch: Match)
    requires |selectedPlayers| == 4 && |jitter| == 3
    ensures newMatch == PairUp(selectedPlayers, history, jitter, matchId)
  {
    var bestComboIndex := ChooseSplit(Skills(selectedPlayers), selectedPlayers, history, jitter);
    newMatch := BuildMatch(selectedPlayers, bestComboIndex, matchId);
  }

  /** The `setMatchQueue` updater: replace the first draft, or append below the target size. */
  method EnqueueMatch(queue: seq<Match>, targetQueueSize: nat, newMatch: Match) returns (q: seq<Match>)
    ensures q == Enqueue(queue, targetQueueSize, newMatch)
  {
    q := queue;
    var draftIdx := FirstDraft(queue);
    if draftIdx.Some? {
      q := queue[draftIdx.value := newMatch];
    } else if |queue| < targetQueueSize {
      q := queue + [newMatch];
    }
  }

  // ---- what one pass does ----

  /** Nothing happens with fewer than four roster players, or with a full queue free of drafts. */
  lemma ReplenishIdle(players: seq<Player>, courts: seq<Court>, queue: seq<Match>, history: seq<Signature>,
                      now: int, jitter: seq<real>, matchId: string, draftId: string, suffixes: seq<string>)
    requires |jitter| == 3 && |suffixes| == 4
    requires |players| < 4 || (|queue| >= TargetQueueSize(courts) && forall j :: 0 <= j < |queue| ==> !IsDraftMatch(queue[j]))
    ensures Replenished(players, courts, queue, history, now, jitter, matchId, draftId, suffixes) == queue
  {
  }

  /** With four candidates, the first draft is replaced by (or, with no draft, the queue is
      extended by) a match of the first four, paired by the optimiser. */
  lemma GenerateBuilds(courts: seq<Court>, queue: seq<Match>, cands: seq<Player>, history: seq<Signature>,
                       jitter: seq<real>, matchId: string, draftId: string, suffixes: seq<string>)
    requires |jitter| == 3 && |suffixes| == 4
    requires NeedsGeneration(courts, queue) && |cands| >= 4
    ensures var r := Generate(courts, queue, cands, history, jitter, matchId, draftId, suffixes);
            var m := PairUp(cands[..4], history, jitter, matchId);
            multiset(Slots(m)) == multiset(cands[..4]) && m.id == matchId &&
            ((exists d :: 0 <= d < |queue| && IsDraftMatch(queue[d]) && r == queue[d := m] &&
                          forall j :: 0 <= j < d ==> !IsDraftMatch(queue[j])) ||
             ((forall j :: 0 <= j < |queue| ==> !IsDraftMatch(queue[j])) && r == queue + [m]))
  {
    var m := PairUp(cands[..4], history, jitter, matchId);
    assert Generate(courts, queue, cands, history, jitter, matchId, draftId, suffixes) == Enqueue(queue, TargetQueueSize(courts), m);
    EnqueueCases(queue, TargetQueueSize(courts), m);
  }

  /** With four available players, the first draft is replaced by (or, with no draft, the queue
      is extended by) a match of the four best-ranked players, paired by the optimiser. */
  lemma ReplenishBuilds(players: seq<Player>, courts: seq<Court>, queue: seq<Match>, history: seq<Signature>,
                        now: int, jitter: seq<real>, matchId: string, draftId: string, suffixes: seq<string>)
    requires |jitter| == 3 && |suffixes| == 4
    requires |players| >= 4 && NeedsGeneration(courts, queue)
    requires |Ranking(players, courts, queue, now)| >= 4
    ensures var r := Replenished(players, courts, queue, history, now, jitter, matchId, draftId, suffixes);
            var sel := Ranking(players, courts, queue, now)[..4];
            var m := PairUp(sel, history, jitter, matchId);
            multiset(Slots(m)) == multiset(sel) && m.id == matchId &&
            ((exists d :: 0 <= d < |queue| && IsDraftMatch(queue[d]) && r == queue[d := m] &&
                          forall j :: 0 <= j < d ==> !IsDraftMatch(queue[j])) ||
             ((forall j :: 0 <= j < |queue| ==> !IsDraftMatch(queue[j])) && r == queue + [m]))
  {
    var cands := Ranking(players, courts, queue, now);
    GenerateBuilds(courts, queue, cands, history, jitter, matchId, draftId, suffixes);
    assert Replenished(players, courts, queue, history, now, jitter, matchId, draftId, suffixes)
        == Generate(courts, queue, cands, history, jitter, matchId, draftId, suffixes);
  }

  /** With fewer than four candidates a short queue gets one empty draft at its end. */
  lemma GenerateDrafts(courts: seq<Court>, queue: seq<Match>, cands: seq<Player>, history: seq<Signature>,
                       jitter: seq<real>, matchId: string, draftId: string, suffixes: seq<string>)
    requires |jitter| == 3 && |suffixes| == 4
    requires |cands| < 4
    ensures var r := Generate(courts, queue, cands, history, jitter, matchId, draftId, suffixes);
            if |queue| < TargetQueueSize(courts)
            then |r| == |queue| + 1 && r[..|queue|] == queue && IsDraftMatch(r[|queue|]) && r[|queue|].id == draftId
            else r == queue
  {
    var r := Generate(courts, queue, cands, history, jitter, matchId, draftId, suffixes);
    if |queue| < TargetQueueSize(courts) {
      assert r[..|queue|] == queue;
    }
  }

  /** With fewer than four available players a short queue gets one empty draft at its end,
      and drafts already queued stay as they are. */
  lemma ReplenishDrafts(players: seq<Player>, courts: seq<Court>, queue: seq<Match>, history: seq<Signature>,
                        now: int, jitter: seq<real>, matchId: string, draftId: string, suffixes: seq<string>)
    requires |jitter| == 3 && |suffixes| == 4
    requires |players| >= 4 && |Ranking(players, courts, queue, now)| < 4
    ensures var r := Replenished(players, courts, queue, history, now, jitter, matchId, draftId, suffixes);
            if |queue| < TargetQueueSize(courts)
            then |r| == |queue| + 1 && r[..|queue|] == queue && IsDraftMatch(r[|queue|]) && r[|queue|].id == draftId
            else r == queue
  {
    GenerateDrafts(courts, queue, Ranking(players, courts, queue, now), history, jitter, matchId, draftId, suffixes);
  }

  /** Generation adds at most one match, only below the target size, and keeps every non-draft. */
  lemma GenerateBounded(courts: seq<Court>, queue: seq<Match>, cands: seq<Player>, history: seq<Signature>,
                        jitter: seq<real>, matchId: string, draftId: string, suffixes: seq<string>)
    requires |jitter| == 3 && |suffixes| == 4
    ensures var r := Generate(courts, queue, cands, history, jitter, matchId, draftId, suffixes);
            |queue| <= |r| <= |queue| + 1 &&
            (|r| == |queue| + 1 ==> |r| <= TargetQueueSize(courts)) &&
            forall j :: 0 <= j < |queue| && !IsDraftMatch(queue[j]) ==> r[j] == queue[j]
  {
    if |cands| >= 4 {
      EnqueueBounded(queue, TargetQueueSize(courts), PairUp(cands[..4], history, jitter, matchId));
    }
  }

  /** A pass adds at most one match and never grows the queue past the target size. */
  lemma ReplenishBounded(players: seq<Player>, courts: seq<Court>, queue: seq<Match>, history: seq<Signature>,
                         now: int, jitter: seq<real>, matchId: string, draftId: string, suffixes: seq<string>)
    requires |jitter| == 3 && |suffixes| == 4
    ensures var r := Replenished(players, courts, queue, history, now, jitter, matchId, draftId, suffixes);
            |queue| <= |r| <= |queue| + 1 &&
            (|r| == |queue| + 1 ==> |r| <= TargetQueueSize(courts)) &&
            forall j :: 0 <= j < |queue| && !IsDraftMatch(queue[j]) ==> r[j] == queue[j]
  {
    if |players| >= 4 && NeedsGeneration(courts, queue) {
      GenerateBounded(courts, queue, Ranking(players, courts, queue, now), history, jitter, matchId, draftId, suffixes);
    }
  }

  /** In a sorted list, each of the first four ranks no worse than any later entry. */
  lemma SelectedBeatBench(cands: seq<Player>, key: Player -> Key, m: Match, p: Player, q: Player)
    requires |cands| >= 4 && SortedBy(cands, key)
    requires multiset(Slots(m)) == multiset(cands[..4])
    requires p in Slots(m) && q in cands[4..]
    ensures KeyLe(key(p), key(q))
  {
    assert p in multiset(cands[..4]);
    var i :| 0 <= i < 4 && cands[..4][i] == p;
    var j :| 0 <= j < |cands| - 4 && cands[4..][j] == q;
    assert cands[i] == p && cands[j + 4] == q;
  }

  /** The players of the new match rank no worse than any available player left on the bench. */
  lemma ReplenishPicksFairest(players: seq<Player>, courts: seq<Court>, queue: seq<Match>, history: seq<Signature>,
                              jitter: seq<real>, now: int, matchId: string, p: Player, q: Player)
    requires |jitter| == 3
    requires |Ranking(players, courts, queue, now)| >= 4
    requires var cands := Ranking(players, courts, queue, now);
             p in Slots(PairUp(cands[..4], history, jitter, matchId)) && q in cands[4..]
    ensures KeyLe(FairnessKey(players, courts, queue, now, p), FairnessKey(players, courts, queue, now, q))
  {
    var cands := Ranking(players, courts, queue, now);
    var key := p => FairnessKey(players, courts, queue, now, p);
    RankingSorted(players, courts, queue, now);
    assert SortedBy(cands, key);
    SelectedBeatBench(cands, key, PairUp(cands[..4], history, jitter, matchId), p, q);
  }

  // ---- invariants one pass keeps ----

  /** A built match seats its four newcomers, once each. */
  lemma BuildMatchSeatsNewcomers(courts: seq<Court>, queue: seq<Match>, sel: seq<Player>, i: nat, matchId: string)
    requires |sel| == 4 && i < 3 && Newcomers(courts, queue, sel)
    ensures Newcomers(courts, queue, Slots(BuildMatch(sel, i, matchId)))
  {
    BuildMatchFollowsSplit(sel, i, matchId);
    var c := COMBINATIONS[i];
    NewcomersPicked(courts, queue, sel, c.a1, c.a2, c.b1, c.b2);
    assert Slots(BuildMatch(sel, i, matchId)) == [sel[c.a1], sel[c.a2], sel[c.b1], sel[c.b2]];
  }

  /** Four newcomers listed in another order are newcomers. */
  lemma NewcomersPicked(courts: seq<Court>, queue: seq<Match>, sel: seq<Player>, a: nat, b: nat, c: nat, d: nat)
    requires |sel| == 4 && Newcomers(courts, queue, sel)
    requires a < 4 && b < 4 && c < 4 && d < 4
    requires a != b && a != c && a != d && b != c && b != d && c != d
    ensures Newcomers(courts, queue, [sel[a], sel[b], sel[c], sel[d]])
  {
    var t, idx := [sel[a], sel[b], sel[c], sel[d]], [a, b, c, d];
    assert forall k :: 0 <= k < 4 ==> t[k] == sel[idx[k]];
  }

  /** The cut of a newcomer list is a newcomer list. */
  lemma NewcomersPrefix(courts: seq<Court>, queue: seq<Match>, cands: seq<Player>, n: nat)
    requires n <= |cands| && Newcomers(courts, queue, cands)
    ensures Newcomers(courts, queue, cands[..n])
  {
    assert forall k :: 0 <= k < n ==> cands[..n][k] == cands[k];
  }

  /** Seating a match of newcomers at queue index d (replacing a match without real players,
      or appending at the end) keeps the seat invariants. */
  lemma PlaceMatchKeepsSeatInvariants(courts: seq<Court>, queue: seq<Match>, d: nat, m: Match)
    requires Exclusive(courts, queue) && SeatsTagged(courts, queue)
    requires d <= |queue| && (d < |queue| ==> IsDraftMatch(queue[d]))
    requires forall k :: 0 <= k < 4 ==> WellTagged(Slots(m)[k])
    requires forall k1, k2 :: 0 <= k1 < k2 < 4 && !IsPlaceholderPlayer(Slots(m)[k1]) && !IsPlaceholderPlayer(Slots(m)[k2]) ==>
               Slots(m)[k1].id != Slots(m)[k2].id
    requires forall k :: 0 <= k < 4 && !IsPlaceholderPlayer(Slots(m)[k]) ==>
               forall s :: !Holds(courts, queue, s, Slots(m)[k].id)
    ensures Exclusive(courts, Place(queue, d, m)) && SeatsTagged(courts, Place(queue, d, m))
  {
    var nq := Place(queue, d, m);
    var isNew := (p: Pos) => p.QueueSeat? && p.index == d;
    forall p | Occupant(courts, nq, p).Some? && !isNew(p)
      ensures Occupant(courts, nq, p) == Occupant(courts, queue, p)
    {
    }
    forall p1, p2 | p1 != p2 && RealAt(courts, nq, p1) && RealAt(courts, nq, p2) && isNew(p1) && isNew(p2)
      ensures Occupant(courts, nq, p1).value.id != Occupant(courts, nq, p2).value.id
    {
      assert nq[d] == m;
      if p1.slot < p2.slot {
        assert Occupant(courts, nq, p1).value == Slots(m)[p1.slot];
      } else {
        assert Occupant(courts, nq, p2).value == Slots(m)[p2.slot];
      }
    }
    ExclusiveAfterPlacing(courts, queue, courts, nq, p => p, isNew);
    TaggedAfterPlacing(courts, queue, courts, nq, p => p, isNew);
  }

  /** A match put at index d: over the entry there, or appended when d is the length. */
  function Place(queue: seq<Match>, d: nat, m: Match): (r: seq<Match>)
    requires d <= |queue|
    ensures |r| == (if d < |queue| then |queue| else |queue| + 1) && r[d] == m
    ensures forall j :: 0 <= j < |queue| && j != d ==> r[j] == queue[j]
  {
    if d < |queue| then queue[d := m] else queue + [m]
  }

  /** Generation either changes nothing or places one match: a draft, or a match built from
      the first four candidates, over a queued draft or at the end. */
  lemma GenerateShape(courts: seq<Court>, queue: seq<Match>, cands: seq<Player>, history: seq<Signature>,
                      jitter: seq<real>, matchId: string, draftId: string, suffixes: seq<string>)
    returns (d: nat, m: Match)
    requires |jitter| == 3 && |suffixes| == 4
    ensures var r := Generate(courts, queue, cands, history, jitter, matchId, draftId, suffixes);
            r == queue ||
            (d <= |queue| && (d < |queue| ==> IsDraftMatch(queue[d])) && r == Place(queue, d, m) &&
             ((m == EmptyMatch(draftId, 0, 0, suffixes)) ||
              (|cands| >= 4 && m.id == matchId && exists i :: 0 <= i < 3 && m == BuildMatch(cands[..4], i, matchId))))
  {
    if |cands| >= 4 {
      var i := ChosenSplit(Skills(cands[..4]), Repetitions(cands[..4], history), jitter);
      m := BuildMatch(cands[..4], i, matchId);
      d := EnqueuePlace(queue, TargetQueueSize(courts), m);
    } else {
      m := EmptyMatch(draftId, 0, 0, suffixes);
      d := |queue|;
    }
  }

  /** A pass either changes nothing or places one match: a draft, or a match built from the
      four best-ranked players, over a queued draft or at the end. */
  lemma ReplenishedShape(players: seq<Player>, courts: seq<Court>, queue: seq<Match>, history: seq<Signature>,
                         now: int, jitter: seq<real>, matchId: string, draftId: string, suffixes: seq<string>)
    returns (d: nat, m: Match)
    requires |jitter| == 3 && |suffixes| == 4
    ensures var r := Replenished(players, courts, queue, history, now, jitter, matchId, draftId, suffixes);
            r == queue ||
            (d <= |queue| && (d < |queue| ==> IsDraftMatch(queue[d])) && r == Place(queue, d, m) &&
             ((m == EmptyMatch(draftId, 0, 0, suffixes)) ||
              (|Ranking(players, courts, queue, now)| >= 4 && m.id == matchId &&
               exists i :: 0 <= i < 3 && m == BuildMatch(Ranking(players, courts, queue, now)[..4], i, matchId))))
  {
    d, m := GenerateShape(courts, queue, Ranking(players, courts, queue, now), history, jitter, matchId, draftId, suffixes);
  }

  /** Placing a match with a new id keeps the queue ids distinct. */
  lemma PlaceKeepsIdsUnique(queue: seq<Match>, d: nat, m: Match)
    requires d <= |queue| && MatchIdsUnique(queue) && NewMatchId(queue, m.id)
    ensures MatchIdsUnique(Place(queue, d, m))
  {
    var r := Place(queue, d, m);
    forall i, j | 0 <= i < j < |r|
      ensures r[i].id != r[j].id
    {
      if i != d && j != d {
        assert r[i] == queue[i] && r[j] == queue[j];
      }
    }
  }

  /** One pass keeps the seat invariants and distinct queue ids, when the roster is well formed
      and the generated match ids are new. */
  lemma ReplenishKeepsInvariants(players: seq<Player>, courts: seq<Court>, queue: seq<Match>, history: seq<Signature>,
                                 now: int, jitter: seq<real>, matchId: string, draftId: string, suffixes: seq<string>)
    requires |jitter| == 3 && |suffixes| == 4
    requires RosterTagged(players)
    requires Exclusive(courts, queue) && SeatsTagged(courts, queue) && MatchIdsUnique(queue)
    requires NewMatchId(queue, matchId) && NewMatchId(queue, draftId)
    ensures var r := Replenished(players, courts, queue, history, now, jitter, matchId, draftId, suffixes);
            Exclusive(courts, r) && SeatsTagged(courts, r) && MatchIdsUnique(r)
  {
    var d, m := ReplenishedShape(players, courts, queue, history, now, jitter, matchId, draftId, suffixes);
    var r := Replenished(players, courts, queue, history, now, jitter, matchId, draftId, suffixes);
    if r != queue {
      assert r == Place(queue, d, m);
      if m != EmptyMatch(draftId, 0, 0, suffixes) {
        BuiltFromRankingSeatsNewcomers(players, courts, queue, now, m, matchId);
      }
      PlaceKeepsInvariants(courts, queue, d, m);
    }
  }

  /** Placing a draft, or a match of newcomers, under a new id keeps every queue invariant. */
  lemma PlaceKeepsInvariants(courts: seq<Court>, queue: seq<Match>, d: nat, m: Match)
    requires Exclusive(courts, queue) && SeatsTagged(courts, queue) && MatchIdsUnique(queue)
    requires d <= |queue| && (d < |queue| ==> IsDraftMatch(queue[d])) && NewMatchId(queue, m.id)
    requires forall k :: 0 <= k < 4 ==> WellTagged(Slots(m)[k])
    requires IsDraftMatch(m) || Newcomers(courts, queue, Slots(m))
    ensures Exclusive(courts, Place(queue, d, m)) && SeatsTagged(courts, Place(queue, d, m))
    ensures MatchIdsUnique(Place(queue, d, m))
  {
    PlaceMatchKeepsSeatInvariants(courts, queue, d, m);
    PlaceKeepsIdsUnique(queue, d, m);
  }

  lemma BuiltFromRankingSeatsNewcomers(players: seq<Player>, courts: seq<Court>, queue: seq<Match>, now: int,
                                       m: Match, matchId: string)
    requires RosterTagged(players) && |Ranking(players, courts, queue, now)| >= 4
    requires exists i :: 0 <= i < 3 && m == BuildMatch(Ranking(players, courts, queue, now)[..4], i, matchId)
    ensures Newcomers(courts, queue, Slots(m))
  {
    var cands := Ranking(players, courts, queue, now);
    var i :| 0 <= i < 3 && m == BuildMatch(cands[..4], i, matchId);
    RankingNewcomers(players, courts, queue, now);
    NewcomersPrefix(courts, queue, cands, 4);
    BuildMatchSeatsNewcomers(courts, queue, cands[..4], i, matchId);
  }
}
