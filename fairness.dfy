/** The fairness engine: projected games and times (App.tsx getProjectedState)
    and the candidate ranking (App.tsx getBestCandidates). */
module Fairness {
  import opened Types
  import opened Constants
  import opened Matches
  import opened Seating
  import opened Sorting

  /** Gap, in milliseconds, between the simulated start times of consecutive queued matches. */
  const QUEUE_STEP: int := 1000000

  /** A dictionary read `d[id] || 0`: an absent entry reads as 0. */
  function Get(d: map<string, int>, id: string): int
  {
    if id in d then d[id] else 0
  }

  /** The `lastMatchTime || 0` reading of a player's time. */
  function TimeOrZero(t: Option<int>): int
  {
    if t.Some? then t.value else 0
  }

  /** The games count the roster loop leaves for `id`: the last roster entry with that id wins. */
  function SeedGames(players: seq<Player>, id: string): int
  {
    if players == [] then 0
    else if players[|players| - 1].id == id then players[|players| - 1].gamesPlayed
    else SeedGames(players[..|players| - 1], id)
  }

  /** The time the roster loop leaves for `id`. */
  function SeedTime(players: seq<Player>, id: string): int
  {
    if players == [] then 0
    else if players[|players| - 1].id == id then TimeOrZero(players[|players| - 1].lastMatchTime)
    else SeedTime(players[..|players| - 1], id)
  }

  /** How many of the seats `ps` hold a real (non-placeholder) player with id `id`. */
  function RealCount(ps: seq<Player>, id: string): nat
  {
    if ps == [] then 0
    else RealCount(ps[..|ps| - 1], id) +
         (if ps[|ps| - 1].id == id && !IsPlaceholderPlayer(ps[|ps| - 1]) then 1 else 0)
  }

  /** Real seats holding `id` over every busy court. */
  function CourtGames(courts: seq<Court>, id: string): nat
  {
    if courts == [] then 0
    else
      var last := courts[|courts| - 1];
      CourtGames(courts[..|courts| - 1], id) +
      (if last.currentMatch.Some? then RealCount(Slots(last.currentMatch.value), id) else 0)
  }

  /** Real seats holding `id` over every queued match. */
  function QueueGames(queue: seq<Match>, id: string): nat
  {
    if queue == [] then 0
    else QueueGames(queue[..|queue| - 1], id) + RealCount(Slots(queue[|queue| - 1]), id)
  }

  /** Projected games: the recorded count plus one per real seat on courts and in the queue. */
  function ProjectedGames(players: seq<Player>, courts: seq<Court>, queue: seq<Match>, id: string): int
  {
    SeedGames(players, id) + CourtGames(courts, id) + QueueGames(queue, id)
  }

  /** The simulated start time of the queued match at index `i`. */
  function QueueTime(now: int, i: nat): (t: int)
    ensures t > now
  {
    now + (i + 1) * QUEUE_STEP
  }

  /** Projected time: the simulated time of the last queued match holding `id` as a real
      player, else the recorded time. Courts do not enter into it. */
  function ProjectedTime(players: seq<Player>, queue: seq<Match>, now: int, id: string): int
  {
    if queue == [] then SeedTime(players, id)
    else if RealCount(Slots(queue[|queue| - 1]), id) > 0 then QueueTime(now, |queue| - 1)
    else ProjectedTime(players, queue[..|queue| - 1], now, id)
  }

  /** The ranking key of a player: projected games, then projected time. */
  function FairnessKey(players: seq<Player>, courts: seq<Court>, queue: seq<Match>, now: int, p: Player): Key
  {
    Key(ProjectedGames(players, courts, queue, p.id), ProjectedTime(players, queue, now, p.id))
  }

  /** The availability filter: not paused, not seated anywhere, not a placeholder. */
  predicate Available(p: Player, active: set<string>)
  {
    !p.isPaused && p.id !in active && !IsPlaceholderPlayer(p)
  }

  function Filter(players: seq<Player>, active: set<string>): (r: seq<Player>)
    ensures |r| <= |players|
  {
    if players == [] then []
    else
      var last := players[|players| - 1];
      Filter(players[..|players| - 1], active) + (if Available(last, active) then [last] else [])
  }

  /** The filter keeps exactly the available roster players. */
  lemma {:induction false} FilterKeeps(players: seq<Player>, active: set<string>)
    ensures forall p :: p in Filter(players, active) <==> p in players && Available(p, active)
  {
    if players != [] {
      var n := |players| - 1;
      FilterKeeps(players[..n], active);
      assert players == players[..n] + [players[n]];
    }
  }

  /** The ranking getBestCandidates returns, stated over the projection functions. */
  function Ranking(players: seq<Player>, courts: seq<Court>, queue: seq<Match>, now: int): seq<Player>
  {
    SortBy(Filter(players, SeatIds(courts, queue)), p => FairnessKey(players, courts, queue, now, p))
  }

  // ---- getProjectedState, as the loops that fill the two dictionaries ----

  /** Extending the counted seats by one adds that seat's contribution. */
  lemma RealCountStep(ps: seq<Player>, k: nat)
    requires k < |ps|
    ensures forall id :: RealCount(ps[..k + 1], id) ==
              RealCount(ps[..k], id) + (if ps[k].id == id && !IsPlaceholderPlayer(ps[k]) then 1 else 0)
  {
    assert ps[..k + 1][..k] == ps[..k];
  }

  /** Adds one game for every real seat of `m` (the court branch of the projection). */
  method AddCourtMatch(counts: map<string, int>, m: Match) returns (counts': map<string, int>)
    ensures forall id :: Get(counts', id) == Get(counts, id) + RealCount(Slots(m), id)
  {
    var seats := Slots(m);
    counts' := counts;
    var k := 0;
    while k < 4
      invariant 0 <= k <= 4
      invariant forall id :: Get(counts', id) == Get(counts, id) + RealCount(seats[..k], id)
    {
      var p := seats[k];
      RealCountStep(seats, k);
      if !IsPlaceholderPlayer(p) {
        counts' := counts'[p.id := Get(counts', p.id) + 1];
      }
      k := k + 1;
    }
    assert seats[..4] == seats;
  }

  /** Adds one game for every real seat of `m` and stamps them with time `t` (the queue branch). */
  method AddQueuedMatch(counts: map<string, int>, times: map<string, int>, m: Match, t: int)
    returns (counts': map<string, int>, times': map<string, int>)
    ensures forall id :: Get(counts', id) == Get(counts, id) + RealCount(Slots(m), id)
    ensures forall id :: Get(times', id) == if RealCount(Slots(m), id) > 0 then t else Get(times, id)
  {
    var seats := Slots(m);
    counts', times' := counts, times;
    var k := 0;
    while k < 4
      invariant 0 <= k <= 4
      invariant forall id :: Get(counts', id) == Get(counts, id) + RealCount(seats[..k], id)
      invariant forall id :: Get(times', id) == if RealCount(seats[..k], id) > 0 then t else Get(times, id)
    {
      var p := seats[k];
      RealCountStep(seats, k);
      if !IsPlaceholderPlayer(p) {
        counts' := counts'[p.id := Get(counts', p.id) + 1];
        times' := times'[p.id := t];
      }
      k := k + 1;
    }
    assert seats[..4] == seats;
  }

  /** getProjectedState: the two dictionaries, read through `|| 0`, are the projection. */
  method ProjectedState(players: seq<Player>, courts: seq<Court>, queue: seq<Match>, now: int)
    returns (counts: map<string, int>, times: map<string, int>)
    ensures forall id :: Get(counts, id) == ProjectedGames(players, courts, queue, id)
    ensures forall id :: Get(times, id) == ProjectedTime(players, queue, now, id)
  {
    counts, times := map[], map[];
    var i := 0;
    while i < |players|
      invariant 0 <= i <= |players|
      invariant forall id :: Get(counts, id) == SeedGames(players[..i], id)
      invariant forall id :: Get(times, id) == SeedTime(players[..i], id)
    {
      assert players[..i + 1][..i] == players[..i];
      var p := players[i];
      counts := counts[p.id := p.gamesPlayed];
      times := times[p.id := TimeOrZero(p.lastMatchTime)];
      i := i + 1;
    }
    assert players[..|players|] == players;

    var c := 0;
    while c < |courts|
      invariant 0 <= c <= |courts|
      invariant forall id :: Get(counts, id) == SeedGames(players, id) + CourtGames(courts[..c], id)
    {
      assert courts[..c + 1][..c] == courts[..c];
      if courts[c].currentMatch.Some? {
        counts := AddCourtMatch(counts, courts[c].currentMatch.value);
      }
      c := c + 1;
    }
    assert courts[..|courts|] == courts;

    var q := 0;
    while q < |queue|
      invariant 0 <= q <= |queue|
      invariant forall id :: Get(counts, id) == SeedGames(players, id) + CourtGames(courts, id) + QueueGames(queue[..q], id)
      invariant forall id :: Get(times, id) == ProjectedTime(players, queue[..q], now, id)
    {
      assert queue[..q + 1][..q] == queue[..q];
      counts, times := AddQueuedMatch(counts, times, queue[q], QueueTime(now, q));
      q := q + 1;
    }
    assert queue[..|queue|] == queue;
  }

  /** The activePlayerIds set: every seat id of every busy court and queued match. */
  method ActiveIds(courts: seq<Court>, queue: seq<Match>) returns (active: set<string>)
    ensures active == SeatIds(courts, queue)
  {
    active := {};
    var c := 0;
    while c < |courts|
      invariant 0 <= c <= |courts|
      invariant active == CourtIds(courts[..c])
    {
      assert courts[..c + 1][..c] == courts[..c];
      if courts[c].currentMatch.Some? {
        var m := courts[c].currentMatch.value;
        active := active + {m.teamA.player1.id};
        active := active + {m.teamA.player2.id};
        active := active + {m.teamB.player1.id};
        active := active + {m.teamB.player2.id};
      }
      c := c + 1;
    }
    assert courts[..|courts|] == courts;
    var q := 0;
    while q < |queue|
      invariant 0 <= q <= |queue|
      invariant active == CourtIds(courts) + QueueIds(queue[..q])
    {
      assert queue[..q + 1][..q] == queue[..q];
      var m := queue[q];
      active := active + {m.teamA.player1.id};
      active := active + {m.teamA.player2.id};
      active := active + {m.teamB.player1.id};
      active := active + {m.teamB.player2.id};
      q := q + 1;
    }
    assert queue[..|queue|] == queue;
  }

  /** getBestCandidates: computes exactly the ranking. */
  method BestCandidates(players: seq<Player>, courts: seq<Court>, queue: seq<Match>, now: int)
    returns (r: seq<Player>)
    ensures r == Ranking(players, courts, queue, now)
  {
    var active := ActiveIds(courts, queue);
    var counts, times := ProjectedState(players, courts, queue, now);
    var available := Filter(players, active);
    var key := (p: Player) => Key(Get(counts, p.id), Get(times, p.id));
    r := SortBy(available, key);
    SortByCongruent(available, key, p => FairnessKey(players, courts, queue, now, p));
  }

  // ---- what the ranking promises ----

  /** A player is ranked exactly when on the roster, unpaused, not a placeholder and in no seat. */
  lemma RankingMembers(players: seq<Player>, courts: seq<Court>, queue: seq<Match>, now: int, p: Player)
    ensures p in Ranking(players, courts, queue, now) <==>
            (p in players && !p.isPaused && !IsPlaceholderPlayer(p) &&
             forall s :: !Holds(courts, queue, s, p.id))
  {
    var avail := Filter(players, SeatIds(courts, queue));
    FilterKeeps(players, SeatIds(courts, queue));
    assert p in Ranking(players, courts, queue, now) <==> p in multiset(avail);
    SeatIdsExact(courts, queue, p.id);
  }

  /** The ranking is ordered by (projected games, projected time). */
  lemma RankingSorted(players: seq<Player>, courts: seq<Court>, queue: seq<Match>, now: int)
    ensures var r := Ranking(players, courts, queue, now);
            forall i, j :: 0 <= i < j < |r| ==>
              KeyLe(FairnessKey(players, courts, queue, now, r[i]), FairnessKey(players, courts, queue, now, r[j]))
  {
    SortBySorted(Filter(players, SeatIds(courts, queue)), p => FairnessKey(players, courts, queue, now, p));
  }

  /** Players with equal keys keep their roster order. */
  lemma RankingStable(players: seq<Player>, courts: seq<Court>, queue: seq<Match>, now: int, k: Key)
    ensures var key := p => FairnessKey(players, courts, queue, now, p);
            WithKey(Ranking(players, courts, queue, now), key, k) ==
            WithKey(Filter(players, SeatIds(courts, queue)), key, k)
  {
    SortByStable(Filter(players, SeatIds(courts, queue)), p => FairnessKey(players, courts, queue, now, p), k);
  }

  lemma {:induction false} FilterDistinct(players: seq<Player>, active: set<string>)
    requires DistinctBy(players, (p: Player) => p.id)
    ensures DistinctBy(Filter(players, active), (p: Player) => p.id)
  {
    if players != [] {
      var init := players[..|players| - 1];
      assert DistinctBy(init, (p: Player) => p.id);
      FilterDistinct(init, active);
      var last := players[|players| - 1];
      FilterKeeps(init, active);
      forall q | q in Filter(init, active)
        ensures q.id != last.id
      {
        var j :| 0 <= j < |init| && init[j] == q;
        assert players[j] == q;
      }
    }
  }

  /** With distinct roster ids the ranking has no duplicate ids. */
  lemma RankingDistinct(players: seq<Player>, courts: seq<Court>, queue: seq<Match>, now: int)
    requires DistinctBy(players, (p: Player) => p.id)
    ensures DistinctBy(Ranking(players, courts, queue, now), (p: Player) => p.id)
  {
    FilterDistinct(players, SeatIds(courts, queue));
    SortByDistinct(Filter(players, SeatIds(courts, queue)), p => FairnessKey(players, courts, queue, now, p),
                   (p: Player) => p.id);
  }

  /** Players fit to be seated: real, well tagged, in no seat, with distinct ids. */
  ghost predicate Newcomers(courts: seq<Court>, queue: seq<Match>, cands: seq<Player>)
  {
    DistinctBy(cands, (p: Player) => p.id) &&
    forall k :: 0 <= k < |cands| ==>
      !IsPlaceholderPlayer(cands[k]) && WellTagged(cands[k]) &&
      forall s :: !Holds(courts, queue, s, cands[k].id)
  }

  /** Rostered players are real and well tagged with distinct ids. */
  predicate RosterTagged(players: seq<Player>)
  {
    DistinctBy(players, (p: Player) => p.id) &&
    forall k :: 0 <= k < |players| ==> !IsPlaceholderPlayer(players[k]) && WellTagged(players[k])
  }

  /** The ranking of a well-formed roster offers only newcomers. */
  lemma RankingNewcomers(players: seq<Player>, courts: seq<Court>, queue: seq<Match>, now: int)
    requires RosterTagged(players)
    ensures Newcomers(courts, queue, Ranking(players, courts, queue, now))
  {
    var cands := Ranking(players, courts, queue, now);
    RankingDistinct(players, courts, queue, now);
    forall k | 0 <= k < |cands|
      ensures !IsPlaceholderPlayer(cands[k]) && WellTagged(cands[k]) &&
              forall s :: !Holds(courts, queue, s, cands[k].id)
    {
      RankingMembers(players, courts, queue, now, cands[k]);
      var j :| 0 <= j < |players| && players[j] == cands[k];
    }
  }

  // ---- what the projection promises ----

  /** The projected time is the simulated time of the last queued match holding `id` as a real player. */
  lemma {:induction false} ProjectedTimeLastIndex(players: seq<Player>, queue: seq<Match>, now: int, id: string, i: nat)
    requires i < |queue| && RealCount(Slots(queue[i]), id) > 0
    requires forall j :: i < j < |queue| ==> RealCount(Slots(queue[j]), id) == 0
    ensures ProjectedTime(players, queue, now, id) == QueueTime(now, i)
  {
    if i < |queue| - 1 {
      var init := queue[..|queue| - 1];
      assert forall j :: i < j < |init| ==> init[j] == queue[j];
      ProjectedTimeLastIndex(players, init, now, id, i);
    }
  }

  /** A player in no real queued seat keeps the recorded time, whatever the courts hold. */
  lemma {:induction false} ProjectedTimeUnqueued(players: seq<Player>, queue: seq<Match>, now: int, id: string)
    requires forall j :: 0 <= j < |queue| ==> RealCount(Slots(queue[j]), id) == 0
    ensures ProjectedTime(players, queue, now, id) == SeedTime(players, id)
  {
    if queue != [] {
      var init := queue[..|queue| - 1];
      assert forall j :: 0 <= j < |init| ==> init[j] == queue[j];
      ProjectedTimeUnqueued(players, init, now, id);
    }
  }

  /** Simulated times strictly increase with the queue index. */
  lemma QueueTimesIncrease(now: int, i: nat, j: nat)
    requires i < j
    ensures now < QueueTime(now, i) < QueueTime(now, j)
  {
    assert (j + 1) * QUEUE_STEP == (i + 1) * QUEUE_STEP + (j - i) * QUEUE_STEP;
  }

  predicate RealCourtSeat(courts: seq<Court>, c: nat, s: nat, id: string)
  {
    CourtHolds(courts, c, s, id) && !IsPlaceholderPlayer(Slots(courts[c].currentMatch.value)[s])
  }

  predicate RealQueueSeat(queue: seq<Match>, i: nat, s: nat, id: string)
  {
    QueueHolds(queue, i, s, id) && !IsPlaceholderPlayer(Slots(queue[i])[s])
  }

  lemma {:induction false} RealCountWitness(ps: seq<Player>, id: string) returns (k: nat)
    requires RealCount(ps, id) > 0
    ensures k < |ps| && ps[k].id == id && !IsPlaceholderPlayer(ps[k])
  {
    var init := ps[..|ps| - 1];
    if RealCount(init, id) > 0 {
      k := RealCountWitness(init, id);
    } else {
      k := |ps| - 1;
    }
  }

  lemma {:induction false} RealCountPair(ps: seq<Player>, id: string) returns (k1: nat, k2: nat)
    requires RealCount(ps, id) >= 2
    ensures k1 < k2 < |ps|
    ensures ps[k1].id == id && !IsPlaceholderPlayer(ps[k1])
    ensures ps[k2].id == id && !IsPlaceholderPlayer(ps[k2])
  {
    var init := ps[..|ps| - 1];
    if RealCount(init, id) >= 2 {
      k1, k2 := RealCountPair(init, id);
    } else {
      k1 := RealCountWitness(init, id);
      k2 := |ps| - 1;
    }
  }

  lemma {:induction false} RealCountComplete(ps: seq<Player>, k: nat, id: string)
    requires k < |ps| && ps[k].id == id && !IsPlaceholderPlayer(ps[k])
    ensures RealCount(ps, id) > 0
  {
    if k < |ps| - 1 {
      RealCountComplete(ps[..|ps| - 1], k, id);
    }
  }

  lemma {:induction false} CourtGamesWitness(courts: seq<Court>, id: string) returns (c: nat, s: nat)
    requires CourtGames(courts, id) > 0
    ensures RealCourtSeat(courts, c, s, id)
  {
    var init, last := courts[..|courts| - 1], courts[|courts| - 1];
    if CourtGames(init, id) > 0 {
      c, s := CourtGamesWitness(init, id);
    } else {
      c := |courts| - 1;
      s := RealCountWitness(Slots(last.currentMatch.value), id);
    }
  }

  lemma {:induction false} CourtGamesPair(courts: seq<Court>, id: string) returns (c1: nat, s1: nat, c2: nat, s2: nat)
    requires CourtGames(courts, id) >= 2
    ensures (c1, s1) != (c2, s2)
    ensures RealCourtSeat(courts, c1, s1, id) && RealCourtSeat(courts, c2, s2, id)
  {
    var init, last := courts[..|courts| - 1], courts[|courts| - 1];
    if CourtGames(init, id) >= 2 {
      c1, s1, c2, s2 := CourtGamesPair(init, id);
    } else if CourtGames(init, id) == 1 {
      c1, s1 := CourtGamesWitness(init, id);
      c2 := |courts| - 1;
      s2 := RealCountWitness(Slots(last.currentMatch.value), id);
    } else {
      c1, c2 := |courts| - 1, |courts| - 1;
      s1, s2 := RealCountPair(Slots(last.currentMatch.value), id);
    }
  }

  lemma {:induction false} CourtGamesComplete(courts: seq<Court>, c: nat, s: nat, id: string)
    requires RealCourtSeat(courts, c, s, id)
    ensures CourtGames(courts, id) > 0
  {
    var init := courts[..|courts| - 1];
    if c < |courts| - 1 {
      assert RealCourtSeat(init, c, s, id);
      CourtGamesComplete(init, c, s, id);
    } else {
      RealCountComplete(Slots(courts[c].currentMatch.value), s, id);
    }
  }

  lemma {:induction false} QueueGamesWitness(queue: seq<Match>, id: string) returns (i: nat, s: nat)
    requires QueueGames(queue, id) > 0
    ensures RealQueueSeat(queue, i, s, id)
  {
    var init := queue[..|queue| - 1];
    if QueueGames(init, id) > 0 {
      i, s := QueueGamesWitness(init, id);
    } else {
      i := |queue| - 1;
      s := RealCountWitness(Slots(queue[i]), id);
    }
  }

  lemma {:induction false} QueueGamesPair(queue: seq<Match>, id: string) returns (i1: nat, s1: nat, i2: nat, s2: nat)
    requires QueueGames(queue, id) >= 2
    ensures (i1, s1) != (i2, s2)
    ensures RealQueueSeat(queue, i1, s1, id) && RealQueueSeat(queue, i2, s2, id)
  {
    var init := queue[..|queue| - 1];
    if QueueGames(init, id) >= 2 {
      i1, s1, i2, s2 := QueueGamesPair(init, id);
    } else if QueueGames(init, id) == 1 {
      i1, s1 := QueueGamesWitness(init, id);
      i2 := |queue| - 1;
      s2 := RealCountWitness(Slots(queue[i2]), id);
    } else {
      i1, i2 := |queue| - 1, |queue| - 1;
      s1, s2 := RealCountPair(Slots(queue[i1]), id);
    }
  }

  lemma {:induction false} QueueGamesComplete(queue: seq<Match>, i: nat, s: nat, id: string)
    requires RealQueueSeat(queue, i, s, id)
    ensures QueueGames(queue, id) > 0
  {
    var init := queue[..|queue| - 1];
    if i < |queue| - 1 {
      assert RealQueueSeat(init, i, s, id);
      QueueGamesComplete(init, i, s, id);
    } else {
      RealCountComplete(Slots(queue[i]), s, id);
    }
  }

  /** Some seat on a court or in the queue holds `id` as a real player. */
  ghost predicate SeatedReal(courts: seq<Court>, queue: seq<Match>, id: string)
  {
    exists p :: RealAt(courts, queue, p) && Occupant(courts, queue, p).value.id == id
  }

  /** Under the one-seat-per-player invariant, a real player's seat is the only one with its id. */
  lemma OnlySeat(courts: seq<Court>, queue: seq<Match>, p: Pos, id: string)
    requires Exclusive(courts, queue)
    requires RealAt(courts, queue, p) && Occupant(courts, queue, p).value.id == id
    ensures forall q :: q != p && RealAt(courts, queue, q) ==> Occupant(courts, queue, q).value.id != id
  {
  }

  lemma {:induction false} RealCountZero(ps: seq<Player>, id: string)
    requires forall k :: 0 <= k < |ps| ==> ps[k].id != id || IsPlaceholderPlayer(ps[k])
    ensures RealCount(ps, id) == 0
  {
    if ps != [] {
      var init := ps[..|ps| - 1];
      assert forall k :: 0 <= k < |init| ==> init[k] == ps[k];
      RealCountZero(init, id);
    }
  }

  lemma {:induction false} RealCountAtMostOne(ps: seq<Player>, id: string)
    requires forall k1, k2 :: 0 <= k1 < k2 < |ps| && ps[k1].id == id && ps[k2].id == id ==>
               IsPlaceholderPlayer(ps[k1]) || IsPlaceholderPlayer(ps[k2])
    ensures RealCount(ps, id) <= 1
  {
    if ps != [] {
      var init := ps[..|ps| - 1];
      assert forall k :: 0 <= k < |init| ==> init[k] == ps[k];
      RealCountAtMostOne(init, id);
      if RealCount(init, id) == 1 {
        var k := RealCountWitness(init, id);
        assert ps[k] == init[k];
      }
    }
  }

  lemma {:induction false} CourtGamesZero(courts: seq<Court>, id: string)
    requires forall c: nat, s: nat :: !RealCourtSeat(courts, c, s, id)
    ensures CourtGames(courts, id) == 0
  {
    if courts != [] {
      var n := |courts| - 1;
      var init := courts[..n];
      forall c: nat, s: nat
        ensures !RealCourtSeat(init, c, s, id)
      {
        assert !RealCourtSeat(courts, c, s, id);
        if c < n { assert init[c] == courts[c]; }
      }
      CourtGamesZero(init, id);
      if courts[n].currentMatch.Some? {
        var m := courts[n].currentMatch.value;
        forall k | 0 <= k < 4
          ensures Slots(m)[k].id != id || IsPlaceholderPlayer(Slots(m)[k])
        {
          assert !RealCourtSeat(courts, n, k, id);
        }
        RealCountZero(Slots(m), id);
      }
    }
  }

  lemma {:induction false} QueueGamesZero(queue: seq<Match>, id: string)
    requires forall i: nat, s: nat :: !RealQueueSeat(queue, i, s, id)
    ensures QueueGames(queue, id) == 0
  {
    if queue != [] {
      var n := |queue| - 1;
      var init := queue[..n];
      forall i: nat, s: nat
        ensures !RealQueueSeat(init, i, s, id)
      {
        assert !RealQueueSeat(queue, i, s, id);
        if i < n { assert init[i] == queue[i]; }
      }
      QueueGamesZero(init, id);
      forall k | 0 <= k < 4
        ensures Slots(queue[n])[k].id != id || IsPlaceholderPlayer(Slots(queue[n])[k])
      {
        assert !RealQueueSeat(queue, n, k, id);
      }
      RealCountZero(Slots(queue[n]), id);
    }
  }

  /** The four seats of one match count a real id at most once. */
  lemma SeatsAtMostOnce(courts: seq<Court>, queue: seq<Match>, p: Pos, m: Match, id: string)
    requires Exclusive(courts, queue)
    requires forall k :: 0 <= k < 4 ==> Occupant(courts, queue, p.(slot := k)) == Some(Slots(m)[k])
    ensures RealCount(Slots(m), id) <= 1
  {
    forall k1, k2 | 0 <= k1 < k2 < 4 && Slots(m)[k1].id == id && Slots(m)[k2].id == id
      ensures IsPlaceholderPlayer(Slots(m)[k1]) || IsPlaceholderPlayer(Slots(m)[k2])
    {
      assert p.(slot := k1) != p.(slot := k2);
    }
    RealCountAtMostOne(Slots(m), id);
  }

  lemma {:induction false} CourtGamesAtMostOne(courts: seq<Court>, queue: seq<Match>, id: string, n: nat)
    requires Exclusive(courts, queue) && n <= |courts|
    ensures CourtGames(courts[..n], id) <= 1
  {
    if n > 0 {
      assert courts[..n][..n - 1] == courts[..n - 1];
      CourtGamesAtMostOne(courts, queue, id, n - 1);
      if courts[n - 1].currentMatch.Some? {
        var m := courts[n - 1].currentMatch.value;
        if CourtGames(courts[..n - 1], id) == 1 {
          var c, s := CourtGamesWitness(courts[..n - 1], id);
          assert courts[..n - 1][c] == courts[c];
          OnlySeat(courts, queue, CourtSeat(c, s), id);
          forall k | 0 <= k < 4
            ensures Slots(m)[k].id != id || IsPlaceholderPlayer(Slots(m)[k])
          {
            assert CourtSeat(n - 1, k) != CourtSeat(c, s);
            assert Occupant(courts, queue, CourtSeat(n - 1, k)) == Some(Slots(m)[k]);
          }
          RealCountZero(Slots(m), id);
        } else {
          SeatsAtMostOnce(courts, queue, CourtSeat(n - 1, 0), m, id);
        }
      }
    }
  }

  lemma {:induction false} QueueGamesAtMostOne(courts: seq<Court>, queue: seq<Match>, id: string, n: nat)
    requires Exclusive(courts, queue) && n <= |queue|
    ensures QueueGames(queue[..n], id) <= 1
  {
    if n > 0 {
      assert queue[..n][..n - 1] == queue[..n - 1];
      QueueGamesAtMostOne(courts, queue, id, n - 1);
      var m := queue[n - 1];
      if QueueGames(queue[..n - 1], id) == 1 {
        var i, s := QueueGamesWitness(queue[..n - 1], id);
        assert queue[..n - 1][i] == queue[i];
        OnlySeat(courts, queue, QueueSeat(i, s), id);
        forall k | 0 <= k < 4
          ensures Slots(m)[k].id != id || IsPlaceholderPlayer(Slots(m)[k])
        {
          assert QueueSeat(n - 1, k) != QueueSeat(i, s);
          assert Occupant(courts, queue, QueueSeat(n - 1, k)) == Some(Slots(m)[k]);
        }
        RealCountZero(Slots(m), id);
      } else {
        SeatsAtMostOnce(courts, queue, QueueSeat(n - 1, 0), m, id);
      }
    }
  }

  /** Under the one-seat-per-player invariant, the projection adds exactly one game for a
      player seated anywhere and none for a player on the bench. */
  lemma ProjectedGamesSeated(players: seq<Player>, courts: seq<Court>, queue: seq<Match>, id: string)
    requires Exclusive(courts, queue)
    ensures ProjectedGames(players, courts, queue, id) ==
            SeedGames(players, id) + (if SeatedReal(courts, queue, id) then 1 else 0)
  {
    CourtGamesAtMostOne(courts, queue, id, |courts|);
    QueueGamesAtMostOne(courts, queue, id, |queue|);
    assert courts[..|courts|] == courts && queue[..|queue|] == queue;
    var cg, qg := CourtGames(courts, id), QueueGames(queue, id);
    if cg == 1 {
      var c, s := CourtGamesWitness(courts, id);
      assert RealAt(courts, queue, CourtSeat(c, s));
      OnlySeat(courts, queue, CourtSeat(c, s), id);
      forall i: nat, t: nat
        ensures !RealQueueSeat(queue, i, t, id)
      {
        assert QueueSeat(i, t) != CourtSeat(c, s);
        assert Occupant(courts, queue, QueueSeat(i, t)) ==
               (if i < |queue| && t < 4 then Some(Slots(queue[i])[t]) else None);
      }
      QueueGamesZero(queue, id);
    } else if qg == 1 {
      var i, t := QueueGamesWitness(queue, id);
      assert RealAt(courts, queue, QueueSeat(i, t));
    } else if SeatedReal(courts, queue, id) {
      var p :| RealAt(courts, queue, p) && Occupant(courts, queue, p).value.id == id;
      match p
      case CourtSeat(c, s) => CourtGamesComplete(courts, c, s, id);
      case QueueSeat(i, s) => QueueGamesComplete(queue, i, s, id);
    }
  }
}
