/** Seats across all courts and the queue, and the slot locator
    (App.tsx findPlayerPosition). */
module Seating {
  import opened Types
  import opened Constants
  import opened Matches

  /** A seat addressed by position: slot `slot` of the match on the court at
      index `court`, or of the queued match at index `index`. */
  datatype Pos = CourtSeat(court: nat, slot: nat) | QueueSeat(index: nat, slot: nat)

  /** A position as findPlayerPosition reports it: the container's own id and the slot. */
  datatype Location = OnCourt(courtId: int, slot: nat) | InQueue(matchId: string, slot: nat)

  predicate CourtHolds(courts: seq<Court>, c: nat, s: nat, id: string)
  {
    c < |courts| && s < 4 && courts[c].currentMatch.Some? &&
    Slots(courts[c].currentMatch.value)[s].id == id
  }

  predicate QueueHolds(queue: seq<Match>, i: nat, s: nat, id: string)
  {
    i < |queue| && s < 4 && Slots(queue[i])[s].id == id
  }

  /** The player in a seat; None for an idle court or a position out of range. */
  function Occupant(courts: seq<Court>, queue: seq<Match>, p: Pos): Option<Player>
  {
    match p
    case CourtSeat(c, s) =>
      if c < |courts| && s < 4 && courts[c].currentMatch.Some?
      then Some(Slots(courts[c].currentMatch.value)[s]) else None
    case QueueSeat(i, s) =>
      if i < |queue| && s < 4 then Some(Slots(queue[i])[s]) else None
  }

  predicate Holds(courts: seq<Court>, queue: seq<Match>, p: Pos, id: string)
  {
    match p
    case CourtSeat(c, s) => CourtHolds(courts, c, s, id)
    case QueueSeat(i, s) => QueueHolds(queue, i, s, id)
  }

  /** Holding an id is having an occupant with that id. */
  lemma HoldsOccupant(courts: seq<Court>, queue: seq<Match>, p: Pos, id: string)
    ensures Holds(courts, queue, p, id) <==>
            Occupant(courts, queue, p).Some? && Occupant(courts, queue, p).value.id == id
  {
  }

  /** A seat holding a player who is not a placeholder. */
  predicate RealAt(courts: seq<Court>, queue: seq<Match>, p: Pos)
  {
    Occupant(courts, queue, p).Some? && !IsPlaceholderPlayer(Occupant(courts, queue, p).value)
  }

  /** The locator's order: courts before the queue, containers in order, slots 0..3. */
  predicate ScannedBefore(p: Pos, q: Pos)
  {
    if p.CourtSeat? && q.CourtSeat? then p.court < q.court || (p.court == q.court && p.slot < q.slot)
    else if p.QueueSeat? && q.QueueSeat? then p.index < q.index || (p.index == q.index && p.slot < q.slot)
    else p.CourtSeat?
  }

  /** Court ids are distinct, so "the court with id x" is well defined. */
  predicate CourtIdsUnique(courts: seq<Court>)
  {
    forall i, j :: 0 <= i < j < |courts| ==> courts[i].id != courts[j].id
  }

  /** Queued match ids are distinct, so "the queued match with id x" is well defined. */
  predicate MatchIdsUnique(queue: seq<Match>)
  {
    forall i, j :: 0 <= i < j < |queue| ==> queue[i].id != queue[j].id
  }

  /** No queued match has id `id`. */
  predicate NewMatchId(queue: seq<Match>, id: string)
  {
    forall i :: 0 <= i < |queue| ==> queue[i].id != id
  }

  /** Every real player id sits in at most one seat across courts and queue. */
  ghost predicate Exclusive(courts: seq<Court>, queue: seq<Match>)
  {
    forall p1, p2 :: p1 != p2 && RealAt(courts, queue, p1) && RealAt(courts, queue, p2) ==>
      Occupant(courts, queue, p1).value.id != Occupant(courts, queue, p2).value.id
  }

  /** Every seated player is an empty seat exactly when its id is a placeholder id. */
  ghost predicate SeatsTagged(courts: seq<Court>, queue: seq<Match>)
  {
    forall p :: Occupant(courts, queue, p).Some? ==> WellTagged(Occupant(courts, queue, p).value)
  }

  /** The court part of the scan, from court index `from` on. */
  function CourtScan(courts: seq<Court>, from: nat, id: string): (r: Option<Pos>)
    decreases |courts| - from
    ensures r.Some? ==> r.value.CourtSeat? && from <= r.value.court
    ensures r.Some? ==> CourtHolds(courts, r.value.court, r.value.slot, id)
    ensures r.Some? ==> forall c: nat, s: nat ::
              from <= c && (c < r.value.court || (c == r.value.court && s < r.value.slot)) ==>
              !CourtHolds(courts, c, s, id)
    ensures r.None? ==> forall c: nat, s: nat :: from <= c ==> !CourtHolds(courts, c, s, id)
  {
    if from >= |courts| then None
    else if courts[from].currentMatch.Some? && SlotOf(courts[from].currentMatch.value, id).Some?
    then Some(CourtSeat(from, SlotOf(courts[from].currentMatch.value, id).value))
    else CourtScan(courts, from + 1, id)
  }

  /** The queue part of the scan, from queue index `from` on. */
  function QueueScan(queue: seq<Match>, from: nat, id: string): (r: Option<Pos>)
    decreases |queue| - from
    ensures r.Some? ==> r.value.QueueSeat? && from <= r.value.index
    ensures r.Some? ==> QueueHolds(queue, r.value.index, r.value.slot, id)
    ensures r.Some? ==> forall i: nat, s: nat ::
              from <= i && (i < r.value.index || (i == r.value.index && s < r.value.slot)) ==>
              !QueueHolds(queue, i, s, id)
    ensures r.None? ==> forall i: nat, s: nat :: from <= i ==> !QueueHolds(queue, i, s, id)
  {
    if from >= |queue| then None
    else if SlotOf(queue[from], id).Some? then Some(QueueSeat(from, SlotOf(queue[from], id).value))
    else QueueScan(queue, from + 1, id)
  }

  /** The first seat holding `id` in the locator's order, or None (the bench). */
  function FirstHit(courts: seq<Court>, queue: seq<Match>, id: string): (r: Option<Pos>)
    ensures r.Some? ==> Holds(courts, queue, r.value, id)
    ensures r.Some? ==> forall p :: ScannedBefore(p, r.value) ==> !Holds(courts, queue, p, id)
    ensures r.None? ==> forall p :: !Holds(courts, queue, p, id)
  {
    var onCourt := CourtScan(courts, 0, id);
    if onCourt.Some? then onCourt else QueueScan(queue, 0, id)
  }

  function LocationOf(courts: seq<Court>, queue: seq<Match>, p: Pos): Location
    requires p.CourtSeat? ==> p.court < |courts|
    requires p.QueueSeat? ==> p.index < |queue|
  {
    match p
    case CourtSeat(c, s) => OnCourt(courts[c].id, s)
    case QueueSeat(i, s) => InQueue(queue[i].id, s)
  }

  /** findPlayerPosition: the first seat holding `id`, courts before queue and
      slots 0..3 in order, named by its container's id; None (bench) when no
      seat holds it. */
  function FindPlayerPosition(courts: seq<Court>, queue: seq<Match>, id: string): (r: Option<Location>)
    ensures r.None? <==> forall p :: !Holds(courts, queue, p, id)
    ensures r.Some? ==> exists p :: Holds(courts, queue, p, id) && LocationOf(courts, queue, p) == r.value &&
                                   forall q :: ScannedBefore(q, p) ==> !Holds(courts, queue, q, id)
  {
    var hit := FirstHit(courts, queue, id);
    if hit.None? then None else Some(LocationOf(courts, queue, hit.value))
  }

  /** The ids of every seat of every busy court (note: placeholders included). */
  function CourtIds(courts: seq<Court>): set<string>
  {
    if courts == [] then {}
    else
      var last := courts[|courts| - 1];
      CourtIds(courts[..|courts| - 1]) +
      (if last.currentMatch.Some? then MatchIds(last.currentMatch.value) else {})
  }

  function MatchIds(m: Match): set<string>
  {
    {m.teamA.player1.id, m.teamA.player2.id, m.teamB.player1.id, m.teamB.player2.id}
  }

  function QueueIds(queue: seq<Match>): set<string>
  {
    if queue == [] then {} else QueueIds(queue[..|queue| - 1]) + MatchIds(queue[|queue| - 1])
  }

  /** The id set getBestCandidates collects: every seat of courts and queue. */
  function SeatIds(courts: seq<Court>, queue: seq<Match>): set<string>
  {
    CourtIds(courts) + QueueIds(queue)
  }

  lemma {:induction false} CourtIdsComplete(courts: seq<Court>, c: nat, s: nat, x: string)
    requires CourtHolds(courts, c, s, x)
    ensures x in CourtIds(courts)
  {
    var n := |courts| - 1;
    if c < n {
      assert CourtHolds(courts[..n], c, s, x);
      CourtIdsComplete(courts[..n], c, s, x);
    } else {
      assert Slots(courts[c].currentMatch.value)[s] in Slots(courts[c].currentMatch.value);
    }
  }

  lemma {:induction false} CourtIdsSound(courts: seq<Court>, x: string) returns (c: nat, s: nat)
    requires x in CourtIds(courts)
    ensures CourtHolds(courts, c, s, x)
  {
    var n := |courts| - 1;
    if x in CourtIds(courts[..n]) {
      c, s := CourtIdsSound(courts[..n], x);
    } else {
      var m := courts[n].currentMatch.value;
      c := n;
      s := if m.teamA.player1.id == x then 0 else if m.teamA.player2.id == x then 1
           else if m.teamB.player1.id == x then 2 else 3;
    }
  }

  lemma {:induction false} QueueIdsComplete(queue: seq<Match>, i: nat, s: nat, x: string)
    requires QueueHolds(queue, i, s, x)
    ensures x in QueueIds(queue)
  {
    var n := |queue| - 1;
    if i < n {
      assert QueueHolds(queue[..n], i, s, x);
      QueueIdsComplete(queue[..n], i, s, x);
    } else {
      assert Slots(queue[i])[s] in Slots(queue[i]);
    }
  }

  lemma {:induction false} QueueIdsSound(queue: seq<Match>, x: string) returns (i: nat, s: nat)
    requires x in QueueIds(queue)
    ensures QueueHolds(queue, i, s, x)
  {
    var n := |queue| - 1;
    if x in QueueIds(queue[..n]) {
      i, s := QueueIdsSound(queue[..n], x);
    } else {
      var m := queue[n];
      i := n;
      s := if m.teamA.player1.id == x then 0 else if m.teamA.player2.id == x then 1
           else if m.teamB.player1.id == x then 2 else 3;
    }
  }

  /** The collected id set holds exactly the ids the locator can find. */
  lemma SeatIdsExact(courts: seq<Court>, queue: seq<Match>, x: string)
    ensures x in SeatIds(courts, queue) <==> FirstHit(courts, queue, x).Some?
  {
    if x in CourtIds(courts) {
      var c, s := CourtIdsSound(courts, x);
      assert Holds(courts, queue, CourtSeat(c, s), x);
    } else if x in QueueIds(queue) {
      var i, s := QueueIdsSound(queue, x);
      assert Holds(courts, queue, QueueSeat(i, s), x);
    }
    var hit := FirstHit(courts, queue, x);
    if hit.Some? {
      match hit.value
      case CourtSeat(c, s) => CourtIdsComplete(courts, c, s, x);
      case QueueSeat(i, s) => QueueIdsComplete(queue, i, s, x);
    }
  }

  /** The one-seat invariant survives any update whose real seats either copy an old seat
      through an injective `f`, or are `isNew` seats holding ids that no old seat held and
      that are distinct among themselves. */
  lemma ExclusiveAfterPlacing(oc: seq<Court>, oq: seq<Match>, nc: seq<Court>, nq: seq<Match>,
                              f: Pos -> Pos, isNew: Pos -> bool)
    requires Exclusive(oc, oq)
    requires forall p :: RealAt(nc, nq, p) && !isNew(p) ==> Occupant(nc, nq, p) == Occupant(oc, oq, f(p))
    requires forall p1, p2 :: p1 != p2 && RealAt(nc, nq, p1) && RealAt(nc, nq, p2) && !isNew(p1) && !isNew(p2) ==>
               f(p1) != f(p2)
    requires forall p, q :: RealAt(nc, nq, p) && isNew(p) ==> !Holds(oc, oq, q, Occupant(nc, nq, p).value.id)
    requires forall p1, p2 :: p1 != p2 && RealAt(nc, nq, p1) && RealAt(nc, nq, p2) && isNew(p1) && isNew(p2) ==>
               Occupant(nc, nq, p1).value.id != Occupant(nc, nq, p2).value.id
    ensures Exclusive(nc, nq)
  {
    forall p1, p2 | p1 != p2 && RealAt(nc, nq, p1) && RealAt(nc, nq, p2)
      ensures Occupant(nc, nq, p1).value.id != Occupant(nc, nq, p2).value.id
    {
      if !isNew(p1) && isNew(p2) {
        HoldsOccupant(oc, oq, f(p1), Occupant(nc, nq, p1).value.id);
      } else if isNew(p1) && !isNew(p2) {
        HoldsOccupant(oc, oq, f(p2), Occupant(nc, nq, p2).value.id);
      }
    }
  }

  /** Tagging survives any update whose seats copy old seats or hold well-tagged newcomers. */
  lemma TaggedAfterPlacing(oc: seq<Court>, oq: seq<Match>, nc: seq<Court>, nq: seq<Match>,
                           f: Pos -> Pos, isNew: Pos -> bool)
    requires SeatsTagged(oc, oq)
    requires forall p :: Occupant(nc, nq, p).Some? && !isNew(p) ==> Occupant(nc, nq, p) == Occupant(oc, oq, f(p))
    requires forall p :: Occupant(nc, nq, p).Some? && isNew(p) ==> WellTagged(Occupant(nc, nq, p).value)
    ensures SeatsTagged(nc, nq)
  {
  }
}
