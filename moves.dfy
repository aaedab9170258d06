/** The unified move/swap executor (App.tsx executeMoveOrSwap) as the two
    container updates it makes, and what they do to every seat. */
module Moves {
  import opened Types
  import opened Constants
  import opened Matches
  import opened Seating

  /** Where a player is dropped: a court by id, or a queued match by id. */
  datatype Target = ToCourt(courtId: int) | ToQueue(matchId: string)

  /** `courts.find(c => c.id === id)`, as an index. */
  function FindCourt(courts: seq<Court>, id: int): (r: Option<nat>)
    ensures r.Some? ==> r.value < |courts| && courts[r.value].id == id
    ensures r.Some? ==> forall j :: 0 <= j < r.value ==> courts[j].id != id
    ensures r.None? ==> forall j :: 0 <= j < |courts| ==> courts[j].id != id
  {
    if courts == [] then None
    else if courts[0].id == id then Some(0)
    else
      var rest := FindCourt(courts[1..], id);
      if rest.None? then None else Some(rest.value + 1)
  }

  /** `matchQueue.find(m => m.id === id)`, as an index. */
  function FindMatch(queue: seq<Match>, id: string): (r: Option<nat>)
    ensures r.Some? ==> r.value < |queue| && queue[r.value].id == id
    ensures r.Some? ==> forall j :: 0 <= j < r.value ==> queue[j].id != id
    ensures r.None? ==> forall j :: 0 <= j < |queue| ==> queue[j].id != id
  {
    if queue == [] then None
    else if queue[0].id == id then Some(0)
    else
      var rest := FindMatch(queue[1..], id);
      if rest.None? then None else Some(rest.value + 1)
  }

  /** With distinct ids, find returns exactly the index holding the id. */
  lemma FindCourtUnique(courts: seq<Court>, id: int, i: nat)
    requires CourtIdsUnique(courts) && i < |courts|
    ensures FindCourt(courts, id) == Some(i) <==> courts[i].id == id
  {
  }

  lemma FindMatchUnique(queue: seq<Match>, id: string, i: nat)
    requires MatchIdsUnique(queue) && i < |queue|
    ensures FindMatch(queue, id) == Some(i) <==> queue[i].id == id
  {
  }

  /** The seat a drop addresses, when its container exists and the slot is 0..3. */
  function TargetPos(courts: seq<Court>, queue: seq<Match>, target: Target, slot: int): Option<Pos>
  {
    if !(0 <= slot < 4) then None
    else match target
      case ToCourt(cid) =>
        var ci := FindCourt(courts, cid);
        if ci.None? then None else Some(CourtSeat(ci.value, slot))
      case ToQueue(mid) =>
        var qi := FindMatch(queue, mid);
        if qi.None? then None else Some(QueueSeat(qi.value, slot))
  }

  /** targetPlayer: the target seat's occupant, or the `vacant` placeholder when the container is missing,
      the target court is idle or the slot is outside 0..3. */
  function TargetOccupant(courts: seq<Court>, queue: seq<Match>, target: Target, slot: int, vacant: Player): (r: Player)
    ensures var t := TargetPos(courts, queue, target, slot);
            r == if t.Some? && Occupant(courts, queue, t.value).Some? then Occupant(courts, queue, t.value).value else vacant
  {
    match target
    case ToCourt(cid) =>
      var ci := FindCourt(courts, cid);
      if ci.Some? && courts[ci.value].currentMatch.Some? && 0 <= slot < 4
      then Slots(courts[ci.value].currentMatch.value)[slot] else vacant
    case ToQueue(mid) =>
      var qi := FindMatch(queue, mid);
      if qi.Some? && 0 <= slot < 4 then Slots(queue[qi.value])[slot] else vacant
  }

  /** One court through the courts updater: the target court (given `synth` when idle) gets
      the mover in the target slot, then the source court gets `tp` in the mover's old slot. */
  function MoveCourt(c: Court, target: Target, slot: int, mover: Player, source: Option<Location>,
                     tp: Player, synth: Match): Court
  {
    var afterTarget :=
      if target.ToCourt? && c.id == target.courtId
      then c.(currentMatch := Some(UpdateMatchSlot(if c.currentMatch.Some? then c.currentMatch.value else synth, slot, mover)))
      else c;
    if source.Some? && source.value.OnCourt? && c.id == source.value.courtId && c.currentMatch.Some?
    then afterTarget.(currentMatch := Some(UpdateMatchSlot(afterTarget.currentMatch.value, source.value.slot, tp)))
    else afterTarget
  }

  function MoveCourts(courts: seq<Court>, target: Target, slot: int, mover: Player, source: Option<Location>,
                      tp: Player, synth: Match): (r: seq<Court>)
    ensures |r| == |courts|
  {
    seq(|courts|, i requires 0 <= i < |courts| => MoveCourt(courts[i], target, slot, mover, source, tp, synth))
  }

  /** One queued match through the queue updater. */
  function MoveMatch(m: Match, target: Target, slot: int, mover: Player, source: Option<Location>, tp: Player): Match
  {
    var afterTarget := if target.ToQueue? && m.id == target.matchId then UpdateMatchSlot(m, slot, mover) else m;
    if source.Some? && source.value.InQueue? && m.id == source.value.matchId
    then UpdateMatchSlot(afterTarget, source.value.slot, tp)
    else afterTarget
  }

  function MoveQueue(queue: seq<Match>, target: Target, slot: int, mover: Player, source: Option<Location>,
                     tp: Player): (r: seq<Match>)
    ensures |r| == |queue|
  {
    seq(|queue|, i requires 0 <= i < |queue| => MoveMatch(queue[i], target, slot, mover, source, tp))
  }

  /** The courts after executeMoveOrSwap: the source is the locator's answer, the swapped-back
      player the target's occupant (or `vacant`). */
  function MovedCourts(courts: seq<Court>, queue: seq<Match>, target: Target, slot: int, mover: Player,
                       vacant: Player, synth: Match): seq<Court>
  {
    MoveCourts(courts, target, slot, mover, FindPlayerPosition(courts, queue, mover.id),
               TargetOccupant(courts, queue, target, slot, vacant), synth)
  }

  /** The queue after executeMoveOrSwap. */
  function MovedQueue(courts: seq<Court>, queue: seq<Match>, target: Target, slot: int, mover: Player,
                      vacant: Player): seq<Match>
  {
    MoveQueue(queue, target, slot, mover, FindPlayerPosition(courts, queue, mover.id),
              TargetOccupant(courts, queue, target, slot, vacant))
  }

  lemma MoveCourtSeat(c: Court, target: Target, slot: int, mover: Player, source: Option<Location>,
                      tp: Player, synth: Match, s: nat)
    requires s < 4
    ensures var n := MoveCourt(c, target, slot, mover, source, tp, synth);
            var isT := target.ToCourt? && c.id == target.courtId;
            var isS := source.Some? && source.value.OnCourt? && c.id == source.value.courtId && c.currentMatch.Some?;
            n.id == c.id &&
            (n.currentMatch.Some? <==> c.currentMatch.Some? || isT) &&
            (n.currentMatch.Some? ==>
               Slots(n.currentMatch.value)[s] ==
                 if isS && s == source.value.slot then tp
                 else if isT && s == slot then mover
                 else if c.currentMatch.Some? then Slots(c.currentMatch.value)[s] else Slots(synth)[s])
  {
  }

  lemma MoveMatchSeat(m: Match, target: Target, slot: int, mover: Player, source: Option<Location>, tp: Player, s: nat)
    requires s < 4
    ensures var n := MoveMatch(m, target, slot, mover, source, tp);
            var isT := target.ToQueue? && m.id == target.matchId;
            var isS := source.Some? && source.value.InQueue? && m.id == source.value.matchId;
            n.id == m.id &&
            Slots(n)[s] == if isS && s == source.value.slot then tp else if isT && s == slot then mover else Slots(m)[s]
  {
  }

  /** The located seat and the reported location name the same container. */
  lemma SourceIsFirstHit(courts: seq<Court>, queue: seq<Match>, id: string)
    requires CourtIdsUnique(courts) && MatchIdsUnique(queue)
    ensures var source, src := FindPlayerPosition(courts, queue, id), FirstHit(courts, queue, id);
            (source.Some? <==> src.Some?) &&
            (src.Some? ==> src.value.slot < 4 && source.value.slot == src.value.slot) &&
            (forall c :: 0 <= c < |courts| ==>
               ((source.Some? && source.value.OnCourt? && courts[c].id == source.value.courtId) <==>
                (src.Some? && src.value.CourtSeat? && src.value.court == c))) &&
            (forall i :: 0 <= i < |queue| ==>
               ((source.Some? && source.value.InQueue? && queue[i].id == source.value.matchId) <==>
                (src.Some? && src.value.QueueSeat? && src.value.index == i)))
  {
  }

  /** The seats an idle target court receives from the synthesized match. */
  predicate SynthSeat(courts: seq<Court>, target: Target, p: Pos)
  {
    target.ToCourt? && p.CourtSeat? && p.slot < 4 && FindCourt(courts, target.courtId) == Some(p.court) &&
    courts[p.court].currentMatch.None?
  }

  /** executeMoveOrSwap seat by seat: the mover's old seat gets the target's previous occupant
      (or the vacant placeholder), the target seat gets the mover, an idle target court gets the
      synthesized match, and every other seat keeps its occupant. */
  lemma MoveOccupancy(courts: seq<Court>, queue: seq<Match>, target: Target, slot: int, mover: Player,
                      vacant: Player, synth: Match, p: Pos)
    requires CourtIdsUnique(courts) && MatchIdsUnique(queue)
    ensures var src := FirstHit(courts, queue, mover.id);
            var source := FindPlayerPosition(courts, queue, mover.id);
            var tgt := TargetPos(courts, queue, target, slot);
            var tp := TargetOccupant(courts, queue, target, slot, vacant);
            Occupant(MoveCourts(courts, target, slot, mover, source, tp, synth),
                     MoveQueue(queue, target, slot, mover, source, tp), p) ==
              if Some(p) == src then Some(tp)
              else if Some(p) == tgt then Some(mover)
              else if SynthSeat(courts, target, p) then Some(Slots(synth)[p.slot])
              else Occupant(courts, queue, p)
  {
    if p.CourtSeat? {
      MoveOccupancyOnCourt(courts, queue, target, slot, mover, vacant, synth, p);
    } else {
      MoveOccupancyInQueue(courts, queue, target, slot, mover, vacant, synth, p);
    }
  }

  /** The occupant MoveOccupancy states for seat p after the move. */
  predicate MovedOccupant(courts: seq<Court>, queue: seq<Match>, target: Target, slot: int, mover: Player,
                          vacant: Player, synth: Match, p: Pos)
  {
    var src := FirstHit(courts, queue, mover.id);
    var source := FindPlayerPosition(courts, queue, mover.id);
    var tgt := TargetPos(courts, queue, target, slot);
    var tp := TargetOccupant(courts, queue, target, slot, vacant);
    Occupant(MoveCourts(courts, target, slot, mover, source, tp, synth),
             MoveQueue(queue, target, slot, mover, source, tp), p) ==
      if Some(p) == src then Some(tp)
      else if Some(p) == tgt then Some(mover)
      else if SynthSeat(courts, target, p) then Some(Slots(synth)[p.slot])
      else Occupant(courts, queue, p)
  }

  /** MoveOccupancy for a court seat. */
  lemma MoveOccupancyOnCourt(courts: seq<Court>, queue: seq<Match>, target: Target, slot: int, mover: Player,
                             vacant: Player, synth: Match, p: Pos)
    requires CourtIdsUnique(courts) && MatchIdsUnique(queue) && p.CourtSeat?
    ensures MovedOccupant(courts, queue, target, slot, mover, vacant, synth, p)
  {
    var source := FindPlayerPosition(courts, queue, mover.id);
    var tp := TargetOccupant(courts, queue, target, slot, vacant);
    SourceIsFirstHit(courts, queue, mover.id);
    var c, s := p.court, p.slot;
    if c < |courts| && s < 4 {
      MoveCourtSeat(courts[c], target, slot, mover, source, tp, synth, s);
      if target.ToCourt? { FindCourtUnique(courts, target.courtId, c); }
    }
  }

  /** MoveOccupancy for a queue seat. */
  lemma MoveOccupancyInQueue(courts: seq<Court>, queue: seq<Match>, target: Target, slot: int, mover: Player,
                             vacant: Player, synth: Match, p: Pos)
    requires CourtIdsUnique(courts) && MatchIdsUnique(queue) && p.QueueSeat?
    ensures MovedOccupant(courts, queue, target, slot, mover, vacant, synth, p)
  {
    var source := FindPlayerPosition(courts, queue, mover.id);
    var tp := TargetOccupant(courts, queue, target, slot, vacant);
    SourceIsFirstHit(courts, queue, mover.id);
    var i, s := p.index, p.slot;
    if i < |queue| && s < 4 {
      MoveMatchSeat(queue[i], target, slot, mover, source, tp, s);
      if target.ToQueue? { FindMatchUnique(queue, target.matchId, i); }
    }
  }

  /** Under the invariants, the only seat holding a real player's id is the one the locator finds. */
  lemma LocatedSeatIsOnlySeat(courts: seq<Court>, queue: seq<Match>, x: Player)
    requires Exclusive(courts, queue) && SeatsTagged(courts, queue)
    requires !IsPlaceholderPlayer(x) && WellTagged(x)
    ensures var src := FirstHit(courts, queue, x.id);
            forall q :: Occupant(courts, queue, q).Some? && Occupant(courts, queue, q).value.id == x.id ==>
              src == Some(q) && RealAt(courts, queue, q)
  {
    var src := FirstHit(courts, queue, x.id);
    forall q | Occupant(courts, queue, q).Some? && Occupant(courts, queue, q).value.id == x.id
      ensures src == Some(q) && RealAt(courts, queue, q)
    {
      HoldsOccupant(courts, queue, q, x.id);
      HoldsOccupant(courts, queue, src.value, x.id);
      assert WellTagged(Occupant(courts, queue, q).value);
      assert WellTagged(Occupant(courts, queue, src.value).value);
    }
  }

  /** A swap that writes `mover` over `tgt` and `tp` (the former occupant of `tgt`, or a
      placeholder) over `src` (the only seat that held the mover's id) keeps real ids exclusive. */
  lemma SwapExclusive(oc: seq<Court>, oq: seq<Match>, nc: seq<Court>, nq: seq<Match>,
                      src: Option<Pos>, tgt: Option<Pos>, tp: Player, mover: Player)
    requires Exclusive(oc, oq)
    requires forall q :: RealAt(oc, oq, q) && Occupant(oc, oq, q).value.id == mover.id ==> src == Some(q)
    requires !IsPlaceholderPlayer(tp) ==> tgt.Some? && Occupant(oc, oq, tgt.value) == Some(tp)
    requires forall p :: RealAt(nc, nq, p) ==>
               Occupant(nc, nq, p) == if Some(p) == src then Some(tp)
                                      else if Some(p) == tgt then Some(mover)
                                      else Occupant(oc, oq, p)
    ensures Exclusive(nc, nq)
  {
    forall p1, p2 | p1 != p2 && RealAt(nc, nq, p1) && RealAt(nc, nq, p2)
      ensures Occupant(nc, nq, p1).value.id != Occupant(nc, nq, p2).value.id
    {
    }
  }

  /** The container ids survive a move. */
  lemma MoveKeepsIds(courts: seq<Court>, queue: seq<Match>, target: Target, slot: int, mover: Player,
                     source: Option<Location>, tp: Player, synth: Match)
    ensures var nc := MoveCourts(courts, target, slot, mover, source, tp, synth);
            forall c :: 0 <= c < |courts| ==> nc[c].id == courts[c].id
    ensures var nq := MoveQueue(queue, target, slot, mover, source, tp);
            forall i :: 0 <= i < |queue| ==> nq[i].id == queue[i].id
  {
    var nc := MoveCourts(courts, target, slot, mover, source, tp, synth);
    var nq := MoveQueue(queue, target, slot, mover, source, tp);
    forall c | 0 <= c < |courts|
      ensures nc[c].id == courts[c].id
    {
      MoveCourtSeat(courts[c], target, slot, mover, source, tp, synth, 0);
    }
    forall i | 0 <= i < |queue|
      ensures nq[i].id == queue[i].id
    {
      MoveMatchSeat(queue[i], target, slot, mover, source, tp, 0);
    }
  }

  /** A move keeps the seat invariants: one seat per real id and placeholders exactly on
      placeholder ids. It needs a real mover (placeholders are not draggable) and placeholder fillers. */
  lemma MoveKeepsSeatInvariants(courts: seq<Court>, queue: seq<Match>, target: Target, slot: int, mover: Player,
                                vacant: Player, synth: Match)
    requires CourtIdsUnique(courts) && MatchIdsUnique(queue)
    requires Exclusive(courts, queue) && SeatsTagged(courts, queue)
    requires !IsPlaceholderPlayer(mover) && WellTagged(mover)
    requires IsPlaceholderPlayer(vacant) && WellTagged(vacant)
    requires forall k :: 0 <= k < 4 ==> IsPlaceholderPlayer(Slots(synth)[k]) && WellTagged(Slots(synth)[k])
    ensures var source := FindPlayerPosition(courts, queue, mover.id);
            var tp := TargetOccupant(courts, queue, target, slot, vacant);
            var nc := MoveCourts(courts, target, slot, mover, source, tp, synth);
            var nq := MoveQueue(queue, target, slot, mover, source, tp);
            Exclusive(nc, nq) && SeatsTagged(nc, nq)
  {
    var src := FirstHit(courts, queue, mover.id);
    var source := FindPlayerPosition(courts, queue, mover.id);
    var tgt := TargetPos(courts, queue, target, slot);
    var tp := TargetOccupant(courts, queue, target, slot, vacant);
    var nc := MoveCourts(courts, target, slot, mover, source, tp, synth);
    var nq := MoveQueue(queue, target, slot, mover, source, tp);
    forall p
      ensures Occupant(nc, nq, p) ==
              if Some(p) == src then Some(tp)
              else if Some(p) == tgt then Some(mover)
              else if SynthSeat(courts, target, p) then Some(Slots(synth)[p.slot])
              else Occupant(courts, queue, p)
    {
      MoveOccupancy(courts, queue, target, slot, mover, vacant, synth, p);
    }
    LocatedSeatIsOnlySeat(courts, queue, mover);
    SwapExclusive(courts, queue, nc, nq, src, tgt, tp, mover);
    forall p | Occupant(nc, nq, p).Some?
      ensures WellTagged(Occupant(nc, nq, p).value)
    {
      if Some(p) != src && Some(p) != tgt && !SynthSeat(courts, target, p) {
        assert Occupant(nc, nq, p) == Occupant(courts, queue, p);
      }
    }
  }
}
