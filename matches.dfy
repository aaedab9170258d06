/** Helpers over the four seats of a match (App.tsx): the slot array, the
    single-slot update, the draft test, fresh placeholders and empty matches. */
module Matches {
  import opened Types
  import opened Constants

  /** Fresh placeholders get ids "placeholder-<suffix>". */
  const PLACEHOLDER_PREFIX: string := "placeholder-"

  /** The seats in slot order 0..3: team A player 1 and 2, team B player 1 and 2. */
  function Slots(m: Match): (s: seq<Player>)
    ensures |s| == 4
  {
    [m.teamA.player1, m.teamA.player2, m.teamB.player1, m.teamB.player2]
  }

  /** A match is determined by its identity fields and its four seats. */
  lemma SlotsDetermineMatch(m1: Match, m2: Match)
    requires m1.id == m2.id && m1.courtId == m2.courtId && m1.startTime == m2.startTime
    requires Slots(m1) == Slots(m2)
    ensures m1 == m2
  {
    assert m1.teamA.player1 == Slots(m1)[0] && m1.teamA.player2 == Slots(m1)[1];
    assert m1.teamB.player1 == Slots(m1)[2] && m1.teamB.player2 == Slots(m1)[3];
  }

  /** updateMatchSlot: seat `slot` gets `p`; an index outside 0..3 changes nothing. */
  function UpdateMatchSlot(m: Match, slot: int, p: Player): (r: Match)
    ensures 0 <= slot < 4 ==> Slots(r) == Slots(m)[slot := p]
    ensures !(0 <= slot < 4) ==> r == m
    ensures r.id == m.id && r.courtId == m.courtId && r.startTime == m.startTime
  {
    if slot == 0 then m.(teamA := m.teamA.(player1 := p))
    else if slot == 1 then m.(teamA := m.teamA.(player2 := p))
    else if slot == 2 then m.(teamB := m.teamB.(player1 := p))
    else if slot == 3 then m.(teamB := m.teamB.(player2 := p))
    else m
  }

  /** isDraftMatch: every seat is empty. */
  predicate IsDraftMatch(m: Match)
  {
    forall k | 0 <= k < 4 :: IsPlaceholderPlayer(Slots(m)[k])
  }

  /** The first slot, in order 0..3, whose occupant has id `id`. */
  function SlotOf(m: Match, id: string): (r: Option<nat>)
    ensures r.Some? ==> r.value < 4 && Slots(m)[r.value].id == id
    ensures r.Some? ==> forall k :: 0 <= k < r.value ==> Slots(m)[k].id != id
    ensures r.None? ==> forall k :: 0 <= k < 4 ==> Slots(m)[k].id != id
  {
    if m.teamA.player1.id == id then Some(0)
    else if m.teamA.player2.id == id then Some(1)
    else if m.teamB.player1.id == id then Some(2)
    else if m.teamB.player2.id == id then Some(3)
    else None
  }

  /** Ids in the placeholder name space: the template id or a fresh "placeholder-" id. */
  predicate HasPlaceholderId(id: string)
  {
    id == PLACEHOLDER_ID ||
    (|id| >= |PLACEHOLDER_PREFIX| && id[..|PLACEHOLDER_PREFIX|] == PLACEHOLDER_PREFIX)
  }

  /** A player is an empty seat exactly when its id is in the placeholder name space. */
  predicate WellTagged(p: Player)
  {
    IsPlaceholderPlayer(p) <==> HasPlaceholderId(p.id)
  }

  /** createPlaceholder: a copy of the template under a fresh id. */
  function MakePlaceholder(suffix: string): (p: Player)
    ensures IsPlaceholderPlayer(p) && WellTagged(p)
    ensures p.gamesPlayed == 0 && !p.isPaused && p.lastMatchTime.None?
  {
    var id := PLACEHOLDER_PREFIX + suffix;
    assert id[..|PLACEHOLDER_PREFIX|] == PLACEHOLDER_PREFIX;
    PLACEHOLDER_PLAYER.(id := id)
  }

  /** A match whose four seats are fresh placeholders: the draft matches of the
      queue (court 0, start 0) and the match made up for an idle target court. */
  function EmptyMatch(id: string, courtId: int, startTime: int, suffixes: seq<string>): (m: Match)
    requires |suffixes| == 4
    ensures IsDraftMatch(m)
    ensures m.id == id && m.courtId == courtId && m.startTime == startTime
    ensures forall k :: 0 <= k < 4 ==> WellTagged(Slots(m)[k])
  {
    Match(id, courtId,
          Team(MakePlaceholder(suffixes[0]), MakePlaceholder(suffixes[1])),
          Team(MakePlaceholder(suffixes[2]), MakePlaceholder(suffixes[3])),
          startTime)
  }
}
