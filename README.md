# BadmintonKing scheduling core in Dafny

BadmintonKing is a single-page app that runs club badminton sessions: a roster of players, a few
courts, a queue of upcoming doubles matches and a history of recently played pairings. This project
models the scheduling core of the `App` component and of `constants.ts`:

- the skill score of a level string, following JavaScript's `parseInt` (`Levels`);
- the fairness engine, i.e. projected game counts and last-play times and the ranking of bench players (`Fairness`, `Sorting`);
- the pairing of the four selected players into two teams, with a penalty for skill imbalance and for recently repeated partnerships (`Pairing`);
- the queue-generation effect, which replaces the first draft match or appends a match and otherwise tops the queue up with drafts (`Replenish`);
- the lifecycle of a match, i.e. court assignment, finishing, clearing, reset, removing and pausing a player (`Lifecycle`);
- the unified move/swap used by drag and drop, substitution and auto-fill (`Seating`, `Moves`, `AutoFill`);
- the component's state, as a class `App.Scheduler` whose methods are the handlers (`App`).

Players, teams, matches and courts are datatypes (`Types`). Each handler rewrites the four fields of
`Scheduler` in place. Each handler keeps `Scheduler.Valid()`:

- the history holds at most 20 signatures;
- court ids and queued match ids are unique;
- the roster holds distinct real players;
- a real player occupies at most one seat on the courts and in the queue;
- a seat holds a placeholder exactly when its id is a placeholder id.

`Date.now()` is a parameter `now`. The three `Math.random()` draws of the pairing are a parameter
`jitter` of three reals in [0, 5). Generated ids are inputs: queue and draft match ids, the suffixes of
fresh placeholder ids, and the id of a match made up for an idle court. `window.confirm` is a boolean.

Two behaviours of the program worth stating outright:
- Removing a player drops every queued match that holds the id (App.tsx:299-301); no placeholder is put in the vacated seat.
- For selected skills 2, 2, 16, 16 the optimiser always picks a mixed split (each team one weak and one strong player), never the two weak against the two strong (`Pairing.MixedSplitChosen`).

## Model

| member | source | states |
|---|---|---|
| Constants.IsPlaceholderCases | constants.ts:36-38 | a missing player, the template id and the placeholder flag each make a seat empty; a player with none of them is not empty |
| Constants.PlaceholderTemplate | constants.ts:26-34 | the template player is an empty seat with no games and not paused |
| Levels.LevelScore | App.tsx:62-70 | a level that parseInt reads as a number scores that number; otherwise the four tier names score 18/14/8/3 and anything else 1 |
| Levels.ParseDecimal | App.tsx:63 | parseInt reads back every decimal numeral exactly |
| Levels.ParseNegativeDecimal | App.tsx:63 | parseInt reads a minus sign followed by a decimal numeral as the negated value |
| Levels.TiersAreNotNumerals | types.ts:1-6 | none of the four tier names parses as a number, so the tier branches are reachable |
| Levels.LevelScoreOfNumeral | App.tsx:62-64 | the 1-18 level strings score their own value |
| Matches.UpdateMatchSlot | App.tsx:430-437 | slots 0..3 replace exactly that seat and keep the rest; any other index leaves the match unchanged |
| Matches.SlotOf | App.tsx:487-505 | the first seat in slot order holding the id, or none when no seat holds it |
| Matches.MakePlaceholder | App.tsx:405 | a fresh placeholder is an empty, well-tagged copy of the template |
| Matches.EmptyMatch | App.tsx:281-287 | a match of four fresh placeholders is a draft with the given id, court and start time |
| Seating.FindPlayerPosition | App.tsx:377-396 | none exactly when no court or queue seat holds the id; otherwise the first seat in scan order (courts, then queue, slots 0..3) |
| Seating.SeatIdsExact | App.tsx:109-123 | the set of seated ids contains an id exactly when some seat holds it |
| Sorting.SortBySorted | App.tsx:128-136 | the fairness sort orders its result by key |
| Sorting.SortByStable | App.tsx:128-136 | players with equal keys keep their roster order, as Array.prototype.sort guarantees |
| Fairness.ProjectedState | App.tsx:73-105 | the projected counts are the roster games plus one per real court seat and one per real queue seat; the projected last time is that of the last queued match holding the player, else the roster time |
| Fairness.ActiveIds | App.tsx:109-123 | the active set is exactly the ids seated on a busy court or in the queue, placeholders included |
| Fairness.BestCandidates | App.tsx:108-137 | the candidates are the ranking: available roster players sorted by projected games, then by projected last time |
| Fairness.RankingMembers | App.tsx:126 | a player is a candidate exactly when rostered, not paused, not a placeholder and not seated anywhere |
| Fairness.FilterKeeps | App.tsx:126 | the availability filter keeps exactly the roster players that are not paused, not among the active ids and not placeholders |
| Fairness.RankingSorted | App.tsx:128-136 | earlier candidates have no more projected games, and on a tie no later projected time |
| Fairness.RankingStable | App.tsx:128-136 | candidates with equal keys keep roster order |
| Fairness.RankingDistinct | App.tsx:126 | a roster with distinct ids gives candidates with distinct ids |
| Fairness.ProjectedTimeLastIndex | App.tsx:95-102 | a player in queued match i and in no later one is projected to play at now + (i+1)·1000000 |
| Fairness.ProjectedTimeUnqueued | App.tsx:78-81 | a player in no queued match keeps the roster time (0 when never played) |
| Fairness.QueueTimesIncrease | App.tsx:96 | simulated queue times lie after now and increase with the queue position |
| Fairness.ProjectedGamesSeated | App.tsx:78-102 | when no real player sits twice, its projection is its games plus one if it is seated |
| Pairing.LastN | App.tsx:245 | the window is the last min(n, length) entries |
| Pairing.PairSigSymmetric | App.tsx:242-243 | a pair signature does not depend on the order of the two ids |
| Pairing.IncludesIsMention | App.tsx:246 | for ids without '&#124;', the substring test on a rendered signature holds exactly when one of its two pairs equals the pair |
| Pairing.RepetitionPenaltyWindow | App.tsx:244-248 | the repetition penalty is 50 exactly when one of the last 10 signatures mentions either pair, else 0 |
| Pairing.Repetitions | App.tsx:242-248 | the three repetition terms are those of the three splits, in the order of the combinations list |
| Pairing.SplitPenalty | App.tsx:236-249 | one iteration's total is entry i of `Penalties`: twice the skill-sum gap of the split, plus its repetition term, plus that split's jitter; what the optimiser then promises is `Pairing.DominatedNeverChosen` and `Pairing.MixedSplitChosen` |
| Pairing.FirstMin | App.tsx:232-254 | the chosen index has the least penalty and no earlier index ties it (strict less-than) |
| Pairing.ChooseSplit | App.tsx:232-254 | the scan over the three splits returns the first least-penalty split |
| Pairing.DominatedNeverChosen | App.tsx:249 | a split whose base penalty exceeds another's by 5 or more is never chosen, whatever the jitter |
| Pairing.FreshBalancedBeatsRepeat | App.tsx:246-252 | a split with a repeated pair loses to a balanced split with no repeat |
| Pairing.MixedSplitChosen | App.tsx:227-254 | skills 2,2,16,16 are always split weak-with-strong |
| Pairing.MixedSplitChosenForNumerals | App.tsx:239-254 | the same holds for players whose level strings are "2","2","16","16" |
| Pairing.BuildMatch | App.tsx:255-262 | the new match seats exactly the four selected players, with court 0 and start time 0 |
| Pairing.BuildMatchFollowsSplit | App.tsx:259-260 | team A and team B are the two pairs of the chosen split |
| Moves.FindCourt | App.tsx:412 | the first court with the id, or none when no court has it |
| Moves.FindMatch | App.tsx:420 | the first queued match with the id, or none when no match has it |
| Moves.TargetOccupant | App.tsx:409-427 | the target player is the occupant of the addressed seat, or the fresh placeholder when there is none |
| Moves.MoveOccupancy | App.tsx:439-479 | after a move, the mover's old seat holds the target player, the target seat holds the mover, an idle target court holds the synthesized placeholders, and every other seat is unchanged |
| Moves.MoveKeepsSeatInvariants | App.tsx:399-480 | a move of a real player keeps every real player in at most one seat and every seat well tagged |
| Lifecycle.RecordPlayed | App.tsx:320-326 | a match of four real players appends its signature, keeping the last 20; any other match leaves the history alone |
| Lifecycle.SetCourtMatch | App.tsx:329 | only courts with the id get the new match; names and ids are kept |
| Lifecycle.AssignKeepsSeatInvariants | App.tsx:306-331 | moving the queue head onto a court keeps exclusivity and tagging |
| Lifecycle.ClearKeepsSeatInvariants | App.tsx:349-351 | emptying a court keeps exclusivity and tagging |
| Lifecycle.Credit | App.tsx:335-343 | each real participant gains one game and last time now; everyone else is unchanged |
| Lifecycle.FinishKeepsProjectedGames | App.tsx:332-348 | finishing a match turns a projected court game into a credited game, so no rostered player's projection changes |
| Lifecycle.ResetPlayers | App.tsx:354 | every player gets zero games and last time 0 |
| Lifecycle.IdleCourts | App.tsx:355 | every court becomes idle and keeps its id and name |
| Lifecycle.RemoveFromRoster | App.tsx:298 | the roster keeps exactly the players with another id |
| Lifecycle.RosterKeptIndices | App.tsx:298 | `KeptInOrder`: the kept players are the roster entries with another id, every one of them, in their original roster order |
| Lifecycle.DropMatchesWithKeeps | App.tsx:299-301 | the queue keeps exactly the matches in which no seat holds the id |
| Lifecycle.DropIndices | App.tsx:299-301 | the kept matches stay in their original order |
| Lifecycle.RemoveKeepsSeatInvariants | App.tsx:297-302 | dropping matches keeps exclusivity, tagging and unique match ids |
| Lifecycle.RemoveClearsQueue | App.tsx:299-301 | after removal no queue seat holds the removed id |
| Lifecycle.TogglePaused | App.tsx:304 | exactly the players with the id flip their paused flag |
| Lifecycle.TogglePausedTwice | App.tsx:303-305 | toggling twice restores the roster |
| Replenish.FirstDraft | App.tsx:207-211 | the index of the first match whose four seats are all empty, or none |
| Replenish.ReplenishQueue | App.tsx:195-291 | one pass of the queue-generation effect, computed as the source's steps |
| Replenish.GenerateQueue | App.tsx:217-289 | the steps after the candidates are ranked compute `Generate`: pair the top four and enqueue the match, or append a draft to a short queue; its properties are `Replenish.GenerateBuilds`, `Replenish.GenerateDrafts` and `Replenish.GenerateBounded` |
| Replenish.PairSelected | App.tsx:224-262 | the pairing loop and the match literal give the match of the selected four under the chosen split |
| Replenish.EnqueueMatch | App.tsx:264-276 | the queue updater computes `Enqueue`, whose properties are `Replenish.EnqueueCases` and `Replenish.EnqueueBounded` |
| Replenish.EnqueueCases | App.tsx:264-276 | when generation is needed, the new match replaces the first draft, or is appended to a queue without drafts |
| Replenish.EnqueueBounded | App.tsx:264-276 | the updater adds at most one match, never past the target size, and keeps every non-draft match |
| Replenish.GenerateBuilds | App.tsx:224-276 | with four candidates, the match of the first four replaces the first draft or is appended when there is none |
| Replenish.GenerateDrafts | App.tsx:278-289 | with fewer than four candidates a short queue gains one draft at its end and a full one is left alone |
| Replenish.GenerateBounded | App.tsx:224-289 | generation adds at most one match, never past the target size, and keeps every non-draft match |
| Replenish.ReplenishIdle | App.tsx:196-216 | with fewer than 4 players, or a full queue without drafts, the queue is left alone |
| Replenish.ReplenishBuilds | App.tsx:224-277 | with 4 candidates the new match seats the top four; it replaces the first draft, or is appended when there is none |
| Replenish.ReplenishDrafts | App.tsx:278-289 | with fewer than 4 candidates a short queue gains one draft at its end; a full one is left alone |
| Replenish.ReplenishBounded | App.tsx:264-289 | one pass adds at most one match, never beyond the target size, and changes no non-draft match |
| Replenish.ReplenishPicksFairest | App.tsx:217-225 | every player seated by the pass ranks no worse than every candidate left on the bench |
| Replenish.ReplenishedShape | App.tsx:224-289 | a pass changes nothing or places one match over a draft or at the end: a fresh draft, or a split of the four best-ranked players under the new id |
| Replenish.ReplenishKeepsInvariants | App.tsx:195-291 | the pass keeps exclusivity, tagging and unique match ids |
| AutoFill.EmptyIn | App.tsx:159 | the empty-slot indices are exactly the placeholder slots, in increasing order |
| AutoFill.FillEmptySlots | App.tsx:168-190 | the k-th empty slot takes the k-th candidate while candidates last; real seats are kept |
| AutoFill.FillCompletes | App.tsx:180-186 | with at least as many real candidates as empty slots, the match ends with no empty seat |
| AutoFill.FillKeepsSeatInvariants | App.tsx:150-191 | filling from bench candidates keeps exclusivity and tagging |
| App.InitialCourts | App.tsx:35-39 | courts 1..n, named "場地 k", all idle, with unique ids |
| App.FindPlayer | App.tsx:484 | the first roster player with the id, or none |
| App.SubstitutionSlot | App.tsx:487-507 | the first slot, in 0..3 order, of the addressed match that holds the id, or none when no seat of that match holds it |
| App.SeedRosterTagged | App.tsx:43-58 | the seed roster holds real players with distinct ids outside the placeholder name space |
| App.Scheduler.constructor | App.tsx:34-59 | the session starts with the fourteen seed players, two idle courts, an empty queue and an empty history |
| App.Scheduler.Replenish | App.tsx:195-291 | the queue becomes one pass of the generation effect; the other fields are kept and the invariant holds |
| App.Scheduler.AssignMatchToCourt | App.tsx:306-331 | an empty queue changes nothing; otherwise the head goes on the court stamped with court and now, leaves the queue and is recorded |
| App.Scheduler.FinishMatch | App.tsx:332-348 | a busy court is cleared and its real players credited; no rostered player's projected games change |
| App.Scheduler.ClearCourt | App.tsx:349-351 | the court becomes idle; nobody is credited |
| App.Scheduler.ResetAllStats | App.tsx:352-358 | unconfirmed changes nothing; confirmed zeroes every count and time, idles every court and empties queue and history |
| App.Scheduler.RemovePlayer | App.tsx:297-302 | the player leaves the roster and no queued seat holds the id afterwards |
| App.Scheduler.TogglePause | App.tsx:303-305 | the player's paused flag flips; nothing else changes |
| App.Scheduler.ExecuteMoveOrSwap | App.tsx:399-480 | courts and queue become the swapped seats; roster and history are kept and the invariant holds |
| App.Scheduler.AutoFillSlot | App.tsx:140-148 | no candidate changes nothing; otherwise the best candidate is moved into the slot |
| App.Scheduler.AutoFillMatch | App.tsx:150-191 | the addressed match's empty slots take the best candidates in slot order; every other match is kept |
| App.Scheduler.Substitution | App.tsx:482-513 | the chosen roster player takes the seat of the player the modal was opened for; a closed modal, an unknown player or a lost seat changes nothing |
| App.Scheduler.PlayerDrop | App.tsx:516-519 | a dragged player moves onto the court slot; no payload, no change |
| App.Scheduler.QueueDrop | App.tsx:521-546 | a bench player already on a court or in the queue is refused; otherwise the player moves into the queue slot |

## Left out

- Rendering, drag-and-drop event plumbing, the modal and drag-over state, alerts, and the AI analysis service are not modelled; only their effects on the four state fields are.
- getPlayerLocation (App.tsx:361-375) only produces a display label and is not modelled.
- handleAddPlayer (App.tsx:294-296) is not modelled: its id `Date.now().toString()` may collide with an existing id, and the roster invariant cannot be stated without freshness of that clock reading.
- React scheduling is not modelled. Each call of `Scheduler.Replenish` is one run of the effect on the state it reads; the framework's re-runs after each state change are calls the caller makes.
- Date.now() is one reading `now` per handler. The source reads the clock again inside some callbacks.
- Generated ids are inputs: `queue-…`, `draft-…`, `manual-…` and the `placeholder-…` suffixes. The methods that add a queue match require its id to be new there.
- Placeholder ids may repeat: the suffixes are unconstrained inputs, and the invariant does not make the placeholder ids of one match, or of different matches, distinct. The program's `Date.now()`-plus-random suffixes make a repeat unlikely but do not exclude it; when one happens, `App.SubstitutionSlot` picks the first slot holding the id, as findSlot's early returns do.
- History entries are held as `Signature(pairA, pairB)` records, and the test `h.includes('|' + sig + '|')` on the rendered string becomes pair equality. This matches the program only for ids without '|' (`Pairing.IncludesIsMention`); the program's player ids are numerals, and its placeholder ids are `placeholder-` followed by a clock reading and a random fraction, with no '|' in either.
- The jitter `Math.random() * 5` is three real numbers in [0, 5). Floating-point rounding of the penalty sum is not modelled.
- App.Scheduler.Replenish: requires valid jitter and new match ids, which the source gets from Math.random and the clock.
- Levels.LevelScore: parseInt's rounding of numerals beyond 2^53 is not modelled; integers are exact.
- Pair signatures order the two ids as sequences of `char`. JavaScript's default `sort()` compares UTF-16 code units, which differs only for characters outside the Basic Multilingual Plane; the signature is symmetric either way.
- App.Scheduler.ExecuteMoveOrSwap: requires the mover to be a real, well-tagged player. The views never make placeholders draggable, and a player can only arrive from the roster or a seat.
- App.Scheduler.PlayerDrop: requires a dragged player to be real and well tagged, for the same reason.
- App.Scheduler.QueueDrop: requires a dragged player to be real and well tagged, for the same reason. The payload's `type === 'bench'` is the boolean `fromBench`.
- App.Scheduler.FinishMatch: assumes unique court ids through the invariant. With duplicate ids the source would clear and credit every matching court.
- App.Scheduler.AutoFillMatch: updates the one match with the id; ids are unique through the invariant.
- App.Scheduler.Substitution: the modal's target is the parameter `sub`. The modal closing at the end of the handler is UI state and is not modelled.
- The optional `endTime` of a match is never set by the core and is not modelled.
