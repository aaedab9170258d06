/** Record shapes of the court scheduler (types.ts). */
module Types {

  datatype Option<T> = None | Some(value: T)

  datatype Gender = Male | Female

  /** A roster member, or a synthetic "empty seat" when `isPlaceholder` holds.
      `lastMatchTime` is the optional timestamp of the end of the player's last
      match (None: never played). */
  datatype Player = Player(
    id: string,
    name: string,
    level: string,
    gamesPlayed: nat,
    lastMatchTime: Option<int>,
    isPaused: bool,
    isPlaceholder: bool,
    gender: Gender)

  datatype Team = Team(player1: Player, player2: Player)

  /** `courtId` is 0 and `startTime` 0 while the match waits in the queue. */
  datatype Match = Match(id: string, courtId: int, teamA: Team, teamB: Team, startTime: int)

  /** `currentMatch` None means the court is idle. */
  datatype Court = Court(id: int, name: string, currentMatch: Option<Match>)

  /** The four named skill tiers (PlayerLevel). */
  const BEGINNER: string := "初學"
  const INTERMEDIATE: string := "中階"
  const ADVANCED: string := "高階"
  const PRO: string := "校隊/職業"
}
