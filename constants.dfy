/** Shared constants and the placeholder test (constants.ts). */
module Constants {
  import opened Types

  const DEFAULT_COURT_COUNT: nat := 2

  const PLACEHOLDER_ID: string := "placeholder"

  /** The template every empty seat is copied from. */
  const PLACEHOLDER_PLAYER: Player :=
    Player(PLACEHOLDER_ID, "空缺", "0", 0, None, false, true, Male)

  /** A seat counts as empty when it holds the template id or carries the flag. */
  predicate IsPlaceholderPlayer(p: Player)
  {
    p.id == PLACEHOLDER_ID || p.isPlaceholder
  }

  /** The source's `isPlaceholder(p: Player | undefined)`: a missing player is empty too. */
  predicate IsPlaceholder(p: Option<Player>)
  {
    p.None? || IsPlaceholderPlayer(p.value)
  }

  /** The four cases of the placeholder test. */
  lemma IsPlaceholderCases(p: Player)
    ensures IsPlaceholder(None)
    ensures p.id == PLACEHOLDER_ID ==> IsPlaceholder(Some(p))
    ensures p.isPlaceholder ==> IsPlaceholder(Some(p))
    ensures !p.isPlaceholder && p.id != PLACEHOLDER_ID ==> !IsPlaceholder(Some(p))
  {
  }

  /** The template is itself an empty seat with no games and not paused. */
  lemma PlaceholderTemplate()
    ensures IsPlaceholder(Some(PLACEHOLDER_PLAYER))
    ensures PLACEHOLDER_PLAYER.gamesPlayed == 0 && !PLACEHOLDER_PLAYER.isPaused
  {
  }
}
