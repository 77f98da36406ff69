/** The values that travel through the vote write path. */
module VoteModel {

  datatype Option<+T> = None | Some(value: T)

  datatype Result<+T, +E> = Success(value: T) | Failure(error: E)

  const SCORE_PER_VOTE := 432
  const VOTE_WINDOW_SECONDS := 7 * 24 * 3600
  const VOTE_CHANGED := "vote.changed.v1"

  /** The key of a vote: one user on one post. */
  datatype Pair = Pair(user: int, post: int)

  /** "User `user` now stands at `direction` on post `post`": a state, not a delta. */
  datatype VoteEvent = VoteEvent(
    id: string, user: int, post: int, direction: int, version: int, occurredAt: int) {
    function Key(): Pair {
      Pair(user, post)
    }
  }

  predicate IsDirection(direction: int) {
    direction == -1 || direction == 0 || direction == 1
  }

  const INT64_MAX := 0x7FFF_FFFF_FFFF_FFFF

  predicate IsPositiveInt64(n: int) {
    0 < n <= INT64_MAX
  }

  /** The events the vote path produces: ids and times are positive 64-bit integers. */
  predicate WellFormed(e: VoteEvent) {
    && 0 < |e.id| <= 64
    && IsPositiveInt64(e.user)
    && IsPositiveInt64(e.post)
    && IsDirection(e.direction)
    && e.version > 0
    && IsPositiveInt64(e.occurredAt)
  }
}
