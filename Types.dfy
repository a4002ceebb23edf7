/**
 * The records the client holds. `Post` is the stored post row (id, author,
 * text, optional image URL, creation time, optional joined author profile)
 * extended with the three per-viewer fields the client attaches to it: the like
 * count, whether the viewer liked it, and whether the viewer saved it.
 */
module Types {
  import opened Common

  type UserId = string
  type PostId = string

  /** The joined `profiles` record of a post's author. */
  datatype Profile = Profile(
    id: UserId,
    username: string,
    fullName: Option<string>,
    avatarUrl: Option<string>)

  datatype Post = Post(
    id: PostId,
    userId: UserId,
    content: string,
    imageUrl: Option<string>,
    createdAt: string,
    profile: Option<Profile>,
    likeCount: int,
    isLiked: bool,
    isSaved: bool)

  /** A remote call that either resolves with a value or throws. */
  datatype Outcome<T> = Resolved(value: T) | Threw

  /** What a table query gives back: its rows (which may be null), or an error. */
  datatype Query<T> = Rows(data: Option<seq<T>>) | QueryError
}
