/**
 * The records the application keeps: a post row of the Posts table and the
 * single row of the Settings table. Times are instants in ticks of 100 ns.
 */
module Posts {
  import opened Wrappers
  import Strings

  const Draft: int := 0
  const Published: int := 1

  /** One row of the Posts table, with the three engagement counters. */
  datatype Post = Post(
    id: int,
    headline: string,
    fullText: string,
    imagePath: string,
    status: int,                    // 0: draft, 1: published
    facebookPostId: Option<string>, // NULL until the post is published
    publishedDate: Option<int>,     // NULL until the post is published
    likes: int,
    comments: int,
    shares: int)

  /** The credentials row of the Settings table. */
  datatype Settings = Settings(appId: string, pageId: string, accessToken: string)

  /** A post object with only `Id` and `ImagePath` set, the others at their defaults. */
  function Stub(id: int, imagePath: string): Post
  {
    Post(id, "", "", imagePath, 0, None, None, 0, 0, 0)
  }

  predicate IsDraft(p: Post) { p.status == Draft }

  predicate IsPublished(p: Post) { p.status == Published }

  /** `!string.IsNullOrEmpty(p.FacebookPostId)`. */
  predicate HasRemoteId(p: Post)
  {
    p.facebookPostId.Some? && p.facebookPostId.value != ""
  }

  /** `!string.IsNullOrWhiteSpace(p.FacebookPostId)`: the stricter test of the data-quality figure. */
  predicate IsSynced(p: Post)
  {
    p.facebookPostId.Some? && !Strings.IsBlank(p.facebookPostId.value)
  }

  /** The remote id, or "" for a post that has none. */
  function RemoteId(p: Post): string
  {
    if p.facebookPostId.Some? then p.facebookPostId.value else ""
  }

  function LikesOf(p: Post): int { p.likes }

  function CommentsOf(p: Post): int { p.comments }

  function SharesOf(p: Post): int { p.shares }

  /** All three counters of every post are non-negative. */
  ghost predicate CountersNonNegative(posts: seq<Post>)
  {
    forall i :: 0 <= i < |posts| ==> posts[i].likes >= 0 && posts[i].comments >= 0 && posts[i].shares >= 0
  }

  /** A synced post always has a remote id. */
  lemma SyncedHasRemoteId(p: Post)
    ensures IsSynced(p) ==> HasRemoteId(p)
  {
  }
}
