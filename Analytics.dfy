/**
 * The statistics tab: the figures computed from the stored posts each time the
 * tab is refreshed. Only published posts are counted; they are ranked by an
 * engagement score, then by raw interactions, highest first.
 */
module Analytics {
  import opened Wrappers
  import opened Seqs
  import opened Sorting
  import opened Posts
  import Strings

  const TicksPerDay: int := 864_000_000_000

  /** Likes, comments and shares together. */
  function Interactions(p: Post): int
  {
    p.likes + p.comments + p.shares
  }

  /** The engagement score: a comment weighs twice a like, a share three times. */
  function Score(p: Post): int
  {
    p.likes + 2 * p.comments + 3 * p.shares
  }

  /** The ranking order: by score, then by interactions. */
  function RankKey(p: Post): Key
  {
    Key(Score(p), Interactions(p))
  }

  /** The number of started days in `elapsed` ticks (rounded up; zero or negative ticks give at most 0). */
  function CeilDays(elapsed: int): (d: int)
    ensures (d - 1) * TicksPerDay < elapsed <= d * TicksPerDay
  {
    -((-elapsed) / TicksPerDay)
  }

  /** Days a post has been online: 0 without a date, otherwise the started days, at least 1. */
  function DaysOnline(p: Post, now: int): (d: int)
    ensures p.publishedDate.None? ==> d == 0
    ensures p.publishedDate.Some? ==> d >= 1 && now - p.publishedDate.value <= d * TicksPerDay
    ensures p.publishedDate.Some? && d > 1 ==> (d - 1) * TicksPerDay < now - p.publishedDate.value
  {
    if p.publishedDate.None? then 0
    else
      var days := CeilDays(now - p.publishedDate.value);
      if days < 1 then 1 else days
  }

  /** Interactions per day online; None (shown as "-") when the post has no date. */
  function InteractionsPerDay(p: Post, now: int): (r: Option<real>)
    ensures r.None? <==> p.publishedDate.None?
    ensures r.Some? ==> r.value * (DaysOnline(p, now) as real) == Interactions(p) as real
  {
    var days := DaysOnline(p, now);
    if days > 0 then Some(Interactions(p) as real / days as real) else None
  }

  /** One line of the ranking table. */
  datatype RankedRow = RankedRow(
    rank: int,
    post: Post,
    interactions: int,
    score: int,
    daysOnline: int,
    perDay: Option<real>)

  /** The row for `p` at rank `rank`. */
  function MakeRow(rank: int, p: Post, now: int): RankedRow
  {
    RankedRow(rank, p, Interactions(p), Score(p), DaysOnline(p, now), InteractionsPerDay(p, now))
  }

  /** The rows of the ranked posts, numbered from `firstRank`. */
  function Rows(ranked: seq<Post>, firstRank: int, now: int): (rows: seq<RankedRow>)
    ensures |rows| == |ranked|
    ensures forall i :: 0 <= i < |rows| ==> rows[i] == MakeRow(firstRank + i, ranked[i], now)
  {
    if ranked == [] then [] else [MakeRow(firstRank, ranked[0], now)] + Rows(ranked[1..], firstRank + 1, now)
  }

  /** `p` was published at or after `cutoff`. */
  predicate InWindow(p: Post, cutoff: int)
  {
    p.publishedDate.Some? && p.publishedDate.value >= cutoff
  }

  /** The window test for one cutoff, as a filter. */
  function InWindowOf(cutoff: int): Post -> bool
  {
    p => InWindow(p, cutoff)
  }

  /** The posts of `s` published at or after `cutoff`, in order. */
  function Window(s: seq<Post>, cutoff: int): (r: seq<Post>)
    ensures |r| <= |s|
    ensures forall i :: 0 <= i < |r| ==> InWindow(r[i], cutoff)
  {
    FilterAll(s, InWindowOf(cutoff));
    Filter(s, InWindowOf(cutoff))
  }

  /** Everything the statistics tab shows. */
  datatype Snapshot = Snapshot(
    totalLikes: int,
    totalComments: int,
    totalShares: int,
    totalInteractions: int,
    publishedCount: int,
    draftCount: int,
    averageInteractions: real,  // shown with one decimal
    topHeadline: string,
    topScoreText: string,
    posts7: int,
    interactions7: int,
    posts30: int,
    interactions30: int,
    syncedCount: int,
    rows: seq<RankedRow>)

  /** The average of `total` over `count` items, 0 when there are none. */
  function Mean(total: int, count: int): (m: real)
    ensures count > 0 ==> m * count as real == total as real
    ensures count <= 0 ==> m == 0.0
  {
    if count > 0 then QuotientTimesDivisor(total as real, count as real); total as real / count as real
    else 0.0
  }

  lemma QuotientTimesDivisor(t: real, n: real)
    requires n != 0.0
    ensures (t / n) * n == t
  {
  }

  /** The published posts, in stored order. */
  function PublishedPosts(all: seq<Post>): seq<Post>
  {
    Filter(all, IsPublished)
  }

  /** The published posts, ranked. */
  function RankedPosts(all: seq<Post>): seq<Post>
  {
    SortDescending(PublishedPosts(all), RankKey)
  }

  const DayWindowShort: int := 7
  const DayWindowLong: int := 30

  /** UpdateStatisticsUI on the stored posts at instant `now`. */
  function Statistics(all: seq<Post>, now: int): Snapshot
  {
    var published := PublishedPosts(all);
    var likes := Sum(published, LikesOf);
    var comments := Sum(published, CommentsOf);
    var shares := Sum(published, SharesOf);
    var interactions := likes + comments + shares;
    var rows := Rows(RankedPosts(all), 1, now);
    var recent := Window(published, now - DayWindowShort * TicksPerDay);
    var month := Window(published, now - DayWindowLong * TicksPerDay);
    Snapshot(
      likes, comments, shares, interactions,
      |published|,
      |Filter(all, IsDraft)|,
      Mean(interactions, |published|),
      if |rows| > 0 then rows[0].post.headline else "-",
      if |rows| > 0
      then "Score: " + Strings.IntToString(rows[0].score) + " | Interaktionen: " + Strings.IntToString(rows[0].interactions)
      else "Score: 0",
      |recent|, Sum(recent, Interactions),
      |month|, Sum(month, Interactions),
      |Filter(published, IsSynced)|,
      rows)
  }

  // ------------------------------------------------------------------
  // Properties
  // ------------------------------------------------------------------

  /** Summing interactions is summing the three counters. */
  lemma {:induction false} SumOfInteractions(s: seq<Post>)
    ensures Sum(s, Interactions) == Sum(s, LikesOf) + Sum(s, CommentsOf) + Sum(s, SharesOf)
  {
    if s != [] {
      SumOfInteractions(s[1..]);
    }
  }

  /**
   * The ranking table holds exactly the published posts, each once, ranked
   * 1, 2, ... with its own counters and formulas.
   */
  lemma RowsArePublishedPosts(all: seq<Post>, now: int)
    ensures var rows := Statistics(all, now).rows;
      |rows| == |PublishedPosts(all)| &&
      multiset(RankedPosts(all)) == multiset(PublishedPosts(all)) &&
      (forall p :: p in RankedPosts(all) <==> p in all && IsPublished(p)) &&
      (forall i :: 0 <= i < |rows| ==>
        rows[i].rank == i + 1 && rows[i].post == RankedPosts(all)[i] &&
        rows[i].interactions == rows[i].post.likes + rows[i].post.comments + rows[i].post.shares &&
        rows[i].score == rows[i].post.likes + 2 * rows[i].post.comments + 3 * rows[i].post.shares &&
        rows[i].daysOnline == DaysOnline(rows[i].post, now))
  {
    var published := PublishedPosts(all);
    SortIsPermutation(published, RankKey);
    forall p ensures p in RankedPosts(all) <==> p in all && IsPublished(p) {
      FilterMembership(all, IsPublished, p);
      assert p in RankedPosts(all) <==> p in multiset(RankedPosts(all));
      assert p in published <==> p in multiset(published);
    }
  }

  /** Rows are in descending score order, ties broken by descending interactions. */
  lemma RowsOrdered(all: seq<Post>, now: int)
    ensures var rows := Statistics(all, now).rows;
      forall i, j :: 0 <= i < j < |rows| ==>
        rows[i].score > rows[j].score ||
        (rows[i].score == rows[j].score && rows[i].interactions >= rows[j].interactions)
  {
    SortIsDescending(PublishedPosts(all), RankKey);
    var rows := Statistics(all, now).rows;
    var ranked := RankedPosts(all);
    forall i, j | 0 <= i < j < |rows|
      ensures rows[i].score > rows[j].score ||
        (rows[i].score == rows[j].score && rows[i].interactions >= rows[j].interactions)
    {
      assert Precedes(RankKey(ranked[i]), RankKey(ranked[j]));
    }
  }

  /** Posts with the same score and interactions keep their stored order. */
  lemma RowsStable(all: seq<Post>, score: int, interactions: int)
    ensures WithKey(RankedPosts(all), RankKey, Key(score, interactions))
      == WithKey(PublishedPosts(all), RankKey, Key(score, interactions))
  {
    SortIsStable(PublishedPosts(all), RankKey, Key(score, interactions));
  }

  /** The totals are those of the published posts, and the interaction total is the sum over the table. */
  lemma TotalsMatchRows(all: seq<Post>, now: int)
    ensures var st := Statistics(all, now);
      st.totalInteractions == st.totalLikes + st.totalComments + st.totalShares &&
      st.totalInteractions == Sum(PublishedPosts(all), Interactions) &&
      st.totalInteractions == Sum(RankedPosts(all), Interactions) &&
      st.totalLikes == Sum(RankedPosts(all), LikesOf)
  {
    SumOfInteractions(PublishedPosts(all));
    SortPreservesSum(PublishedPosts(all), RankKey, Interactions);
    SortPreservesSum(PublishedPosts(all), RankKey, LikesOf);
  }

  /** The top post is the first row, whose score no other row exceeds; "-" and "Score: 0" without posts. */
  lemma TopPostIsBest(all: seq<Post>, now: int)
    ensures var st := Statistics(all, now);
      (st.rows == [] ==> st.topHeadline == "-" && st.topScoreText == "Score: 0") &&
      (st.rows != [] ==>
        st.topHeadline == st.rows[0].post.headline &&
        forall i :: 0 <= i < |st.rows| ==> st.rows[0].score >= st.rows[i].score)
    ensures Statistics(all, now).rows == [] <==> forall p :: p in all ==> !IsPublished(p)
  {
    RowsOrdered(all, now);
    RowsArePublishedPosts(all, now);
    var st := Statistics(all, now);
    if st.rows == [] {
      assert RankedPosts(all) == [];
    } else {
      assert RankedPosts(all)[0] in RankedPosts(all);
    }
  }

  /**
   * The counts fit together whatever the counters hold: every published post
   * has a table row, no post counts as both published and draft, the 7-day
   * posts are among the 30-day posts and those among the published ones, and
   * synced posts are published.
   */
  lemma StatisticsCounts(all: seq<Post>, now: int)
    ensures var st := Statistics(all, now);
      |st.rows| == st.publishedCount &&
      st.publishedCount + st.draftCount <= |all| &&
      0 <= st.posts7 <= st.posts30 <= st.publishedCount &&
      0 <= st.syncedCount <= st.publishedCount
  {
    var published := PublishedPosts(all);
    var early := now - DayWindowLong * TicksPerDay;
    var late := now - DayWindowShort * TicksPerDay;
    PublishedAndDraftsDisjoint(all);
    WindowNested(published, early, late);
    var st := Statistics(all, now);
    assert st.posts7 == |Window(Window(published, early), late)|;
    assert st.posts30 == |Window(published, early)|;
  }

  /** The interaction total is the three totals together; without published posts the top post is "-". */
  lemma StatisticsTotals(all: seq<Post>, now: int)
    ensures var st := Statistics(all, now);
      st.totalInteractions == st.totalLikes + st.totalComments + st.totalShares &&
      (st.publishedCount == 0 ==> st.averageInteractions == 0.0 && st.topHeadline == "-")
  {
    if PublishedPosts(all) == [] {
      assert RankedPosts(all) == [];
    }
  }

  /** A window only keeps posts of the input that were published at or after the cutoff. */
  lemma WindowMembership(s: seq<Post>, cutoff: int, p: Post)
    ensures p in Window(s, cutoff) <==> p in s && InWindow(p, cutoff)
  {
    FilterMembership(s, InWindowOf(cutoff), p);
  }

  /** A later cutoff selects from the earlier cutoff's window. */
  lemma WindowNested(s: seq<Post>, early: int, late: int)
    requires early <= late
    ensures Window(Window(s, early), late) == Window(s, late)
  {
    FilterOfFilter(s, InWindowOf(late), InWindowOf(early));
  }

  /** With non-negative interactions, a window's sum is at most the input's. */
  lemma WindowSumBound(s: seq<Post>, cutoff: int)
    requires forall i :: 0 <= i < |s| ==> Interactions(s[i]) >= 0
    ensures Sum(Window(s, cutoff), Interactions) <= Sum(s, Interactions)
  {
    SumFilterBound(s, InWindowOf(cutoff), Interactions);
  }

  /**
   * With non-negative counters, the 7-day interactions are part of the 30-day
   * ones, and those of the total (the post counts nest without this premise,
   * see `Statistics`).
   */
  lemma WindowsNested(all: seq<Post>, now: int)
    requires CountersNonNegative(all)
    ensures var st := Statistics(all, now);
      st.posts7 <= st.posts30 <= st.publishedCount &&
      st.interactions7 <= st.interactions30 <= st.totalInteractions
  {
    var published := PublishedPosts(all);
    var late := now - DayWindowShort * TicksPerDay;
    var early := now - DayWindowLong * TicksPerDay;
    WindowNested(published, early, late);
    var month := Window(published, early);
    forall i | 0 <= i < |published| ensures Interactions(published[i]) >= 0 {
      FilterMembership(all, IsPublished, published[i]);
    }
    forall i | 0 <= i < |month| ensures Interactions(month[i]) >= 0 {
      WindowMembership(published, early, month[i]);
      FilterMembership(all, IsPublished, month[i]);
    }
    WindowSumBound(month, late);
    WindowSumBound(published, early);
    SumOfInteractions(published);
  }

  /** Posts counted as synced are published, so they never outnumber the published posts. */
  lemma SyncedAtMostPublished(all: seq<Post>, now: int)
    ensures Statistics(all, now).syncedCount <= Statistics(all, now).publishedCount
    ensures forall p :: p in Filter(PublishedPosts(all), IsSynced) ==> p in all && IsPublished(p) && HasRemoteId(p)
  {
    forall p | p in Filter(PublishedPosts(all), IsSynced) ensures p in all && IsPublished(p) && HasRemoteId(p) {
      FilterMembership(PublishedPosts(all), IsSynced, p);
      FilterMembership(all, IsPublished, p);
      SyncedHasRemoteId(p);
    }
  }

  /** No post is counted both as published and as draft. */
  lemma {:induction false} PublishedAndDraftsDisjoint(all: seq<Post>)
    ensures |Filter(all, IsPublished)| + |Filter(all, IsDraft)| <= |all|
  {
    if all != [] {
      PublishedAndDraftsDisjoint(all[1..]);
    }
  }
}
