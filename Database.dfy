/**
 * The SQLite store as an in-memory table: the Posts table is a map from Id to
 * row, the Settings table a sequence of rows. Each operation changes exactly the
 * fields its SQL statement's SET clause names, in the row its WHERE clause selects.
 */
module Database {
  import opened Wrappers
  import opened Posts

  const TicksPerSecond: int := 10_000_000

  /** The instant as the text "yyyy-MM-dd HH:mm:ss" keeps it: truncated to the whole second. */
  function ToWholeSeconds(t: int): (r: int)
    ensures r <= t < r + TicksPerSecond
    ensures r % TicksPerSecond == 0
  {
    t - t % TicksPerSecond
  }

  /** The rows with Id at most `hi`, highest Id first: `SELECT * ... ORDER BY Id DESC`. */
  ghost function RowsDescending(posts: map<int, Post>, hi: int): seq<Post>
    decreases if hi < 1 then 0 else hi
  {
    if hi < 1 then []
    else (if hi in posts then [posts[hi]] else []) + RowsDescending(posts, hi - 1)
  }

  /** Every row is stored under its own Id. */
  ghost predicate KeyedById(posts: map<int, Post>)
  {
    forall id :: id in posts ==> posts[id].id == id
  }

  /** Ids strictly decrease along the sequence. */
  ghost predicate IdsDecreasing(s: seq<Post>)
  {
    forall i, j :: 0 <= i < j < |s| ==> s[i].id > s[j].id
  }

  /** The listing holds exactly the stored rows with Id in 1..hi. */
  lemma {:induction false} RowsDescendingMembers(posts: map<int, Post>, hi: int, p: Post)
    requires KeyedById(posts)
    ensures p in RowsDescending(posts, hi) <==> 1 <= p.id <= hi && p.id in posts && posts[p.id] == p
    decreases if hi < 1 then 0 else hi
  {
    if hi >= 1 {
      RowsDescendingMembers(posts, hi - 1, p);
    }
  }

  /** The listing is ordered by strictly decreasing Id, so no row appears twice. */
  lemma {:induction false} RowsDescendingOrdered(posts: map<int, Post>, hi: int)
    requires KeyedById(posts)
    ensures IdsDecreasing(RowsDescending(posts, hi))
    decreases if hi < 1 then 0 else hi
  {
    if hi >= 1 {
      RowsDescendingOrdered(posts, hi - 1);
      var rest := RowsDescending(posts, hi - 1);
      forall q | q in rest ensures q.id < hi {
        RowsDescendingMembers(posts, hi - 1, q);
      }
      var r := RowsDescending(posts, hi);
      if hi in posts {
        assert r == [posts[hi]] + rest;
        forall i, j | 0 <= i < j < |r| ensures r[i].id > r[j].id {
          assert r[j] == rest[j - 1];
          assert rest[j - 1] in rest;
          if i > 0 {
            assert r[i] == rest[i - 1];
          }
        }
      } else {
        assert r == rest;
      }
    }
  }

  /** The whole listing: exactly the stored rows, each once, by decreasing Id. */
  lemma RowsDescendingListing(posts: map<int, Post>, hi: int)
    requires KeyedById(posts) && forall id :: id in posts ==> 1 <= id <= hi
    ensures forall p :: p in RowsDescending(posts, hi) <==> p.id in posts && posts[p.id] == p
    ensures IdsDecreasing(RowsDescending(posts, hi))
  {
    forall p ensures p in RowsDescending(posts, hi) <==> p.id in posts && posts[p.id] == p {
      RowsDescendingMembers(posts, hi, p);
    }
    RowsDescendingOrdered(posts, hi);
  }

  /** The two tables of the database file `database.sqlite`. */
  class PostStore {
    var posts: map<int, Post>
    var nextId: int           // the Id AUTOINCREMENT gives the next inserted row
    var settings: seq<Settings>

    ghost predicate Valid()
      reads this
    {
      nextId >= 1 && KeyedById(posts) && forall id :: id in posts ==> 1 <= id < nextId
    }

    /** A freshly created database: both tables empty. */
    constructor ()
      ensures Valid() && posts == map[] && nextId == 1 && settings == []
    {
      posts := map[];
      nextId := 1;
      settings := [];
    }

    /**
     * SavePost: INSERT a row with a fresh Id, the given texts, status and date,
     * no remote id and all counters 0, whatever the argument carries.
     */
    method SavePost(post: Post)
      requires Valid()
      modifies this
      ensures Valid() && settings == old(settings)
      ensures old(nextId) !in old(posts) && nextId == old(nextId) + 1
      ensures posts == old(posts)[old(nextId) := Post(old(nextId), post.headline, post.fullText,
        post.imagePath, post.status, None, post.publishedDate, 0, 0, 0)]
    {
      posts := posts[nextId := Post(nextId, post.headline, post.fullText, post.imagePath,
        post.status, None, post.publishedDate, 0, 0, 0)];
      nextId := nextId + 1;
    }

    /** UpdatePost: SET Headline, FullText, ImagePath WHERE Id = post.Id. */
    method UpdatePost(post: Post)
      requires Valid()
      modifies this
      ensures Valid() && nextId == old(nextId) && settings == old(settings)
      ensures posts.Keys == old(posts).Keys
      ensures forall id :: id in posts && id != post.id ==> posts[id] == old(posts)[id]
      ensures post.id in posts ==> posts[post.id] == old(posts)[post.id].(
        headline := post.headline, fullText := post.fullText, imagePath := post.imagePath)
    {
      if post.id in posts {
        posts := posts[post.id := posts[post.id].(
          headline := post.headline, fullText := post.fullText, imagePath := post.imagePath)];
      }
    }

    /** MarkAsPublished: SET Status = 1, FacebookPostId, PublishedDate = now WHERE Id = localId. */
    method MarkAsPublished(localId: int, facebookPostId: string, now: int)
      requires Valid()
      modifies this
      ensures Valid() && nextId == old(nextId) && settings == old(settings)
      ensures posts.Keys == old(posts).Keys
      ensures forall id :: id in posts && id != localId ==> posts[id] == old(posts)[id]
      ensures localId in posts ==> posts[localId] == old(posts)[localId].(
        status := Published, facebookPostId := Some(facebookPostId),
        publishedDate := Some(ToWholeSeconds(now)))
    {
      if localId in posts {
        posts := posts[localId := posts[localId].(
          status := Published, facebookPostId := Some(facebookPostId),
          publishedDate := Some(ToWholeSeconds(now)))];
      }
    }

    /** UpdatePostStats: SET the three counters WHERE Id = localId. */
    method UpdatePostStats(localId: int, likes: int, comments: int, shares: int)
      requires Valid()
      modifies this
      ensures Valid() && nextId == old(nextId) && settings == old(settings)
      ensures posts.Keys == old(posts).Keys
      ensures forall id :: id in posts && id != localId ==> posts[id] == old(posts)[id]
      ensures localId in posts ==> posts[localId] == old(posts)[localId].(
        likes := likes, comments := comments, shares := shares)
    {
      if localId in posts {
        posts := posts[localId := posts[localId].(likes := likes, comments := comments, shares := shares)];
      }
    }

    /** DeletePost: DELETE WHERE Id = id. */
    method DeletePost(id: int)
      requires Valid()
      modifies this
      ensures Valid() && nextId == old(nextId) && settings == old(settings)
      ensures posts == old(posts) - {id}
    {
      posts := posts - {id};
    }

    /** GetPosts: every row, highest Id first, read one row at a time. */
    method GetPosts() returns (list: seq<Post>)
      requires Valid()
      ensures list == RowsDescending(posts, nextId - 1)
      ensures forall p :: p in list <==> p.id in posts && posts[p.id] == p
      ensures IdsDecreasing(list)
    {
      list := [];
      var k := nextId - 1;
      while k >= 1
        invariant 0 <= k <= nextId - 1
        invariant list + RowsDescending(posts, k) == RowsDescending(posts, nextId - 1)
      {
        ghost var here := if k in posts then [posts[k]] else [];
        ghost var listed := list;
        assert RowsDescending(posts, k) == here + RowsDescending(posts, k - 1);
        if k in posts {
          list := list + [posts[k]];
        }
        assert list + RowsDescending(posts, k - 1) == listed + (here + RowsDescending(posts, k - 1));
        k := k - 1;
      }
      assert list == list + RowsDescending(posts, k);
      RowsDescendingListing(posts, nextId - 1);
    }

    /** GetPostById: none when no row has the Id, else a post with only Id and ImagePath read. */
    method GetPostById(id: int) returns (r: Option<Post>)
      requires Valid()
      ensures r.None? <==> id !in posts
      ensures r.Some? ==> r.value == Stub(id, posts[id].imagePath)
    {
      if id in posts {
        r := Some(Stub(id, posts[id].imagePath));
      } else {
        r := None;
      }
    }

    /** SaveSettings: delete every settings row, then insert the new one. */
    method SaveSettings(s: Settings)
      requires Valid()
      modifies this
      ensures Valid() && posts == old(posts) && nextId == old(nextId)
      ensures settings == [s]
    {
      settings := [];
      settings := settings + [s];
    }

    /** LoadSettings: the first settings row (`LIMIT 1`), none when the table is empty. */
    method LoadSettings() returns (r: Option<Settings>)
      ensures r.None? <==> settings == []
      ensures r.Some? ==> r.value == settings[0]
    {
      if |settings| == 0 {
        r := None;
      } else {
        r := Some(settings[0]);
      }
    }
  }

  /** Saving settings and loading them back returns what was saved. */
  method SettingsRoundTrip(db: PostStore, s: Settings) returns (loaded: Option<Settings>)
    requires db.Valid()
    modifies db
    ensures db.Valid() && loaded == Some(s)
  {
    db.SaveSettings(s);
    loaded := db.LoadSettings();
  }
}
