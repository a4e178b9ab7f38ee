/**
 * The main window's logic: the post editor and its edit mode, the filtered post
 * list, publishing a draft, and the bulk refresh of engagement counters. The
 * database is a `PostStore`; what the remote side answers is passed in.
 */
module MainWindow {
  import opened Wrappers
  import opened Seqs
  import opened Posts
  import opened Database
  import Strings
  import FacebookApi

  /** The edit mode of a new post (`_editingPostId == -1`). */
  const NewPost: int := -1

  predicate IsLineBreak(c: char)
  {
    c == '\r' || c == '\n'
  }

  /** GetFirstLine: the text up to the first line break (`StringReader.ReadLine`), "" for "". */
  function GetFirstLine(text: string): (line: string)
    ensures |line| <= |text| && line == text[..|line|]
    ensures forall i :: 0 <= i < |line| ==> !IsLineBreak(line[i])
    ensures |line| < |text| ==> IsLineBreak(text[|line|])
  {
    if text == [] || IsLineBreak(text[0]) then [] else [text[0]] + GetFirstLine(text[1..])
  }

  /** ValidateInput: Save is enabled with some non-blank text and a selected image. */
  predicate CanSave(text: string, imagePath: string)
    ensures CanSave(text, imagePath) <==>
      imagePath != "" && exists i :: 0 <= i < |text| && !Strings.IsWhiteSpace(text[i])
  {
    !Strings.IsBlank(text) && imagePath != ""
  }

  /** The Save flag as `BtnEditPost_Click` leaves it: only the text assignment revalidates, and
    * it does so (through the text-changed handler) before the image path is replaced. */
  function SaveFlagAsWritten(oldText: string, oldImagePath: string, oldFlag: bool, post: Post): (r: bool)
    ensures post.fullText == oldText ==> r == oldFlag
    ensures post.fullText != oldText ==>
      (r <==> oldImagePath != "" && exists i :: 0 <= i < |post.fullText| && !Strings.IsWhiteSpace(post.fullText[i]))
  {
    if post.fullText != oldText then CanSave(post.fullText, oldImagePath) else oldFlag
  }

  /** Loading a valid draft into a fresh editor leaves Save disabled. */
  lemma StaleSaveFlagExample()
    ensures var draft := Post(1, "Hallo", "Hallo", "bild.jpg", Draft, None, None, 0, 0, 0);
      CanSave(draft.fullText, draft.imagePath) && !SaveFlagAsWritten("", "", CanSave("", ""), draft)
  {
    var draft := Post(1, "Hallo", "Hallo", "bild.jpg", Draft, None, None, 0, 0, 0);
    assert !Strings.IsBlank(draft.fullText) by {
      assert !Strings.IsWhiteSpace(draft.fullText[0]);
    }
  }

  /** LoadPostsList: index 1 shows drafts, index 2 published posts, anything else every post. */
  function PostsList(all: seq<Post>, filterIndex: int): (r: seq<Post>)
    ensures |r| <= |all|
    ensures filterIndex == 1 ==> forall i :: 0 <= i < |r| ==> r[i].status == Draft
    ensures filterIndex == 2 ==> forall i :: 0 <= i < |r| ==> r[i].status == Published
  {
    if filterIndex == 1 then FilterAll(all, IsDraft); Filter(all, IsDraft)
    else if filterIndex == 2 then FilterAll(all, IsPublished); Filter(all, IsPublished)
    else all
  }

  /** The list shows exactly the posts of the chosen status, in stored order. */
  lemma PostsListSelects(all: seq<Post>, filterIndex: int)
    ensures filterIndex == 1 ==> forall p :: p in PostsList(all, filterIndex) <==> p in all && p.status == Draft
    ensures filterIndex == 2 ==> forall p :: p in PostsList(all, filterIndex) <==> p in all && p.status == Published
    ensures filterIndex != 1 && filterIndex != 2 ==> PostsList(all, filterIndex) == all
    ensures IsSubsequence(PostsList(all, filterIndex), all)
    ensures multiset(PostsList(all, filterIndex)) <= multiset(all)
  {
    if filterIndex == 1 || filterIndex == 2 {
      var keep := if filterIndex == 1 then IsDraft else IsPublished;
      assert PostsList(all, filterIndex) == Filter(all, keep);
      forall p ensures p in Filter(all, keep) <==> p in all && keep(p) {
        FilterMembership(all, keep, p);
      }
      FilterIsSubsequence(all, keep);
      forall p ensures multiset(Filter(all, keep))[p] <= multiset(all)[p] {
        FilterCount(all, keep, p);
      }
    } else {
      SubsequenceOfItself(all);
    }
  }

  lemma {:induction false} SubsequenceOfItself(s: seq<Post>)
    ensures IsSubsequence(s, s)
  {
    if s != [] {
      SubsequenceOfItself(s[1..]);
    }
  }

  /** What an attempt to open a post in the editor did. */
  datatype EditOutcome = NoPostSelected | EditRefused | Editing

  /** The editor tab's state. */
  class Editor {
    var editingPostId: int  // NewPost, or the Id of the draft being edited
    var text: string        // the content text box
    var imagePath: string   // `_currentSelectedImagePath`
    var saveEnabled: bool   // the Save button's IsEnabled

    /** The window as it opens: a new, empty post. */
    constructor ()
      ensures editingPostId == NewPost && text == "" && imagePath == "" && saveEnabled == CanSave("", "")
    {
      editingPostId := NewPost;
      text := "";
      imagePath := "";
      saveEnabled := CanSave("", "");
    }

    /** ValidateInput. */
    method ValidateInput()
      modifies this
      ensures saveEnabled == CanSave(text, imagePath)
      ensures editingPostId == old(editingPostId) && text == old(text) && imagePath == old(imagePath)
    {
      var hasText := !Strings.IsBlank(text);
      var hasImage := imagePath != "";
      saveEnabled := hasText && hasImage;
    }

    /** ClearEditor: back to a new, empty post with Save disabled. */
    method ClearEditor()
      modifies this
      ensures editingPostId == NewPost && text == "" && imagePath == "" && !saveEnabled
    {
      text := "";
      imagePath := "";
      editingPostId := NewPost;
      ValidateInput();
      assert Strings.IsBlank(text);
    }

    /** The text box changed (TxtPostContent_TextChanged). */
    method EditText(t: string)
      modifies this
      ensures text == t && editingPostId == old(editingPostId) && imagePath == old(imagePath)
      ensures saveEnabled == CanSave(t, imagePath)
    {
      text := t;
      ValidateInput();
    }

    /** An image was chosen in the file dialog (BtnSelectImage_Click). */
    method SelectImage(path: string)
      modifies this
      ensures imagePath == path && editingPostId == old(editingPostId) && text == old(text)
      ensures saveEnabled == CanSave(text, path)
    {
      imagePath := path;
      ValidateInput();
    }

    /**
     * BtnEditPost_Click: a published post is refused and nothing changes; a
     * draft is loaded and the editor switches to editing its Id. The Save flag
     * is revalidated after both fields are loaded.
     */
    method BeginEdit(selected: Option<Post>) returns (outcome: EditOutcome)
      modifies this
      ensures selected.None? ==> outcome == NoPostSelected
      ensures selected.Some? ==> (outcome == EditRefused <==> selected.value.status == Published)
      ensures outcome != Editing ==>
        editingPostId == old(editingPostId) && text == old(text) &&
        imagePath == old(imagePath) && saveEnabled == old(saveEnabled)
      ensures outcome == Editing ==>
        selected.Some? && editingPostId == selected.value.id &&
        text == selected.value.fullText && imagePath == selected.value.imagePath &&
        saveEnabled == CanSave(text, imagePath)
    {
      if selected.None? {
        return NoPostSelected;
      }
      var post := selected.value;
      if post.status == Published {
        return EditRefused;
      }
      editingPostId := post.id;
      text := post.fullText;
      imagePath := post.imagePath;
      ValidateInput();
      outcome := Editing;
    }

    /**
     * BtnSavePost_Click: a new post is inserted as a draft; an edited one has its
     * texts and image replaced. `finalImagePath` is the image after it was copied
     * into the application folder; `copyFails` says that copying threw, which the
     * handler catches before anything is written, leaving the editor as it was.
     * Returns the replaced image, if it changed, for deletion. The editor is
     * cleared afterwards.
     */
    method SavePost(db: PostStore, finalImagePath: string, copyFails: bool)
      returns (saved: bool, staleImage: Option<string>)
      requires db.Valid()
      modifies this, db
      ensures db.Valid() && db.settings == old(db.settings)
      ensures saved <==> !copyFails
      ensures !saved ==>
        db.posts == old(db.posts) && db.nextId == old(db.nextId) && staleImage == None &&
        editingPostId == old(editingPostId) && text == old(text) && imagePath == old(imagePath) &&
        saveEnabled == old(saveEnabled)
      ensures saved ==> editingPostId == NewPost && text == "" && imagePath == "" && !saveEnabled
      ensures saved && old(editingPostId) == NewPost ==>
        db.nextId == old(db.nextId) + 1 && staleImage == None &&
        db.posts == old(db.posts)[old(db.nextId) := Post(old(db.nextId), GetFirstLine(old(text)), old(text),
          finalImagePath, Draft, None, None, 0, 0, 0)]
      ensures saved && old(editingPostId) != NewPost ==>
        db.nextId == old(db.nextId) && db.posts.Keys == old(db.posts).Keys &&
        (forall id :: id in db.posts && id != old(editingPostId) ==> db.posts[id] == old(db.posts)[id]) &&
        (old(editingPostId) in db.posts ==> db.posts[old(editingPostId)] == old(db.posts)[old(editingPostId)].(
          headline := GetFirstLine(old(text)), fullText := old(text), imagePath := finalImagePath)) &&
        staleImage == (if old(editingPostId) in old(db.posts) && old(db.posts)[old(editingPostId)].imagePath != finalImagePath
          then Some(old(db.posts)[old(editingPostId)].imagePath) else None)
    {
      staleImage := None;
      if copyFails {
        return false, None;
      }
      var postToSave := Post(0, GetFirstLine(text), text, finalImagePath, Draft, None, None, 0, 0, 0);
      if editingPostId == NewPost {
        db.SavePost(postToSave);
      } else {
        var oldPostData := db.GetPostById(editingPostId);
        postToSave := postToSave.(id := editingPostId);
        db.UpdatePost(postToSave);
        if oldPostData.Some? && oldPostData.value.imagePath != postToSave.imagePath {
          staleImage := Some(oldPostData.value.imagePath);
        }
      }
      ClearEditor();
      saved := true;
    }

    /**
     * BtnDeletePost_Click after the confirmation: the row is deleted, and the
     * editor is cleared when it was editing that very post. `imageDeleteFails`
     * says that removing the image file threw, which the handler catches before
     * the row is deleted, so nothing changes.
     */
    method DeleteSelected(db: PostStore, selected: Option<Post>, confirmed: bool, imageDeleteFails: bool)
      returns (deleted: bool)
      requires db.Valid()
      modifies this, db
      ensures db.Valid() && db.nextId == old(db.nextId) && db.settings == old(db.settings)
      ensures deleted <==> selected.Some? && confirmed && !imageDeleteFails
      ensures !deleted ==>
        db.posts == old(db.posts) && editingPostId == old(editingPostId) &&
        text == old(text) && imagePath == old(imagePath) && saveEnabled == old(saveEnabled)
      ensures deleted ==> db.posts == old(db.posts) - {selected.value.id}
      ensures deleted && old(editingPostId) == selected.value.id ==>
        editingPostId == NewPost && text == "" && imagePath == "" && !saveEnabled
      ensures deleted && old(editingPostId) != selected.value.id ==>
        editingPostId == old(editingPostId) && text == old(text) && imagePath == old(imagePath) &&
        saveEnabled == old(saveEnabled)
    {
      if selected.None? || !confirmed || imageDeleteFails {
        return false;
      }
      var post := selected.value;
      db.DeletePost(post.id);
      if editingPostId == post.id {
        ClearEditor();
      }
      deleted := true;
    }
  }

  /** What the publish button did. */
  datatype PublishOutcome =
    | NoDraftSelected
    | AlreadyPublished
    | Cancelled
    | MissingCredentials
    | PublishFailed(error: FacebookApi.Failure)
    | PublishedAs(facebookPostId: string)

  /** The stored credentials allow a call (settings present, access token non-empty). */
  predicate HasCredentials(settings: seq<Settings>)
  {
    settings != [] && settings[0].accessToken != ""
  }

  /**
   * btnPublishNow_Click: only a confirmed draft is uploaded, only with stored
   * credentials, and only a successful upload marks the row published.
   * `reply` is the remote answer to the upload, `image` what reading the image
   * file gave.
   */
  method PublishNow(db: PostStore, selected: Option<Post>, confirmed: bool, image: FacebookApi.ImageRead,
      reply: FacebookApi.Reply, now: int) returns (outcome: PublishOutcome)
    requires db.Valid()
    modifies db
    ensures db.Valid() && db.nextId == old(db.nextId) && db.settings == old(db.settings)
    ensures selected.None? ==> outcome == NoDraftSelected
    ensures selected.Some? && selected.value.status == Published ==> outcome == AlreadyPublished
    ensures selected.Some? && selected.value.status != Published && !confirmed ==> outcome == Cancelled
    ensures selected.Some? && selected.value.status != Published && confirmed && !HasCredentials(db.settings)
      ==> outcome == MissingCredentials
    ensures selected.Some? && selected.value.status != Published && confirmed && HasCredentials(db.settings)
      ==> outcome == (match FacebookApi.PublishPhotoPost(image, reply)
                      case Ok(id) => PublishedAs(id)
                      case Err(f) => PublishFailed(f))
    ensures !outcome.PublishedAs? ==> db.posts == old(db.posts)
    ensures outcome.PublishedAs? ==>
      db.posts.Keys == old(db.posts).Keys &&
      (forall id :: id in db.posts && id != selected.value.id ==> db.posts[id] == old(db.posts)[id]) &&
      (selected.value.id in db.posts ==> db.posts[selected.value.id] == old(db.posts)[selected.value.id].(
        status := Published, facebookPostId := Some(outcome.facebookPostId),
        publishedDate := Some(ToWholeSeconds(now))))
  {
    if selected.None? {
      return NoDraftSelected;
    }
    var post := selected.value;
    if post.status == Published {
      return AlreadyPublished;
    }
    if !confirmed {
      return Cancelled;
    }
    var settings := db.LoadSettings();
    if settings.None? || settings.value.accessToken == "" {
      return MissingCredentials;
    }
    var upload := FacebookApi.PublishPhotoPost(image, reply);
    if upload.Err? {
      return PublishFailed(upload.error);
    }
    db.MarkAsPublished(post.id, upload.value, now);
    outcome := PublishedAs(upload.value);
  }

  // ------------------------------------------------------------------
  // Refreshing the statistics
  // ------------------------------------------------------------------

  /** The three counters the statistics call yields; likes < 0 marks a failed lookup. */
  datatype Stats = Stats(likes: int, comments: int, shares: int)

  /** What the refresh button did. */
  datatype RefreshOutcome = NoAccess | NothingToRefresh | Refreshed(processed: nat)

  /** The refresh looks up published posts that carry a remote id. */
  predicate Qualifies(p: Post)
  {
    IsPublished(p) && HasRemoteId(p)
  }

  /** The row after its lookup: new counters when the lookup succeeded, else unchanged. */
  function WithStats(p: Post, s: Stats): (q: Post)
    ensures s.likes >= 0 ==> q.likes == s.likes && q.comments == s.comments && q.shares == s.shares
    ensures s.likes < 0 ==> q == p
    ensures q.(likes := p.likes, comments := p.comments, shares := p.shares) == p
  {
    if s.likes >= 0 then p.(likes := s.likes, comments := s.comments, shares := s.shares) else p
  }

  /** The posts the refresh loops over, in the order they are listed. */
  ghost function RefreshTargets(posts: map<int, Post>, nextId: int): seq<Post>
  {
    Filter(RowsDescending(posts, nextId - 1), Qualifies)
  }

  /** The remote ids of `s`, in order. */
  function RemoteIds(s: seq<Post>): (r: seq<string>)
    ensures |r| == |s| && forall i :: 0 <= i < |s| ==> r[i] == RemoteId(s[i])
  {
    if s == [] then [] else RemoteIds(s[..|s| - 1]) + [RemoteId(s[|s| - 1])]
  }

  /** The Ids of `s`. */
  ghost function IdsOf(s: seq<Post>): set<int>
  {
    set i | 0 <= i < |s| :: s[i].id
  }

  /** The row `id` after the refresh: refreshed when it qualified, else as it was. */
  function RefreshedRow(p: Post, fetch: (string, string) -> Stats, token: string): Post
  {
    if Qualifies(p) then WithStats(p, fetch(RemoteId(p), token)) else p
  }

  /**
   * btnRefreshStats_Click: with stored credentials, looks up every published
   * post with a remote id in list order and stores the counters of each
   * successful lookup. `fetch(remoteId, token)` is the remote answer; `fetched`
   * lists the remote ids looked up, in order.
   */
  method RefreshStatistics(db: PostStore, fetch: (string, string) -> Stats)
      returns (outcome: RefreshOutcome, fetched: seq<string>)
    requires db.Valid()
    modifies db
    ensures db.Valid() && db.nextId == old(db.nextId) && db.settings == old(db.settings)
    ensures db.posts.Keys == old(db.posts).Keys
    ensures outcome == NoAccess <==> !HasCredentials(old(db.settings))
    ensures outcome == NoAccess ==> fetched == [] && db.posts == old(db.posts)
    ensures outcome != NoAccess ==>
      (outcome == NothingToRefresh <==> RefreshTargets(old(db.posts), old(db.nextId)) == []) &&
      fetched == RemoteIds(RefreshTargets(old(db.posts), old(db.nextId))) &&
      (outcome.Refreshed? ==> outcome.processed == |fetched|) &&
      forall id :: id in db.posts ==>
        db.posts[id] == RefreshedRow(old(db.posts)[id], fetch, old(db.settings)[0].accessToken)
  {
    var settings := db.LoadSettings();
    if settings.None? || settings.value.accessToken == "" {
      return NoAccess, [];
    }
    var token := settings.value.accessToken;
    var all := db.GetPosts();
    var targets := Filter(all, Qualifies);
    ghost var before := db.posts;
    if |targets| == 0 {
      assert IdsOf(targets) == {};
      RefreshCompletes(all, before, db.posts, fetch, token);
      return NothingToRefresh, [];
    }
    forall p | p in targets ensures p.id in db.posts && db.posts[p.id] == p && Qualifies(p) {
      TargetIsStored(all, before, p);
    }
    fetched := RefreshEach(db, targets, fetch, token);
    RefreshCompletes(all, before, db.posts, fetch, token);
    outcome := Refreshed(|targets|);
  }

  /**
   * The foreach of btnRefreshStats_Click: looks up every target in order and
   * stores the counters of each lookup that succeeded.
   */
  method RefreshEach(db: PostStore, targets: seq<Post>, fetch: (string, string) -> Stats, token: string)
      returns (fetched: seq<string>)
    requires db.Valid()
    requires forall p :: p in targets ==> p.id in db.posts && db.posts[p.id] == p && Qualifies(p)
    modifies db
    ensures db.Valid() && db.nextId == old(db.nextId) && db.settings == old(db.settings)
    ensures fetched == RemoteIds(targets)
    ensures RefreshedSoFar(db.posts, old(db.posts), IdsOf(targets), fetch, token)
  {
    ghost var before := db.posts;
    var processed := 0;
    fetched := [];
    while processed < |targets|
      invariant 0 <= processed <= |targets|
      invariant db.Valid() && db.nextId == old(db.nextId) && db.settings == old(db.settings)
      invariant fetched == RemoteIds(targets[..processed])
      invariant RefreshedSoFar(db.posts, before, IdsOf(targets[..processed]), fetch, token)
    {
      var post := targets[processed];
      PrefixStep(targets, processed);
      RefreshOne(db, post, fetch, token, before, IdsOf(targets[..processed]));
      fetched := fetched + [RemoteId(post)];
      processed := processed + 1;
    }
    assert targets[..processed] == targets;
  }

  /** One turn of the foreach: looks up `post` and stores the counters if the lookup succeeded. */
  method RefreshOne(db: PostStore, post: Post, fetch: (string, string) -> Stats, token: string,
      ghost before: map<int, Post>, ghost done: set<int>)
    requires db.Valid()
    requires RefreshedSoFar(db.posts, before, done, fetch, token)
    requires post.id in before && before[post.id] == post && Qualifies(post)
    modifies db
    ensures db.Valid() && db.nextId == old(db.nextId) && db.settings == old(db.settings)
    ensures RefreshedSoFar(db.posts, before, done + {post.id}, fetch, token)
  {
    var stats := fetch(RemoteId(post), token);
    ghost var prev := db.posts;
    if stats.likes >= 0 {
      db.UpdatePostStats(post.id, stats.likes, stats.comments, stats.shares);
    }
    RefreshStep(prev, db.posts, before, done, post, fetch, token);
  }

  /** Once every target is refreshed, every stored row is its refreshed row. */
  lemma RefreshCompletes(all: seq<Post>, before: map<int, Post>, posts: map<int, Post>,
      fetch: (string, string) -> Stats, token: string)
    requires forall q :: q in all <==> q.id in before && before[q.id] == q
    requires KeyedById(before)
    requires RefreshedSoFar(posts, before, IdsOf(Filter(all, Qualifies)), fetch, token)
    ensures posts.Keys == before.Keys
    ensures forall id :: id in posts ==> posts[id] == RefreshedRow(before[id], fetch, token)
  {
    forall id | id in posts ensures posts[id] == RefreshedRow(before[id], fetch, token) {
      QualifyingRowsAreTargets(all, before, id);
    }
  }

  /** Rows in `done` carry their refreshed counters; every other row is as it was. */
  ghost predicate RefreshedSoFar(posts: map<int, Post>, before: map<int, Post>, done: set<int>,
      fetch: (string, string) -> Stats, token: string)
  {
    posts.Keys == before.Keys &&
    forall id :: id in posts ==>
      posts[id] == if id in done then RefreshedRow(before[id], fetch, token) else before[id]
  }

  lemma PrefixStep(targets: seq<Post>, k: int)
    requires 0 <= k < |targets|
    ensures targets[..k + 1][..k] == targets[..k]
    ensures targets[..k + 1][k] == targets[k]
    ensures IdsOf(targets[..k + 1]) == IdsOf(targets[..k]) + {targets[k].id}
  {
    var a := targets[..k + 1];
    var b := targets[..k];
    assert forall i :: 0 <= i < k ==> a[i] == b[i];
    forall x | x in IdsOf(a) ensures x in IdsOf(b) + {targets[k].id} {
      var i :| 0 <= i < |a| && a[i].id == x;
      if i < k {
        assert b[i].id == x;
      }
    }
    forall x | x in IdsOf(b) + {targets[k].id} ensures x in IdsOf(a) {
      if x in IdsOf(b) {
        var i :| 0 <= i < |b| && b[i].id == x;
        assert a[i].id == x;
      } else {
        assert a[k].id == x;
      }
    }
  }

  /**
   * Storing the lookup of one qualifying row extends the refreshed set by it,
   * whether or not the row was refreshed before.
   */
  lemma RefreshStep(prev: map<int, Post>, next: map<int, Post>, before: map<int, Post>, done: set<int>,
      post: Post, fetch: (string, string) -> Stats, token: string)
    requires RefreshedSoFar(prev, before, done, fetch, token)
    requires post.id in before && before[post.id] == post && Qualifies(post)
    requires fetch(RemoteId(post), token).likes < 0 ==> next == prev
    requires fetch(RemoteId(post), token).likes >= 0 ==>
      next.Keys == prev.Keys &&
      (forall id :: id in next && id != post.id ==> next[id] == prev[id]) &&
      next[post.id] == prev[post.id].(likes := fetch(RemoteId(post), token).likes,
        comments := fetch(RemoteId(post), token).comments, shares := fetch(RemoteId(post), token).shares)
    ensures RefreshedSoFar(next, before, done + {post.id}, fetch, token)
  {
  }

  /** A target of the refresh is a stored, qualifying row. */
  lemma TargetIsStored(all: seq<Post>, posts: map<int, Post>, p: Post)
    requires forall q :: q in all <==> q.id in posts && posts[q.id] == q
    requires p in Filter(all, Qualifies)
    ensures p.id in posts && posts[p.id] == p && Qualifies(p)
  {
    FilterMembership(all, Qualifies, p);
  }

  /** A stored row is a target of the refresh exactly when it qualifies. */
  lemma QualifyingRowsAreTargets(all: seq<Post>, posts: map<int, Post>, id: int)
    requires forall q :: q in all <==> q.id in posts && posts[q.id] == q
    requires id in posts && posts[id].id == id
    ensures id in IdsOf(Filter(all, Qualifies)) <==> Qualifies(posts[id])
  {
    var targets := Filter(all, Qualifies);
    if id in IdsOf(targets) {
      var i :| 0 <= i < |targets| && targets[i].id == id;
      TargetIsStored(all, posts, targets[i]);
    }
    if Qualifies(posts[id]) {
      FilterMembership(all, Qualifies, posts[id]);
      var i :| 0 <= i < |targets| && targets[i] == posts[id];
    }
  }
}
