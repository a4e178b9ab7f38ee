/**
 * The Graph API client: how a reply is classified into a result or an error,
 * how engagement counts are read out of a reply, and the comment paginator that
 * follows `paging.next` cursors to the end of the feed.
 *
 * A reply is a status class and a body already parsed into a JSON tree; the
 * remote feed is a finite map from cursor (the page URL) to the reply for it.
 */
module FacebookApi {
  import opened Wrappers
  import opened Sorting
  import Strings

  /** A JSON token as the JToken tree of the JSON library exposes it. */
  datatype Json =
    | JNull
    | JBool(b: bool)
    | JNumber(n: int)
    | JString(s: string)
    | JArray(items: seq<Json>)
    | JObject(members: map<string, Json>)

  /**
   * One HTTP round trip: the transport failed (`HttpRequestException`), the
   * client gave up waiting (`TaskCanceledException`), or a status class and the
   * body as `JObject.Parse` reads it (None when the body is not a JSON object).
   */
  datatype Reply =
    | NetworkFailure
    | TimedOut
    | Response(success: bool, body: Option<map<string, Json>>)

  /**
   * `File.ReadAllBytes` on the image: the bytes, an `IOException` (the file is
   * locked or missing), or another exception (no permission, an invalid path).
   */
  datatype ImageRead = ImageBytes | IoFailure | OtherFileFailure

  /** Why a call raised an exception. */
  datatype Failure =
    | Thrown(message: string)  // an exception the service raises itself, with this text
    | NetworkError             // the transport's exception, passed on unchanged
    | Uncaught                 // an exception no catch clause translates (a time-out, a non-IO file error)
    | Fault                    // an exception of the JSON library or a null dereference

  const MinInt32: int := -0x8000_0000
  const MaxInt32: int := 0x7FFF_FFFF

  /** `token?[key]`: a null token stays null, an object is looked up, any other token throws. */
  function Member(token: Option<Json>, key: string): Result<Option<Json>, Failure>
  {
    match token
    case None => Ok(None)
    case Some(JObject(m)) => Ok(if key in m then Some(m[key]) else None)
    case Some(_) => Err(Fault)
  }

  /** `token?[k0]?[k1]...` along a path of keys. */
  function Lookup(token: Option<Json>, path: seq<string>): Result<Option<Json>, Failure>
    decreases |path|
  {
    if path == [] then Ok(token)
    else match Member(token, path[0])
      case Err(f) => Err(f)
      case Ok(t) => Lookup(t, path[1..])
  }

  /** `JToken.ToString()` of a scalar; the JSON text of an array or object is not modelled. */
  function Render(j: Json): string
  {
    match j
    case JNull => ""
    case JBool(b) => if b then "True" else "False"
    case JNumber(n) => Strings.IntToString(n)
    case JString(s) => s
    case JArray(_) => ""
    case JObject(_) => ""
  }

  /** `token?[k0]?[k1]...?.ToString()`: None stands for the C# null. */
  function TextAt(token: Json, path: seq<string>): Result<Option<string>, Failure>
  {
    match Lookup(Some(token), path)
    case Err(f) => Err(f)
    case Ok(None) => Ok(None)
    case Ok(Some(t)) => Ok(Some(Render(t)))
  }

  /** `obj[k0]` then `[k1]` are both objects' members. */
  predicate HasPath2(m: map<string, Json>, k0: string, k1: string)
  {
    k0 in m && m[k0].JObject? && k1 in m[k0].members
  }

  /** Following `k0` then `k1` reaches null without throwing. */
  predicate LacksPath2(m: map<string, Json>, k0: string, k1: string)
  {
    k0 !in m || (m[k0].JObject? && k1 !in m[k0].members)
  }

  // ------------------------------------------------------------------
  // Error text
  // ------------------------------------------------------------------

  /** `errorJson["error"]?["message"]?.ToString() ?? fallback`. */
  function ErrorMessage(body: map<string, Json>, fallback: string): (r: Result<string, Failure>)
    ensures HasPath2(body, "error", "message") ==> r == Ok(Render(body["error"].members["message"]))
    ensures LacksPath2(body, "error", "message") ==> r == Ok(fallback)
    ensures !HasPath2(body, "error", "message") && !LacksPath2(body, "error", "message") ==> r == Err(Fault)
  {
    match Lookup(Some(JObject(body)), ["error", "message"])
    case Err(f) => Err(f)
    case Ok(None) => Ok(fallback)
    case Ok(Some(m)) => Ok(Render(m))
  }

  /** The exception a rejected call raises: the remote's own message, or the call's default. */
  function Rejection(body: Option<map<string, Json>>, fallback: string): Failure
  {
    match body
    case None => Fault
    case Some(b) =>
      match ErrorMessage(b, fallback)
      case Ok(m) => Thrown(m)
      case Err(f) => f
  }

  const UploadFailedText := "Upload fehlgeschlagen"
  const UploadNetworkText := "Netzwerkfehler beim Upload."
  const ImageUnreadableText := "Konnte auf die Bilddatei nicht zugreifen (vielleicht geöffnet?)."
  const UnknownApiErrorText := "Unbekannter API Fehler"
  const ConnectionPrefix := "Facebook sagt: "
  const ConnectionNetworkText := "Netzwerkfehler. Bitte Internetverbindung prüfen."
  const CommentsFailedText := "Kommentare konnten nicht geladen werden."

  /**
   * PublishPhotoPost: the new post's id, or the exception raised. Reading the
   * image comes before the upload; only an `IOException` of the read and an
   * `HttpRequestException` of the upload get the service's own texts.
   */
  function PublishPhotoPost(image: ImageRead, reply: Reply): (r: Result<string, Failure>)
    ensures image == IoFailure ==> r == Err(Thrown(ImageUnreadableText))
    ensures image == OtherFileFailure ==> r == Err(Uncaught)
    ensures image == ImageBytes && reply.NetworkFailure? ==> r == Err(Thrown(UploadNetworkText))
    ensures image == ImageBytes && reply.TimedOut? ==> r == Err(Uncaught)
    ensures image == ImageBytes && reply.Response? && !reply.success ==> r == Err(Rejection(reply.body, UploadFailedText))
    ensures r.Ok? <==> image == ImageBytes && reply.Response? && reply.success && reply.body.Some? && "id" in reply.body.value
  {
    match image
    case IoFailure => Err(Thrown(ImageUnreadableText))
    case OtherFileFailure => Err(Uncaught)
    case ImageBytes =>
      match reply
      case NetworkFailure => Err(Thrown(UploadNetworkText))
      case TimedOut => Err(Uncaught)
      case Response(ok, body) =>
        if !ok then Err(Rejection(body, UploadFailedText))
        else match body
          case None => Err(Fault)
          case Some(data) => if "id" in data then Ok(Render(data["id"])) else Err(Fault)
  }

  /** ValidateConnection: the page's name, or the exception raised. */
  function ValidateConnection(reply: Reply): (r: Result<string, Failure>)
    ensures reply.NetworkFailure? ==> r == Err(Thrown(ConnectionNetworkText))
    ensures reply.TimedOut? ==> r == Err(Uncaught)
    ensures r.Ok? <==> reply.Response? && reply.success && reply.body.Some? && "name" in reply.body.value
  {
    match reply
    case NetworkFailure => Err(Thrown(ConnectionNetworkText))
    case TimedOut => Err(Uncaught)
    case Response(ok, body) =>
      if !ok then
        match body
        case None => Err(Fault)
        case Some(b) =>
          match ErrorMessage(b, UnknownApiErrorText)
          case Ok(m) => Err(Thrown(ConnectionPrefix + m))
          case Err(f) => Err(f)
      else match body
        case None => Err(Fault)
        case Some(data) => if "name" in data then Ok(Render(data["name"])) else Err(Fault)
  }

  /** A rejected connection test names the remote message after the prefix, or the default. */
  lemma ValidateConnectionRejected(body: map<string, Json>)
    ensures HasPath2(body, "error", "message") ==>
      ValidateConnection(Response(false, Some(body))) ==
      Err(Thrown(ConnectionPrefix + Render(body["error"].members["message"])))
    ensures LacksPath2(body, "error", "message") ==>
      ValidateConnection(Response(false, Some(body))) == Err(Thrown(ConnectionPrefix + UnknownApiErrorText))
  {
    var _ := ErrorMessage(body, UnknownApiErrorText);
  }

  // ------------------------------------------------------------------
  // Engagement counts
  // ------------------------------------------------------------------

  /** The (likes, comments) pair GetPostStatistics returns. */
  datatype Counts = Counts(likes: int, comments: int)

  /** The pair returned for a rejected request. */
  const Unavailable := Counts(-1, -1)

  /** The explicit `(int)` conversion of a token; it throws for null, a non-number or an overflow. */
  function ToInt32(t: Option<Json>): Result<int, Failure>
  {
    match t
    case Some(JNumber(n)) => if MinInt32 <= n <= MaxInt32 then Ok(n) else Err(Fault)
    case Some(JBool(b)) => Ok(if b then 1 else 0)
    case _ => Err(Fault)
  }

  /** `data[field] != null && data[field]["summary"] != null ? (int)data[field]["summary"]["total_count"] : 0`. */
  function TotalCount(data: map<string, Json>, field: string): (r: Result<int, Failure>)
    ensures r.Ok? ==> MinInt32 <= r.value <= MaxInt32
    ensures field !in data ==> r == Ok(0)
    ensures field in data && !data[field].JObject? ==> r == Err(Fault)
    ensures field in data && data[field].JObject? && "summary" !in data[field].members ==> r == Ok(0)
    ensures field in data && data[field].JObject? && "summary" in data[field].members ==>
      var summary := data[field].members["summary"];
      (!summary.JObject? ==> r == Err(Fault)) &&
      (summary.JObject? && "total_count" !in summary.members ==> r == Err(Fault)) &&
      (summary.JObject? && "total_count" in summary.members && summary.members["total_count"].JNumber? ==>
        var n := summary.members["total_count"].n;
        r == if MinInt32 <= n <= MaxInt32 then Ok(n) else Err(Fault))
  {
    if field !in data then Ok(0)
    else match Member(Some(data[field]), "summary")
      case Err(f) => Err(f)
      case Ok(None) => Ok(0)
      case Ok(Some(summary)) =>
        match Member(Some(summary), "total_count")
        case Err(f) => Err(f)
        case Ok(t) => ToInt32(t)
  }

  /** GetPostStatistics: the counts of a reply; any exception gives (0, 0). */
  function GetPostStatistics(reply: Reply): (r: Counts)
    ensures reply.Response? && !reply.success ==> r == Unavailable
    ensures reply.NetworkFailure? || reply.TimedOut? || (reply.Response? && reply.body.None? && reply.success)
      ==> r == Counts(0, 0)
    ensures reply.Response? && reply.success && reply.body.Some? ==>
      var likes := TotalCount(reply.body.value, "likes");
      var comments := TotalCount(reply.body.value, "comments");
      r == if likes.Ok? && comments.Ok? then Counts(likes.value, comments.value) else Counts(0, 0)
    ensures MinInt32 <= r.likes <= MaxInt32 && MinInt32 <= r.comments <= MaxInt32
  {
    match reply
    case NetworkFailure => Counts(0, 0)
    case TimedOut => Counts(0, 0)
    case Response(ok, body) =>
      if !ok then Unavailable
      else match body
        case None => Counts(0, 0)
        case Some(data) =>
          match (TotalCount(data, "likes"), TotalCount(data, "comments"))
          case (Ok(l), Ok(c)) => Counts(l, c)
          case _ => Counts(0, 0)
  }

  /** The number at `summary.total_count` of an object, whatever its other members. */
  function SummaryTotal(j: Json): Option<int>
  {
    if j.JObject? && "summary" in j.members && j.members["summary"].JObject?
      && "total_count" in j.members["summary"].members && j.members["summary"].members["total_count"].JNumber?
    then Some(j.members["summary"].members["total_count"].n)
    else None
  }

  /** A rejected request gives the sentinel, whatever its body. */
  lemma StatsRejectedIsSentinel(body: Option<map<string, Json>>)
    ensures GetPostStatistics(Response(false, body)) == Unavailable
    ensures Unavailable.likes < 0
  {
  }

  /**
   * Summaries with an Int32 `total_count` are read as they are, whatever else
   * the objects hold; a missing field or summary counts 0.
   */
  lemma StatsReadSummaries(data: map<string, Json>, likes: int, comments: int)
    requires MinInt32 <= likes <= MaxInt32 && MinInt32 <= comments <= MaxInt32
    requires "likes" in data ==>
      SummaryTotal(data["likes"]) == Some(likes) || (data["likes"].JObject? && "summary" !in data["likes"].members)
    requires "comments" in data ==>
      SummaryTotal(data["comments"]) == Some(comments) ||
      (data["comments"].JObject? && "summary" !in data["comments"].members)
    ensures GetPostStatistics(Response(true, Some(data))) == Counts(
      if "likes" in data && SummaryTotal(data["likes"]) == Some(likes) then likes else 0,
      if "comments" in data && SummaryTotal(data["comments"]) == Some(comments) then comments else 0)
  {
  }

  /** A reply as the Graph API sends it, with `data` arrays and extra summary members. */
  lemma StatsOfGraphReply()
    ensures GetPostStatistics(Response(true, Some(map[
      "id" := JString("1_2"),
      "likes" := JObject(map["data" := JArray([]),
        "summary" := JObject(map["total_count" := JNumber(5), "can_like" := JBool(true)])]),
      "comments" := JObject(map["data" := JArray([]),
        "summary" := JObject(map["total_count" := JNumber(3), "order" := JString("ranked")])])])))
      == Counts(5, 3)
  {
    var likes := JObject(map["data" := JArray([]),
      "summary" := JObject(map["total_count" := JNumber(5), "can_like" := JBool(true)])]);
    var comments := JObject(map["data" := JArray([]),
      "summary" := JObject(map["total_count" := JNumber(3), "order" := JString("ranked")])]);
    var data := map["id" := JString("1_2"), "likes" := likes, "comments" := comments];
    assert SummaryTotal(likes) == Some(5);
    assert SummaryTotal(comments) == Some(3);
    StatsReadSummaries(data, 5, 3);
  }

  /**
   * A failed transport, an unreadable body or a malformed count all give (0, 0),
   * which is the same answer as a genuine post with no likes and no comments.
   */
  lemma StatsFaultLooksLikeZero(data: map<string, Json>)
    requires "likes" in data && data["likes"].JObject? && "summary" in data["likes"].members
    requires data["likes"].members["summary"] == JNull
    ensures GetPostStatistics(NetworkFailure) == Counts(0, 0)
    ensures GetPostStatistics(TimedOut) == Counts(0, 0)
    ensures GetPostStatistics(Response(true, None)) == Counts(0, 0)
    ensures GetPostStatistics(Response(true, Some(data))) == Counts(0, 0)
    ensures GetPostStatistics(Response(true, Some(map[]))) == Counts(0, 0)
  {
    assert TotalCount(data, "likes") == Err(Fault);
  }

  // ------------------------------------------------------------------
  // Comments
  // ------------------------------------------------------------------

  /** One normalised comment; `createdTime` in ticks, `MinTime` when unknown. */
  datatype Comment = Comment(author: string, message: string, createdTime: nat)

  /** `DateTimeOffset.MinValue`. */
  const MinTime: nat := 0

  const UnknownAuthor := "Unbekannt"

  /** `m[k0][k1]` as rendered text, for a path that exists. */
  function Text2(m: map<string, Json>, k0: string, k1: string): string
    requires HasPath2(m, k0, k1)
  {
    Render(m[k0].members[k1])
  }

  /**
   * The author: the first present of `from.name`, `username`, `from.id`, then
   * "Unbekannt". A present JSON null counts as present (its text is "").
   */
  function AuthorOf(c: Json): (r: Result<string, Failure>)
    ensures !c.JObject? ==> r == Err(Fault)
    ensures c.JObject? && HasPath2(c.members, "from", "name") ==> r == Ok(Text2(c.members, "from", "name"))
    ensures c.JObject? && "from" in c.members && !c.members["from"].JObject? ==> r == Err(Fault)
    ensures c.JObject? && LacksPath2(c.members, "from", "name") && "username" in c.members
      ==> r == Ok(Render(c.members["username"]))
    ensures (c.JObject? && LacksPath2(c.members, "from", "name") && "username" !in c.members &&
             HasPath2(c.members, "from", "id")) ==> r == Ok(Text2(c.members, "from", "id"))
    ensures (c.JObject? && LacksPath2(c.members, "from", "name") && "username" !in c.members &&
             LacksPath2(c.members, "from", "id")) ==> r == Ok(UnknownAuthor)
  {
    match TextAt(c, ["from", "name"])
    case Err(f) => Err(f)
    case Ok(Some(name)) => Ok(name)
    case Ok(None) =>
      match TextAt(c, ["username"])
      case Err(f) => Err(f)
      case Ok(Some(user)) => Ok(user)
      case Ok(None) =>
        match TextAt(c, ["from", "id"])
        case Err(f) => Err(f)
        case Ok(Some(id)) => Ok(id)
        case Ok(None) => Ok(UnknownAuthor)
  }

  /** The creation time: MinTime when absent, blank or not parseable. */
  function CreatedTimeOf(raw: Option<string>, parseTime: string -> Option<nat>): (t: nat)
    ensures raw.None? ==> t == MinTime
    ensures raw.Some? && Strings.IsBlank(raw.value) ==> t == MinTime
    ensures raw.Some? && !Strings.IsBlank(raw.value) && parseTime(raw.value).None? ==> t == MinTime
    ensures raw.Some? && !Strings.IsBlank(raw.value) && parseTime(raw.value).Some?
      ==> t == parseTime(raw.value).value
  {
    match raw
    case None => MinTime
    case Some(s) =>
      if Strings.IsBlank(s) then MinTime
      else match parseTime(s)
        case None => MinTime
        case Some(v) => v
  }

  /** One entry of a page's `data` array, normalised. */
  function Normalise(c: Json, parseTime: string -> Option<nat>): (r: Result<Comment, Failure>)
    ensures r.Ok? ==> c.JObject? && AuthorOf(c) == Ok(r.value.author)
    ensures r.Ok? && "message" !in c.members ==> r.value.message == ""
    ensures r.Ok? && "message" in c.members ==> r.value.message == Render(c.members["message"])
    ensures r.Ok? && "created_time" !in c.members ==> r.value.createdTime == MinTime
    ensures r.Ok? ==> r.value.createdTime == CreatedTimeOf(
      if "created_time" in c.members then Some(Render(c.members["created_time"])) else None, parseTime)
    ensures c.JObject? && AuthorOf(c).Ok? ==> r.Ok?
  {
    match AuthorOf(c)
    case Err(f) => Err(f)
    case Ok(author) =>
      match TextAt(c, ["message"])
      case Err(f) => Err(f)
      case Ok(message) =>
        match TextAt(c, ["created_time"])
        case Err(f) => Err(f)
        case Ok(raw) =>
          Ok(Comment(author, if message.Some? then message.value else "", CreatedTimeOf(raw, parseTime)))
  }

  /**
   * A foreach over `items` whose body `f` may throw: the results in order, or
   * the exception of the first entry that fails.
   */
  function Traverse<A, B>(items: seq<A>, f: A -> Result<B, Failure>): (r: Result<seq<B>, Failure>)
    ensures r.Ok? ==> |r.value| == |items|
  {
    if items == [] then Ok([])
    else match Traverse(items[..|items| - 1], f)
      case Err(e) => Err(e)
      case Ok(done) =>
        match f(items[|items| - 1])
        case Err(e) => Err(e)
        case Ok(c) => Ok(done + [c])
  }

  /** The loop succeeds exactly when every entry does, and then holds each entry's result in order. */
  lemma {:induction false} TraverseEntries<A, B>(items: seq<A>, f: A -> Result<B, Failure>)
    ensures Traverse(items, f).Ok? <==> forall i :: 0 <= i < |items| ==> f(items[i]).Ok?
    ensures Traverse(items, f).Ok? ==> forall i :: 0 <= i < |items| ==> f(items[i]) == Ok(Traverse(items, f).value[i])
  {
    if items != [] {
      var front := items[..|items| - 1];
      TraverseEntries(front, f);
      assert forall i :: 0 <= i < |front| ==> front[i] == items[i];
    }
  }

  /** A failing loop fails with the exception of its first failing entry. */
  lemma {:induction false} TraverseFirstError<A, B>(items: seq<A>, f: A -> Result<B, Failure>)
    ensures Traverse(items, f).Err? ==>
      exists k :: 0 <= k < |items| && f(items[k]) == Err(Traverse(items, f).error) &&
        forall i :: 0 <= i < k ==> f(items[i]).Ok?
  {
    if items != [] {
      var front := items[..|items| - 1];
      TraverseFirstError(front, f);
      match Traverse(front, f)
      case Err(e) =>
        var k :| 0 <= k < |front| && f(front[k]) == Err(e) && forall i :: 0 <= i < k ==> f(front[i]).Ok?;
        assert forall i :: 0 <= i <= k ==> front[i] == items[i];
      case Ok(_) =>
        TraverseEntries(front, f);
        assert forall i :: 0 <= i < |front| ==> front[i] == items[i];
    }
  }

  /** The normalisation of a single entry, as the loop body. */
  function NormaliserFor(parseTime: string -> Option<nat>): Json -> Result<Comment, Failure>
  {
    c => Normalise(c, parseTime)
  }

  /** The entries of a `data` array, normalised in order; the first failing entry's exception wins. */
  function NormaliseAll(items: seq<Json>, parseTime: string -> Option<nat>): Result<seq<Comment>, Failure>
  {
    Traverse(items, NormaliserFor(parseTime))
  }

  /**
   * The normalised array is each entry's normalisation, in order, exactly when
   * every entry normalises; otherwise it is the exception of the first entry
   * that fails.
   */
  lemma NormaliseAllEntries(items: seq<Json>, parseTime: string -> Option<nat>)
    ensures NormaliseAll(items, parseTime).Ok? <==> forall i :: 0 <= i < |items| ==> Normalise(items[i], parseTime).Ok?
    ensures NormaliseAll(items, parseTime).Ok? ==>
      |NormaliseAll(items, parseTime).value| == |items| &&
      forall i :: 0 <= i < |items| ==> Normalise(items[i], parseTime) == Ok(NormaliseAll(items, parseTime).value[i])
    ensures NormaliseAll(items, parseTime).Err? ==>
      exists k :: 0 <= k < |items| && Normalise(items[k], parseTime) == Err(NormaliseAll(items, parseTime).error) &&
        forall i :: 0 <= i < k ==> Normalise(items[i], parseTime).Ok?
  {
    TraverseEntries(items, NormaliserFor(parseTime));
    TraverseFirstError(items, NormaliserFor(parseTime));
    assert forall i :: 0 <= i < |items| ==> NormaliserFor(parseTime)(items[i]) == Normalise(items[i], parseTime);
  }

  /** Once a prefix of the entries fails, the whole array fails with the same exception. */
  lemma {:induction false} NormaliseAllKeepsError(items: seq<Json>, k: nat, parseTime: string -> Option<nat>)
    requires k <= |items| && NormaliseAll(items[..k], parseTime).Err?
    ensures NormaliseAll(items, parseTime) == NormaliseAll(items[..k], parseTime)
    decreases |items| - k
  {
    if k < |items| {
      assert items[..k + 1][..k] == items[..k];
      NormaliseAllKeepsError(items, k + 1, parseTime);
    } else {
      assert items[..k] == items;
    }
  }

  /** `data["data"] as JArray`: its entries, or none when it is missing or not an array. */
  function DataItems(data: map<string, Json>): seq<Json>
  {
    if "data" in data && data["data"].JArray? then data["data"].items else []
  }

  /** What one page contributes: its entries and the raw `paging.next`. */
  datatype Page = Page(entries: seq<Comment>, next: Option<string>)

  /** The cursor to follow; "" (null or empty) ends the loop. */
  function NextCursor(p: Page): string
  {
    if p.next.Some? then p.next.value else ""
  }

  /** One iteration of the paginator's loop on the reply for the current cursor. */
  function ReadPage(reply: Reply, parseTime: string -> Option<nat>): Result<Page, Failure>
  {
    match reply
    case NetworkFailure => Err(NetworkError)
    case TimedOut => Err(Uncaught)
    case Response(ok, body) =>
      if !ok then Err(Rejection(body, CommentsFailedText))
      else match body
        case None => Err(Fault)
        case Some(data) =>
          match NormaliseAll(DataItems(data), parseTime)
          case Err(f) => Err(f)
          case Ok(entries) =>
            match TextAt(JObject(data), ["paging", "next"])
            case Err(f) => Err(f)
            case Ok(next) => Ok(Page(entries, next))
  }

  /** The reply the remote feed gives for a cursor; an unknown cursor fails in transport. */
  function Fetch(feed: map<string, Reply>, cursor: string): Reply
  {
    if cursor in feed then feed[cursor] else NetworkFailure
  }

  /** From `cursor`, the loop stops (end of feed or an exception) within `fuel` successful pages. */
  ghost predicate EndsWithin(feed: map<string, Reply>, cursor: string, parseTime: string -> Option<nat>, fuel: nat)
    decreases fuel
  {
    cursor == "" ||
    match ReadPage(Fetch(feed, cursor), parseTime)
    case Err(_) => true
    case Ok(page) => fuel > 0 && EndsWithin(feed, NextCursor(page), parseTime, fuel - 1)
  }

  /** The entries of every page from `cursor` on, in page order, or the first exception. */
  ghost function Collect(feed: map<string, Reply>, cursor: string, parseTime: string -> Option<nat>, fuel: nat)
    : Result<seq<Comment>, Failure>
    requires EndsWithin(feed, cursor, parseTime, fuel)
    decreases fuel
  {
    if cursor == "" then Ok([])
    else match ReadPage(Fetch(feed, cursor), parseTime)
      case Err(f) => Err(f)
      case Ok(page) =>
        match Collect(feed, NextCursor(page), parseTime, fuel - 1)
        case Err(f) => Err(f)
        case Ok(rest) => Ok(page.entries + rest)
  }

  /** `prefix` followed by the entries of `r`, or `r`'s exception. */
  function AppendTo(prefix: seq<Comment>, r: Result<seq<Comment>, Failure>): Result<seq<Comment>, Failure>
  {
    match r
    case Err(f) => Err(f)
    case Ok(s) => Ok(prefix + s)
  }

  /**
   * The collection ends at once on an empty cursor, fails with the first page's
   * exception, and otherwise begins with the first page's entries.
   */
  lemma CollectFirstPage(feed: map<string, Reply>, cursor: string, parseTime: string -> Option<nat>, fuel: nat)
    requires EndsWithin(feed, cursor, parseTime, fuel)
    ensures cursor == "" ==> Collect(feed, cursor, parseTime, fuel) == Ok([])
    ensures cursor != "" && ReadPage(Fetch(feed, cursor), parseTime).Err? ==>
      Collect(feed, cursor, parseTime, fuel) == Err(ReadPage(Fetch(feed, cursor), parseTime).error)
    ensures Collect(feed, cursor, parseTime, fuel).Ok? && cursor != "" ==>
      ReadPage(Fetch(feed, cursor), parseTime).Ok? &&
      ReadPage(Fetch(feed, cursor), parseTime).value.entries <= Collect(feed, cursor, parseTime, fuel).value
  {
    if cursor != "" && ReadPage(Fetch(feed, cursor), parseTime).Ok? {
      var page := ReadPage(Fetch(feed, cursor), parseTime).value;
      var rest := Collect(feed, NextCursor(page), parseTime, fuel - 1);
      if rest.Ok? {
        assert page.entries <= page.entries + rest.value;
      }
    }
  }

  /** Any fuel that suffices gives the same result. */
  lemma {:induction false} CollectFuelIrrelevant(feed: map<string, Reply>, cursor: string,
      parseTime: string -> Option<nat>, n: nat, m: nat)
    requires EndsWithin(feed, cursor, parseTime, n) && EndsWithin(feed, cursor, parseTime, m)
    ensures Collect(feed, cursor, parseTime, n) == Collect(feed, cursor, parseTime, m)
    decreases n
  {
    if cursor != "" {
      match ReadPage(Fetch(feed, cursor), parseTime)
      case Err(_) =>
      case Ok(page) => CollectFuelIrrelevant(feed, NextCursor(page), parseTime, n - 1, m - 1);
    }
  }

  /** Newest comment first; comments of equal time keep their page order. */
  function CommentKey(c: Comment): Key
  {
    Key(c.createdTime, 0)
  }

  /** `result.OrderByDescending(c => c.createdTime)`, carried through an exception. */
  function SortedComments(r: Result<seq<Comment>, Failure>): Result<seq<Comment>, Failure>
  {
    match r
    case Err(f) => Err(f)
    case Ok(cs) => Ok(SortDescending(cs, CommentKey))
  }

  /** A result that matches the collected comments for one sufficient fuel matches them for all. */
  lemma ResultForAnyFuel(feed: map<string, Reply>, cursor: string, parseTime: string -> Option<nat>,
      fuel: nat, r: Result<seq<Comment>, Failure>)
    requires EndsWithin(feed, cursor, parseTime, fuel)
    requires r == SortedComments(Collect(feed, cursor, parseTime, fuel))
    ensures forall n: nat ::
      EndsWithin(feed, cursor, parseTime, n) ==> r == SortedComments(Collect(feed, cursor, parseTime, n))
  {
    forall n: nat | EndsWithin(feed, cursor, parseTime, n)
      ensures r == SortedComments(Collect(feed, cursor, parseTime, n))
    {
      CollectFuelIrrelevant(feed, cursor, parseTime, n, fuel);
    }
  }

  /** One loop iteration in terms of the specification: what the current page adds, or its exception. */
  lemma CollectStep(feed: map<string, Reply>, cursor: string, parseTime: string -> Option<nat>, fuel: nat)
    requires cursor != "" && EndsWithin(feed, cursor, parseTime, fuel)
    ensures ReadPage(Fetch(feed, cursor), parseTime).Err? ==>
      Collect(feed, cursor, parseTime, fuel) == Err(ReadPage(Fetch(feed, cursor), parseTime).error)
    ensures ReadPage(Fetch(feed, cursor), parseTime).Ok? ==>
      var page := ReadPage(Fetch(feed, cursor), parseTime).value;
      fuel > 0 && EndsWithin(feed, NextCursor(page), parseTime, fuel - 1) &&
      Collect(feed, cursor, parseTime, fuel) == AppendTo(page.entries, Collect(feed, NextCursor(page), parseTime, fuel - 1))
  {
  }

  lemma AppendToAppend(a: seq<Comment>, b: seq<Comment>, r: Result<seq<Comment>, Failure>)
    ensures AppendTo(a, AppendTo(b, r)) == AppendTo(a + b, r)
  {
    if r.Ok? {
      assert a + (b + r.value) == (a + b) + r.value;
    }
  }

  lemma AppendToEmpty(r: Result<seq<Comment>, Failure>)
    ensures AppendTo([], r) == r
  {
    if r.Ok? {
      assert [] + r.value == r.value;
    }
  }

  /** The loop over one page's `data` entries, normalising each in order. */
  method NormaliseEntries(items: seq<Json>, parseTime: string -> Option<nat>)
      returns (r: Result<seq<Comment>, Failure>)
    ensures r == NormaliseAll(items, parseTime)
  {
    var entries: seq<Comment> := [];
    var k := 0;
    while k < |items|
      invariant 0 <= k <= |items|
      invariant NormaliseAll(items[..k], parseTime) == Ok(entries)
    {
      assert items[..k + 1][..k] == items[..k];
      var c := Normalise(items[k], parseTime);
      if c.Err? {
        NormaliseAllKeepsError(items, k + 1, parseTime);
        return Err(c.error);
      }
      entries := entries + [c.value];
      k := k + 1;
    }
    assert items[..k] == items;
    r := Ok(entries);
  }

  /** The body of the paginator's loop for one reply: raise, or the page's entries and cursor. */
  method ReadPageOf(reply: Reply, parseTime: string -> Option<nat>) returns (r: Result<Page, Failure>)
    ensures r == ReadPage(reply, parseTime)
  {
    if reply.NetworkFailure? {
      return Err(NetworkError);
    }
    if reply.TimedOut? {
      return Err(Uncaught);
    }
    if !reply.success {
      return Err(Rejection(reply.body, CommentsFailedText));
    }
    if reply.body.None? {
      return Err(Fault);
    }
    var data := reply.body.value;
    var entries := NormaliseEntries(DataItems(data), parseTime);
    if entries.Err? {
      return Err(entries.error);
    }
    var next := TextAt(JObject(data), ["paging", "next"]);
    if next.Err? {
      return Err(next.error);
    }
    r := Ok(Page(entries.value, next.value));
  }

  /**
   * GetAllComments: follows `paging.next` from `firstUrl` until it is null or
   * empty, appending every entry of every page, then sorts newest first.
   * Any failing page aborts the whole call and no partial list is returned.
   */
  method GetAllComments(feed: map<string, Reply>, firstUrl: string, parseTime: string -> Option<nat>)
      returns (r: Result<seq<Comment>, Failure>)
    requires exists fuel: nat :: EndsWithin(feed, firstUrl, parseTime, fuel)
    ensures forall fuel: nat ::
      EndsWithin(feed, firstUrl, parseTime, fuel) ==> r == SortedComments(Collect(feed, firstUrl, parseTime, fuel))
  {
    ghost var fuel: nat :| EndsWithin(feed, firstUrl, parseTime, fuel);
    ghost var f: nat := fuel;
    var result: seq<Comment> := [];
    var nextUrl := firstUrl;
    AppendToEmpty(Collect(feed, firstUrl, parseTime, fuel));
    while nextUrl != ""
      invariant EndsWithin(feed, nextUrl, parseTime, f)
      invariant Collect(feed, firstUrl, parseTime, fuel) == AppendTo(result, Collect(feed, nextUrl, parseTime, f))
      decreases f
    {
      var page := ReadPageOf(Fetch(feed, nextUrl), parseTime);
      CollectStep(feed, nextUrl, parseTime, f);
      if page.Err? {
        r := Err(page.error);
        ResultForAnyFuel(feed, firstUrl, parseTime, fuel, r);
        return;
      }
      AppendToAppend(result, page.value.entries, Collect(feed, NextCursor(page.value), parseTime, f - 1));
      result := result + page.value.entries;
      nextUrl := NextCursor(page.value);
      f := f - 1;
    }
    assert Collect(feed, nextUrl, parseTime, f) == Ok([]);
    assert result + [] == result;
    r := Ok(SortDescending(result, CommentKey));
    ResultForAnyFuel(feed, firstUrl, parseTime, fuel, r);
  }

  /**
   * The order of a collected comment list: a permutation of what the pages held,
   * newest first, equal times in page order, and undated comments at the end.
   */
  lemma SortedCommentsOrder(cs: seq<Comment>)
    ensures multiset(SortDescending(cs, CommentKey)) == multiset(cs)
    ensures forall i, j :: 0 <= i < j < |cs| ==>
      SortDescending(cs, CommentKey)[i].createdTime >= SortDescending(cs, CommentKey)[j].createdTime
    ensures forall t: nat ::
      WithKey(SortDescending(cs, CommentKey), CommentKey, Key(t, 0)) == WithKey(cs, CommentKey, Key(t, 0))
  {
    SortIsPermutation(cs, CommentKey);
    SortIsDescending(cs, CommentKey);
    forall t: nat ensures WithKey(SortDescending(cs, CommentKey), CommentKey, Key(t, 0)) == WithKey(cs, CommentKey, Key(t, 0)) {
      SortIsStable(cs, CommentKey, Key(t, 0));
    }
    var s := SortDescending(cs, CommentKey);
    assert |s| == |cs| by { assert |multiset(s)| == |multiset(cs)|; }
    forall i, j | 0 <= i < j < |cs| ensures s[i].createdTime >= s[j].createdTime {
      assert Precedes(CommentKey(s[i]), CommentKey(s[j]));
    }
  }

  /** An undated comment is never followed by a dated one in the sorted list. */
  lemma UndatedLast(cs: seq<Comment>, i: int, j: int)
    requires 0 <= i < j < |SortDescending(cs, CommentKey)|
    requires SortDescending(cs, CommentKey)[i].createdTime == MinTime
    ensures SortDescending(cs, CommentKey)[j].createdTime == MinTime
  {
    SortIsPermutation(cs, CommentKey);
    var s := SortDescending(cs, CommentKey);
    assert |s| == |cs| by { assert |multiset(s)| == |multiset(cs)|; }
    SortedCommentsOrder(cs);
  }

  /**
   * One page read: the transport's exception, the time-out's, the rejection's
   * message, or, for a successful reply whose entries and cursor both read,
   * the entries normalised in order and the raw `paging.next`.
   */
  lemma ReadPageCases(reply: Reply, parseTime: string -> Option<nat>)
    ensures reply.NetworkFailure? ==> ReadPage(reply, parseTime) == Err(NetworkError)
    ensures reply.TimedOut? ==> ReadPage(reply, parseTime) == Err(Uncaught)
    ensures reply.Response? && !reply.success ==>
      ReadPage(reply, parseTime) == Err(Rejection(reply.body, CommentsFailedText))
    ensures ReadPage(reply, parseTime).Ok? <==>
      reply.Response? && reply.success && reply.body.Some? &&
      NormaliseAll(DataItems(reply.body.value), parseTime).Ok? &&
      TextAt(JObject(reply.body.value), ["paging", "next"]).Ok?
    ensures ReadPage(reply, parseTime).Ok? ==>
      var page := ReadPage(reply, parseTime).value;
      |page.entries| == |DataItems(reply.body.value)| &&
      (forall i :: 0 <= i < |page.entries| ==>
        Normalise(DataItems(reply.body.value)[i], parseTime) == Ok(page.entries[i])) &&
      TextAt(JObject(reply.body.value), ["paging", "next"]) == Ok(page.next)
  {
    if reply.Response? && reply.success && reply.body.Some? {
      NormaliseAllEntries(DataItems(reply.body.value), parseTime);
    }
  }

  /** A page without a `data` array contributes nothing but its cursor is still followed. */
  lemma ReadPageWithoutData(data: map<string, Json>, parseTime: string -> Option<nat>, next: string)
    requires "data" !in data || !data["data"].JArray?
    requires "paging" in data && data["paging"] == JObject(map["next" := JString(next)])
    ensures ReadPage(Response(true, Some(data)), parseTime) == Ok(Page([], Some(next)))
  {
    assert NormaliseAll(DataItems(data), parseTime) == Ok([]);
    assert Lookup(Some(JObject(data)), ["paging", "next"]) == Ok(Some(JString(next))) by {
      assert Lookup(Some(JObject(data)), ["paging", "next"]) == Lookup(Some(data["paging"]), ["next"]);
      assert Lookup(Some(data["paging"]), ["next"]) == Lookup(Some(JString(next)), []);
    }
  }

  /** A rejected page aborts with the remote error message, or the default text. */
  lemma ReadPageRejected(body: map<string, Json>, parseTime: string -> Option<nat>)
    ensures HasPath2(body, "error", "message") ==>
      ReadPage(Response(false, Some(body)), parseTime) == Err(Thrown(Render(body["error"].members["message"])))
    ensures LacksPath2(body, "error", "message") ==>
      ReadPage(Response(false, Some(body)), parseTime) == Err(Thrown(CommentsFailedText))
  {
    var _ := ErrorMessage(body, CommentsFailedText);
  }

  /** A comment's own JSON object with an author name and a message, and no time. */
  function CommentJson(name: string, message: string): Json
  {
    JObject(map["from" := JObject(map["name" := JString(name)]), "message" := JString(message)])
  }

  /** A page with the given entries and, when `next` is non-empty, a cursor to it. */
  function PageJson(entries: seq<Json>, next: string): Reply
  {
    Response(true, Some(map["data" := JArray(entries),
      "paging" := JObject(if next == "" then map[] else map["next" := JString(next)])]))
  }

  lemma NormaliseCommentJson(name: string, message: string, parseTime: string -> Option<nat>)
    ensures Normalise(CommentJson(name, message), parseTime) == Ok(Comment(name, message, MinTime))
  {
    var c := CommentJson(name, message);
    assert TextAt(c, ["from", "name"]) == Ok(Some(name)) by {
      assert Lookup(Some(c), ["from", "name"]) == Lookup(Some(c.members["from"]), ["name"]);
      assert Lookup(Some(c.members["from"]), ["name"]) == Lookup(Some(JString(name)), []);
    }
    assert TextAt(c, ["message"]) == Ok(Some(message)) by {
      assert Lookup(Some(c), ["message"]) == Lookup(Some(JString(message)), []);
    }
    assert TextAt(c, ["created_time"]) == Ok(None) by {
      assert Lookup(Some(c), ["created_time"]) == Lookup(None, []);
    }
  }

  lemma PageJsonRead(entries: seq<Json>, cs: seq<Comment>, next: string, parseTime: string -> Option<nat>)
    requires NormaliseAll(entries, parseTime) == Ok(cs)
    ensures ReadPage(PageJson(entries, next), parseTime)
      == Ok(Page(cs, if next == "" then None else Some(next)))
  {
    var data := PageJson(entries, next).body.value;
    assert DataItems(data) == entries;
    PagingNext(data["paging"], next);
    assert Lookup(Some(JObject(data)), ["paging", "next"]) == Lookup(Some(data["paging"]), ["next"]);
  }

  /** The cursor of a page's `paging` object: absent when `next` is empty. */
  lemma PagingNext(paging: Json, next: string)
    requires paging == JObject(if next == "" then map[] else map["next" := JString(next)])
    ensures Lookup(Some(paging), ["next"]) == if next == "" then Ok(None) else Ok(Some(JString(next)))
  {
    if next == "" {
      assert Lookup(Some(paging), ["next"]) == Lookup(None, []);
    } else {
      assert Lookup(Some(paging), ["next"]) == Lookup(Some(JString(next)), []);
    }
  }

  /** A remote feed of three pages holding two, two and one comments. */
  function SampleFeed(): map<string, Reply>
  {
    map[
      "p1" := PageJson([CommentJson("A", "1"), CommentJson("B", "2")], "p2"),
      "p2" := PageJson([CommentJson("C", "3"), CommentJson("D", "4")], "p3"),
      "p3" := PageJson([CommentJson("E", "5")], "")]
  }

  lemma NormaliseOne(n0: string, m0: string, parseTime: string -> Option<nat>)
    ensures NormaliseAll([CommentJson(n0, m0)], parseTime) == Ok([Comment(n0, m0, MinTime)])
  {
    NormaliseCommentJson(n0, m0, parseTime);
    var items := [CommentJson(n0, m0)];
    var c0 := Comment(n0, m0, MinTime);
    assert items[..|items| - 1] == [];
    assert NormaliseAll(items[..|items| - 1], parseTime) == Ok([]);
    assert items[|items| - 1] == CommentJson(n0, m0);
    assert [] + [c0] == [c0];
  }

  lemma NormaliseTwo(n0: string, m0: string, n1: string, m1: string, parseTime: string -> Option<nat>)
    ensures NormaliseAll([CommentJson(n0, m0), CommentJson(n1, m1)], parseTime)
      == Ok([Comment(n0, m0, MinTime), Comment(n1, m1, MinTime)])
  {
    NormaliseOne(n0, m0, parseTime);
    NormaliseCommentJson(n1, m1, parseTime);
    var items := [CommentJson(n0, m0), CommentJson(n1, m1)];
    assert items[..|items| - 1] == [CommentJson(n0, m0)];
    assert items[|items| - 1] == CommentJson(n1, m1);
    assert [Comment(n0, m0, MinTime)] + [Comment(n1, m1, MinTime)] == [Comment(n0, m0, MinTime), Comment(n1, m1, MinTime)];
  }

  lemma SampleFeedPages(parseTime: string -> Option<nat>)
    ensures ReadPage(Fetch(SampleFeed(), "p1"), parseTime)
      == Ok(Page([Comment("A", "1", MinTime), Comment("B", "2", MinTime)], Some("p2")))
    ensures ReadPage(Fetch(SampleFeed(), "p2"), parseTime)
      == Ok(Page([Comment("C", "3", MinTime), Comment("D", "4", MinTime)], Some("p3")))
    ensures ReadPage(Fetch(SampleFeed(), "p3"), parseTime) == Ok(Page([Comment("E", "5", MinTime)], None))
  {
    NormaliseTwo("A", "1", "B", "2", parseTime);
    NormaliseTwo("C", "3", "D", "4", parseTime);
    NormaliseOne("E", "5", parseTime);
    PageJsonRead([CommentJson("A", "1"), CommentJson("B", "2")],
      [Comment("A", "1", MinTime), Comment("B", "2", MinTime)], "p2", parseTime);
    PageJsonRead([CommentJson("C", "3"), CommentJson("D", "4")],
      [Comment("C", "3", MinTime), Comment("D", "4", MinTime)], "p3", parseTime);
    PageJsonRead([CommentJson("E", "5")], [Comment("E", "5", MinTime)], "", parseTime);
  }

  /** A page read successfully, whose continuation ends, is followed by that continuation. */
  lemma CollectOnePage(feed: map<string, Reply>, parseTime: string -> Option<nat>, cursor: string,
      page: Page, fuel: nat)
    requires cursor != "" && ReadPage(Fetch(feed, cursor), parseTime) == Ok(page)
    requires EndsWithin(feed, NextCursor(page), parseTime, fuel)
    ensures EndsWithin(feed, cursor, parseTime, fuel + 1)
    ensures Collect(feed, cursor, parseTime, fuel + 1) == AppendTo(page.entries, Collect(feed, NextCursor(page), parseTime, fuel))
  {
  }

  /** A page read successfully in front of a collected continuation adds its entries in front. */
  lemma CollectPrepend(feed: map<string, Reply>, parseTime: string -> Option<nat>, cursor: string,
      entries: seq<Comment>, next: string, rest: seq<Comment>, fuel: nat)
    requires cursor != "" && next != ""
    requires ReadPage(Fetch(feed, cursor), parseTime) == Ok(Page(entries, Some(next)))
    requires EndsWithin(feed, next, parseTime, fuel) && Collect(feed, next, parseTime, fuel) == Ok(rest)
    ensures EndsWithin(feed, cursor, parseTime, fuel + 1)
    ensures Collect(feed, cursor, parseTime, fuel + 1) == Ok(entries + rest)
  {
    assert NextCursor(Page(entries, Some(next))) == next;
    CollectOnePage(feed, parseTime, cursor, Page(entries, Some(next)), fuel);
  }

  /** A chain of three pages, whatever the feed, collects their entries in order. */
  lemma CollectThreePages(feed: map<string, Reply>, parseTime: string -> Option<nat>,
      c1: string, c2: string, c3: string, e1: seq<Comment>, e2: seq<Comment>, e3: seq<Comment>)
    requires c1 != "" && c2 != "" && c3 != ""
    requires ReadPage(Fetch(feed, c1), parseTime) == Ok(Page(e1, Some(c2)))
    requires ReadPage(Fetch(feed, c2), parseTime) == Ok(Page(e2, Some(c3)))
    requires ReadPage(Fetch(feed, c3), parseTime) == Ok(Page(e3, None))
    ensures EndsWithin(feed, c1, parseTime, 3)
    ensures Collect(feed, c1, parseTime, 3) == Ok(e1 + e2 + e3)
  {
    assert Collect(feed, "", parseTime, 0) == Ok([]);
    assert NextCursor(Page(e3, None)) == "";
    CollectOnePage(feed, parseTime, c3, Page(e3, None), 0);
    assert e3 + [] == e3;
    CollectPrepend(feed, parseTime, c2, e2, c3, e3, 1);
    CollectPrepend(feed, parseTime, c1, e1, c2, e2 + e3, 2);
    assert e1 + (e2 + e3) == e1 + e2 + e3;
  }

  /** Three pages of two, two and one comments collect to all five, in page order. */
  lemma ThreePagesCollectFive(parseTime: string -> Option<nat>)
    ensures EndsWithin(SampleFeed(), "p1", parseTime, 3)
    ensures Collect(SampleFeed(), "p1", parseTime, 3) == Ok(FiveComments())
  {
    SampleFeedPages(parseTime);
    var p1 := [Comment("A", "1", MinTime), Comment("B", "2", MinTime)];
    var p2 := [Comment("C", "3", MinTime), Comment("D", "4", MinTime)];
    var p3 := [Comment("E", "5", MinTime)];
    FiveInPageOrder();
    CollectThreePages(SampleFeed(), parseTime, "p1", "p2", "p3", p1, p2, p3);
  }

  /** The five comments of the sample feed, in page order. */
  function FiveComments(): seq<Comment>
  {
    [Comment("A", "1", MinTime), Comment("B", "2", MinTime), Comment("C", "3", MinTime),
     Comment("D", "4", MinTime), Comment("E", "5", MinTime)]
  }

  lemma FiveInPageOrder()
    ensures [Comment("A", "1", MinTime), Comment("B", "2", MinTime)]
      + [Comment("C", "3", MinTime), Comment("D", "4", MinTime)]
      + [Comment("E", "5", MinTime)] == FiveComments()
  {
  }
}
