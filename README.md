# Facebook-Assistent, verified model

Facebook-Assistent is a desktop tool for a Facebook page. Posts are written as drafts, stored in a
local SQLite database, published as photo posts through the Graph API, and evaluated on a
statistics tab. This project models the tool's sequential core in Dafny and proves what that core
promises:

- the posts table and the settings table (`Database`), as an in-memory map from Id to row, with
  one method per SQL statement;
- the statistics tab (`Analytics`): totals, average, ranking, top post, 7- and 30-day windows and
  the data-quality figure, as one pure function of the stored posts and the current instant;
- the main window's logic (`MainWindow`):
  - the editor and its edit mode, a class;
  - the status filter of the post list;
  - the first-line headline rule and the Save-enable rule;
  - publishing a draft;
  - the bulk statistics refresh, a loop over the store;
- the Graph API client (`FacebookApi`):
  - the error-text selection of each call and the counts extraction of the statistics call;
  - the comment paginator, which follows `paging.next` cursors, normalises every comment and
    sorts the list newest first.

Support modules:

| module | contents |
|---|---|
| `Wrappers` | `Option` and `Result` |
| `Seqs` | order-preserving `Filter` and `Sum` (LINQ `Where`, `Count`, `Sum`) |
| `Sorting` | the stable two-key descending sort of `OrderByDescending(...).ThenByDescending(...)` |
| `Strings` | `int.ToString` and `string.IsNullOrWhiteSpace` |
| `Posts` | the row records |

Modelling choices:

- **Time.** An instant is an integer count of ticks (100 ns). The current instant `now` is a
  parameter.
- **Arithmetic.** Counters and sums are unbounded integers. The average and the per-day rate are
  exact `real` values, not formatted strings.
- **Network.** Each HTTP round trip is a `Reply` value: a transport failure, a time-out, or a status class with
  the body already parsed into a `Json` tree (`None` when the body is not a JSON object). The
  remote comment feed is a finite map from cursor to reply.
- **Exceptions.** A call that raises yields `Err(Failure)`:
  - `Thrown(message)` for the service's own exceptions;
  - `NetworkError` for the transport's exception;
  - `Uncaught` for an exception that no `catch` clause of the call matches (a time-out, or a file
    error other than an I/O error), which propagates to the caller;
  - `Fault` for an exception of the JSON library or a null dereference.
- **JSON indexing.** It follows the JSON library: indexing a token that is not an object throws,
  and `?.` stops only at a missing member. A present JSON `null` is a token whose text is "".

The source files do not agree with each other in four places. The model resolves them as follows:

- `MainWindow.xaml.cs` reads and writes a `SharesCount` that `Models/Post.cs` and the table do not
  declare. The model's `Post` has three counters (likes, comments, shares).
- The refresh loop destructures three counts from the statistics call and passes three to
  `UpdatePostStats` (MainWindow.xaml.cs:672, 678). The service's `GetPostStatistics` returns two,
  and `UpdatePostStats` takes two. The model follows the two declarations separately:
  - the service's two-count function is `FacebookApi.GetPostStatistics`;
  - the refresh loop takes a three-count `fetch` parameter;
  - `PostStore.UpdatePostStats` sets all three counters.
- The comment button calls `GetPostComments`, which the service does not define. Only
  `GetAllComments` is modelled.

## Model

The three central functions have no row of their own: the lemmas about them carry their contracts.
`Analytics.Statistics` (UpdateStatisticsUI) is described by `StatisticsCounts`, `StatisticsTotals`,
`RowsArePublishedPosts`, `RowsOrdered`, `TotalsMatchRows`, `TopPostIsBest` and `WindowsNested`.
`FacebookApi.ReadPage` (one turn of the paginator's loop) is described by `ReadPageCases`,
`ReadPageWithoutData` and `ReadPageRejected`. `FacebookApi.Collect` (the pages of the whole loop)
is described by `CollectFirstPage`, `CollectStep` and `CollectFuelIrrelevant`.

| member | source | states |
|---|---|---|
| Database.ToWholeSeconds | Services/DatabaseHelper.cs:282 | the stored publish time is `now` cut down to a whole second: at most `now`, less than a second before it |
| Database.RowsDescendingMembers | Services/DatabaseHelper.cs:143 | a post is listed exactly when it is the stored row of its Id |
| Database.RowsDescendingOrdered | Services/DatabaseHelper.cs:143 | the listing is strictly descending by Id |
| Database.RowsDescendingListing | Services/DatabaseHelper.cs:143 | with every Id at most the bound, the listing holds exactly the stored rows, each once, by decreasing Id |
| Database.PostStore.constructor | Services/DatabaseHelper.cs:23-63 | a new database has empty tables and hands out Id 1 first |
| Database.PostStore.SavePost | Services/DatabaseHelper.cs:109-129 | inserts exactly one row under a fresh Id, with the given texts, status and date, no remote id and zero counters; other rows and settings unchanged |
| Database.PostStore.UpdatePost | Services/DatabaseHelper.cs:170-192 | only Headline, FullText and ImagePath of the row with that Id change; an absent Id changes nothing |
| Database.PostStore.MarkAsPublished | Services/DatabaseHelper.cs:266-288 | the row gets status 1, the remote id and the whole-second publish time; its texts and counters and all other rows are unchanged |
| Database.PostStore.UpdatePostStats | Services/DatabaseHelper.cs:290-305 | only the counters of that row change; an absent Id changes nothing |
| Database.PostStore.DeletePost | Services/DatabaseHelper.cs:65-78 | removes exactly the row with that Id |
| Database.PostStore.GetPosts | Services/DatabaseHelper.cs:136-168 | the loop returns every stored row once, highest Id first, and nothing else |
| Database.PostStore.GetPostById | Services/DatabaseHelper.cs:80-106 | none exactly when no row has the Id; otherwise a post carrying only that Id and the row's image path |
| Database.PostStore.SaveSettings | Services/DatabaseHelper.cs:220-250 | afterwards exactly one settings row exists, the given one; posts unchanged |
| Database.PostStore.LoadSettings | Services/DatabaseHelper.cs:195-217 | none exactly when the settings table is empty, else its first row |
| Database.SettingsRoundTrip | Services/DatabaseHelper.cs:195-250 | loading after saving returns what was saved |
| Strings.IntToStringRoundTrip | MainWindow.xaml.cs:756 | the decimal text of a count reads back as that count |
| Strings.IsBlank | MainWindow.xaml.cs:336 | a text is blank exactly when every character is white space |
| Sorting.SortIsPermutation | MainWindow.xaml.cs:748-750 | the stable descending sort is a permutation of its input |
| Sorting.SortIsDescending | MainWindow.xaml.cs:748-750 | every entry's key is at least every later entry's key (first key, then second key) |
| Sorting.SortIsStable | MainWindow.xaml.cs:748-750 | entries with equal keys keep their input order |
| Sorting.SortPreservesSum | MainWindow.xaml.cs:748-750 | sorting does not change a sum over the entries |
| Analytics.CeilDays | MainWindow.xaml.cs:732 | rounding elapsed ticks up to whole days: the result `d` satisfies `(d-1)` days < elapsed <= `d` days |
| Analytics.DaysOnline | MainWindow.xaml.cs:728-734 | 0 without a publish date; otherwise at least 1 and the number of started days, also for a future date |
| Analytics.InteractionsPerDay | MainWindow.xaml.cs:735-737 | absent ("-") exactly when there is no publish date, else the exact interactions per day online |
| Analytics.Rows | MainWindow.xaml.cs:777-793 | one row per ranked post, ranked consecutively from the first rank, each with that post's interactions, score and days online |
| Analytics.Window | MainWindow.xaml.cs:765-766 | a window keeps only dated posts published at or after the cutoff, and no more posts than its input |
| Analytics.StatisticsCounts | MainWindow.xaml.cs:699-795 | whatever the counters hold: one table row per published post, published plus draft counts at most all posts, 7-day count <= 30-day count <= published count, synced count <= published count |
| Analytics.StatisticsTotals | MainWindow.xaml.cs:699-795 | the interaction total is likes plus comments plus shares; without published posts the average is 0 and the top headline "-" |
| Analytics.Mean | MainWindow.xaml.cs:718-720 | the average times the number of published posts is the interaction total; exactly 0 without published posts |
| Analytics.SumOfInteractions | MainWindow.xaml.cs:706-709 | the interaction total is the sum of the likes, comments and shares totals |
| Analytics.RowsArePublishedPosts | MainWindow.xaml.cs:722-792 | the table holds exactly the published posts, each once, ranked 1..n, with score = L+2C+3S and interactions = L+C+S |
| Analytics.RowsOrdered | MainWindow.xaml.cs:748-750 | rows descend by score, and by interactions among equal scores |
| Analytics.RowsStable | MainWindow.xaml.cs:748-750 | posts equal on both keys keep their stored order |
| Analytics.TotalsMatchRows | MainWindow.xaml.cs:706-709 | total interactions equal the sum of the three totals and the sum over the table rows |
| Analytics.TopPostIsBest | MainWindow.xaml.cs:752-762 | the top post is the first row and no row outscores it; without published posts the labels are "-" and "Score: 0" |
| Analytics.WindowMembership | MainWindow.xaml.cs:765-766 | a post is in a window exactly when it is in the input and was published at or after the cutoff |
| Analytics.WindowNested | MainWindow.xaml.cs:765-766 | the 7-day selection is the 7-day cutoff applied to the 30-day selection |
| Analytics.WindowSumBound | MainWindow.xaml.cs:768-769 | with non-negative counters a window's interaction sum is at most the input's |
| Analytics.WindowsNested | MainWindow.xaml.cs:765-773 | with non-negative counters the 7-day interactions are at most the 30-day ones, and those at most the total interactions |
| Analytics.SyncedAtMostPublished | MainWindow.xaml.cs:774-775 | synced posts are published posts with a non-blank remote id, so they never outnumber the published ones |
| Analytics.PublishedAndDraftsDisjoint | MainWindow.xaml.cs:701-716 | published and draft counts never add up to more than the number of posts |
| MainWindow.GetFirstLine | MainWindow.xaml.cs:396-403 | the headline is a prefix of the text without line breaks that ends at the first line break or at the end; "" for "" |
| MainWindow.CanSave | MainWindow.xaml.cs:336-339 | Save may be enabled exactly when an image path is set and the text has a character that is not white space |
| MainWindow.SaveFlagAsWritten | MainWindow.xaml.cs:250-268 | as written: an unchanged text leaves the flag as it was; a changed text enables Save exactly when it has a non-white-space character and the previous image path is set |
| MainWindow.PostsList | MainWindow.xaml.cs:284-315 | the list is no longer than the stored posts; filter 1 lists only drafts, filter 2 only published posts |
| MainWindow.StaleSaveFlagExample | MainWindow.xaml.cs:250-268 | as written, loading a valid draft into a fresh editor leaves Save disabled |
| MainWindow.PostsListSelects | MainWindow.xaml.cs:295-306 | filter 1 shows exactly the drafts and filter 2 exactly the published posts, in stored order; any other index shows all |
| MainWindow.Editor.constructor | MainWindow.xaml.cs:21-25 | the window opens on a new, empty post |
| MainWindow.Editor.ValidateInput | MainWindow.xaml.cs:332-340 | Save is enabled exactly when the text is not blank and an image path is set |
| MainWindow.Editor.ClearEditor | MainWindow.xaml.cs:317-330 | text and image are cleared, the mode is back to a new post (-1) and Save is disabled |
| MainWindow.Editor.EditText | MainWindow.xaml.cs:101-105 | a text change replaces the text and revalidates Save |
| MainWindow.Editor.SelectImage | MainWindow.xaml.cs:107-122 | a chosen image replaces the path and revalidates Save |
| MainWindow.Editor.BeginEdit | MainWindow.xaml.cs:250-278 | a published post is refused with nothing changed; a draft is loaded into the editor and its Id becomes the mode |
| MainWindow.Editor.SavePost | MainWindow.xaml.cs:124-214 | a failed image copy changes nothing; otherwise in new-post mode one draft row is inserted, in edit mode only that row's texts and image change and a replaced image is reported, and the editor is cleared |
| MainWindow.Editor.DeleteSelected | MainWindow.xaml.cs:405-460 | a failed image deletion changes nothing; otherwise a confirmed delete removes exactly that row and resets the editor exactly when it was editing that post |
| MainWindow.PublishNow | MainWindow.xaml.cs:514-580 | published posts, cancellation and missing credentials never reach the upload; only a successful upload marks exactly that row published |
| MainWindow.WithStats | MainWindow.xaml.cs:675-679 | a lookup with likes >= 0 replaces the three counters, a failed one leaves the row; no other field changes |
| MainWindow.RemoteIds | MainWindow.xaml.cs:665-672 | the remote ids looked up, one per target, in order |
| MainWindow.RefreshStatistics | MainWindow.xaml.cs:637-696 | without credentials nothing happens; otherwise exactly the published rows with a remote id are looked up, in list order; stopping with no lookups when there are none; a row changes only when it qualifies and its lookup has likes >= 0 |
| MainWindow.RefreshEach | MainWindow.xaml.cs:664-680 | the foreach looks up the targets' remote ids in order and leaves every target refreshed and every other row untouched |
| MainWindow.RefreshOne | MainWindow.xaml.cs:671-679 | one turn stores the looked-up counters of that row only when the lookup gave likes >= 0, adding it to the refreshed rows |
| MainWindow.RefreshCompletes | MainWindow.xaml.cs:653-680 | once every target is refreshed, each stored row is its refreshed row: new counters only where it qualified and its lookup succeeded |
| MainWindow.RefreshStep | MainWindow.xaml.cs:675-679 | storing one lookup refreshes that row, even if it was refreshed before, and no other |
| MainWindow.QualifyingRowsAreTargets | MainWindow.xaml.cs:655-656 | a stored row is looked up exactly when it is published with a remote id |
| FacebookApi.ErrorMessage | Services/FacebookApiService.cs:52 | the error text is `error.message` when present, the call's default when absent, and an exception when `error` is not an object (the same rule serves the calls at lines 92 and 160) |
| FacebookApi.PublishPhotoPost | Services/FacebookApiService.cs:21-71 | an I/O error on the image and a network failure raise their own texts; another file error and a time-out escape uncaught; a rejection raises the remote message or "Upload fehlgeschlagen"; success exactly with a readable image and an `id` in the reply |
| FacebookApi.ValidateConnection | Services/FacebookApiService.cs:74-105 | a network failure raises its own text; a time-out escapes uncaught; success exactly with a `name` in the reply |
| FacebookApi.ValidateConnectionRejected | Services/FacebookApiService.cs:88-94 | a rejection raises "Facebook sagt: " followed by the remote message or "Unbekannter API Fehler" |
| FacebookApi.TotalCount | Services/FacebookApiService.cs:127-137 | a count is 0 without the field or its summary; a fault when the field or summary is not an object or `total_count` is missing; a numeric `total_count` is read as its value when it fits an Int32 and a fault otherwise, whatever other members the objects hold |
| FacebookApi.GetPostStatistics | Services/FacebookApiService.cs:108-145 | a rejection gives (-1, -1); a transport failure, a time-out or an unreadable body gives (0, 0); otherwise both counts are read from the summaries; every count is an Int32 |
| FacebookApi.StatsRejectedIsSentinel | Services/FacebookApiService.cs:118-122 | a rejected request yields the sentinel (-1, -1) |
| FacebookApi.StatsReadSummaries | Services/FacebookApiService.cs:126-139 | summaries whose `total_count` is an Int32 number are read as their totals, whatever other members the objects hold, and a missing field or summary counts 0 |
| FacebookApi.StatsOfGraphReply | Services/FacebookApiService.cs:108-145 | a reply shaped as the Graph API sends it (with `data` arrays and extra summary members) gives its two totals |
| FacebookApi.StatsFaultLooksLikeZero | Services/FacebookApiService.cs:141-144 | transport failure, an unreadable body and a malformed summary all yield (0, 0), the same as a genuine zero |
| FacebookApi.AuthorOf | Services/FacebookApiService.cs:171-175 | the author is the first present of `from.name`, `username`, `from.id`, else "Unbekannt" |
| FacebookApi.CreatedTimeOf | Services/FacebookApiService.cs:179-184 | the creation time is the minimum time when absent, blank or unparsable, else the parsed time |
| FacebookApi.Normalise | Services/FacebookApiService.cs:171-186 | an object entry whose author can be read always normalises; a normalised comment has that author, the message or "" when absent, and the creation time read from `created_time` |
| FacebookApi.Traverse | Services/FacebookApiService.cs:169-188 | the foreach over the entries yields one result per entry |
| FacebookApi.TraverseEntries | Services/FacebookApiService.cs:169-188 | the foreach succeeds exactly when every entry does, and then holds each entry's result in order |
| FacebookApi.TraverseFirstError | Services/FacebookApiService.cs:169-188 | a failing foreach raises the exception of its first failing entry |
| FacebookApi.NormaliseAllEntries | Services/FacebookApiService.cs:169-188 | a page's entries normalise exactly when each one does, giving each entry's comment in order; otherwise the first failing entry's exception |
| FacebookApi.NormaliseAllKeepsError | Services/FacebookApiService.cs:169-188 | a failing entry aborts the whole page with its exception |
| FacebookApi.CollectFuelIrrelevant | Services/FacebookApiService.cs:152-191 | the collected comments of a terminating cursor chain do not depend on the bound used to follow it |
| FacebookApi.CollectStep | Services/FacebookApiService.cs:152-191 | one loop turn either raises the page's exception or appends the page's comments and moves to its `paging.next` |
| FacebookApi.NormaliseEntries | Services/FacebookApiService.cs:169-188 | the loop over a page's `data` array normalises every entry in order or raises the first failure |
| FacebookApi.ReadPageOf | Services/FacebookApiService.cs:154-190 | one loop turn raises on transport failure, on rejection and on a bad entry; otherwise it yields the page's comments and its next cursor |
| FacebookApi.GetAllComments | Services/FacebookApiService.cs:147-194 | follows cursors until one is null or empty, collecting every comment of every page in page order, or raises the first failure with no partial list; the result is sorted newest first |
| FacebookApi.SortedCommentsOrder | Services/FacebookApiService.cs:193 | the returned list is a permutation of the collected comments, with non-increasing times and equal times in page order |
| FacebookApi.UndatedLast | Services/FacebookApiService.cs:179-193 | undated comments (minimum time) come after all dated ones |
| FacebookApi.ReadPageCases | Services/FacebookApiService.cs:154-190 | one page read raises the transport's exception on a network failure, escapes on a time-out, raises the rejection text when refused; it succeeds exactly when every entry normalises and `paging.next` can be read, giving each entry's comment in order and that cursor |
| FacebookApi.CollectFirstPage | Services/FacebookApiService.cs:152-191 | an empty cursor collects nothing; otherwise a failing first page is the result, and a successful one's comments start the collected list |
| FacebookApi.ReadPageWithoutData | Services/FacebookApiService.cs:165-190 | a page without a `data` array contributes no comments, and its `paging.next` is still followed |
| FacebookApi.ReadPageRejected | Services/FacebookApiService.cs:157-162 | a rejected page raises the remote message or "Kommentare konnten nicht geladen werden." |
| FacebookApi.ThreePagesCollectFive | Services/FacebookApiService.cs:152-191 | three chained pages of two, two and one comments collect all five in page order |

## Left out

- The WPF layer is not modelled: dialogs, controls, cursors, tab switching, the image preview and
  the label texts other than the top-post texts.
- The per-post row texts are not modelled: `PublishedDisplay` and the date formats.
- `UpdatePostPreview` (the editor's preview labels) is not modelled: it is presentation only.
- The connection-test dialog is not modelled except for `ValidateConnection`'s result: the trimmed
  input guard and the status label.
- File system work is an input:
  - copying the chosen image into the application folder is the `finalImagePath` argument of
    `Editor.SavePost`, and a copy that throws is its `copyFails` argument;
  - deleting an old image after an edit is the `staleImage` result of `Editor.SavePost`; a failure
    of that deletion is caught and ignored by the source;
  - deleting a removed post's image is not modelled beyond the `imageDeleteFails` argument of
    `Editor.DeleteSelected`, which says it threw;
  - reading the image is the `image` argument of `PublishPhotoPost`: the bytes, an I/O error or
    another file error;
  - creating the database folder and file is not modelled.
- HTTP, multipart upload and SQLite are replaced by their observable effects. An exception thrown
  by SQLite is not modelled.
- `async`/`await` is treated as sequential code. A second click while a call is in flight is not
  modelled.
- All clock reads share one `now`. The source reads `DateTime.Now` separately for the days-online
  figure, the windows and `MarkAsPublished`.
- The statistics are not rounded the way the source rounds them:
  - `TotalDays` is a double in the source and the model divides ticks exactly;
  - the one- and two-decimal formatting of the average and the rate is not modelled.
- Integer overflow is not modelled: the model's sums are unbounded. In the source, the `+` of the
  interaction total and of each row's interactions and score (MainWindow.xaml.cs:709 and
  MainWindow.xaml.cs:726-727) wraps around. The LINQ `Sum` calls (MainWindow.xaml.cs:706-708 and
  MainWindow.xaml.cs:768-769) are checked and throw `OverflowException`. That exception escapes the
  statistics tab's handler, and the refresh's `catch` reports it.
- `FacebookApi.Render`: the text of a JSON array or object token is rendered as "", not as its
  JSON text.
- `FacebookApi.ToInt32`: the JSON library's conversion of numeric strings to `int` is not
  modelled; such a count is a fault. Floating-point counts cannot be represented: `Json`'s numbers
  are integers.
- `FacebookApi.GetAllComments` requires the cursor chain to end. A cyclic chain of `paging.next`
  cursors would make the source loop forever.
- The timestamp parser is an abstract `parseTime` parameter.
- `MainWindow.RefreshStatistics`: the three-count `fetch` parameter is total. An exception in the
  call, which would abort the loop in the source, is not modelled. `fetch` is a fixed function of
  the remote id and the token, so two rows with the same remote id always get the same counts; in
  the source these are two separate calls, which may answer differently.
- `UpdateStatisticsUI`, which `RefreshStatistics` calls at its end, is `Analytics.Statistics` of
  the stored posts.
- `GetPostComments`, called by the comments button, is not part of this model: the service
  defines no such method.
- `Database.PostStore.GetPostById` fills the unread text fields with "", where the source leaves
  them null. No caller reads them.
- `MainWindow.Editor.constructor` starts with Save in the state `ValidateInput` would give. The
  button's initial state comes from the window's markup, which is not part of this model.
- `MainWindow.Editor.BeginEdit` is the corrected version; see Findings.

## Findings

| source | as written | input that shows it | evidently intended | confidence | as-written member | corrected member |
|---|---|---|---|---|---|---|
| MainWindow.xaml.cs:250-268 | Loading a draft assigns the text box first. The text-changed handler then revalidates Save against the previous image path. The new image path is set afterwards and nothing revalidates. | A fresh editor (no text, no image), then a draft with text "Hallo" and image "bild.jpg": Save stays disabled although both fields are filled. | Save is enabled exactly when the loaded text is not blank and the loaded image path is set. | medium; not executed. It relies on the text-changed event firing synchronously on a programmatic assignment and only when the text changes. | MainWindow.SaveFlagAsWritten, MainWindow.StaleSaveFlagExample | MainWindow.Editor.BeginEdit |
