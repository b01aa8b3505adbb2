# ace-video media library core, modelled in Dafny

ace-video is a self-hosted media library written in Go. An administrator
uploads images and videos, annotates them, and a public `/data.json`
endpoint lists them with filtering and paging. This project models the
sequential core of that program and proves properties of the model:

- **Listing query** (`Models`, `PublicJSON`): `parseJSONOptions` turns the
  query string into `JSONOptions` (defaults `limit=10`, `offset=0`,
  `sort=created_at`, `order=desc`), and `FindMatchingMedia` runs a pipeline
  over the table's rows. The pipeline filters (title contains Search, some
  tag named Tags, id equals ID), then orders when Sort is set, then skips
  Offset rows, then keeps Limit rows. The public handler throws the parse
  error away and queries with whatever options came back.
- **Media entity** (`Models`): `Type()` (the first run of non-`/`
  characters of the MIME type), `GetFileURL`, `Save` (insert with a fresh
  UUID when the ID is empty, otherwise `UPDATE ... WHERE id = ?`), lookup by
  id, and `SaveMedia` (record first, file second).
- **Upload pipeline and update handler** (`AdminMedia`): a class `Store`
  holds the media table (a map from id to row), the tags table, the set of
  files on disk and the set of directories. Each uploaded part goes through
  a size check (the outcome of a second `ParseMultipartForm` call), open, a 512-byte read,
  content sniffing against the unanchored pattern `image/.*|video/.*`, seek,
  `MkdirAll`, `Create`, `io.Copy`, and record save. A failed save removes the
  new file. The loop stops at the first failing part. The update handler
  overwrites title, description and caption and saves.
- **Small helpers** (`Code`, `Templates`): `NewCode` over the 23-letter
  alphabet, and the template helpers `nl2br`, `add` (64-bit wrap-around) and
  `static`.
- **Library behaviour** (`GoLib`): the Go calls `strings.TrimPrefix`,
  `filepath.Ext` and `strconv.Atoi` (on a 64-bit platform, with the two
  error kinds in the order strconv's digit-by-digit reading reports them). It also holds the
  substring test `Contains`. Both the SQL filter `title LIKE '%search%'` and
  the unanchored regular-expression match of the type check come down to it.

The environment is passed in as parameters. This covers
`http.DetectContentType` (an uninterpreted function), `uuid.New()` (a
36-character string of the `Uuid` type), `rand.Intn` (the sequence of its
results), the database's `ORDER BY` (a function that only reorders),
`os.Stat`, and the success or failure of every database, filesystem and
form-parsing call.

Behaviours of the code that the model keeps as written:

- The tags filter binds the whole Tags string to one tag name. The comment at
  models/media.go:91-92 says the tags are comma separated and that a row must
  match any of them, but nothing splits the string.
- The upload's record gets the file's UUID as its ID before `Save`. `Save` then
  takes its update branch: an `UPDATE` that matches no row changes nothing and
  reports no error. So a successful upload of a new UUID leaves the table as it
  was (`AdminMedia.UploadedRecordTakesUpdateBranch`), and the loop never adds a
  record (`AdminMedia.UploadsAddNoRecord`). The same holds for `SaveMedia`.
- The stored MIME type is the client's declared `Content-Type`, not the
  sniffed one.
- A failing part ends the whole request. The parts after it are never looked
  at.
- The Type option is parsed but never used by the query.
- Sort is passed to `ORDER BY` unchecked.
- The public handler drops the parse error of `parseJSONOptions`.
- The 1 GiB check calls `ParseMultipartForm` after an earlier successful
  call. With net/http such a call has no effect, so the check always passes
  (`AdminMedia.ParsedFormNeverTooLarge`).

## Model

| member | source | states |
|---|---|---|
| `GoLib.Contains` | models/media.go:87-89 | the substring test behind `LIKE %search%` and the type check is true exactly when the needle occurs in the text at some index |
| `GoLib.TrimPrefix` | handlers/server.go:222 | removes the prefix once when the string starts with it, and otherwise returns the string unchanged |
| `GoLib.Ext` | handlers/admin_media.go:188 | `filepath.Ext` is no longer than the path, and is empty or starts with `.` |
| `GoLib.ExtIsFinalDotSuffix` | handlers/admin_media.go:188 | `filepath.Ext` is a suffix of the path that is empty or starts at a `.`, has no further `.` or `/`, and is empty only when the last path element has no `.` |
| `GoLib.Atoi` | handlers/public_json.go:37-44 | an accepted number is within the 64-bit range, the text ends in a digit, and it is non-negative when the text starts with a digit |
| `GoLib.ParseDigits` | handlers/public_json.go:37-40 | after the sign, an accepted number is made only of digits, lies in the 64-bit range, and is their value, negated after a `-` |
| `GoLib.OverflowIsRangeError` | handlers/public_json.go:37-40 | a leading digit run worth more than 2^64 - 1 is a range error whatever non-digit text follows it |
| `GoLib.NonDigitIsSyntaxError` | handlers/public_json.go:37-40 | when the leading digit run has not overflowed, a missing digit or any non-digit after the run is a syntax error |
| `GoLib.AtoiItoa` | handlers/public_json.go:36-49 | `strconv.Atoi` accepts every 64-bit integer written in decimal and returns its value |
| `Models.Media.Type` | models/media.go:124-130 | the result has no `/`, and it is empty exactly when the MIME type is empty or all slashes |
| `Models.TypeIsLeftmostLongestRun` | models/media.go:124-130 | `Type()` is a contiguous piece of the MIME type, preceded only by slashes and ending at a slash or at the end, which is the leftmost-longest match of `[^/]+` |
| `Models.TypeIsTextBeforeFirstSlash` | models/media.go:124-130 | a MIME type that does not start with `/` gives exactly the text before its first `/` |
| `Models.Media.GetFileURL` | models/media.go:132-136 | the file URL starts with the site, ends with the record's file path, and is six characters (`assets`) longer than the two together |
| `Models.Where` | models/media.go:87-97 | a row is kept exactly when it is in the table and passes every active filter |
| `Models.WhereReadsOnlyFilters` | models/media.go:87-97 | the filter step depends only on Search, Tags and ID |
| `Models.FindMatchingMedia` | models/media.go:73-103 | the query fails exactly when Limit or Offset is negative or the scan fails, a negative Limit or Offset is reported as such, and a positive Limit bounds the number of rows returned |
| `Models.PageIsWindow` | models/media.go:78-83 | the result is the ordered selection from Offset, clamped to the end, holding Limit rows, or every remaining row when Limit is 0 |
| `Models.ZeroLimitReturnsAllPastOffset` | models/media.go:78-83 | Limit 0 imposes no cap: the result holds every selected row past the offset |
| `Models.OffsetPastEndIsEmpty` | models/media.go:81-83 | an offset at or past the number of selected rows gives an empty result, not an error |
| `Models.OrderIgnoredWithoutSort` | models/media.go:84-86 | with Sort empty, neither Order nor the database's ordering changes the result |
| `Models.TypeOptionIgnored` | models/media.go:73-103 | the result does not depend on the Type option |
| `Models.ResultsPassFilters` | models/media.go:87-97 | every returned row is a table row whose title contains Search, which has a tag named exactly Tags, and whose id is ID, for whichever of these are set |
| `Models.EveryMatchReturnedWithoutPaging` | models/media.go:73-103 | with no limit and no offset, every row that passes the filters is returned |
| `Models.TagsOptionIsNotSplit` | models/media.go:90-94 | Tags `a,b` selects neither a row tagged `a` nor one tagged `b`, while `a` selects the row tagged `a` |
| `Models.SaveSpec` | models/media.go:28-43 | afterwards the receiver has a non-empty ID, and keeps its value when the ID was set; a failure leaves the table unchanged; only the receiver's own key can be added; on success a row under that key is the receiver; every other row stays |
| `Models.SaveInsertsWhenIdEmpty` | models/media.go:28-33 | an empty ID is replaced by the fresh non-empty UUID, and success inserts exactly that row, which needs the UUID to be unused |
| `Models.SaveUpdatesWhenIdSet` | models/media.go:34-37 | a set ID is kept and no key is added; the row with that id is replaced, and when there is no such row nothing changes and no error is reported |
| `Models.SaveKeepsTableKeyed` | models/media.go:28-43 | after Save, every row is still stored under its own id |
| `Models.FindMediaByID` | models/media.go:45-58 | lookup by id succeeds exactly when the id is in the table, and returns that row with exactly its tags |
| `Models.SaveMediaRecordIsNeverInserted` | models/media.go:105-116 | SaveMedia's record already carries its ID, so a new ID is not inserted |
| `Models.SaveMediaURLDiffersFromWrittenPath` | models/media.go:105-122 | SaveMedia's record has the URL `site + "assets/media/" + name`, while its bytes go to `static/media/` |
| `Models.Store.Save` | models/media.go:28-43 | the method leaves the receiver value, the table and the error as `SaveSpec` gives them, and keeps the table keyed by id |
| `Models.Store.MkdirAll` | handlers/admin_media.go:175 | on success the directory is added to the directories, and on failure nothing changes |
| `Models.Store.Create` | handlers/admin_media.go:192 | on success the file exists afterwards, and on failure nothing changes |
| `Models.Store.constructor` | models/media.go:28-43 | a store built from a state with rows keyed by their own ids is valid and holds exactly that state |
| `Models.Store.Remove` | handlers/admin_media.go:234 | the file no longer exists afterwards |
| `Models.Store.WriteFile` | models/media.go:117 | once the open succeeds the file exists, whether or not the write then fails; a failed open changes nothing; success needs both |
| `Models.Store.SaveMedia` | models/media.go:105-122 | the record is saved first; a failed save writes no file; after a successful save the file at `static/media/` plus the name exists exactly when the open succeeded, and success needs the write too |
| `PublicJSON.Get` | handlers/public_json.go:36 | a missing or empty parameter reads as empty, and a non-empty result is one of the parameter's values |
| `PublicJSON.ParseOptions` | handlers/public_json.go:29-69 | Sort and Order are never empty, so the listing is always ordered; after a parse error every field but Limit has its default |
| `PublicJSON.ParseJSONOptions` | handlers/public_json.go:29-69 | the field-by-field method returns exactly what `ParseOptions` describes |
| `PublicJSON.EmptyQueryGivesDefaults` | handlers/public_json.go:30-35 | with no parameters, the result is `limit=10, offset=0, sort=created_at, order=desc` with every other field empty, and no error |
| `PublicJSON.StringOptionsOverrideDefaults` | handlers/public_json.go:50-67 | each string option is its parameter when that is non-empty, and keeps the default otherwise |
| `PublicJSON.NumbersParsedOrRejected` | handlers/public_json.go:36-49 | parsing fails exactly when a non-empty limit or offset is not an integer; otherwise each number is the parameter's value or the default |
| `PublicJSON.BadLimitReturnsDefaults` | handlers/public_json.go:36-42 | a bad limit returns the defaults unchanged with a limit error |
| `PublicJSON.BadOffsetKeepsOnlyLimit` | handlers/public_json.go:43-49 | a bad offset returns the parsed limit with every other field at its default |
| `PublicJSON.DecimalLimitRoundTrip` | handlers/public_json.go:36-42 | any 64-bit integer given as the limit comes back as the Limit option |
| `PublicJSON.PublicDataJSON` | handlers/public_json.go:11-26 | the handler answers with the query run on the parsed options, whether or not parsing failed |
| `PublicJSON.OverflowingLimitIsRangeError` | handlers/public_json.go:36-40 | a limit such as `99999999999999999999x` returns the defaults with a range error, not a syntax error |
| `PublicJSON.BadLimitServesDefaultListing` | handlers/public_json.go:18-20 | with a malformed limit the handler serves the default listing, ordered by `created_at desc`, with at most ten rows |
| `PublicJSON.ZeroLimitListsEveryMatch` | handlers/public_json.go:36-42 | an explicit `limit=0` gives Limit 0, and then every matching row is listed |
| `AdminMedia.AllowPatternIsSubstringTest` | handlers/admin_media.go:129 | an unanchored match of `image/.*\|video/.*` exists exactly when `image/` or `video/` occurs anywhere in the type |
| `AdminMedia.AllowedTypeIsPatternMatch` | handlers/admin_media.go:152-153 | the type check accepts exactly the types on which `MatchString` succeeds |
| `AdminMedia.TypeCheckIsUnanchored` | handlers/admin_media.go:129-161 | `application/x-image/png` passes, `image/png` and `video/mp4` pass, and `text/plain; charset=utf-8` is refused |
| `AdminMedia.SniffBuffer` | handlers/admin_media.go:140-141 | the sniffed buffer is 512 bytes: the file's leading bytes, then zeros |
| `AdminMedia.UploadStep` | handlers/admin_media.go:101-236 | one part leaves the tags and the set of media keys as they were, adds no file but its own and no directory but `assets/media`, and when it goes through its file exists |
| `AdminMedia.UploadPart` | handlers/admin_media.go:101-236 | one loop iteration changes the store and reports its stage as `UploadStep` gives them |
| `AdminMedia.RejectedBeforeCreateWritesNothing` | handlers/admin_media.go:101-201 | the size, open, read, type, seek, mkdir and create failures leave the files and the table as they were |
| `AdminMedia.SizeFailureAndEmptyRefused` | handlers/admin_media.go:101-150 | a failed size check fails with TooLarge, and an empty file fails at the read; neither changes anything |
| `AdminMedia.TypeCheckIsSubstringTest` | handlers/admin_media.go:152-161 | after size, open and read pass, a part is refused as an invalid type exactly when its sniffed type contains neither `image/` nor `video/` |
| `AdminMedia.UploadedPartNaming` | handlers/admin_media.go:186-224 | success adds `assets/media/<uuid><ext>`; the record has ID `<uuid>`, FilePath `/media/<uuid><ext>`, the client's file name as title and file name, and the declared Content-Type; `"assets" + FilePath` is the stored file |
| `AdminMedia.UploadedRecordTakesUpdateBranch` | handlers/admin_media.go:217-225 | the saved record already has its ID, so the table gains no key, and a fresh UUID leaves the table unchanged |
| `AdminMedia.SaveFailureRemovesFile` | handlers/admin_media.go:225-235 | a failed save removes the new file and leaves the table alone |
| `AdminMedia.CopyFailureLeavesFile` | handlers/admin_media.go:205-215 | a failed copy keeps the created file |
| `AdminMedia.Process` | handlers/admin_media.go:99-237 | the loop runs the iteration on each part in turn, and a failure is reported with the index of a part from the starting one on |
| `AdminMedia.UploadMedia` | handlers/admin_media.go:99-237 | the loop's final store and outcome are those of `Process` with the upload iteration from the first part |
| `AdminMedia.AdminMediaUploadHandler` | handlers/admin_media.go:80-245 | a non-POST request and an unparsable form are refused with nothing changed; otherwise the result is the loop's outcome |
| `AdminMedia.StopsAtFirstFailure` | handlers/admin_media.go:99-244 | success is reported exactly when every part went through; a failure at part k means parts 0..k-1 went through and the final state is what part k left |
| `AdminMedia.LaterPartsNeverProcessed` | handlers/admin_media.go:99-237 | parts after a failing one never affect the state or the outcome |
| `AdminMedia.NoPartsIsSuccess` | handlers/admin_media.go:99-244 | with no parts, the handler reports success and changes nothing |
| `AdminMedia.UploadsAddNoRecord` | handlers/admin_media.go:99-237 | whatever the parts and outcomes, the upload loop adds no key to the media table and leaves the tags alone |
| `AdminMedia.ParsedFormNeverTooLarge` | handlers/admin_media.go:92-112 | when the size check reports success, which it always does after the parse at line 92, no part fails as TooLarge |
| `AdminMedia.SizeFailureFailsFirstPart` | handlers/admin_media.go:99-112 | a failed size check fails the first part and changes nothing |
| `AdminMedia.UpdateMedia` | handlers/admin_media.go:40-77 | a failed lookup saves nothing; otherwise the found record, with the three form values copied onto it, goes through Save |
| `AdminMedia.UpdateChangesOnlyText` | handlers/admin_media.go:57-61 | a successful update sets only title, description and caption; ID, file name, file path, MIME type, tags and every other row stay as they were |
| `Code.NewCode` | helpers/code.go:12-18 | the code has exactly `length` characters, character i is the symbol at the i-th draw, and every character is a symbol |
| `Code.SymbolsAreTheUnconfusableLetters` | helpers/code.go:7-9 | the symbols are 23 distinct upper-case letters in order, and a letter is a symbol exactly when it is not I, O or Q |
| `Code.CodeHasNoConfusableLetter` | helpers/code.go:7-17 | a code made of symbols contains no I, O or Q |
| `Templates.Nl2br` | handlers/server.go:205-208 | the output is never shorter than the input |
| `Templates.Nl2brRemovesNewlines` | handlers/server.go:205-208 | the output of nl2br contains no newline |
| `Templates.Nl2brKeepsTextWithoutNewlines` | handlers/server.go:205-208 | nl2br leaves text without newlines unchanged |
| `Templates.Nl2brLength` | handlers/server.go:205-208 | the output is three characters longer per newline than the input |
| `Templates.Add` | handlers/server.go:215-217 | the sum of two 64-bit ints is again a 64-bit int |
| `Templates.AddIsSumModulo64Bits` | handlers/server.go:215-217 | add is `a + b` when the sum fits in 64 bits, and otherwise wraps around by 2^64 |
| `Templates.Static` | handlers/server.go:221-232 | the result always starts with `/assets/` |
| `Templates.StaticStripsOneSlash` | handlers/server.go:221-232 | the result starts with `/assets/` and the name, with one leading `/` removed at most; when Stat fails it is exactly that, and otherwise that plus `?v=` and the stamp |

## Left out

- HTTP plumbing is not modelled: routing, middleware, headers, redirects and flash messages. The handlers' answers are outcome values instead.
- `render`, `parse`, `templateData` and the other template helpers are not modelled. `date`, `time` and `year` read the clock. `divide`, `progress` and `toDuration` use floating point. `md` calls a markdown library. `html`, `upper` and `lower` are type conversions or Unicode case mappings.
- Sessions, flash messages, users and login/setup are not modelled: flash/flash.go, sessions/sessions.go, models/user.go, handlers/admin_session.go and handlers/admin_setup.go. They are cookie-store and bcrypt glue.
- The database is a map and a sequence. Timestamps, soft deletion and the owning user are not modelled. `FindMatchingMedia` takes the live rows with their tags loaded, in scan order, as a parameter.
- Models.FindMatchingMedia: the model does not say whether the backend accepts `tags.name` in the main query. `LIKE` is modelled as case-sensitive substring containment, with no `%` or `_` wildcards inside the search term.
- Models.FindMatchingMedia: a negative Limit or Offset, which `strconv.Atoi` lets through, gives an error result. In the source, what happens depends on the backend.
- Models.FindMatchingMedia: the bun query builder's conversion of Limit and Offset to 32 bits is not modelled.
- `ORDER BY` is modelled as an arbitrary reordering. No particular column order is modelled, and neither is an error for an invalid sort expression.
- `FindAllMedia`, `adminMediaHandler`, `adminJSONPreviewHandler` and models/tags.go's `Save` and `FindAllTags` are not modelled. The tags table is data only.
- helpers/urls.go, models/init.go and main.go are not modelled. The JSON encoder is not modelled either.
- `Models.JSONOptions`: the Go file that declares the struct is not part of this model. The datatype's fields and their types are taken from their uses in `parseJSONOptions` and `FindMatchingMedia`.
- AdminMedia.UploadPart: the outcome of `r.ParseMultipartForm(maxUploadSize)` at handlers/admin_media.go:104 is the parameter `sizeOk`. With net/http a second call has no effect after the successful one at line 92. It returns nil, so `sizeOk` is true for every request that reaches the loop, and the 1 GiB cap never fires. The `MaxBytesReader` wrapper at line 103, which would only limit body bytes not yet read, is not modelled.
- AdminMedia.UploadPart: compiling the constant regular expression cannot fail, so that branch is left out.
- AdminMedia.UploadPart: files are a set of paths. The bytes copied and the partial contents after a failed copy are not modelled. A failed `os.Remove` at handlers/admin_media.go:234 would leave an orphan file while `SaveFailed` is still reported. The model does not represent that failure: `Store.Remove` always removes, and `SaveFailureRemovesFile` holds under that assumption. `MkdirAll` records only the leaf directory.
- AdminMedia.UploadPart: the deferred `Close` calls are not modelled.
- Models.Store.WriteFile: a file is a path, so the truncated and partly written contents after a failed write are not modelled. The `Close` error inside `os.WriteFile` counts as a failed write.
- Models.Store.Save: Save takes the media value and returns it updated. The source instead updates the caller's `*Media` in place; no caller in the core keeps another pointer to it.
- Code.NewCode requires `length >= 0`, because `make` panics on a negative length. The `rand.Intn` results are passed in.
