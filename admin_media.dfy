/**
 * handlers/admin_media.go: the upload loop of adminMediaUploadHandler, which
 * takes each multipart file part through the size check (the second
 * ParseMultipartForm call), open, read, content sniffing,
 * type check, seek, mkdir, create, copy and record save (removing the file
 * when the save fails), and the field update of adminMediaUpdateHandler.
 */
module AdminMedia {
  import opened Wrappers
  import opened GoLib
  import opened Models

  /** How many leading bytes are read for content sniffing. */
  const SniffLength: nat := 512

  const MediaDir: string := "assets/media"

  // ---------------------------------------------------------------------
  // The allow pattern image/.*|video/.* used through MatchString

  /** `w` as a whole is in the language of image/.*|video/.* ('.' is any character but a newline). */
  predicate InAllowLanguage(w: string) {
    |w| >= 6 && (w[..6] == "image/" || w[..6] == "video/")
    && forall k :: 6 <= k < |w| ==> w[k] != '\n'
  }

  /** regexp.MatchString is unanchored: some substring of `t` is in the language. */
  ghost predicate AllowPatternMatches(t: string) {
    exists i, j :: 0 <= i <= j <= |t| && InAllowLanguage(t[i..j])
  }

  lemma {:induction false} AllowPatternIsSubstringTest(t: string)
    ensures AllowPatternMatches(t) <==> IsSubstring(t, "image/") || IsSubstring(t, "video/")
  {
    if AllowPatternMatches(t) {
      var i, j :| 0 <= i <= j <= |t| && InAllowLanguage(t[i..j]);
      assert t[i..j][..6] == t[i..i + 6];
      assert OccursAt(t, "image/", i) || OccursAt(t, "video/", i);
    }
    if IsSubstring(t, "image/") {
      var i :| OccursAt(t, "image/", i);
      assert InAllowLanguage(t[i..i + 6]);
    }
    if IsSubstring(t, "video/") {
      var i :| OccursAt(t, "video/", i);
      assert InAllowLanguage(t[i..i + 6]);
    }
  }

  /** The type check: does either literal start of the pattern occur anywhere in the sniffed type. */
  function AllowedType(t: string): (ok: bool) {
    Contains(t, "image/") || Contains(t, "video/")
  }

  /** The type check accepts a sniffed type exactly when the allow pattern matches it somewhere. */
  lemma AllowedTypeIsPatternMatch(t: string)
    ensures AllowedType(t) <==> AllowPatternMatches(t)
  {
    AllowPatternIsSubstringTest(t);
  }

  /** The sniffer accepts, for instance, a type that only ends in "image/...". */
  lemma TypeCheckIsUnanchored()
    ensures AllowedType("application/x-image/png")
    ensures AllowedType("image/png") && AllowedType("video/mp4")
    ensures !AllowedType("text/plain; charset=utf-8")
  {
    assert OccursAt("application/x-image/png", "image/", 14);
    assert OccursAt("image/png", "image/", 0);
    assert OccursAt("video/mp4", "video/", 0);
    var t := "text/plain; charset=utf-8";
    forall i | 0 <= i && i + 6 <= |t|
      ensures !OccursAt(t, "image/", i) && !OccursAt(t, "video/", i)
    {
      assert t[i..i + 6][0] == t[i] && t[i..i + 6][5] == t[i + 5];
    }
  }

  // ---------------------------------------------------------------------
  // One uploaded part

  /** http.DetectContentType, left uninterpreted. */
  type Sniffer = seq<byte> -> string

  /** What the environment decides for one part: the outcome of each call and the UUID drawn. */
  datatype PartEnv = PartEnv(
    openOk: bool,     // fileHeader.Open
    readOk: bool,     // file.Read of the first chunk (an empty file always fails with EOF)
    seekOk: bool,     // file.Seek(0, io.SeekStart)
    mkdirOk: bool,    // os.MkdirAll("assets/media")
    id: Uuid,         // uuid.New().String()
    createOk: bool,   // os.Create
    copyOk: bool,     // io.Copy
    saveOk: bool)     // the database call inside media.Save

  /** One multipart file part: the client's file name and Content-Type, the bytes, its environment. */
  datatype Part = Part(filename: string, contentType: string, content: seq<byte>, env: PartEnv)

  /** Where the handler gives up on a part. */
  datatype Stage =
    | TooLarge | OpenFailed | ReadFailed | InvalidType | SeekFailed
    | MkdirFailed | CreateFailed | CopyFailed | SaveFailed

  /** The 512-byte buffer after file.Read: the leading bytes, zero-padded. */
  function SniffBuffer(content: seq<byte>): (b: seq<byte>)
    ensures |b| == SniffLength
    ensures forall k :: 0 <= k < SniffLength ==> b[k] == if k < |content| then content[k] else 0
  {
    var n := Min(|content|, SniffLength);
    content[..n] + seq(SniffLength - n, _ => 0)
  }

  /** The new file name: the part's UUID and the extension of the client's file name. */
  function NewFileName(p: Part): (name: string) {
    p.env.id + Ext(p.filename)
  }

  function StoredPath(p: Part): (path: string) {
    "assets/media/" + NewFileName(p)
  }

  /** The record the handler saves for a part. */
  function Record(p: Part): (m: Media) {
    Media(p.env.id, p.filename, p.filename, p.contentType, "/media/" + NewFileName(p), "", "", [])
  }

  /**
   * The checks before anything is written: size, open, read, sniffed type,
   * seek. `sizeOk` is what r.ParseMultipartForm(maxUploadSize) reported.
   */
  function PreCheck(sizeOk: bool, p: Part, detect: Sniffer): (refused: Option<Stage>) {
    if !sizeOk then Some(TooLarge)
    else if !p.env.openOk then Some(OpenFailed)
    else if !p.env.readOk || p.content == [] then Some(ReadFailed)
    else if !AllowedType(detect(SniffBuffer(p.content))) then Some(InvalidType)
    else if !p.env.seekOk then Some(SeekFailed)
    else None
  }

  /** Create, copy and save, with the file removed again when the save fails. */
  function WriteStep(w: World, p: Part): (r: (World, Option<Stage>)) {
    if !p.env.createOk then (w, Some(CreateFailed))
    else
      var w1 := w.(files := w.files + {StoredPath(p)});
      if !p.env.copyOk then (w1, Some(CopyFailed))
      else
        var s := SaveSpec(w1.media, Record(p), p.env.id, p.env.saveOk);
        if s.err.Some? then (w1.(files := w1.files - {StoredPath(p)}), Some(SaveFailed))
        else (w1.(media := s.table), None)
  }

  /**
   * The effect of one iteration of the upload loop, and where it stopped, if
   * it did. A part touches at most its own file, adds no directory but
   * assets/media, never adds a key to the media table and never touches the
   * tags; when it goes through, its file is there.
   */
  function UploadStep(w: World, sizeOk: bool, p: Part, detect: Sniffer): (r: (World, Option<Stage>))
    ensures r.0.tags == w.tags && r.0.media.Keys == w.media.Keys
    ensures r.0.files <= w.files + {StoredPath(p)} && r.0.dirs <= w.dirs + {MediaDir}
    ensures r.1 == None ==> r.0.files == w.files + {StoredPath(p)}
  {
    var pre := PreCheck(sizeOk, p, detect);
    if pre.Some? then (w, pre)
    else if !p.env.mkdirOk then (w, Some(MkdirFailed))
    else WriteStep(w.(dirs := w.dirs + {MediaDir}), p)
  }

  /** One iteration of the loop body in adminMediaUploadHandler. */
  method UploadPart(store: Store, sizeOk: bool, p: Part, detect: Sniffer) returns (failure: Option<Stage>)
    requires store.Valid()
    modifies store
    ensures store.Valid()
    ensures (store.State(), failure) == UploadStep(old(store.State()), sizeOk, p, detect)
  {
    if !sizeOk {
      return Some(TooLarge);
    }
    if !p.env.openOk {
      return Some(OpenFailed);
    }
    if !p.env.readOk || p.content == [] {
      return Some(ReadFailed);
    }
    var buff := SniffBuffer(p.content);
    var filetype := detect(buff);
    if !AllowedType(filetype) {
      return Some(InvalidType);
    }
    if !p.env.seekOk {
      return Some(SeekFailed);
    }
    var made := store.MkdirAll(MediaDir, p.env.mkdirOk);
    if !made {
      return Some(MkdirFailed);
    }
    var created := store.Create(StoredPath(p), p.env.createOk);
    if !created {
      return Some(CreateFailed);
    }
    if !p.env.copyOk {
      return Some(CopyFailed);
    }
    var saved, err := store.Save(Record(p), p.env.id, p.env.saveOk);
    if err.Some? {
      store.Remove(StoredPath(p));
      return Some(SaveFailed);
    }
    return None;
  }

  /** The stages that return before os.Create leave files and records alone. */
  lemma RejectedBeforeCreateWritesNothing(w: World, sizeOk: bool, p: Part, detect: Sniffer)
    requires UploadStep(w, sizeOk, p, detect).1.Some?
    requires UploadStep(w, sizeOk, p, detect).1.value in {TooLarge, OpenFailed, ReadFailed, InvalidType, SeekFailed, MkdirFailed, CreateFailed}
    ensures UploadStep(w, sizeOk, p, detect).0.files == w.files
    ensures UploadStep(w, sizeOk, p, detect).0.media == w.media
  {
  }

  /** A failed size check, or an empty file, is refused without touching anything. */
  lemma SizeFailureAndEmptyRefused(w: World, sizeOk: bool, p: Part, detect: Sniffer)
    ensures !sizeOk ==> UploadStep(w, sizeOk, p, detect) == (w, Some(TooLarge))
    ensures sizeOk && p.env.openOk && p.content == []
            ==> UploadStep(w, sizeOk, p, detect) == (w, Some(ReadFailed))
  {
  }

  /**
   * Once size, open and read pass, a part is refused as an invalid type
   * exactly when its sniffed type contains neither "image/" nor "video/".
   */
  lemma TypeCheckIsSubstringTest(w: World, sizeOk: bool, p: Part, detect: Sniffer)
    requires sizeOk && p.env.openOk && p.env.readOk && p.content != []
    ensures var t := detect(SniffBuffer(p.content));
      UploadStep(w, sizeOk, p, detect).1 == Some(InvalidType)
      <==> !IsSubstring(t, "image/") && !IsSubstring(t, "video/")
  {
  }

  /**
   * A part that goes through writes assets/media/<uuid><ext> and builds a
   * record with that UUID as ID, FilePath /media/<uuid><ext>, the client's
   * file name as title and file name, and the client's declared
   * Content-Type, not the sniffed one, as MIME type.
   */
  lemma UploadedPartNaming(w: World, sizeOk: bool, p: Part, detect: Sniffer)
    requires UploadStep(w, sizeOk, p, detect).1 == None
    ensures var w' := UploadStep(w, sizeOk, p, detect).0;
      var r := Record(p);
      w'.files == w.files + {"assets/media/" + p.env.id + Ext(p.filename)}
      && r.id == p.env.id && r.id != ""
      && r.filePath == "/media/" + p.env.id + Ext(p.filename)
      && r.title == p.filename && r.fileName == p.filename
      && r.mimeType == p.contentType
      && "assets" + r.filePath in w'.files
  {
    var x := Ext(p.filename);
    assert StoredPath(p) == "assets/media/" + p.env.id + x;
    assert "assets" + Record(p).filePath == StoredPath(p);
  }

  /**
   * The record arrives at Save with its ID set, so Save updates instead of
   * inserting: the table gains no key, and a fresh UUID leaves it as it was.
   */
  lemma UploadedRecordTakesUpdateBranch(w: World, sizeOk: bool, p: Part, detect: Sniffer)
    requires UploadStep(w, sizeOk, p, detect).1 == None
    ensures var w' := UploadStep(w, sizeOk, p, detect).0;
      w'.media.Keys == w.media.Keys
      && (p.env.id !in w.media ==> w'.media == w.media)
      && (p.env.id in w.media ==> w'.media == w.media[p.env.id := Record(p)])
  {
  }

  /** A failed save removes the file just written; the table is untouched. */
  lemma SaveFailureRemovesFile(w: World, sizeOk: bool, p: Part, detect: Sniffer)
    requires UploadStep(w, sizeOk, p, detect).1 == Some(SaveFailed)
    ensures var w' := UploadStep(w, sizeOk, p, detect).0;
      w'.files == w.files - {StoredPath(p)} && w'.media == w.media
      && (StoredPath(p) !in w.files ==> w'.files == w.files)
  {
  }

  /** A failed copy is not rolled back: the created file stays. */
  lemma CopyFailureLeavesFile(w: World, sizeOk: bool, p: Part, detect: Sniffer)
    requires UploadStep(w, sizeOk, p, detect).1 == Some(CopyFailed)
    ensures var w' := UploadStep(w, sizeOk, p, detect).0;
      w'.files == w.files + {StoredPath(p)} && w'.media == w.media
  {
  }

  // ---------------------------------------------------------------------
  // The loop over the parts

  datatype Outcome = Uploaded | Failed(index: nat, stage: Stage)

  /** One iteration of a loop over parts: the new world, and where the part stopped if it did. */
  type Step = (World, Part) -> (World, Option<Stage>)

  /** The iteration adminMediaUploadHandler runs on each part. */
  function Iteration(sizeOk: bool, detect: Sniffer): (step: Step) {
    (w: World, p: Part) => UploadStep(w, sizeOk, p, detect)
  }

  /**
   * The loop from part `i` on: run `step` on each part in turn and stop at
   * the first one that fails, reporting its index.
   */
  function Process(step: Step, w: World, parts: seq<Part>, i: nat): (r: (World, Outcome))
    requires i <= |parts|
    ensures r.1.Failed? ==> i <= r.1.index < |parts|
    decreases |parts| - i
  {
    if i == |parts| then (w, Uploaded)
    else
      var (w1, failure) := step(w, parts[i]);
      if failure.Some? then (w1, Failed(i, failure.value))
      else Process(step, w1, parts, i + 1)
  }

  /**
   * The upload loop of adminMediaUploadHandler; the "uploaded successfully"
   * message is the Uploaded outcome.
   */
  method UploadMedia(store: Store, sizeOk: bool, parts: seq<Part>, detect: Sniffer) returns (outcome: Outcome)
    requires store.Valid()
    modifies store
    ensures store.Valid()
    ensures (store.State(), outcome) == Process(Iteration(sizeOk, detect), old(store.State()), parts, 0)
  {
    var i := 0;
    while i < |parts|
      invariant 0 <= i <= |parts|
      invariant store.Valid()
      invariant Process(Iteration(sizeOk, detect), store.State(), parts, i)
             == Process(Iteration(sizeOk, detect), old(store.State()), parts, 0)
    {
      ghost var before := store.State();
      var failure := UploadPart(store, sizeOk, parts[i], detect);
      assert Iteration(sizeOk, detect)(before, parts[i]) == (store.State(), failure);
      if failure.Some? {
        return Failed(i, failure.value);
      }
      i := i + 1;
    }
    return Uploaded;
  }

  /** What adminMediaUploadHandler answers: refusals before the loop, or the loop's outcome. */
  datatype UploadResponse = MethodNotAllowed | BadRequest | Finished(outcome: Outcome)

  /**
   * adminMediaUploadHandler: refuse anything but POST, then a multipart form
   * that does not parse (`formOk`), then run the loop over the "file" parts.
   */
  method AdminMediaUploadHandler(store: Store, isPost: bool, formOk: bool, sizeOk: bool,
                                 parts: seq<Part>, detect: Sniffer) returns (resp: UploadResponse)
    requires store.Valid()
    modifies store
    ensures store.Valid()
    ensures !isPost ==> resp == MethodNotAllowed && store.State() == old(store.State())
    ensures isPost && !formOk ==> resp == BadRequest && store.State() == old(store.State())
    ensures isPost && formOk ==>
              resp.Finished?
              && (store.State(), resp.outcome) == Process(Iteration(sizeOk, detect), old(store.State()), parts, 0)
  {
    if !isPost {
      return MethodNotAllowed;
    }
    if !formOk {
      return BadRequest;
    }
    var outcome := UploadMedia(store, sizeOk, parts, detect);
    return Finished(outcome);
  }

  /** The state after running `step` on the first `n` parts one after the other. */
  function Advance(step: Step, w: World, parts: seq<Part>, n: nat): (w': World)
    requires n <= |parts|
  {
    if n == 0 then w else step(Advance(step, w, parts, n - 1), parts[n - 1]).0
  }

  /** Each of the first `n` parts goes through. */
  predicate FirstPartsSucceed(step: Step, w: World, parts: seq<Part>, n: nat)
    requires n <= |parts|
  {
    n == 0
    || (FirstPartsSucceed(step, w, parts, n - 1)
        && step(Advance(step, w, parts, n - 1), parts[n - 1]).1 == None)
  }

  lemma {:induction false} ProcessFrom(step: Step, w: World, parts: seq<Part>, i: nat)
    requires i <= |parts| && FirstPartsSucceed(step, w, parts, i)
    ensures var (w', out) := Process(step, Advance(step, w, parts, i), parts, i);
      (out == Uploaded <==> FirstPartsSucceed(step, w, parts, |parts|))
      && (out == Uploaded ==> w' == Advance(step, w, parts, |parts|))
      && (out.Failed? ==>
            FirstPartsSucceed(step, w, parts, out.index)
            && step(Advance(step, w, parts, out.index), parts[out.index]) == (w', Some(out.stage)))
    decreases |parts| - i
  {
    if i < |parts| {
      var r := step(Advance(step, w, parts, i), parts[i]);
      if r.1 == None {
        assert FirstPartsSucceed(step, w, parts, i + 1);
        ProcessFrom(step, w, parts, i + 1);
      } else {
        NotAllSucceed(step, w, parts, i + 1, |parts|);
      }
    }
  }

  lemma {:induction false} NotAllSucceed(step: Step, w: World, parts: seq<Part>, n: nat, m: nat)
    requires n <= m <= |parts|
    requires !FirstPartsSucceed(step, w, parts, n)
    ensures !FirstPartsSucceed(step, w, parts, m)
    decreases m - n
  {
    if n < m {
      NotAllSucceed(step, w, parts, n, m - 1);
    }
  }

  /**
   * The loop stops at the first failing part. Parts before it stay written
   * and saved (the state is theirs plus what the failing part left), parts
   * after it are never looked at, and Uploaded is reported exactly when
   * every part went through, an empty list included.
   */
  lemma StopsAtFirstFailure(step: Step, w: World, parts: seq<Part>)
    ensures var (w', out) := Process(step, w, parts, 0);
      (out == Uploaded <==> FirstPartsSucceed(step, w, parts, |parts|))
      && (out == Uploaded ==> w' == Advance(step, w, parts, |parts|))
      && (out.Failed? ==>
            out.index < |parts|
            && FirstPartsSucceed(step, w, parts, out.index)
            && step(Advance(step, w, parts, out.index), parts[out.index]) == (w', Some(out.stage)))
  {
    ProcessFrom(step, w, parts, 0);
  }

  /** Parts after a failing one never matter. */
  lemma {:induction false} LaterPartsNeverProcessed(step: Step, w: World, parts: seq<Part>, extra: seq<Part>, i: nat)
    requires i <= |parts|
    requires Process(step, w, parts, i).1.Failed?
    ensures Process(step, w, parts + extra, i) == Process(step, w, parts, i)
    decreases |parts| - i
  {
    assert (parts + extra)[i] == parts[i];
    var (w1, failure) := step(w, parts[i]);
    if failure.None? {
      LaterPartsNeverProcessed(step, w1, parts, extra, i + 1);
    }
  }

  /** With no parts the loop reports success and changes nothing. */
  lemma NoPartsIsSuccess(step: Step, w: World)
    ensures Process(step, w, [], 0) == (w, Uploaded)
  {
  }

  /**
   * Since every record arrives at Save with its ID set, the upload loop never
   * adds a key to the media table, whatever the parts and outcomes.
   */
  lemma {:induction false} UploadsAddNoRecord(w: World, sizeOk: bool, parts: seq<Part>, detect: Sniffer, i: nat)
    requires i <= |parts|
    ensures var w' := Process(Iteration(sizeOk, detect), w, parts, i).0;
      w'.media.Keys == w.media.Keys && w'.tags == w.tags
    decreases |parts| - i
  {
    if i < |parts| {
      var (w1, failure) := UploadStep(w, sizeOk, parts[i], detect);
      assert Iteration(sizeOk, detect)(w, parts[i]) == (w1, failure);
      if failure.None? {
        UploadsAddNoRecord(w1, sizeOk, parts, detect, i + 1);
      }
    }
  }

  /**
   * With net/http the size check reports success, because the form was
   * already parsed; then no part fails as TooLarge.
   */
  lemma {:induction false} ParsedFormNeverTooLarge(w: World, parts: seq<Part>, detect: Sniffer, i: nat)
    requires i <= |parts|
    ensures var out := Process(Iteration(true, detect), w, parts, i).1;
      out.Failed? ==> out.stage != TooLarge
    decreases |parts| - i
  {
    if i < |parts| {
      var (w1, failure) := UploadStep(w, true, parts[i], detect);
      assert Iteration(true, detect)(w, parts[i]) == (w1, failure);
      if failure.None? {
        ParsedFormNeverTooLarge(w1, parts, detect, i + 1);
      }
    }
  }

  /** A failed size check fails the first part and changes nothing. */
  lemma SizeFailureFailsFirstPart(w: World, parts: seq<Part>, detect: Sniffer)
    requires parts != []
    ensures Process(Iteration(false, detect), w, parts, 0) == (w, Failed(0, TooLarge))
  {
    assert Iteration(false, detect)(w, parts[0]) == (w, Some(TooLarge));
  }

  // ---------------------------------------------------------------------
  // adminMediaUpdateHandler

  datatype UpdateOutcome = Updated | LookupFailed(cause: DbError) | UpdateFailed(cause: DbError)

  /** The form values the handler copies onto the record. */
  function WithFormValues(m: Media, title: string, description: string, caption: string): (r: Media) {
    m.(title := title, description := description, caption := caption)
  }

  /**
   * adminMediaUpdateHandler: look the record up, overwrite title,
   * description and caption with the form values, and save it. `newId` is
   * what Save would draw were the stored ID empty.
   */
  method UpdateMedia(store: Store, id: string, title: string, description: string, caption: string,
                     findOk: bool, saveOk: bool, newId: Uuid) returns (outcome: UpdateOutcome)
    requires store.Valid()
    modifies store`media
    ensures store.Valid()
    ensures var found := FindMediaByID(old(store.State()), id, findOk);
      (found.Err? ==> outcome == LookupFailed(found.error) && store.media == old(store.media))
      && (found.Ok? ==>
            var s := SaveSpec(old(store.media), WithFormValues(found.value, title, description, caption), newId, saveOk);
            store.media == s.table
            && outcome == if s.err.Some? then UpdateFailed(s.err.value) else Updated)
  {
    var found := FindMediaByID(store.State(), id, findOk);
    if found.Err? {
      return LookupFailed(found.error);
    }
    var media := found.value;
    media := media.(title := title);
    media := media.(description := description);
    media := media.(caption := caption);
    var saved, err := store.Save(media, newId, saveOk);
    if err.Some? {
      return UpdateFailed(err.value);
    }
    return Updated;
  }

  /**
   * A successful update of an existing record changes only its title,
   * description and caption; ID, file name, file path, MIME type and the
   * tags are as they were, and no other row changes.
   */
  lemma UpdateChangesOnlyText(w: World, id: string, title: string, description: string, caption: string,
                              findOk: bool, saveOk: bool, newId: Uuid)
    requires Keyed(w.media)
    requires id != "" && FindMediaByID(w, id, findOk).Ok?
    requires SaveSpec(w.media, WithFormValues(FindMediaByID(w, id, findOk).value, title, description, caption),
                      newId, saveOk).err == None
    ensures var t := SaveSpec(w.media, WithFormValues(FindMediaByID(w, id, findOk).value, title, description, caption),
                              newId, saveOk).table;
      t == w.media[id := w.media[id].(title := title, description := description, caption := caption)]
      && t[id].id == w.media[id].id && t[id].filePath == w.media[id].filePath
      && t[id].fileName == w.media[id].fileName && t[id].mimeType == w.media[id].mimeType
      && t[id].tags == w.media[id].tags
  {
    var found := FindMediaByID(w, id, findOk).value;
    assert Row(WithFormValues(found, title, description, caption))
        == w.media[id].(title := title, description := description, caption := caption);
  }
}
