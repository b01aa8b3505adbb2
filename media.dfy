/**
 * models/media.go: the Media and Tag records, the derived accessors Type and
 * GetFileURL, the listing query FindMatchingMedia, and the persistence
 * operations Save, FindMediaByID and SaveMedia over a store that holds the
 * media and tags tables and the files on disk.
 */
module Models {
  import opened Wrappers
  import opened GoLib

  // ---------------------------------------------------------------------
  // Records

  /** A character uuid.New().String() can produce: lower-case hex or '-'. */
  predicate IsUuidChar(c: char) {
    '0' <= c <= '9' || 'a' <= c <= 'f' || c == '-'
  }

  /** The string form of a freshly generated UUID: 36 characters, no '/'. */
  type Uuid = s: string | |s| == 36 && forall k :: 0 <= k < |s| ==> IsUuidChar(s[k])
    witness "00000000-0000-0000-0000-000000000000"

  /** models.Tag: a label attached to one media item. */
  datatype Tag = Tag(id: string, mediaId: string, name: string)

  /** models.Media (timestamps and the owning user are not modelled). */
  datatype Media = Media(
    id: string,
    title: string,
    fileName: string,
    mimeType: string,
    filePath: string,
    description: string,
    caption: string,
    tags: seq<Tag>)
  {
    /**
     * Media.Type: the first match of the regular expression [^/]+ in the MIME
     * type, that is its first maximal run of characters other than '/'.
     */
    function Type(): (r: string)
      ensures forall k :: 0 <= k < |r| ==> r[k] != '/'
      ensures r == [] <==> forall k :: 0 <= k < |mimeType| ==> mimeType[k] == '/'
    {
      FirstRun(mimeType)
    }

    /**
     * Media.GetFileURL, with the SITE_URL environment variable passed as
     * `site`: the site, then "assets", then the record's file path.
     */
    function GetFileURL(site: string): (u: string)
      ensures HasPrefix(u, site) && |u| == |site| + 6 + |filePath|
      ensures u[|u| - |filePath|..] == filePath
    {
      site + "assets" + filePath
    }
  }

  /** The longest prefix of `s` without '/'. */
  function TakeRun(s: string): (r: string)
    ensures |r| <= |s| && r == s[..|r|]
    ensures forall k :: 0 <= k < |r| ==> r[k] != '/'
    ensures |r| == |s| || s[|r|] == '/'
    decreases |s|
  {
    if s == [] || s[0] == '/' then [] else [s[0]] + TakeRun(s[1..])
  }

  /** Skips the leading '/' characters of `s`, then takes a run. */
  function FirstRun(s: string): (r: string)
    ensures forall k :: 0 <= k < |r| ==> r[k] != '/'
    ensures r == [] <==> forall k :: 0 <= k < |s| ==> s[k] == '/'
    decreases |s|
  {
    if s == [] then []
    else if s[0] == '/' then
      var r := FirstRun(s[1..]);
      assert forall k :: 1 <= k < |s| ==> s[k] == s[1..][k - 1];
      r
    else
      TakeRun(s)
  }

  /** `r` sits in `s` at `i`, after only '/' characters, and cannot be extended to the right. */
  ghost predicate FirstRunAt(s: string, r: string, i: nat) {
    i + |r| <= |s| && s[i..i + |r|] == r
    && (forall k :: 0 <= k < i ==> s[k] == '/')
    && (i + |r| == |s| || s[i + |r|] == '/')
  }

  /**
   * Type() is the leftmost-longest match of [^/]+: a contiguous piece of the
   * MIME type preceded only by slashes and ending at a slash or at the end.
   */
  lemma {:induction false} TypeIsLeftmostLongestRun(m: Media)
    ensures exists i: nat :: FirstRunAt(m.mimeType, m.Type(), i)
  {
    assert m.Type() == FirstRun(m.mimeType);
    FirstRunPlaced(m.mimeType);
  }

  lemma {:induction false} FirstRunPlaced(s: string)
    ensures exists i: nat :: FirstRunAt(s, FirstRun(s), i)
    decreases |s|
  {
    if s == [] {
      assert FirstRun(s) == [];
      assert FirstRunAt(s, FirstRun(s), 0);
    } else if s[0] == '/' {
      FirstRunPlaced(s[1..]);
      var i: nat :| FirstRunAt(s[1..], FirstRun(s[1..]), i);
      var r := FirstRun(s);
      assert s[1..][i..i + |r|] == s[i + 1..i + 1 + |r|];
      assert FirstRunAt(s, r, i + 1);
    } else {
      assert FirstRunAt(s, FirstRun(s), 0);
    }
  }

  /** When the MIME type does not start with '/', Type() is exactly what comes before its first '/'. */
  lemma TypeIsTextBeforeFirstSlash(m: Media)
    requires m.mimeType != [] && m.mimeType[0] != '/'
    ensures var r := m.Type();
      r == m.mimeType[..|r|]
      && (forall k :: 0 <= k < |r| ==> m.mimeType[k] != '/')
      && (|r| == |m.mimeType| || m.mimeType[|r|] == '/')
  {
  }

  // ---------------------------------------------------------------------
  // The listing query

  /** models.JSONOptions, the listing request; `mediaType` is the Go field Type. */
  datatype JSONOptions = JSONOptions(
    limit: int,
    offset: int,
    sort: string,
    order: string,
    search: string,
    tags: string,
    mediaType: string,
    id: string)

  /** Some tag of the row is named exactly `name`. */
  predicate HasTagNamed(m: Media, name: string) {
    exists t :: t in m.tags && t.name == name
  }

  /**
   * The WHERE clauses that FindMatchingMedia adds: title LIKE %search%,
   * tags.name IN (?) bound to the whole Tags string, and id = ?.
   */
  predicate Matches(m: Media, o: JSONOptions) {
    (o.search == "" || Contains(m.title, o.search))
    && (o.tags == "" || HasTagNamed(m, o.tags))
    && (o.id == "" || m.id == o.id)
  }

  /** The rows of `rows` that pass every active filter, in table order. */
  function Where(rows: seq<Media>, o: JSONOptions): (r: seq<Media>)
    ensures |r| <= |rows|
    ensures forall m :: m in r <==> m in rows && Matches(m, o)
    decreases |rows|
  {
    if rows == [] then []
    else
      var rest := Where(rows[1..], o);
      assert forall m :: m in rows <==> m == rows[0] || m in rows[1..];
      if Matches(rows[0], o) then [rows[0]] + rest else rest
  }

  /** The database's ORDER BY <sort> <order>; which order it picks is the backend's business. */
  type OrderBy = (string, string, seq<Media>) -> seq<Media>

  /** ORDER BY only rearranges rows. */
  ghost predicate Reorders(orderBy: OrderBy) {
    forall key, dir, rows :: multiset(orderBy(key, dir, rows)) == multiset(rows)
  }

  /** The selected rows, reordered when a sort key is given. */
  function Ordered(rows: seq<Media>, o: JSONOptions, orderBy: OrderBy): (r: seq<Media>) {
    var kept := Where(rows, o);
    if o.sort != "" then orderBy(o.sort, o.order, kept) else kept
  }

  function Skip(rows: seq<Media>, n: nat): (r: seq<Media>) {
    if n == 0 then rows else if n >= |rows| then [] else rows[n..]
  }

  function Take(rows: seq<Media>, n: nat): (r: seq<Media>) {
    if n != 0 && n < |rows| then rows[..n] else rows
  }

  datatype QueryError =
    | NegativePaging   // a negative LIMIT or OFFSET, which the backend decides about
    | BackendFailed    // Scan returned an error

  /**
   * FindMatchingMedia over `rows`, the table's live rows with their tags
   * loaded: filter, then order when Sort is set, then skip Offset rows when
   * Offset is non-zero, then keep Limit rows when Limit is non-zero.
   */
  function FindMatchingMedia(rows: seq<Media>, o: JSONOptions, orderBy: OrderBy, scanOk: bool)
    : (r: Result<seq<Media>, QueryError>)
    ensures r.Ok? <==> o.limit >= 0 && o.offset >= 0 && scanOk
    ensures o.limit < 0 || o.offset < 0 ==> r == Err(NegativePaging)
    ensures r.Ok? && o.limit > 0 ==> |r.value| <= o.limit
  {
    if o.limit < 0 || o.offset < 0 then Err(NegativePaging)
    else if !scanOk then Err(BackendFailed)
    else Ok(Take(Skip(Ordered(rows, o, orderBy), o.offset), o.limit))
  }

  function Min(a: int, b: int): (m: int) {
    if a <= b then a else b
  }

  /**
   * The result is one window of the ordered selection: it starts at Offset
   * (clamped to the end) and holds Limit rows, or all remaining rows when
   * Limit is 0.
   */
  lemma PageIsWindow(rows: seq<Media>, o: JSONOptions, orderBy: OrderBy)
    requires o.limit >= 0 && o.offset >= 0
    ensures var s := Ordered(rows, o, orderBy);
      var start := Min(o.offset, |s|);
      var end := if o.limit == 0 then |s| else Min(o.offset + o.limit, |s|);
      FindMatchingMedia(rows, o, orderBy, true) == Ok(s[start..end])
  {
    var s := Ordered(rows, o, orderBy);
    var start := Min(o.offset, |s|);
    var skipped := Skip(s, o.offset);
    assert skipped == s[start..];
    if o.limit != 0 && o.limit < |skipped| {
      assert skipped[..o.limit] == s[start..start + o.limit];
    } else {
      assert o.limit != 0 ==> Min(o.offset + o.limit, |s|) == |s|;
      assert Take(skipped, o.limit) == skipped == s[start..|s|];
    }
  }

  /**
   * Limit 0 imposes no cap: everything selected past the offset is returned,
   * in particular every selected row when Offset is 0 too.
   */
  lemma {:induction false} ZeroLimitReturnsAllPastOffset(rows: seq<Media>, o: JSONOptions, orderBy: OrderBy)
    requires Reorders(orderBy)
    requires o.limit == 0 && o.offset >= 0
    ensures var n := |Where(rows, o)|;
      var r := FindMatchingMedia(rows, o, orderBy, true);
      r.Ok? && |r.value| == (if o.offset >= n then 0 else n - o.offset)
  {
    OrderedLength(rows, o, orderBy);
  }

  /** An offset at or past the number of selected rows yields an empty page, not an error. */
  lemma {:induction false} OffsetPastEndIsEmpty(rows: seq<Media>, o: JSONOptions, orderBy: OrderBy)
    requires Reorders(orderBy)
    requires o.limit >= 0 && o.offset >= |Where(rows, o)|
    ensures FindMatchingMedia(rows, o, orderBy, true) == Ok([])
  {
    OrderedLength(rows, o, orderBy);
  }

  lemma {:induction false} OrderedLength(rows: seq<Media>, o: JSONOptions, orderBy: OrderBy)
    requires Reorders(orderBy)
    ensures |Ordered(rows, o, orderBy)| == |Where(rows, o)|
    ensures multiset(Ordered(rows, o, orderBy)) == multiset(Where(rows, o))
  {
    var kept := Where(rows, o);
    if o.sort != "" {
      assert multiset(orderBy(o.sort, o.order, kept)) == multiset(kept);
      assert |multiset(orderBy(o.sort, o.order, kept))| == |multiset(kept)|;
    }
  }

  /** Where reads only the Search, Tags and ID options. */
  lemma {:induction false} WhereReadsOnlyFilters(rows: seq<Media>, o: JSONOptions, p: JSONOptions)
    requires o.search == p.search && o.tags == p.tags && o.id == p.id
    ensures Where(rows, o) == Where(rows, p)
    decreases |rows|
  {
    if rows != [] {
      WhereReadsOnlyFilters(rows[1..], o, p);
      assert Matches(rows[0], o) == Matches(rows[0], p);
    }
  }

  /** With Sort empty neither Order nor the backend's ordering has any effect. */
  lemma OrderIgnoredWithoutSort(rows: seq<Media>, o: JSONOptions, order: string,
                                 f: OrderBy, g: OrderBy, scanOk: bool)
    requires o.sort == ""
    ensures FindMatchingMedia(rows, o, f, scanOk) == FindMatchingMedia(rows, o.(order := order), g, scanOk)
  {
    WhereReadsOnlyFilters(rows, o, o.(order := order));
  }

  /** The Type option is never consulted. */
  lemma TypeOptionIgnored(rows: seq<Media>, o: JSONOptions, t: string, orderBy: OrderBy, scanOk: bool)
    ensures FindMatchingMedia(rows, o, orderBy, scanOk)
         == FindMatchingMedia(rows, o.(mediaType := t), orderBy, scanOk)
  {
    WhereReadsOnlyFilters(rows, o, o.(mediaType := t));
  }

  /**
   * Every returned row is a row of the table that passes all active
   * filters: its title contains Search, it has a tag named exactly Tags,
   * and its id is ID.
   */
  lemma {:induction false} ResultsPassFilters(rows: seq<Media>, o: JSONOptions, orderBy: OrderBy, scanOk: bool, m: Media)
    requires Reorders(orderBy)
    requires FindMatchingMedia(rows, o, orderBy, scanOk).Ok?
    requires m in FindMatchingMedia(rows, o, orderBy, scanOk).value
    ensures m in rows
    ensures o.search != "" ==> IsSubstring(m.title, o.search)
    ensures o.tags != "" ==> exists t :: t in m.tags && t.name == o.tags
    ensures o.id != "" ==> m.id == o.id
  {
    var s := Ordered(rows, o, orderBy);
    OrderedLength(rows, o, orderBy);
    PageIsWindow(rows, o, orderBy);
    var start := Min(o.offset, |s|);
    var end := if o.limit == 0 then |s| else Min(o.offset + o.limit, |s|);
    var k :| 0 <= k < |s[start..end]| && s[start..end][k] == m;
    assert m in multiset(s);
    assert m in Where(rows, o);
  }

  /** Without paging, every row that passes the filters is returned. */
  lemma {:induction false} EveryMatchReturnedWithoutPaging(rows: seq<Media>, o: JSONOptions, orderBy: OrderBy, m: Media)
    requires Reorders(orderBy)
    requires o.limit == 0 && o.offset == 0
    requires m in rows && Matches(m, o)
    ensures FindMatchingMedia(rows, o, orderBy, true).Ok?
    ensures m in FindMatchingMedia(rows, o, orderBy, true).value
  {
    OrderedLength(rows, o, orderBy);
    assert m in multiset(Where(rows, o));
  }

  /**
   * The Tags option is compared with tag names as one string: "a,b" selects
   * neither a row tagged "a" nor a row tagged "b", while "a" selects it.
   */
  lemma TagsOptionIsNotSplit(o: JSONOptions, m: Media)
    requires o.search == "" && o.id == ""
    requires m.tags == [Tag("t1", m.id, "a"), Tag("t2", m.id, "b")]
    ensures !Matches(m, o.(tags := "a,b"))
    ensures Matches(m, o.(tags := "a"))
  {
    assert m.tags[0] in m.tags;
  }

  // ---------------------------------------------------------------------
  // The store: the media and tags tables and the files on disk

  datatype DbError =
    | NotFound   // sql.ErrNoRows
    | DbFailed   // any other database error, a primary-key clash included

  /** The whole state the core reads and writes. */
  datatype World = World(files: set<string>, dirs: set<string>, media: map<string, Media>, tags: seq<Tag>)

  /** The columns Save writes: relations such as Tags are not part of the row. */
  function Row(m: Media): (r: Media) {
    m.(tags := [])
  }

  /** Every row is stored under its own id and carries no tags of its own. */
  ghost predicate Keyed(table: map<string, Media>) {
    forall k :: k in table ==> table[k].id == k && table[k].tags == []
  }

  /** The outcome of Media.Save: the receiver afterwards, the table afterwards, the error. */
  datatype Saved = Saved(media: Media, table: map<string, Media>, err: Option<DbError>)

  /**
   * Media.Save: an empty ID is replaced by `newId` and the row inserted
   * (failing on a clash); otherwise an UPDATE ... WHERE id = ID, which
   * changes nothing, and reports no error, when no row has that id.
   */
  function SaveSpec(table: map<string, Media>, m: Media, newId: Uuid, dbOk: bool): (r: Saved)
    ensures r.media.id != "" && (m.id != "" ==> r.media == m)
    ensures r.err.Some? ==> r.table == table
    ensures r.table.Keys <= table.Keys + {r.media.id}
    ensures r.err.None? && r.media.id in r.table ==> r.table[r.media.id] == Row(r.media)
    ensures forall k :: k in table && k != r.media.id ==> k in r.table && r.table[k] == table[k]
  {
    if m.id == "" then
      var ins := m.(id := newId);
      if dbOk && newId !in table then Saved(ins, table[newId := Row(ins)], None)
      else Saved(ins, table, Some(DbFailed))
    else if !dbOk then Saved(m, table, Some(DbFailed))
    else Saved(m, if m.id in table then table[m.id := Row(m)] else table, None)
  }

  /** Save with an empty ID gives the record a fresh non-empty ID and inserts exactly that row. */
  lemma SaveInsertsWhenIdEmpty(table: map<string, Media>, m: Media, newId: Uuid, dbOk: bool)
    requires m.id == ""
    ensures var s := SaveSpec(table, m, newId, dbOk);
      s.media == m.(id := newId) && s.media.id != ""
      && (s.err == None <==> dbOk && newId !in table)
      && (s.err == None ==> s.table == table[newId := Row(s.media)])
      && (s.err != None ==> s.table == table)
  {
  }

  /**
   * Save with an ID keeps the ID, never inserts, replaces the row with that
   * id when there is one, and silently changes nothing when there is none.
   */
  lemma SaveUpdatesWhenIdSet(table: map<string, Media>, m: Media, newId: Uuid, dbOk: bool)
    requires m.id != ""
    ensures var s := SaveSpec(table, m, newId, dbOk);
      s.media == m && s.table.Keys == table.Keys
      && (s.err == None <==> dbOk)
      && (s.err == None && m.id in table ==> s.table == table[m.id := Row(m)])
      && (m.id !in table ==> s.table == table)
  {
  }

  /** Save keeps every row stored under its own id. */
  lemma SaveKeepsTableKeyed(table: map<string, Media>, m: Media, newId: Uuid, dbOk: bool)
    requires Keyed(table)
    ensures Keyed(SaveSpec(table, m, newId, dbOk).table)
  {
  }

  /** The tags of media `id`, in table order. */
  function TagsOf(tags: seq<Tag>, id: string): (r: seq<Tag>)
    ensures forall t :: t in r <==> t in tags && t.mediaId == id
    decreases |tags|
  {
    if tags == [] then []
    else
      var rest := TagsOf(tags[1..], id);
      assert forall t :: t in tags <==> t == tags[0] || t in tags[1..];
      if tags[0].mediaId == id then [tags[0]] + rest else rest
  }

  /**
   * FindMediaByID: the row with that id, with its tags loaded, or
   * sql.ErrNoRows when there is none.
   */
  function FindMediaByID(w: World, id: string, dbOk: bool): (r: Result<Media, DbError>)
    requires Keyed(w.media)
    ensures !dbOk ==> r == Err(DbFailed)
    ensures dbOk ==> (r.Ok? <==> id in w.media)
    ensures r.Ok? ==> Row(r.value) == w.media[id] && r.value.id == id
    ensures r.Ok? ==> forall t :: t in r.value.tags <==> t in w.tags && t.mediaId == id
  {
    if !dbOk then Err(DbFailed)
    else if id !in w.media then Err(NotFound)
    else Ok(w.media[id].(tags := TagsOf(w.tags, id)))
  }

  /** The record SaveMedia builds for `fileName`. */
  function SaveMediaRecord(fileName: string, id: Uuid): (m: Media) {
    Media(id, fileName, fileName, "", "/media/" + fileName, "", "", [])
  }

  /**
   * The record SaveMedia builds already has an ID, so Save takes its update
   * branch: on a table without that id nothing is inserted.
   */
  lemma SaveMediaRecordIsNeverInserted(table: map<string, Media>, fileName: string, id: Uuid, newId: Uuid)
    requires id !in table
    ensures SaveSpec(table, SaveMediaRecord(fileName, id), newId, true) == Saved(SaveMediaRecord(fileName, id), table, None)
  {
  }

  /** SaveMedia's record points below assets/ while the bytes go below static/. */
  lemma SaveMediaURLDiffersFromWrittenPath(fileName: string, id: Uuid, site: string)
    ensures SaveMediaRecord(fileName, id).GetFileURL(site) == site + "assets/media/" + fileName
  {
  }

  /** Why SaveMedia failed: the record was not saved, or the bytes were not written. */
  datatype SaveMediaError = RecordNotSaved(cause: DbError) | FileNotWritten

  class Store {
    var media: map<string, Media>   // the media table: column values keyed by id
    var tags: seq<Tag>              // the tags table
    var files: set<string>          // paths of the regular files on disk
    var dirs: set<string>           // directories created so far

    ghost predicate Valid()
      reads this
    {
      Keyed(media)
    }

    function State(): (w: World)
      reads this
    {
      World(files, dirs, media, tags)
    }

    /** A store holding the tables, files and directories of `w`. */
    constructor (w: World)
      requires Keyed(w.media)
      ensures Valid() && State() == w
    {
      files, dirs, media, tags := w.files, w.dirs, w.media, w.tags;
    }

    /** Media.Save: returns the receiver as Save leaves it and the error. */
    method Save(m: Media, newId: Uuid, dbOk: bool) returns (saved: Media, err: Option<DbError>)
      requires Valid()
      modifies this`media
      ensures Valid()
      ensures Saved(saved, media, err) == SaveSpec(old(media), m, newId, dbOk)
    {
      saved := m;
      if saved.id == "" {
        saved := saved.(id := newId);
        if dbOk && newId !in media {
          media := media[newId := Row(saved)];
          err := None;
        } else {
          err := Some(DbFailed);
        }
      } else {
        if dbOk {
          if saved.id in media {
            media := media[saved.id := Row(saved)];
          }
          err := None;
        } else {
          err := Some(DbFailed);
        }
      }
    }

    /** os.MkdirAll: on success the directory exists afterwards. */
    method MkdirAll(path: string, ok: bool) returns (made: bool)
      modifies this`dirs
      ensures made == ok
      ensures dirs == if ok then old(dirs) + {path} else old(dirs)
    {
      if ok {
        dirs := dirs + {path};
      }
      made := ok;
    }

    /** os.Create: on success an empty file exists at `path`, created or truncated. */
    method Create(path: string, ok: bool) returns (created: bool)
      modifies this`files
      ensures created == ok
      ensures files == if ok then old(files) + {path} else old(files)
    {
      if ok {
        files := files + {path};
      }
      created := ok;
    }

    /** os.Remove of a file; its error is never looked at by the core. */
    method Remove(path: string)
      modifies this`files
      ensures files == old(files) - {path}
    {
      files := files - {path};
    }

    /**
     * os.WriteFile: open with O_CREATE|O_TRUNC, then write. Once the open
     * succeeds the file exists, emptied, whether or not the write then does.
     */
    method WriteFile(path: string, openOk: bool, writeOk: bool) returns (written: bool)
      modifies this`files
      ensures written == (openOk && writeOk)
      ensures files == if openOk then old(files) + {path} else old(files)
    {
      if !openOk {
        return false;
      }
      files := files + {path};
      written := writeOk;
    }

    /**
     * SaveMedia: build the record, save it, and only then write the bytes to
     * static/media/<fileName>. A failed Save writes no file; a failed write
     * leaves whatever Save did to the table, and a file once the open inside
     * os.WriteFile succeeded.
     */
    method SaveMedia(file: seq<byte>, fileName: string, id: Uuid, dbOk: bool, openOk: bool, writeOk: bool)
      returns (err: Option<SaveMediaError>)
      requires Valid()
      modifies this`media, this`files
      ensures Valid()
      ensures var s := SaveSpec(old(media), SaveMediaRecord(fileName, id), id, dbOk);
        media == s.table
        && (s.err != None ==> err == Some(RecordNotSaved(s.err.value)) && files == old(files))
        && (s.err == None ==>
              (err == None <==> openOk && writeOk)
              && files == if openOk then old(files) + {"static/media/" + fileName} else old(files))
    {
      var record := SaveMediaRecord(fileName, id);
      var saved, saveErr := Save(record, id, dbOk);
      if saveErr != None {
        return Some(RecordNotSaved(saveErr.value));
      }
      var written := WriteFile("static/media/" + fileName, openOk, writeOk);
      err := if written then None else Some(FileNotWritten);
    }
  }
}
