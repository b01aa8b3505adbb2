/**
 * handlers/public_json.go: parseJSONOptions turns the query string of
 * /data.json into JSONOptions, and publicDataJSONHandler runs the listing
 * query with whatever options that produced.
 */
module PublicJSON {
  import opened Wrappers
  import opened GoLib
  import opened Models

  /** url.Values: every query-string key with its values in order. */
  type Values = map<string, seq<string>>

  /** Values.Get: the first value given for `key`, or "" when there is none. */
  function Get(q: Values, key: string): (r: string)
    ensures key !in q || q[key] == [] ==> r == ""
    ensures r != "" ==> key in q && r in q[key]
  {
    if key in q && |q[key]| > 0 then q[key][0] else ""
  }

  /** The options parseJSONOptions starts from. */
  const Defaults: JSONOptions := JSONOptions(10, 0, "created_at", "desc", "", "", "", "")

  /** Which number failed to parse, with strconv's error. */
  datatype ParseError = BadLimit(cause: NumError) | BadOffset(cause: NumError)

  /** A string option: the parameter when it is non-empty, else the default. */
  function Override(param: string, default: string): (r: string) {
    if param != "" then param else default
  }

  /**
   * What parseJSONOptions returns. A bad limit returns the defaults; a bad
   * offset returns the defaults with the parsed limit; the string
   * parameters are read only when both numbers parsed.
   */
  function ParseOptions(q: Values): (r: (JSONOptions, Option<ParseError>))
    ensures r.0.sort != "" && r.0.order != ""
    ensures r.1.Some? ==> r.0 == Defaults.(limit := r.0.limit)
  {
    var limit := Get(q, "limit");
    var offset := Get(q, "offset");
    if limit != "" && Atoi(limit).Err? then
      (Defaults, Some(BadLimit(Atoi(limit).error)))
    else
      var l := if limit != "" then Atoi(limit).value else Defaults.limit;
      if offset != "" && Atoi(offset).Err? then
        (Defaults.(limit := l), Some(BadOffset(Atoi(offset).error)))
      else
        var off := if offset != "" then Atoi(offset).value else Defaults.offset;
        (JSONOptions(
           l, off,
           Override(Get(q, "sort"), Defaults.sort),
           Override(Get(q, "order"), Defaults.order),
           Override(Get(q, "search"), Defaults.search),
           Override(Get(q, "tags"), Defaults.tags),
           Override(Get(q, "type"), Defaults.mediaType),
           Override(Get(q, "id"), Defaults.id)),
         None)
  }

  /** parseJSONOptions: start from the defaults and overwrite one field at a time. */
  method ParseJSONOptions(q: Values) returns (options: JSONOptions, err: Option<ParseError>)
    ensures (options, err) == ParseOptions(q)
  {
    options := Defaults;
    var limit := Get(q, "limit");
    if limit != "" {
      var n := Atoi(limit);
      if n.Err? {
        return options, Some(BadLimit(n.error));
      }
      options := options.(limit := n.value);
    }
    var offset := Get(q, "offset");
    if offset != "" {
      var n := Atoi(offset);
      if n.Err? {
        return options, Some(BadOffset(n.error));
      }
      options := options.(offset := n.value);
    }
    var sort := Get(q, "sort");
    if sort != "" {
      options := options.(sort := sort);
    }
    var order := Get(q, "order");
    if order != "" {
      options := options.(order := order);
    }
    var search := Get(q, "search");
    if search != "" {
      options := options.(search := search);
    }
    var tags := Get(q, "tags");
    if tags != "" {
      options := options.(tags := tags);
    }
    var mime := Get(q, "type");
    if mime != "" {
      options := options.(mediaType := mime);
    }
    var id := Get(q, "id");
    if id != "" {
      options := options.(id := id);
    }
    return options, None;
  }

  /** With no parameters at all the options are the defaults and there is no error. */
  lemma EmptyQueryGivesDefaults(q: Values)
    requires forall key :: key in q ==> q[key] == []
    ensures ParseOptions(q) == (Defaults, None)
  {
  }

  /**
   * When parsing succeeds, each string option is its parameter exactly when
   * the parameter is non-empty, and keeps its default otherwise.
   */
  lemma StringOptionsOverrideDefaults(q: Values)
    requires ParseOptions(q).1 == None
    ensures var o := ParseOptions(q).0;
      (o.sort == if Get(q, "sort") != "" then Get(q, "sort") else "created_at")
      && (o.order == if Get(q, "order") != "" then Get(q, "order") else "desc")
      && (o.search == Get(q, "search"))
      && (o.tags == Get(q, "tags"))
      && (o.mediaType == Get(q, "type"))
      && (o.id == Get(q, "id"))
  {
  }

  /**
   * Parsing fails exactly when a non-empty limit or offset is not an
   * integer, and otherwise each number is its parameter's value or the
   * default.
   */
  lemma NumbersParsedOrRejected(q: Values)
    ensures var (o, err) := ParseOptions(q);
      var limit, offset := Get(q, "limit"), Get(q, "offset");
      (err == None <==> (limit == "" || Atoi(limit).Ok?) && (offset == "" || Atoi(offset).Ok?))
      && (err == None ==>
            o.limit == (if limit == "" then 10 else Atoi(limit).value)
            && o.offset == (if offset == "" then 0 else Atoi(offset).value))
  {
  }

  /** A bad limit returns the defaults unchanged; nothing after it is read. */
  lemma BadLimitReturnsDefaults(q: Values)
    requires Get(q, "limit") != "" && Atoi(Get(q, "limit")).Err?
    ensures ParseOptions(q).0 == Defaults
    ensures ParseOptions(q).1 == Some(BadLimit(Atoi(Get(q, "limit")).error))
  {
  }

  /**
   * A limit whose leading digits overflow 2^64 - 1 is reported as a range
   * error even when a non-digit follows them, and the defaults come back.
   */
  lemma {:induction false} OverflowingLimitIsRangeError(q: Values, run: string, rest: string)
    requires AllDigits(run) && DecimalValue(run) > MaxUint64
    requires rest == [] || !IsDigit(rest[0])
    requires Get(q, "limit") == run + rest
    ensures ParseOptions(q) == (Defaults, Some(BadLimit(ErrRange)))
  {
    assert run != [] && IsDigit((run + rest)[0]);
    OverflowIsRangeError("", run, rest);
    assert "" + run + rest == run + rest;
  }

  /** A bad offset returns the parsed limit and every other field at its default. */
  lemma BadOffsetKeepsOnlyLimit(q: Values)
    requires Get(q, "limit") == "" || Atoi(Get(q, "limit")).Ok?
    requires Get(q, "offset") != "" && Atoi(Get(q, "offset")).Err?
    ensures var limit := Get(q, "limit");
      ParseOptions(q).0 == Defaults.(limit := if limit == "" then 10 else Atoi(limit).value)
    ensures ParseOptions(q).1.Some? && ParseOptions(q).1.value.BadOffset?
  {
  }

  /** Any 64-bit integer written in decimal as the limit comes back as the Limit option. */
  lemma {:induction false} DecimalLimitRoundTrip(q: Values, n: int)
    requires MinInt64 <= n <= MaxInt64
    requires Get(q, "limit") == Itoa(n) && Get(q, "offset") == ""
    ensures ParseOptions(q).1 == None && ParseOptions(q).0.limit == n
  {
    AtoiItoa(n);
  }

  /** The response: the JSON-encoded rows, or a 500 with the query's error. */
  datatype Response = JSONBody(media: seq<Media>) | InternalServerError(cause: QueryError)

  function Respond(r: Result<seq<Media>, QueryError>): (resp: Response) {
    match r
    case Ok(media) => JSONBody(media)
    case Err(e) => InternalServerError(e)
  }

  /**
   * publicDataJSONHandler: the parse error is overwritten by the query's
   * error before anyone looks at it, so the query always runs with the
   * options parseJSONOptions returned.
   */
  method PublicDataJSON(q: Values, rows: seq<Media>, orderBy: OrderBy, scanOk: bool) returns (resp: Response)
    ensures resp == Respond(FindMatchingMedia(rows, ParseOptions(q).0, orderBy, scanOk))
  {
    var options, err := ParseJSONOptions(q);
    var media := FindMatchingMedia(rows, options, orderBy, scanOk);
    match media
    case Err(e) =>
      resp := InternalServerError(e);
    case Ok(list) =>
      resp := JSONBody(list);
  }

  /**
   * A malformed limit is not reported: the handler answers with the
   * default listing, at most ten rows ordered by created_at desc.
   */
  lemma BadLimitServesDefaultListing(q: Values, rows: seq<Media>, orderBy: OrderBy)
    requires Get(q, "limit") != "" && Atoi(Get(q, "limit")).Err?
    ensures Respond(FindMatchingMedia(rows, ParseOptions(q).0, orderBy, true))
         == JSONBody(Take(orderBy("created_at", "desc", Where(rows, Defaults)), 10))
    ensures |Take(orderBy("created_at", "desc", Where(rows, Defaults)), 10)| <= 10
  {
  }

  /**
   * An explicit limit=0 parses to Limit 0, which the query reads as "no
   * cap": with no offset every row that passes the filters is listed.
   */
  lemma {:induction false} ZeroLimitListsEveryMatch(q: Values, rows: seq<Media>, orderBy: OrderBy, m: Media)
    requires Reorders(orderBy)
    requires Get(q, "limit") == "0" && Get(q, "offset") == ""
    requires m in rows && Matches(m, ParseOptions(q).0)
    ensures ParseOptions(q).0.limit == 0
    ensures Respond(FindMatchingMedia(rows, ParseOptions(q).0, orderBy, true)).JSONBody?
    ensures m in Respond(FindMatchingMedia(rows, ParseOptions(q).0, orderBy, true)).media
  {
    assert Atoi("0") == Ok(0) by {
      assert Itoa(0) == "0";
      AtoiItoa(0);
    }
    EveryMatchReturnedWithoutPaging(rows, ParseOptions(q).0, orderBy, m);
  }
}
