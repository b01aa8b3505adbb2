/**
 * The library behaviour the core relies on: the Go calls strings.TrimPrefix,
 * filepath.Ext and strconv.Atoi, and the substring test that both the
 * SQL `LIKE '%...%'` filter and the unanchored regexp match come down to.
 */
module GoLib {
  import opened Wrappers

  /** One byte of a file or of a request body. */
  type byte = b: int | 0 <= b < 256

  // ---------------------------------------------------------------------
  // Substrings and prefixes

  /** `sub` occurs in `s` starting at index `i`. */
  ghost predicate OccursAt(s: string, sub: string, i: int) {
    0 <= i && i + |sub| <= |s| && s[i..i + |sub|] == sub
  }

  /** The declarative meaning of "`sub` is a substring of `s`". */
  ghost predicate IsSubstring(s: string, sub: string) {
    exists i :: OccursAt(s, sub, i)
  }

  /** `s` starts with `prefix` (the test inside strings.TrimPrefix). */
  predicate HasPrefix(s: string, prefix: string) {
    |prefix| <= |s| && s[..|prefix|] == prefix
  }

  /**
   * Substring containment, decided by a left-to-right scan of the start
   * positions: what `LIKE '%sub%'` and an unanchored match of a literal test.
   */
  function Contains(s: string, sub: string): (b: bool)
    ensures b <==> IsSubstring(s, sub)
    decreases |s|
  {
    if |s| < |sub| then
      assert forall i :: !OccursAt(s, sub, i);
      false
    else if HasPrefix(s, sub) then
      assert OccursAt(s, sub, 0);
      true
    else
      SubstringOfTail(s, sub);
      Contains(s[1..], sub)
  }

  /** Away from index 0, `sub` occurs in `s` exactly when it occurs in `s[1..]`. */
  lemma SubstringOfTail(s: string, sub: string)
    requires |s| >= |sub| && !HasPrefix(s, sub)
    ensures IsSubstring(s, sub) <==> IsSubstring(s[1..], sub)
  {
    assert !OccursAt(s, sub, 0);
    if IsSubstring(s, sub) {
      var i :| OccursAt(s, sub, i);
      TailSlice(s, i - 1, i - 1 + |sub|);
      assert OccursAt(s[1..], sub, i - 1);
    }
    if IsSubstring(s[1..], sub) {
      var i :| OccursAt(s[1..], sub, i);
      TailSlice(s, i, i + |sub|);
      assert OccursAt(s, sub, i + 1);
    }
  }

  lemma TailSlice(s: string, i: nat, j: nat)
    requires i <= j && j + 1 <= |s|
    ensures s[1..][i..j] == s[i + 1..j + 1]
  {
  }

  /** strings.TrimPrefix: removes `prefix` once, when `s` starts with it. */
  function TrimPrefix(s: string, prefix: string): (r: string)
    ensures HasPrefix(s, prefix) ==> prefix + r == s
    ensures !HasPrefix(s, prefix) ==> r == s
  {
    if HasPrefix(s, prefix) then
      assert s == s[..|prefix|] + s[|prefix|..];
      s[|prefix|..]
    else
      s
  }

  // ---------------------------------------------------------------------
  // filepath.Ext on a system whose path separator is '/'

  /**
   * The extension of `path`: the suffix starting at the last '.' of the final
   * path element, or "" when that element has no '.'.
   */
  function Ext(path: string): (r: string)
    ensures |r| <= |path|
    ensures r == [] || r[0] == '.'
    decreases |path|
  {
    if path == [] || path[|path| - 1] == '/' then []
    else if path[|path| - 1] == '.' then ['.']
    else
      var e := Ext(path[..|path| - 1]);
      if e == [] then [] else e + [path[|path| - 1]]
  }

  /**
   * Ext is a suffix of the path that is empty or starts with the final
   * element's last '.', and is empty only when that element has no '.'.
   */
  lemma ExtIsFinalDotSuffix(path: string)
    ensures var r := Ext(path);
      |r| <= |path| && r == path[|path| - |r|..]
      && (r == [] || r[0] == '.')
      && (forall k :: 0 < k < |r| ==> r[k] != '.' && r[k] != '/')
      && (r == [] ==> forall k :: LastElementStart(path) <= k < |path| ==> path[k] != '.')
  {
    ExtIsSuffix(path);
    ExtHasOneDot(path);
    ExtEmptyOnlyWithoutDot(path);
  }

  /** Ext is a suffix of the path. */
  lemma {:induction false} ExtIsSuffix(path: string)
    ensures Ext(path) == path[|path| - |Ext(path)|..]
    decreases |path|
  {
    if path != [] && path[|path| - 1] != '/' && path[|path| - 1] != '.' {
      var init := path[..|path| - 1];
      ExtIsSuffix(init);
      var e := Ext(init);
      if e != [] {
        assert Ext(path) == e + [path[|path| - 1]];
        assert path == init + [path[|path| - 1]];
        SnocSuffix(init, path[|path| - 1], |init| - |e|);
      }
    }
  }

  lemma SnocSuffix(init: string, c: char, j: nat)
    requires j <= |init|
    ensures (init + [c])[j..] == init[j..] + [c]
  {
  }

  /** After its leading '.', Ext holds neither '.' nor '/'. */
  lemma {:induction false} ExtHasOneDot(path: string)
    ensures forall k :: 0 < k < |Ext(path)| ==> Ext(path)[k] != '.' && Ext(path)[k] != '/'
    decreases |path|
  {
    if path != [] && path[|path| - 1] != '/' && path[|path| - 1] != '.' {
      var init := path[..|path| - 1];
      var c := path[|path| - 1];
      ExtHasOneDot(init);
      var e := Ext(init);
      if e != [] {
        assert Ext(path) == e + [c];
        forall k | 0 < k < |e| + 1
          ensures (e + [c])[k] != '.' && (e + [c])[k] != '/'
        {
          if k < |e| {
            assert (e + [c])[k] == e[k];
          }
        }
      }
    }
  }

  /** Ext is empty only when the final path element has no '.'. */
  lemma {:induction false} ExtEmptyOnlyWithoutDot(path: string)
    ensures Ext(path) == [] ==> forall k :: LastElementStart(path) <= k < |path| ==> path[k] != '.'
    decreases |path|
  {
    if path != [] && path[|path| - 1] != '/' && path[|path| - 1] != '.' {
      var init := path[..|path| - 1];
      ExtEmptyOnlyWithoutDot(init);
      assert LastElementStart(path) == LastElementStart(init);
      var e := Ext(init);
      if e != [] {
        assert Ext(path) == e + [path[|path| - 1]];
      }
    }
  }

  /** The index where the final path element of `path` begins (just after the last '/'). */
  function LastElementStart(path: string): (i: nat)
    ensures i <= |path|
    ensures i == 0 || path[i - 1] == '/'
    ensures forall k :: i <= k < |path| ==> path[k] != '/'
    decreases |path|
  {
    if path == [] then 0
    else if path[|path| - 1] == '/' then |path|
    else LastElementStart(path[..|path| - 1])
  }

  // ---------------------------------------------------------------------
  // strconv.Atoi on a 64-bit platform

  const MinInt64: int := -0x8000_0000_0000_0000
  const MaxInt64: int := 0x7fff_ffff_ffff_ffff

  /** The two kinds of *strconv.NumError that Atoi reports. */
  datatype NumError = ErrSyntax | ErrRange

  predicate IsDigit(c: char) {
    '0' <= c <= '9'
  }

  predicate AllDigits(s: string) {
    forall k :: 0 <= k < |s| ==> IsDigit(s[k])
  }

  /** The value of a run of decimal digits, most significant first. */
  function DecimalValue(ds: string): (v: nat)
    requires AllDigits(ds)
    ensures ds == [] ==> v == 0
    decreases |ds|
  {
    if ds == [] then 0
    else DecimalValue(ds[..|ds| - 1]) * 10 + (ds[|ds| - 1] as int - '0' as int)
  }

  /** The largest value strconv.ParseUint accumulates before it reports a range error. */
  const MaxUint64: int := 0xffff_ffff_ffff_ffff

  /** The length of the maximal run of decimal digits at the start of `s`. */
  function DigitRun(s: string): (n: nat)
    ensures n <= |s| && AllDigits(s[..n])
    ensures n < |s| ==> !IsDigit(s[n])
    decreases |s|
  {
    if s == [] || !IsDigit(s[0]) then 0
    else
      var n := 1 + DigitRun(s[1..]);
      assert s[..n] == [s[0]] + s[1..][..n - 1];
      n
  }

  /**
   * strconv.Atoi: an optional '+' or '-', then at least one decimal digit and
   * nothing else.
   */
  function Atoi(s: string): (r: Result<int, NumError>)
    ensures r.Ok? ==> MinInt64 <= r.value <= MaxInt64
    ensures r.Ok? ==> s != [] && IsDigit(s[|s| - 1])
    ensures r.Ok? && IsDigit(s[0]) ==> r.value >= 0
  {
    var signed := |s| > 0 && (s[0] == '+' || s[0] == '-');
    ParseDigits(signed && s[0] == '-', if signed then s[1..] else s)
  }

  /**
   * What Atoi does after the sign. The digits are read one at a time
   * (strconv.ParseUint), so a leading digit run worth more than 2^64 - 1 is a
   * range error even when a non-digit follows it; otherwise a non-digit, or no
   * digit at all, is a syntax error, and a value outside the 64-bit signed
   * range is a range error.
   */
  function ParseDigits(negative: bool, digits: string): (r: Result<int, NumError>)
    ensures r.Ok? ==> MinInt64 <= r.value <= MaxInt64
    ensures r.Ok? ==> digits != [] && AllDigits(digits)
    ensures r.Ok? ==> r.value == if negative then -(DecimalValue(digits) as int) else DecimalValue(digits)
  {
    var n := DigitRun(digits);
    if DecimalValue(digits[..n]) > MaxUint64 then
      Err(ErrRange)
    else if n == 0 || n < |digits| then
      Err(ErrSyntax)
    else
      assert digits[..n] == digits;
      var v: int := if negative then -(DecimalValue(digits) as int) else DecimalValue(digits);
      if v < MinInt64 || MaxInt64 < v then Err(ErrRange) else Ok(v)
  }

  /** The digit run of digits followed by nothing or by a non-digit is those digits. */
  lemma {:induction false} DigitRunOfDigits(run: string, rest: string)
    requires AllDigits(run)
    requires rest == [] || !IsDigit(rest[0])
    ensures DigitRun(run + rest) == |run|
    ensures (run + rest)[..|run|] == run
    decreases |run|
  {
    if run != [] {
      assert (run + rest)[1..] == run[1..] + rest;
      DigitRunOfDigits(run[1..], rest);
    }
  }

  /** `sign` is a sign Atoi strips, and what follows it does not start with another one. */
  predicate SignThen(sign: string, tail: string) {
    (sign == "" || sign == "+" || sign == "-")
    && (sign == "" && tail != [] ==> tail[0] != '+' && tail[0] != '-')
  }

  /** The part of `sign + tail` that Atoi reads as digits is `tail`. */
  lemma UnsignedPart(sign: string, tail: string)
    requires SignThen(sign, tail)
    ensures Atoi(sign + tail) == ParseDigits(sign == "-", tail)
  {
    if sign != "" {
      assert (sign + tail)[0] == sign[0];
      assert (sign + tail)[1..] == tail;
    } else {
      assert sign + tail == tail;
    }
  }

  /**
   * A leading digit run worth more than 2^64 - 1 is a range error whatever
   * follows it: the overflow is met before the first non-digit.
   */
  lemma OverflowIsRangeError(sign: string, run: string, rest: string)
    requires AllDigits(run) && DecimalValue(run) > MaxUint64
    requires rest == [] || !IsDigit(rest[0])
    requires SignThen(sign, run + rest)
    ensures Atoi(sign + run + rest) == Err(ErrRange)
  {
    var t := run + rest;
    assert sign + run + rest == sign + t;
    UnsignedPart(sign, t);
    DigitRunOfDigits(run, rest);
    assert DecimalValue(t[..DigitRun(t)]) > MaxUint64;
  }

  /**
   * Otherwise a string that is not a sign followed by digits alone is a syntax
   * error: a non-digit after a digit run that has not overflowed, or no digit
   * at all.
   */
  lemma NonDigitIsSyntaxError(sign: string, run: string, rest: string)
    requires AllDigits(run) && DecimalValue(run) <= MaxUint64
    requires rest == [] || !IsDigit(rest[0])
    requires run == [] || rest != []
    requires SignThen(sign, run + rest)
    ensures Atoi(sign + run + rest) == Err(ErrSyntax)
  {
    var t := run + rest;
    assert sign + run + rest == sign + t;
    UnsignedPart(sign, t);
    DigitRunOfDigits(run, rest);
    assert DecimalValue(t[..DigitRun(t)]) <= MaxUint64;
    assert DigitRun(t) == 0 || DigitRun(t) < |t|;
  }

  /** strconv.Itoa's digits for a non-negative value: the reference Atoi inverts. */
  function Digits(n: nat): (ds: string)
    ensures ds != [] && AllDigits(ds)
    decreases n
  {
    if n < 10 then ['0' + n as char]
    else Digits(n / 10) + ['0' + (n % 10) as char]
  }

  /** strconv.Itoa. */
  function Itoa(n: int): (s: string)
    ensures s != []
  {
    if n < 0 then "-" + Digits(-n) else Digits(n)
  }

  lemma {:induction false} DecimalValueOfDigits(n: nat)
    ensures DecimalValue(Digits(n)) == n
    decreases n
  {
    if n >= 10 {
      DecimalValueOfDigits(n / 10);
      var ds := Digits(n);
      assert ds[..|ds| - 1] == Digits(n / 10);
    }
  }

  /** Atoi accepts everything Itoa prints in the 64-bit range and gives the value back. */
  lemma {:induction false} AtoiItoa(n: int)
    requires MinInt64 <= n <= MaxInt64
    ensures Atoi(Itoa(n)) == Ok(n)
  {
    if n < 0 {
      DecimalValueOfDigits(-n);
      AtoiOfNegatedDigits(Digits(-n));
    } else {
      DecimalValueOfDigits(n);
      AtoiOfDigits(Digits(n));
    }
  }

  lemma AtoiOfDigits(ds: string)
    requires ds != [] && AllDigits(ds) && DecimalValue(ds) <= MaxInt64
    ensures Atoi(ds) == Ok(DecimalValue(ds))
  {
    assert IsDigit(ds[0]);
    UnsignedPart("", ds);
    assert ds + [] == ds;
    DigitRunOfDigits(ds, []);
  }

  lemma AtoiOfNegatedDigits(ds: string)
    requires ds != [] && AllDigits(ds) && DecimalValue(ds) <= -MinInt64
    ensures Atoi("-" + ds) == Ok(-(DecimalValue(ds) as int))
  {
    UnsignedPart("-", ds);
    assert ds + [] == ds;
    DigitRunOfDigits(ds, []);
  }
}
