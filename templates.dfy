/** handlers/server.go: the template helpers nl2br, add and static. */
module Templates {
  import opened Wrappers
  import opened GoLib

  // ---------------------------------------------------------------------
  // nl2br

  /** nl2br: strings.Replace(s, "\n", "<br>", -1), every newline replaced. */
  function Nl2br(s: string): (r: string)
    ensures |r| >= |s|
    decreases |s|
  {
    if s == [] then []
    else (if s[0] == '\n' then "<br>" else [s[0]]) + Nl2br(s[1..])
  }

  function CountNewlines(s: string): (n: nat)
    decreases |s|
  {
    if s == [] then 0 else (if s[0] == '\n' then 1 else 0) + CountNewlines(s[1..])
  }

  /** The output of nl2br has no newline left. */
  lemma {:induction false} Nl2brRemovesNewlines(s: string)
    ensures '\n' !in Nl2br(s)
    decreases |s|
  {
    if s != [] {
      Nl2brRemovesNewlines(s[1..]);
    }
  }

  /** Text without newlines passes through nl2br unchanged. */
  lemma {:induction false} Nl2brKeepsTextWithoutNewlines(s: string)
    requires '\n' !in s
    ensures Nl2br(s) == s
    decreases |s|
  {
    if s != [] {
      assert s[0] != '\n';
      Nl2brKeepsTextWithoutNewlines(s[1..]);
    }
  }

  /** Each newline grows by three characters ("<br>" for "\n"); nothing else changes length. */
  lemma {:induction false} Nl2brLength(s: string)
    ensures |Nl2br(s)| == |s| + 3 * CountNewlines(s)
    decreases |s|
  {
    if s != [] {
      Nl2brLength(s[1..]);
    }
  }

  // ---------------------------------------------------------------------
  // add

  const TwoTo64: int := 0x1_0000_0000_0000_0000

  /** A mathematical integer reduced to Go's 64-bit int by two's-complement wrap-around. */
  function WrapInt64(x: int): (r: int) {
    (x - MinInt64) % TwoTo64 + MinInt64
  }

  /** add: a + b on Go ints, which wraps around on overflow. */
  function Add(a: int, b: int): (r: int)
    requires MinInt64 <= a <= MaxInt64 && MinInt64 <= b <= MaxInt64
    ensures MinInt64 <= r <= MaxInt64
  {
    WrapInt64(a + b)
  }

  /**
   * add is a + b whenever the sum fits in 64 bits; otherwise it is the sum
   * shifted by 2^64 back into range.
   */
  lemma AddIsSumModulo64Bits(a: int, b: int)
    requires MinInt64 <= a <= MaxInt64 && MinInt64 <= b <= MaxInt64
    ensures MinInt64 <= a + b <= MaxInt64 ==> Add(a, b) == a + b
    ensures a + b > MaxInt64 ==> Add(a, b) == a + b - TwoTo64
    ensures a + b < MinInt64 ==> Add(a, b) == a + b + TwoTo64
  {
  }

  // ---------------------------------------------------------------------
  // static

  /**
   * os.Stat followed by ModTime().Format("20060102150405"): the formatted
   * modification time of the file at a path, or None when Stat fails.
   */
  type Stat = string -> Option<string>

  /** static: /assets/<name> with a ?v=<mtime> suffix when the file can be stat'ed. */
  function Static(filename: string, stat: Stat): (r: string)
    ensures HasPrefix(r, "/assets/")
  {
    var name := TrimPrefix(filename, "/");
    match stat("assets/" + name)
    case None => "/assets/" + name
    case Some(stamp) => "/assets/" + name + "?v=" + stamp
  }

  /**
   * static always starts with "/assets/" and the name with one leading '/'
   * removed at most; without a stat result it is exactly that.
   */
  lemma StaticStripsOneSlash(filename: string, stat: Stat)
    ensures var name := if HasPrefix(filename, "/") then filename[1..] else filename;
      HasPrefix(Static(filename, stat), "/assets/" + name)
      && (stat("assets/" + name) == None ==> Static(filename, stat) == "/assets/" + name)
      && (stat("assets/" + name).Some? ==>
            Static(filename, stat) == "/assets/" + name + "?v=" + stat("assets/" + name).value)
  {
    var name := TrimPrefix(filename, "/");
    assert HasPrefix(filename, "/") ==> name == filename[1..];
    assert ("/assets/" + name + "?v=")[..|"/assets/" + name|] == "/assets/" + name;
  }
}
