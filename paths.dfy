/**
  Path strings as the pool uses them: joining a directory and a name, the
  decimal names of fresh files, and file-name extensions.

  The path library the pool calls is not part of this model; these are the
  plain string readings of its `Join`, `Ext` and `AddExt`, and of
  `fmt.Sprintf("%d", n)` for a non-negative `n`.
*/
module Paths {

  import opened Wrappers

  type Path = string

  const Separator: char := '/'

  /** `dir` joined with the single name `name` (no cleaning of `.` or `..`). */
  function Join(dir: Path, name: string): (p: Path)
    ensures Under(p, dir) && p[|dir| + 1..] == name
  {
    dir + [Separator] + name
  }

  /** `p` lies strictly below the directory `dir`. */
  predicate Under(p: Path, dir: Path)
  {
    |dir| < |p| && p[..|dir| + 1] == dir + [Separator]
  }

  /** A name usable as an extension: no dot and no separator in it. */
  predicate PlainName(s: string)
  {
    forall i :: 0 <= i < |s| ==> s[i] != '.' && s[i] != Separator
  }

  // ---------------------------------------------------------------- extensions

  /** The position of the dot that starts the extension of the last path
      element, if that element has a dot. */
  function ExtDot(p: Path): (r: Option<nat>)
    ensures r.Some? ==> r.value < |p| && p[r.value] == '.' && PlainName(p[r.value + 1..])
  {
    if |p| == 0 || p[|p| - 1] == Separator then None
    else if p[|p| - 1] == '.' then Some(|p| - 1)
    else
      var r := ExtDot(p[..|p| - 1]);
      assert r.Some? ==> p[r.value + 1..] == p[..|p| - 1][r.value + 1..] + [p[|p| - 1]];
      r
  }

  /** The extension of `p`, without its dot; empty when the last element has none. */
  function Ext(p: Path): (e: string)
    ensures PlainName(e)
    ensures |e| <= |p| && e == p[|p| - |e|..]
  {
    match ExtDot(p)
    case None => ""
    case Some(i) => p[i + 1..]
  }

  /** `f` with the extension `ext` appended after a dot. */
  function AddExt(f: Path, ext: string): (g: Path)
    ensures |g| == |f| + 1 + |ext| && g[..|f|] == f && g[|f|] == '.' && g[|f| + 1..] == ext
  {
    f + "." + ext
  }

  /** Appending characters that are neither dots nor separators does not move the extension dot. */
  lemma {:induction false} ExtDotOfPlainSuffix(q: Path, e: string)
    requires PlainName(e)
    ensures ExtDot(q + e) == ExtDot(q)
    decreases |e|
  {
    if e != [] {
      var e' := e[..|e| - 1];
      assert (q + e)[..|q + e| - 1] == q + e';
      ExtDotOfPlainSuffix(q, e');
    } else {
      assert q + e == q;
    }
  }

  /** The extension that `AddExt` appends is the one `Ext` reads back. */
  lemma ExtOfAddExt(f: Path, ext: string)
    requires PlainName(ext)
    ensures Ext(AddExt(f, ext)) == ext
  {
    assert AddExt(f, ext) == (f + ".") + ext;
    ExtDotOfPlainSuffix(f + ".", ext);
    assert ExtDot(f + ".") == Some(|f|);
  }

  /** A dotted extension is not read back whole: `Ext` sees only what follows
      the last dot. */
  lemma DottedExtNotReadBack()
    ensures AddExt("x", "tar.gz") == "x.tar.gz"
    ensures Ext(AddExt("x", "tar.gz")) == "gz" != "tar.gz"
  {
    assert ExtDot("x.tar.gz") == Some(5) by {
      assert "x.tar.gz"[..7] == "x.tar.g";
      assert "x.tar.g"[..6] == "x.tar.";
    }
  }

  // ---------------------------------------------------------- decimal names

  predicate IsDigits(s: string)
  {
    forall i :: 0 <= i < |s| ==> '0' <= s[i] <= '9'
  }

  function DigitChar(d: nat): (c: char)
    requires d < 10
    ensures '0' <= c <= '9' && c as int - '0' as int == d
  {
    ('0' as int + d) as char
  }

  /** The decimal rendering of `n`, as `fmt.Sprintf("%d", n)` writes it. */
  function Decimal(n: nat): (s: string)
    ensures |s| >= 1 && IsDigits(s)
    ensures s[0] == '0' ==> n == 0
  {
    if n < 10 then [DigitChar(n)] else Decimal(n / 10) + [DigitChar(n % 10)]
  }

  /** The number a string of digits denotes: the inverse of `Decimal`. */
  function ParseDecimal(s: string): nat
    requires IsDigits(s)
  {
    if s == [] then 0
    else 10 * ParseDecimal(s[..|s| - 1]) + (s[|s| - 1] as int - '0' as int)
  }

  lemma {:induction false} DecimalRoundTrip(n: nat)
    ensures ParseDecimal(Decimal(n)) == n
  {
    if n >= 10 {
      var s := Decimal(n);
      assert s[..|s| - 1] == Decimal(n / 10);
      DecimalRoundTrip(n / 10);
    }
  }

  /** Different numbers have different decimal names. */
  lemma DecimalInjective(m: nat, n: nat)
    requires Decimal(m) == Decimal(n)
    ensures m == n
  {
    DecimalRoundTrip(m);
    DecimalRoundTrip(n);
  }

  /** A decimal name is a plain name: it has no dot and no separator. */
  lemma DecimalIsPlain(n: nat)
    ensures PlainName(Decimal(n))
  {
  }

  /** Joining a directory with a name is injective in the name. */
  lemma JoinInjective(dir: Path, a: string, b: string)
    requires Join(dir, a) == Join(dir, b)
    ensures a == b
  {
    assert a == Join(dir, a)[|dir| + 1..];
    assert b == Join(dir, b)[|dir| + 1..];
  }

  /** A path whose last element is a decimal name has no extension. */
  lemma ExtOfDecimalName(dir: Path, n: nat)
    ensures Ext(Join(dir, Decimal(n))) == ""
  {
    DecimalIsPlain(n);
    assert Join(dir, Decimal(n)) == (dir + [Separator]) + Decimal(n);
    ExtDotOfPlainSuffix(dir + [Separator], Decimal(n));
  }
}
