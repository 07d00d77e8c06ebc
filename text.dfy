/**
 * String and path helpers shared by every component: ASCII lower-casing, the
 * POSIX forms of `os.path.basename`, `os.path.join` and `os.path.splitext`,
 * and the decimal formatting behind `f"{n:02d}"`.
 */
module Text {

  type Path = string

  // ---------------------------------------------------------------- searching

  /** `s.rfind(c)`: the last index of `c` in `s`, or -1. */
  function RFind(s: string, c: char): (r: int)
    ensures -1 <= r < |s|
  {
    if |s| == 0 then -1
    else if s[|s| - 1] == c then |s| - 1
    else RFind(s[..|s| - 1], c)
  }

  /** `RFind` finds `c`, and no `c` comes after it; -1 means `c` does not occur. */
  lemma {:induction false} RFindLast(s: string, c: char)
    ensures RFind(s, c) >= 0 ==> s[RFind(s, c)] == c
    ensures forall j :: RFind(s, c) < j < |s| ==> s[j] != c
  {
    if |s| > 0 && s[|s| - 1] != c {
      var t := s[..|s| - 1];
      RFindLast(t, c);
      assert forall j :: 0 <= j < |t| ==> t[j] == s[j];
    }
  }

  /** `s.find(c)`: the first index of `c` in `s`, or -1. */
  function Find(s: string, c: char): (r: int)
    ensures -1 <= r < |s|
  {
    if |s| == 0 then -1
    else if s[0] == c then 0
    else var k := Find(s[1..], c); if k < 0 then -1 else k + 1
  }

  /** The first `c` after a stretch without `c` is found right there. */
  lemma {:induction false} FindAppended(x: string, c: char, t: string)
    requires c !in x
    ensures Find(x + [c] + t, c) == |x|
  {
    if |x| > 0 {
      assert (x + [c] + t)[1..] == x[1..] + [c] + t;
      FindAppended(x[1..], c, t);
    }
  }

  /** The part of `s` after the last `c` (all of `s` when `c` does not occur). */
  function AfterLast(s: string, c: char): string {
    s[RFind(s, c) + 1..]
  }

  lemma {:induction false} AfterLastAppended(x: string, c: char, t: string)
    requires c !in t
    ensures AfterLast(x + [c] + t, c) == t
  {
    var s := x + [c] + t;
    var r := RFind(s, c);
    RFindLast(s, c);
    assert s[|x|] == c;
    assert forall j :: |x| < j < |s| ==> s[j] == t[j - |x| - 1];
    assert r == |x|;
    assert s[r + 1..] == t;
  }

  // ------------------------------------------------------------- lower-casing

  function LowerChar(c: char): char {
    if 'A' <= c <= 'Z' then (c as int + 32) as char else c
  }

  /** `s.lower()`, restricted to ASCII letters. */
  function Lower(s: string): (r: string)
    ensures |r| == |s|
  {
    if |s| == 0 then [] else Lower(s[..|s| - 1]) + [LowerChar(s[|s| - 1])]
  }

  /** Each character is lower-cased on its own. */
  lemma {:induction false} LowerAt(s: string, i: nat)
    requires i < |s|
    ensures Lower(s)[i] == LowerChar(s[i])
  {
    if i < |s| - 1 {
      LowerAt(s[..|s| - 1], i);
    }
  }

  /** Lower-casing twice changes nothing more. */
  lemma {:induction false} LowerIdempotent(s: string)
    ensures Lower(Lower(s)) == Lower(s)
  {
    if |s| > 0 {
      var t := Lower(s);
      assert t[..|t| - 1] == Lower(s[..|s| - 1]);
      LowerIdempotent(s[..|s| - 1]);
    }
  }

  // -------------------------------------------------------------------- paths

  /** `posixpath.basename(p)`: everything after the last '/'. */
  function BaseName(p: Path): string {
    AfterLast(p, '/')
  }

  /** A base name holds no separator. */
  lemma BaseNameNoSlash(p: Path)
    ensures '/' !in BaseName(p)
  {
    RFindLast(p, '/');
    var r := RFind(p, '/');
    assert forall i :: 0 <= i < |BaseName(p)| ==> BaseName(p)[i] == p[r + 1 + i];
  }

  /** A character that is not in a path is not in its base name either. */
  lemma BaseNameWithout(p: Path, c: char)
    requires c !in p
    ensures c !in BaseName(p)
  {
    var r := RFind(p, '/');
    assert forall i :: 0 <= i < |BaseName(p)| ==> BaseName(p)[i] == p[r + 1 + i];
  }

  /** `posixpath.join(a, b)` for two components. */
  function Join(a: Path, b: string): Path {
    if |b| > 0 && b[0] == '/' then b
    else if |a| == 0 || a[|a| - 1] == '/' then a + b
    else a + "/" + b
  }

  /** Joining a relative, non-empty component always gives a different, longer path. */
  lemma JoinExtends(a: Path, b: string)
    requires |b| > 0 && b[0] != '/'
    ensures |Join(a, b)| > |a|
    ensures Join(a, b) != a
  {
  }

  /** Different relative components joined onto the same directory give different paths. */
  lemma JoinInjective(a: Path, b1: string, b2: string)
    requires b1 != b2
    requires |b1| > 0 && b1[0] != '/' && |b2| > 0 && b2[0] != '/'
    ensures Join(a, b1) != Join(a, b2)
  {
    var q := if |a| == 0 || a[|a| - 1] == '/' then a else a + "/";
    assert Join(a, b1) == q + b1 && Join(a, b2) == q + b2;
    assert (q + b1)[|q|..] == b1 && (q + b2)[|q|..] == b2;
  }

  /** The last component of `join(a, b)` is `b` whenever `b` has no separator. */
  lemma {:induction false} BaseNameOfJoin(a: Path, b: string)
    requires '/' !in b
    ensures BaseName(Join(a, b)) == b
  {
    var p := Join(a, b);
    if |a| == 0 {
      assert p == b;
      BaseNameOfSlashFree(b);
    } else {
      var q := if a[|a| - 1] == '/' then a else a + "/";
      assert p == q + b;
      assert q[|q| - 1] == '/';
      BaseNameAfterSlash(q, b);
    }
  }

  lemma BaseNameOfSlashFree(b: string)
    requires '/' !in b
    ensures BaseName(b) == b
  {
    RFindLast(b, '/');
    assert RFind(b, '/') == -1;
  }

  lemma {:induction false} BaseNameAfterSlash(q: string, b: string)
    requires |q| > 0 && q[|q| - 1] == '/' && '/' !in b
    ensures BaseName(q + b) == b
  {
    var s := q + b;
    var r := RFind(s, '/');
    RFindLast(s, '/');
    assert s[|q| - 1] == '/';
    assert forall j :: |q| <= j < |s| ==> s[j] == b[j - |q|];
    assert r == |q| - 1;
    assert s[r + 1..] == b;
  }

  // ---------------------------------------------------------- extensions

  /** Whether `s` consists of dots only (vacuously true of ""). */
  predicate AllDots(s: string) {
    |s| == 0 || (s[0] == '.' && AllDots(s[1..]))
  }

  /** Index of the dot that starts the extension of a file name, or -1 (leading dots do not count). */
  function ExtDot(name: string): (d: int)
    ensures -1 <= d < |name|
  {
    var k := RFind(name, '.');
    if k >= 0 && !AllDots(name[..k]) then k else -1
  }

  /** `os.path.splitext(name)[1]` for a file name without separators. */
  function NameExt(name: string): string {
    var d := ExtDot(name);
    if d >= 0 then name[d..] else ""
  }

  /** `os.path.splitext(name)[0]` for a file name without separators. */
  function NameStem(name: string): string {
    var d := ExtDot(name);
    if d >= 0 then name[..d] else name
  }

  /** `os.path.splitext(p)[1]`: the extension is looked for in the last component only. */
  function Ext(p: Path): string {
    NameExt(BaseName(p))
  }

  /** Stem and extension split a name without losing anything; an extension is empty or one dot and no other dot. */
  lemma SplitExtRoundTrip(name: string)
    ensures NameStem(name) + NameExt(name) == name
    ensures NameExt(name) == "" || (NameExt(name)[0] == '.' && '.' !in NameExt(name)[1..])
  {
    RFindLast(name, '.');
    var d := ExtDot(name);
    if d >= 0 {
      assert forall i :: 0 <= i < |name[d..][1..]| ==> name[d..][1..][i] == name[d + 1 + i];
    }
  }

  // --------------------------------------------------------- decimal numbers

  predicate IsDigit(c: char) {
    '0' <= c <= '9'
  }

  predicate AllDigits(s: string) {
    forall i :: 0 <= i < |s| ==> IsDigit(s[i])
  }

  function DigitChar(d: nat): char
    requires d < 10
  {
    ('0' as int + d) as char
  }

  /** `str(n)` for a natural number. */
  function Decimal(n: nat): (r: string)
    ensures |r| >= 1 && AllDigits(r)
    ensures n >= 10 ==> |r| >= 2
  {
    if n < 10 then [DigitChar(n)] else Decimal(n / 10) + [DigitChar(n % 10)]
  }

  /** `f"{n:02d}"`: decimal, zero-padded to at least two digits. */
  function Pad2(n: nat): (r: string)
    ensures |r| >= 2 && AllDigits(r)
  {
    if n < 10 then "0" + Decimal(n) else Decimal(n)
  }

  /** `int(s)` for a string of decimal digits. */
  function ParseDecimal(s: string): nat
    requires AllDigits(s)
  {
    if |s| == 0 then 0
    else ParseDecimal(s[..|s| - 1]) * 10 + (s[|s| - 1] as int - '0' as int)
  }

  lemma {:induction false} ParseDecimalInverse(n: nat)
    ensures ParseDecimal(Decimal(n)) == n
  {
    if n >= 10 {
      var s := Decimal(n);
      assert s[..|s| - 1] == Decimal(n / 10);
      ParseDecimalInverse(n / 10);
    }
  }

  lemma {:induction false} ParseLeadingZero(s: string)
    requires AllDigits(s)
    ensures ParseDecimal("0" + s) == ParseDecimal(s)
  {
    if |s| > 0 {
      var t := "0" + s;
      assert t[..|t| - 1] == "0" + s[..|s| - 1];
      ParseLeadingZero(s[..|s| - 1]);
    } else {
      assert ("0" + s)[..0] == [];
    }
  }

  /** Reading back a zero-padded counter gives the counter. */
  lemma Pad2Inverse(n: nat)
    ensures ParseDecimal(Pad2(n)) == n
  {
    ParseDecimalInverse(n);
    if n < 10 {
      ParseLeadingZero(Decimal(n));
    }
  }

  /** Distinct counters are formatted differently. */
  lemma Pad2Injective(a: nat, b: nat)
    requires a != b
    ensures Pad2(a) != Pad2(b)
  {
    Pad2Inverse(a);
    Pad2Inverse(b);
  }

  /** The first two counters of a run, as they appear in file names. */
  lemma Pad2Examples()
    ensures Pad2(1) == "01" && Pad2(2) == "02" && Pad2(10) == "10" && Pad2(123) == "123"
  {
  }

  /** `s[:n]`: at most the first `n` characters. */
  function Take(s: string, n: nat): (r: string)
    ensures |r| == if |s| <= n then |s| else n
    ensures r == s[..|r|]
  {
    if |s| <= n then s else s[..n]
  }
}
