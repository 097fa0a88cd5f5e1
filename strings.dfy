/**
  The string operations of Python that the pipeline relies on, on `seq<char>`:
  `str(n)`, `int(s)`, `in`, `split`, `join`, `replace`, `strip`, `startswith`,
  zero-padded formatting and the two `os.path` helpers used on URLs.
 */
module Strings {
  import opened Wrappers

  // ---------------------------------------------------------------------------
  // Decimal digits
  // ---------------------------------------------------------------------------

  predicate IsDigit(c: char) {
    '0' <= c <= '9'
  }

  predicate AllDigits(s: string) {
    forall i :: 0 <= i < |s| ==> IsDigit(s[i])
  }

  function DigitChar(d: nat): (c: char)
    requires d < 10
    ensures IsDigit(c)
  {
    ('0' as int + d) as char
  }

  function DigitValue(c: char): (d: nat)
    requires IsDigit(c)
    ensures d < 10
  {
    c as int - '0' as int
  }

  /** The number a non-empty string of digits denotes (leading zeros allowed). */
  function DigitsValue(s: string): nat
    requires AllDigits(s)
  {
    if s == [] then 0 else DigitsValue(s[..|s| - 1]) * 10 + DigitValue(s[|s| - 1])
  }

  /** Python's `str(n)` for a non-negative integer. */
  function NatToString(n: nat): (s: string)
    ensures |s| >= 1 && AllDigits(s)
  {
    if n < 10 then [DigitChar(n)] else NatToString(n / 10) + [DigitChar(n % 10)]
  }

  /** Python's `str(i)` for any integer. */
  function IntToString(i: int): (s: string)
    ensures |s| >= 1
    ensures forall k :: 0 <= k < |s| ==> IsDigit(s[k]) || s[k] == '-'
  {
    if i < 0 then "-" + NatToString(-i) else NatToString(i)
  }

  lemma {:induction false} NatToStringValue(n: nat)
    ensures DigitsValue(NatToString(n)) == n
  {
    var s := NatToString(n);
    if n >= 10 {
      NatToStringValue(n / 10);
      assert s[..|s| - 1] == NatToString(n / 10);
    }
  }

  /** At most two digits for a number below one hundred. */
  lemma NatToStringShort(n: nat)
    requires n < 100
    ensures |NatToString(n)| <= 2
  {
    if n >= 10 {
      assert NatToString(n) == NatToString(n / 10) + [DigitChar(n % 10)];
    }
  }

  lemma {:induction false} LeadingZeroValue(s: string)
    requires AllDigits(s)
    ensures AllDigits("0" + s) && DigitsValue("0" + s) == DigitsValue(s)
  {
    var t := "0" + s;
    if s != [] {
      assert t[..|t| - 1] == "0" + s[..|s| - 1];
      LeadingZeroValue(s[..|s| - 1]);
    }
  }

  // ---------------------------------------------------------------------------
  // Zero padding: Python's `f"{n:0{w}d}"` for n >= 0
  // ---------------------------------------------------------------------------

  function Zeros(k: nat): (z: string)
    ensures |z| == k && forall i :: 0 <= i < k ==> z[i] == '0'
  {
    if k == 0 then "" else "0" + Zeros(k - 1)
  }

  function ZeroPad(s: string, width: nat): string {
    if |s| >= width then s else Zeros(width - |s|) + s
  }

  /** `n` written in decimal, left-padded with zeros to at least `width` characters. */
  function PadNat(n: nat, width: nat): (s: string)
    ensures |s| >= width && |s| >= 1 && AllDigits(s)
  {
    ZeroPad(NatToString(n), width)
  }

  lemma {:induction false} ZerosValue(k: nat, s: string)
    requires AllDigits(s)
    ensures AllDigits(Zeros(k) + s) && DigitsValue(Zeros(k) + s) == DigitsValue(s)
  {
    if k > 0 {
      ZerosValue(k - 1, s);
      var t := Zeros(k - 1) + s;
      LeadingZeroValue(t);
      assert Zeros(k) + s == "0" + t;
    } else {
      assert Zeros(k) + s == s;
    }
  }

  /** Zero padding never changes the number a string denotes. */
  lemma PadNatValue(n: nat, width: nat)
    ensures DigitsValue(PadNat(n, width)) == n
  {
    NatToStringValue(n);
    if |NatToString(n)| < width {
      ZerosValue(width - |NatToString(n)|, NatToString(n));
    }
  }

  /** Distinct numbers give distinct padded names. */
  lemma PadNatInjective(m: nat, n: nat, width: nat)
    requires PadNat(m, width) == PadNat(n, width)
    ensures m == n
  {
    PadNatValue(m, width);
    PadNatValue(n, width);
  }

  // ---------------------------------------------------------------------------
  // Stripping characters from both ends: Python's `s.strip(chars)`
  // ---------------------------------------------------------------------------

  /** Python's default `strip()` set (the ASCII whitespace characters). */
  const Whitespace: set<char> := {' ', '\t', '\n', '\r', '\U{000B}', '\U{000C}'}

  function TrimLeft(s: string, cs: set<char>): string {
    if |s| > 0 && s[0] in cs then TrimLeft(s[1..], cs) else s
  }

  function TrimRight(s: string, cs: set<char>): string {
    if |s| > 0 && s[|s| - 1] in cs then TrimRight(s[..|s| - 1], cs) else s
  }

  /** `s.strip(chars)`: the longest middle part of `s` whose two ends are not in `cs`. */
  function Strip(s: string, cs: set<char>): string {
    TrimRight(TrimLeft(s, cs), cs)
  }

  lemma {:induction false} TrimLeftShape(s: string, cs: set<char>)
    ensures var r := TrimLeft(s, cs);
            |r| <= |s| && r == s[|s| - |r|..] && (r == [] || r[0] !in cs)
            && forall i :: 0 <= i < |s| - |r| ==> s[i] in cs
  {
    if |s| > 0 && s[0] in cs {
      var t := s[1..];
      TrimLeftShape(t, cs);
      var r := TrimLeft(s, cs);
      assert r == TrimLeft(t, cs);
      assert t[|t| - |r|..] == s[|s| - |r|..];
      forall i | 0 <= i < |s| - |r| ensures s[i] in cs {
        if i > 0 {
          assert s[i] == t[i - 1];
        }
      }
    }
  }

  lemma {:induction false} TrimRightShape(s: string, cs: set<char>)
    ensures var r := TrimRight(s, cs);
            |r| <= |s| && r == s[..|r|] && (r == [] || r[|r| - 1] !in cs)
            && forall i :: |r| <= i < |s| ==> s[i] in cs
  {
    if |s| > 0 && s[|s| - 1] in cs {
      TrimRightShape(s[..|s| - 1], cs);
      var r := TrimRight(s, cs);
      forall i | |r| <= i < |s| ensures s[i] in cs {
        if i < |s| - 1 {
          assert s[i] == s[..|s| - 1][i];
        }
      }
    }
  }

  /** What `strip` removed comes only from `cs`; what is left does not start or end with `cs`. */
  lemma StripShape(s: string, cs: set<char>) returns (k: nat)
    ensures k + |Strip(s, cs)| <= |s| && Strip(s, cs) == s[k..k + |Strip(s, cs)|]
    ensures forall i :: 0 <= i < k ==> s[i] in cs
    ensures forall i :: k + |Strip(s, cs)| <= i < |s| ==> s[i] in cs
    ensures Strip(s, cs) == [] || (Strip(s, cs)[0] !in cs && Strip(s, cs)[|Strip(s, cs)| - 1] !in cs)
  {
    var l := TrimLeft(s, cs);
    var r := TrimRight(l, cs);
    TrimLeftShape(s, cs);
    TrimRightShape(l, cs);
    k := |s| - |l|;
    assert r == s[k..k + |r|];
    forall i | k + |r| <= i < |s| ensures s[i] in cs {
      assert s[i] == l[i - k];
    }
    if r != [] {
      assert r[0] == l[0];
    }
  }

  lemma StripEnds(s: string, cs: set<char>)
    ensures Strip(s, cs) == [] || (Strip(s, cs)[0] !in cs && Strip(s, cs)[|Strip(s, cs)| - 1] !in cs)
  {
    var k := StripShape(s, cs);
  }

  lemma {:induction false} TrimLeftAll(s: string, cs: set<char>)
    requires forall i :: 0 <= i < |s| ==> s[i] in cs
    ensures TrimLeft(s, cs) == ""
  {
    if |s| > 0 {
      assert forall i :: 0 <= i < |s[1..]| ==> s[1..][i] == s[i + 1];
      TrimLeftAll(s[1..], cs);
    }
  }

  /** A string made only of characters of `cs` strips to nothing. */
  lemma StripAll(s: string, cs: set<char>)
    requires forall i :: 0 <= i < |s| ==> s[i] in cs
    ensures Strip(s, cs) == ""
  {
    TrimLeftAll(s, cs);
  }

  lemma StripNoEnds(s: string, cs: set<char>)
    requires s == [] || (s[0] !in cs && s[|s| - 1] !in cs)
    ensures Strip(s, cs) == s
  {
  }

  lemma StripChars(s: string, cs: set<char>, c: char)
    requires c !in s
    ensures c !in Strip(s, cs)
  {
    var k := StripShape(s, cs);
    var r := Strip(s, cs);
    forall i | 0 <= i < |r| ensures r[i] != c {
      assert r[i] == s[k + i];
    }
  }

  // ---------------------------------------------------------------------------
  // Python's int(s)
  // ---------------------------------------------------------------------------

  /**
    Python's `int(s)` on a string: surrounding whitespace is allowed, then an
    optional sign, then at least one decimal digit; anything else is a
    ValueError (`None` here).
   */
  function ParseInt(s: string): Option<int> {
    ParseDecimal(Strip(s, Whitespace))
  }

  /** An optional sign followed by at least one decimal digit. */
  function ParseDecimal(t: string): Option<int> {
    if |t| >= 2 && (t[0] == '-' || t[0] == '+') && AllDigits(t[1..]) then
      var v: int := DigitsValue(t[1..]);
      Some(if t[0] == '-' then -v else v)
    else if |t| >= 1 && AllDigits(t) then
      Some(DigitsValue(t))
    else
      None
  }

  lemma ParseIntOfString(i: int)
    ensures ParseInt(IntToString(i)) == Some(i)
  {
    var s := IntToString(i);
    assert s[0] !in Whitespace && s[|s| - 1] !in Whitespace;
    StripNoEnds(s, Whitespace);
    if i < 0 {
      NatToStringValue(-i);
      DecimalOfNegative(NatToString(-i));
    } else {
      NatToStringValue(i);
      DecimalOfDigits(s);
    }
  }

  lemma DecimalOfNegative(d: string)
    requires |d| >= 1 && AllDigits(d)
    ensures ParseDecimal("-" + d) == Some(-(DigitsValue(d) as int))
  {
    assert ("-" + d)[1..] == d;
  }

  lemma DecimalOfDigits(d: string)
    requires |d| >= 1 && AllDigits(d)
    ensures ParseDecimal(d) == Some(DigitsValue(d))
  {
    assert IsDigit(d[0]);
  }

  lemma ParseIntOfDigits(s: string)
    requires |s| >= 1 && AllDigits(s)
    ensures ParseInt(s) == Some(DigitsValue(s))
  {
    assert IsDigit(s[0]) && IsDigit(s[|s| - 1]);
    StripNoEnds(s, Whitespace);
    DecimalOfDigits(s);
  }

  /** Without a minus sign in the text, `int` gives a non-negative number. */
  lemma ParseIntNonNegative(s: string)
    requires '-' !in s
    requires ParseInt(s).Some?
    ensures ParseInt(s).value >= 0
  {
    StripChars(s, Whitespace, '-');
  }

  // ---------------------------------------------------------------------------
  // Substrings: `pat in s`, `s.find(pat)`
  // ---------------------------------------------------------------------------

  predicate OccursAt(s: string, pat: string, i: nat) {
    i + |pat| <= |s| && s[i..i + |pat|] == pat
  }

  /** Python's `s.find(pat)` for a non-empty pattern: the first occurrence, if any. */
  function Find(s: string, pat: string): (r: Option<nat>)
    requires |pat| > 0
    ensures r.Some? ==> OccursAt(s, pat, r.value)
    ensures r.Some? ==> forall j :: 0 <= j < r.value ==> !OccursAt(s, pat, j)
    ensures r.None? ==> forall j :: 0 <= j <= |s| ==> !OccursAt(s, pat, j)
    decreases |s|
  {
    if |s| < |pat| then None
    else if s[..|pat|] == pat then Some(0)
    else
      var rest := Find(s[1..], pat);
      assert !OccursAt(s, pat, 0) by {
        assert s[0..|pat|] == s[..|pat|];
      }
      assert forall j :: 1 <= j <= |s| ==> (OccursAt(s, pat, j) <==> OccursAt(s[1..], pat, j - 1)) by {
        forall j | 1 <= j <= |s| ensures OccursAt(s, pat, j) <==> OccursAt(s[1..], pat, j - 1) {
          if j + |pat| <= |s| {
            assert s[1..][j - 1..j - 1 + |pat|] == s[j..j + |pat|];
          }
        }
      }
      if rest.None? then None else Some(rest.value + 1)
  }

  /** Python's `pat in s` for a non-empty pattern. */
  predicate Contains(s: string, pat: string)
    requires |pat| > 0
  {
    Find(s, pat).Some?
  }

  lemma FindWithoutFirstChar(s: string, pat: string)
    requires |pat| > 0 && pat[0] !in s
    ensures Find(s, pat) == None
  {
  }

  lemma FindAfterPrefix(p: string, pat: string, rest: string)
    requires |pat| > 0 && pat[0] !in p
    ensures Find(p + pat + rest, pat) == Some(|p|)
  {
    var s := p + pat + rest;
    assert s[|p|..|p| + |pat|] == pat;
    assert OccursAt(s, pat, |p|);

  }

  predicate StartsWith(s: string, prefix: string) {
    |prefix| <= |s| && s[..|prefix|] == prefix
  }

  // ---------------------------------------------------------------------------
  // split, join, replace
  // ---------------------------------------------------------------------------

  /** Python's `s.split(sep)` for a non-empty separator. */
  function Split(s: string, sep: string): (parts: seq<string>)
    requires |sep| > 0
    ensures |parts| >= 1
    decreases |s|
  {
    match Find(s, sep)
    case None => [s]
    case Some(i) => [s[..i]] + Split(s[i + |sep|..], sep)
  }

  /** Python's `sep.join(parts)`. */
  function Join(parts: seq<string>, sep: string): string {
    if |parts| == 0 then ""
    else if |parts| == 1 then parts[0]
    else parts[0] + sep + Join(parts[1..], sep)
  }

  lemma SplitWithoutSep(s: string, sep: string)
    requires |sep| > 0 && sep[0] !in s
    ensures Split(s, sep) == [s]
  {
    FindWithoutFirstChar(s, sep);
  }

  /** Splitting a joined list gives the list back when no part holds the separator's first character. */
  lemma {:induction false} SplitJoin(parts: seq<string>, sep: string)
    requires |sep| > 0 && |parts| >= 1
    requires forall k :: 0 <= k < |parts| ==> sep[0] !in parts[k]
    ensures Split(Join(parts, sep), sep) == parts
  {
    if |parts| == 1 {
      SplitWithoutSep(parts[0], sep);
    } else {
      var rest := Join(parts[1..], sep);
      var s := parts[0] + sep + rest;
      FindAfterPrefix(parts[0], sep, rest);
      assert s[..|parts[0]|] == parts[0];
      assert s[|parts[0]| + |sep|..] == rest;
      SplitJoin(parts[1..], sep);
    }
  }

  /** Joining the parts of a split with the same separator gives the string back. */
  lemma {:induction false} JoinSplit(s: string, sep: string)
    requires |sep| > 0
    ensures Join(Split(s, sep), sep) == s
    decreases |s|
  {
    match Find(s, sep)
    case None =>
    case Some(i) =>
      var rest := s[i + |sep|..];
      var parts := Split(rest, sep);
      JoinSplit(rest, sep);
      assert Split(s, sep) == [s[..i]] + parts;
      assert ([s[..i]] + parts)[1..] == parts;
      assert Join([s[..i]] + parts, sep) == s[..i] + sep + Join(parts, sep);
      assert s[i..i + |sep|] == sep;
      assert s == s[..i] + s[i..i + |sep|] + rest;
  }

  /** A character absent from `s` is absent from every part of its split. */
  lemma {:induction false} SplitPartsAvoid(s: string, sep: string, c: char)
    requires |sep| > 0 && c !in s
    ensures forall k :: 0 <= k < |Split(s, sep)| ==> c !in Split(s, sep)[k]
    decreases |s|
  {
    match Find(s, sep)
    case None =>
    case Some(i) =>
      var rest := s[i + |sep|..];
      SplitPartsAvoid(rest, sep, c);
      assert forall j :: 0 <= j < i ==> s[..i][j] == s[j];
      assert Split(s, sep) == [s[..i]] + Split(rest, sep);
  }

  /** Splitting on a single character leaves that character in no part. */
  lemma {:induction false} SplitPartsNoSep(s: string, c: char)
    ensures forall k :: 0 <= k < |Split(s, [c])| ==> c !in Split(s, [c])[k]
    decreases |s|
  {
    match Find(s, [c])
    case None =>
      forall j | 0 <= j < |s| ensures s[j] != c {
        assert s[j..j + 1] == [s[j]];
        assert !OccursAt(s, [c], j);
      }
    case Some(i) =>
      var rest := s[i + 1..];
      SplitPartsNoSep(rest, c);
      forall j | 0 <= j < i ensures s[..i][j] != c {
        assert s[j..j + 1] == [s[j]];
        assert !OccursAt(s, [c], j);
      }
      assert Split(s, [c]) == [s[..i]] + Split(rest, [c]);
  }

  lemma JoinTwo(a: string, b: string, sep: string)
    ensures Join([a, b], sep) == a + sep + b
  {
    assert [a, b][1..] == [b];
  }

  lemma JoinThree(a: string, b: string, c: string, sep: string)
    ensures Join([a, b, c], sep) == a + sep + b + sep + c
  {
    assert [a, b, c][1..] == [b, c];
    JoinTwo(b, c, sep);
  }

  /** Splitting three separated fields that do not hold the separator. */
  lemma SplitThree(a: string, b: string, c: string, sep: char)
    requires sep !in a && sep !in b && sep !in c
    ensures Split(a + [sep] + b + [sep] + c, [sep]) == [a, b, c]
  {
    JoinThree(a, b, c, [sep]);
    SplitJoin([a, b, c], [sep]);
  }

  lemma DigitsAvoid(s: string, c: char)
    requires AllDigits(s) && !IsDigit(c)
    ensures c !in s
  {
  }

  /** Python's `s.replace(old, new)` for a non-empty `pat`: every non-overlapping occurrence, left to right. */
  function Replace(s: string, pat: string, rep: string): string
    requires |pat| > 0
  {
    Join(Split(s, pat), rep)
  }

  /** Replacing a pattern by itself changes nothing. */
  lemma ReplaceSelf(s: string, pat: string)
    requires |pat| > 0
    ensures Replace(s, pat, pat) == s
  {
    JoinSplit(s, pat);
  }

  function TotalLength(parts: seq<string>): nat {
    if parts == [] then 0 else |parts[0]| + TotalLength(parts[1..])
  }

  lemma {:induction false} JoinLength(parts: seq<string>, sep: string)
    requires |parts| >= 1
    ensures |Join(parts, sep)| == TotalLength(parts) + |sep| * (|parts| - 1)
  {
    if |parts| > 1 {
      JoinLength(parts[1..], sep);
    }
  }

  /**
    Each occurrence `replace` rewrites changes the length by `|rep| - |pat|`:
    the string is cut into `|Split(s, pat)|` parts around the occurrences.
   */
  lemma ReplaceLength(s: string, pat: string, rep: string)
    requires |pat| > 0
    ensures |Replace(s, pat, rep)| == |s| + (|rep| - |pat|) * (|Split(s, pat)| - 1)
  {
    var parts := Split(s, pat);
    var n := |parts| - 1;
    JoinSplit(s, pat);
    JoinLength(parts, pat);
    JoinLength(parts, rep);
    assert |s| == TotalLength(parts) + |pat| * n;
    assert |Replace(s, pat, rep)| == TotalLength(parts) + |rep| * n;
    MulSubDistrib(|rep|, |pat|, n);
  }

  lemma MulSubDistrib(x: int, y: int, n: int)
    ensures (x - y) * n == x * n - y * n
  {
  }

  lemma ReplaceAbsent(s: string, pat: string, rep: string)
    requires |pat| > 0 && pat[0] !in s
    ensures Replace(s, pat, rep) == s
  {
    SplitWithoutSep(s, pat);
  }

  // ---------------------------------------------------------------------------
  // Paths and URLs (`os.path.basename`, `os.path.join` on POSIX)
  // ---------------------------------------------------------------------------

  /** `os.path.basename(p)`: what follows the last '/'. */
  function BaseName(p: string): (r: string)
    ensures '/' !in r
    ensures |r| <= |p| && r == p[|p| - |r|..]
    ensures |r| < |p| ==> p[|p| - |r| - 1] == '/'
  {
    if p == [] then ""
    else if p[|p| - 1] == '/' then ""
    else BaseName(p[..|p| - 1]) + [p[|p| - 1]]
  }

  /** `os.path.join(dir, name)` for a relative `name`. */
  function PathJoin(dir: string, name: string): (r: string)
    ensures |r| >= |name| && r[|r| - |name|..] == name
  {
    if dir == [] || dir[|dir| - 1] == '/' then dir + name else dir + "/" + name
  }
}
