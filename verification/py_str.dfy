/** The few Python builtins the script manager relies on, stated over
    `string` (a `seq<char>`): `str(int)`, `str.lower`, `str.isspace`,
    `str.rstrip`/`str.strip`, `str.split(" ")`, `str.rfind`,
    `str.ljust`/`str.rjust`/`str.center` and `list.index`.
    Each comes with the property that pins it down, and the decimal
    rendering comes with a parser as its inverse. */
module PyStr {

  /** The two exceptions the core can raise. */
  datatype PyError = ValueError | IndexError

  /** A value, or the exception that replaced it. */
  datatype Result<T> = Ok(value: T) | Err(error: PyError)

  datatype Option<T> = None | Some(value: T)

  function Max(a: int, b: int): int { if a < b then b else a }

  // ---------------------------------------------------------------------
  // str(int) and its inverse

  predicate IsDigit(c: char) { '0' <= c <= '9' }

  predicate AllDigits(s: string) { forall i :: 0 <= i < |s| ==> IsDigit(s[i]) }

  function DigitChar(d: nat): (c: char)
    requires d < 10
    ensures IsDigit(c) && c as int - '0' as int == d
  {
    ('0' as int + d) as char
  }

  /** Decimal digits of `n`, most significant first, without leading zeros. */
  function NatToDecimal(n: nat): (s: string)
    ensures |s| > 0 && AllDigits(s)
    ensures s[0] == '0' ==> n == 0 && s == "0"
    decreases n
  {
    if n < 10 then [DigitChar(n)] else NatToDecimal(n / 10) + [DigitChar(n % 10)]
  }

  /** Python's `str(n)` for an integer: a minus sign for negatives, and
      no leading zero except in "0" itself. */
  function IntToDecimal(n: int): (s: string)
    ensures |s| > 0 && (s[0] == '-' || IsDigit(s[0]))
    ensures s[0] == '-' <==> n < 0
    ensures s[0] == '0' ==> s == "0"
    ensures n < 0 ==> |s| >= 2 && IsDigit(s[1]) && s[1] != '0'
  {
    if n < 0 then "-" + NatToDecimal(-n) else NatToDecimal(n)
  }

  /** `int(str(n)) == n`: the rendering reads back as the number. */
  lemma IntToDecimalRoundTrip(n: int)
    ensures ParseDecimal(IntToDecimal(n)) == Some(n)
  {
    var s := IntToDecimal(n);
    if n < 0 {
      NatToDecimalRoundTrip(-n);
      assert s[1..] == NatToDecimal(-n);
    } else {
      NatToDecimalRoundTrip(n);
    }
  }

  /** The value of a string of decimal digits. */
  function DigitsValue(s: string): nat
    requires AllDigits(s)
  {
    if s == [] then 0 else DigitsValue(s[..|s| - 1]) * 10 + (s[|s| - 1] as int - '0' as int)
  }

  /** Reads back an optionally negative decimal integer; the partner of `IntToDecimal`. */
  function ParseDecimal(s: string): (r: Option<int>)
    ensures r.Some? ==> |s| > 0 && (s[0] == '-' || IsDigit(s[0]))
  {
    if |s| > 1 && s[0] == '-' && AllDigits(s[1..]) then Some(-(DigitsValue(s[1..]) as int))
    else if |s| > 0 && AllDigits(s) then Some(DigitsValue(s))
    else None
  }

  lemma {:induction false} NatToDecimalRoundTrip(n: nat)
    ensures DigitsValue(NatToDecimal(n)) == n
    decreases n
  {
    if n >= 10 {
      var s := NatToDecimal(n);
      NatToDecimalRoundTrip(n / 10);
      assert s[..|s| - 1] == NatToDecimal(n / 10);
    }
  }

  /** Different integers are rendered differently. */
  lemma IntToDecimalInjective(a: int, b: int)
    ensures IntToDecimal(a) == IntToDecimal(b) ==> a == b
  {
    IntToDecimalRoundTrip(a);
    IntToDecimalRoundTrip(b);
  }

  // ---------------------------------------------------------------------
  // str.lower, for the characters whose lowercase form is an ASCII letter

  /** Lowercases the ASCII capitals and the Kelvin sign U+212A, whose
      lowercase form is the ASCII letter k; every other character is kept. */
  function LowerChar(c: char): char
  {
    if 'A' <= c <= 'Z' then (c as int - 'A' as int + 'a' as int) as char
    else if c == '\U{212A}' then 'k'
    else c
  }

  function Lower(s: string): (r: string)
    ensures |r| == |s|
    ensures forall i :: 0 <= i < |s| ==> r[i] == LowerChar(s[i])
  {
    if s == [] then [] else [LowerChar(s[0])] + Lower(s[1..])
  }

  /** Lowercasing twice is lowercasing once. */
  lemma {:induction false} LowerIdempotent(s: string)
    ensures Lower(Lower(s)) == Lower(s)
  {
    if s != [] {
      LowerIdempotent(s[1..]);
      assert Lower(s)[1..] == Lower(s[1..]);
    }
  }

  // ---------------------------------------------------------------------
  // str.isspace, str.rstrip(), str.lstrip(), str.strip()

  /** Exactly the characters for which Python's `str.isspace` holds. */
  predicate IsSpace(c: char)
  {
    var k := c as int;
    (9 <= k <= 13) || (28 <= k <= 32) || k == 0x85 || k == 0xA0 || k == 0x1680
    || (0x2000 <= k <= 0x200A) || k == 0x2028 || k == 0x2029 || k == 0x202F
    || k == 0x205F || k == 0x3000
  }

  predicate AllSpace(s: string) { forall i :: 0 <= i < |s| ==> IsSpace(s[i]) }

  /** `s.rstrip()`: drops trailing whitespace (see `RStripSpec`). */
  function RStrip(s: string): (r: string)
    ensures |r| <= |s|
  {
    if s == [] || !IsSpace(s[|s| - 1]) then s else RStrip(s[..|s| - 1])
  }

  /** What `rstrip` keeps is the longest prefix that does not end in
      whitespace: everything after it is whitespace. */
  lemma {:induction false} RStripSpec(s: string)
    ensures var r := RStrip(s);
      && r == s[..|r|]
      && AllSpace(s[|r|..])
      && (r == [] || !IsSpace(r[|r| - 1]))
  {
    if s != [] && IsSpace(s[|s| - 1]) {
      var t := s[..|s| - 1];
      RStripSpec(t);
      var r := RStrip(t);
      assert t[..|r|] == s[..|r|];
      var tail, ttail := s[|r|..], t[|r|..];
      forall j | 0 <= j < |tail|
        ensures IsSpace(tail[j])
      {
        if j < |ttail| {
          assert tail[j] == s[|r| + j] == ttail[j];
        }
      }
    }
  }

  /** `s.lstrip()`: drops leading whitespace (see `LStripSpec`). */
  function LStrip(s: string): (r: string)
    ensures |r| <= |s|
  {
    if s == [] || !IsSpace(s[0]) then s else LStrip(s[1..])
  }

  /** What `lstrip` keeps is the longest suffix that does not start with
      whitespace: everything before it is whitespace. */
  lemma {:induction false} LStripSpec(s: string)
    ensures var r := LStrip(s);
      && r == s[|s| - |r|..]
      && AllSpace(s[..|s| - |r|])
      && (r == [] || !IsSpace(r[0]))
  {
    if s != [] && IsSpace(s[0]) {
      var t := s[1..];
      LStripSpec(t);
      var r := LStrip(t);
      assert t[|t| - |r|..] == s[|s| - |r|..];
      assert forall i :: 1 <= i < |s| - |r| ==> t[..|t| - |r|][i - 1] == s[i];
      assert forall i :: 0 <= i < |s| - |r| ==> s[..|s| - |r|][i] == s[i];
    }
  }

  /** `s.strip()`: neither starts nor ends with whitespace. */
  function Strip(s: string): (r: string)
    ensures |r| <= |s|
    ensures r == [] || (!IsSpace(r[0]) && !IsSpace(r[|r| - 1]))
  {
    var t := RStrip(s);
    RStripSpec(s);
    LStripSpec(t);
    LStrip(t)
  }

  /** `not line.strip()` holds exactly of the lines made of whitespace only. */
  lemma StripEmptyIffAllSpace(s: string)
    ensures Strip(s) == [] <==> AllSpace(s)
  {
    var t := RStrip(s);
    RStripSpec(s);
    LStripSpec(t);
    assert forall i :: |t| <= i < |s| ==> s[|t|..][i - |t|] == s[i];
    assert t != [] ==> t[|t| - 1] == s[|t| - 1];
  }

  // ---------------------------------------------------------------------
  // str.split(sep) with an explicit one-character separator

  /** Inverse of `Split`: the parts glued back with the separator. */
  function Join(parts: seq<string>, sep: char): string
    requires |parts| >= 1
  {
    if |parts| == 1 then parts[0] else parts[0] + [sep] + Join(parts[1..], sep)
  }

  /** `s.split(sep)`: every occurrence of `sep` cuts, empty parts are
      kept, so there are two parts or more exactly when `sep` occurs. */
  function Split(s: string, sep: char): (parts: seq<string>)
    ensures |parts| >= 1
    ensures |parts| >= 2 <==> sep in s
  {
    if s == [] then [""]
    else
      var rest := Split(s[1..], sep);
      if s[0] == sep then [""] + rest
      else [[s[0]] + rest[0]] + rest[1..]
  }

  /** No part holds the separator, and joining the parts with it gives
      back the string: `sep.join(s.split(sep)) == s`. */
  lemma {:induction false} SplitJoin(s: string, sep: char)
    ensures Join(Split(s, sep), sep) == s
  {
    if s != [] {
      var rest := Split(s[1..], sep);
      SplitJoin(s[1..], sep);
      var parts := Split(s, sep);
      if s[0] == sep {
        assert parts[1..] == rest;
      } else {
        assert |parts| == 1 ==> Join(parts, sep) == [s[0]] + Join(rest, sep);
        assert |parts| > 1 ==> parts[1..] == rest[1..] && Join(parts, sep) == [s[0]] + Join(rest, sep);
      }
      assert s == [s[0]] + s[1..];
    }
  }

  /** No part of a split holds the separator. */
  lemma {:induction false} SplitPartsLackSep(s: string, sep: char)
    ensures forall k :: 0 <= k < |Split(s, sep)| ==> sep !in Split(s, sep)[k]
  {
    if s != [] {
      var rest := Split(s[1..], sep);
      SplitPartsLackSep(s[1..], sep);
      var parts := Split(s, sep);
      if s[0] == sep {
        assert forall k :: 1 <= k < |parts| ==> parts[k] == rest[k - 1];
      } else {
        assert forall k :: 1 <= k < |parts| ==> parts[k] == rest[k];
      }
    }
  }

  /** A string without the separator splits into itself alone. */
  lemma SplitWithoutSep(s: string, sep: char)
    requires sep !in s
    ensures Split(s, sep) == [s]
  {
    SplitJoin(s, sep);
  }

  /** Splitting at the first separator: the text before it is the first
      part, and the rest splits on its own. */
  lemma {:induction false} SplitAtFirst(a: string, b: string, sep: char)
    requires sep !in a
    ensures Split(a + [sep] + b, sep) == [a] + Split(b, sep)
  {
    var s := a + [sep] + b;
    if a == [] {
      assert s[1..] == b;
    } else {
      assert s[1..] == a[1..] + [sep] + b;
      SplitAtFirst(a[1..], b, sep);
      assert [a[0]] + a[1..] == a;
    }
  }

  /** The first two parts of a split sit at the front of the string, each
      followed by a separator or by the end of the string. */
  lemma SplitFirstTwo(s: string, sep: char)
    requires sep in s
    ensures var p := Split(s, sep);
      var i := |p[0]|;
      var j := i + 1 + |p[1]|;
      && |p| >= 2
      && j <= |s|
      && s[..i] == p[0] && s[i] == sep
      && s[i + 1..j] == p[1]
      && (j == |s| || s[j] == sep)
  {
    var p := Split(s, sep);
    SplitJoin(s, sep);
    var rest := JoinFirstTwo(p, sep);
    SliceOfConcat3(p[0], [sep], p[1], rest);
  }

  /** Unfolds `Join` twice, naming what follows the second part. */
  lemma JoinFirstTwo(p: seq<string>, sep: char) returns (rest: string)
    requires |p| >= 2
    ensures Join(p, sep) == p[0] + [sep] + p[1] + rest
    ensures rest == [] || rest[0] == sep
  {
    var q := p[1..];
    assert q[0] == p[1];
    rest := if |q| == 1 then [] else [sep] + Join(q[1..], sep);
  }

  /** The first part of a split ends at the first separator. */
  lemma SplitFirstIsIndex(s: string, sep: char)
    requires sep in s
    ensures |Split(s, sep)[0]| == IndexOf(s, sep).value
  {
    var p0 := Split(s, sep)[0];
    var n := |p0|;
    var i := IndexOf(s, sep).value;
    SplitFirstTwo(s, sep);
    assert forall k :: 0 <= k < n ==> s[k] == p0[k];
    assert forall k :: 0 <= k < i ==> s[k] == s[..i][k];
  }

  /** The second part of a split runs from just after the first separator
      up to the next separator or the end, and holds no separator. */
  lemma SplitSecondPart(s: string, sep: char)
    requires sep in s
    ensures var p := Split(s, sep);
      var i := IndexOf(s, sep).value;
      var j := i + 1 + |p[1]|;
      && |p| >= 2 && j <= |s|
      && s[i + 1..j] == p[1] && sep !in p[1]
      && (j == |s| || s[j] == sep)
  {
    SplitFirstTwo(s, sep);
    SplitFirstIsIndex(s, sep);
    SplitPartsLackSep(s, sep);
  }

  /** `rstrip` applied to a slice: what it keeps is the front of the slice,
      and what it drops is whitespace. */
  lemma RStripWithin(s: string, lo: nat, hi: nat)
    requires lo <= hi <= |s|
    ensures var r := RStrip(s[lo..hi]);
      && lo + |r| <= hi
      && s[lo..lo + |r|] == r
      && AllSpace(s[lo + |r|..hi])
  {
    var t := s[lo..hi];
    var r := RStrip(t);
    RStripSpec(t);
    SliceOfSlice(s, lo, hi, 0, |r|);
    SliceOfSlice(s, lo, hi, |r|, |t|);
  }

  /** A slice of a slice is a slice. */
  lemma SliceOfSlice(s: string, i: nat, j: nat, a: nat, b: nat)
    requires i <= j <= |s| && a <= b <= j - i
    ensures s[i..j][a..b] == s[i + a..i + b]
  {
    var t := s[i..j][a..b];
    assert |t| == b - a;
    assert forall k :: 0 <= k < b - a ==> t[k] == s[i + a + k];
  }

  /** The pieces of a six-part concatenation sit one after the other. */
  lemma SliceOfConcat6(a: string, b: string, c: string, d: string, e: string, f: string)
    ensures var s := a + b + c + d + e + f;
      var i1, i2, i3 := |a|, |a| + |b|, |a| + |b| + |c|;
      var i4, i5 := i3 + |d|, i3 + |d| + |e|;
      && |s| == i5 + |f|
      && s[..i1] == a && s[i1..i2] == b && s[i2..i3] == c
      && s[i3..i4] == d && s[i4..i5] == e && s[i5..] == f
  {
    var s := a + b + c + d + e + f;
    var x := a + b + c;
    SliceOfConcat3(a, b, c, []);
    assert x + [] == x;
    SliceOfConcat3(x, d, e, f);
    SliceOfSlice(s, 0, |x|, 0, |a|);
    SliceOfSlice(s, 0, |x|, |a|, |a| + |b|);
    SliceOfSlice(s, 0, |x|, |a| + |b|, |x|);
  }

  lemma SliceOfConcat3(a: string, b: string, c: string, d: string)
    ensures var s := a + b + c + d;
      && s[..|a|] == a
      && s[|a|..|a| + |b|] == b
      && s[|a| + |b|..|a| + |b| + |c|] == c
      && s[|a| + |b| + |c|..] == d
  {
  }

  // ---------------------------------------------------------------------
  // str.rfind(c) and list.index(x)

  /** `s.rfind(c)`: the last index of `c`, or -1. */
  function RFind(s: string, c: char): (i: int)
    ensures -1 <= i < |s|
    ensures i >= 0 ==> s[i] == c
    ensures forall k :: i < k < |s| ==> s[k] != c
  {
    if s == [] then -1 else if s[|s| - 1] == c then |s| - 1 else RFind(s[..|s| - 1], c)
  }

  /** `xs.index(x)`: the first position of `x`; `None` where Python raises ValueError. */
  function IndexOf<T(==)>(xs: seq<T>, x: T): (r: Option<nat>)
    ensures r.None? <==> x !in xs
    ensures r.Some? ==> r.value < |xs| && xs[r.value] == x && x !in xs[..r.value]
  {
    if xs == [] then None
    else if xs[0] == x then Some(0)
    else
      match IndexOf(xs[1..], x)
      case None => None
      case Some(i) =>
        assert xs[..i + 1] == [xs[0]] + xs[1..][..i];
        Some(i + 1)
  }

  // ---------------------------------------------------------------------
  // str.ljust, str.rjust, str.center

  function Repeat(c: char, n: nat): (r: string)
    ensures |r| == n && forall i :: 0 <= i < n ==> r[i] == c
  {
    if n == 0 then [] else [c] + Repeat(c, n - 1)
  }

  /** `s.ljust(width, fill)`: `s` first, then fill up to `width`; never truncates. */
  function LJust(s: string, width: int, fill: char): (r: string)
    ensures |r| == Max(|s|, width)
    ensures r[..|s|] == s
    ensures forall i :: |s| <= i < |r| ==> r[i] == fill
  {
    if |s| >= width then s else s + Repeat(fill, width - |s|)
  }

  /** `s.rjust(width, fill)`: fill up to `width`, then `s`; never truncates. */
  function RJust(s: string, width: int, fill: char): (r: string)
    ensures |r| == Max(|s|, width)
  {
    if |s| >= width then s else Repeat(fill, width - |s|) + s
  }

  /** A right-justified string is fill characters followed by the string. */
  lemma RJustContents(s: string, width: int, fill: char)
    ensures var r := RJust(s, width, fill);
      && r == Repeat(fill, |r| - |s|) + s
      && forall i :: 0 <= i < |r| - |s| ==> r[i] == fill
  {
    var r := RJust(s, width, fill);
    assert |s| >= width ==> Repeat(fill, 0) + s == s;
  }

  /** Padding CPython's `str.center` puts on the left: half the margin,
      plus one when both the margin and the width are odd. */
  function CenterLeft(len: nat, width: int): nat
    requires len < width
  {
    var marg := width - len;
    marg / 2 + (if marg % 2 == 1 && width % 2 == 1 then 1 else 0)
  }

  /** `s.center(width, fill)`: `s` framed by fill up to `width`, the two
      sides differing by at most one; never truncates. */
  function Center(s: string, width: int, fill: char): (r: string)
    ensures |r| == Max(|s|, width)
    ensures |s| >= width ==> r == s
    ensures |s| < width ==>
      var left := CenterLeft(|s|, width);
      var right := width - |s| - left;
      && 0 <= right && (left == right || left == right + 1 || left + 1 == right)
      && (forall i :: 0 <= i < |s| ==> r[left + i] == s[i])
      && (forall i :: 0 <= i < left ==> r[i] == fill)
      && (forall i :: left + |s| <= i < |r| ==> r[i] == fill)
  {
    if |s| >= width then s
    else
      var left := CenterLeft(|s|, width);
      Repeat(fill, left) + s + Repeat(fill, width - |s| - left)
  }

  /** Numbers below 1000 take at most three characters. */
  lemma DecimalWidth(n: nat)
    requires n < 1000
    ensures |IntToDecimal(n)| <= 3
  {
    if n >= 10 {
      assert NatToDecimal(n) == NatToDecimal(n / 10) + [DigitChar(n % 10)];
      if n >= 100 {
        assert NatToDecimal(n / 10) == NatToDecimal(n / 100) + [DigitChar(n / 10 % 10)];
      }
    }
  }

  /** Right-justifying with blanks and stripping them again gives back a
      string that does not itself start with whitespace. */
  lemma LStripRJust(s: string, width: int)
    requires s == [] || !IsSpace(s[0])
    ensures LStrip(RJust(s, width, ' ')) == s
  {
    var r := RJust(s, width, ' ');
    var t := LStrip(r);
    LStripSpec(r);
    assert s != [] ==> r[|r| - |s|] == s[0];
    assert t != [] ==> r[|r| - |t|] == t[0];
    assert |t| == |s|;
  }

  /** A number right-justified in a blank-padded field reads back as that number. */
  lemma RJustDecimalReadBack(n: int, width: int)
    ensures ParseDecimal(LStrip(RJust(IntToDecimal(n), width, ' '))) == Some(n)
  {
    LStripRJust(IntToDecimal(n), width);
    IntToDecimalRoundTrip(n);
  }
}
