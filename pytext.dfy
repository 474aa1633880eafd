/**
 * The pieces of Python's `str` / `bytes` behaviour that the framework relies on:
 * substring search, `split` / `rsplit`, `strip`, slices with negative bounds,
 * `int(text, base)`, `'%d'` and `'%x'` formatting, and the two text encodings
 * the wire code uses.
 */
module PyText {
  import opened Wrappers

  type byte = x: int | 0 <= x < 256

  const CR: byte := 13
  const LF: byte := 10
  const CRLF: seq<byte> := [13, 10]

  /** Concatenation of a sequence of sequences, left to right. */
  function Concat<T>(ss: seq<seq<T>>): seq<T>
  {
    if ss == [] then [] else Concat(ss[..|ss| - 1]) + ss[|ss| - 1]
  }

  lemma {:induction false} ConcatAppend<T>(ss: seq<seq<T>>, s: seq<T>)
    ensures Concat(ss + [s]) == Concat(ss) + s
  {
    assert (ss + [s])[..|ss|] == ss;
  }

  lemma {:induction false} ConcatFront<T>(ss: seq<seq<T>>)
    requires ss != []
    ensures Concat(ss) == ss[0] + Concat(ss[1..])
    decreases |ss|
  {
    var n := |ss|;
    if n == 1 {
      assert ss[..0] == [];
      assert ss[1..] == [];
    } else {
      var init := ss[..n - 1];
      var tail := ss[1..];
      ConcatFront(init);
      assert init[0] == ss[0];
      assert init[1..] == tail[..|tail| - 1];
      assert tail[|tail| - 1] == ss[n - 1];
      calc {
        Concat(ss);
        Concat(init) + ss[n - 1];
        (ss[0] + Concat(init[1..])) + ss[n - 1];
        ss[0] + (Concat(tail[..|tail| - 1]) + tail[|tail| - 1]);
        ss[0] + Concat(tail);
      }
    }
  }

  // ---------------------------------------------------------------- search

  /** `pat` occurs in `s` starting at index `i`. */
  predicate MatchAt<T(==)>(s: seq<T>, pat: seq<T>, i: int)
  {
    0 <= i && i + |pat| <= |s| && s[i..i + |pat|] == pat
  }

  /** First occurrence of `pat` in `s` at or after `i`. */
  function IndexFrom<T(==)>(s: seq<T>, pat: seq<T>, i: nat): (r: Option<nat>)
    decreases |s| - i
    ensures r.Some? ==> i <= r.value && MatchAt(s, pat, r.value)
  {
    if i + |pat| > |s| then None
    else if s[i..i + |pat|] == pat then Some(i)
    else IndexFrom(s, pat, i + 1)
  }

  /** `IndexFrom` finds the first occurrence, and finds none only when there is none. */
  lemma {:induction false} IndexFromFirst<T>(s: seq<T>, pat: seq<T>, i: nat)
    decreases |s| - i
    ensures IndexFrom(s, pat, i).Some? ==> forall j :: i <= j < IndexFrom(s, pat, i).value ==> !MatchAt(s, pat, j)
    ensures IndexFrom(s, pat, i).None? ==> forall j :: i <= j ==> !MatchAt(s, pat, j)
  {
    if i + |pat| <= |s| && s[i..i + |pat|] != pat {
      IndexFromFirst(s, pat, i + 1);
    }
  }

  /** Python's `s.index(pat)` / `s.find(pat)`: the first occurrence, if any. */
  function IndexOf<T(==)>(s: seq<T>, pat: seq<T>): (r: Option<nat>)
    ensures r.Some? ==> MatchAt(s, pat, r.value)
  {
    IndexFrom(s, pat, 0)
  }

  /** `IndexOf` is the first occurrence, and is absent only when `pat` does not occur. */
  lemma IndexOfFirst<T>(s: seq<T>, pat: seq<T>)
    ensures IndexOf(s, pat).Some? ==> forall j :: 0 <= j < IndexOf(s, pat).value ==> !MatchAt(s, pat, j)
    ensures IndexOf(s, pat).None? ==> forall j :: !MatchAt(s, pat, j)
  {
    IndexFromFirst(s, pat, 0);
  }

  /** Python's `pat in s` for strings and bytes. */
  predicate Contains<T(==)>(s: seq<T>, pat: seq<T>)
  {
    IndexOf(s, pat).Some?
  }

  /** A first occurrence found in `s` is still the first occurrence once more is appended. */
  lemma IndexOfExtend<T>(s: seq<T>, t: seq<T>, pat: seq<T>)
    requires IndexOf(s, pat).Some?
    ensures IndexOf(s + t, pat) == IndexOf(s, pat)
  {
    var i := IndexOf(s, pat).value;
    IndexOfFirst(s, pat);
    assert (s + t)[i..i + |pat|] == s[i..i + |pat|];
    forall j | 0 <= j < i
      ensures !MatchAt(s + t, pat, j)
    {
      if MatchAt(s + t, pat, j) {
        assert (s + t)[j..j + |pat|] == s[j..j + |pat|];
        assert MatchAt(s, pat, j);
      }
    }
    IndexOfAt(s + t, pat, i);
  }

  /** The first occurrence lies at `k` when nothing matches before it. */
  lemma IndexOfAt<T>(s: seq<T>, pat: seq<T>, k: nat)
    requires MatchAt(s, pat, k)
    requires forall j :: 0 <= j < k ==> !MatchAt(s, pat, j)
    ensures IndexOf(s, pat) == Some(k)
  {
    IndexOfFirst(s, pat);
  }

  /** No occurrence anywhere: `IndexOf` finds none. */
  lemma IndexOfNone<T>(s: seq<T>, pat: seq<T>)
    requires forall j :: 0 <= j ==> !MatchAt(s, pat, j)
    ensures IndexOf(s, pat) == None
  {
  }

  predicate StartsWith<T(==)>(s: seq<T>, p: seq<T>)
  {
    |p| <= |s| && s[..|p|] == p
  }

  lemma PrefixOfAppend<T>(a: seq<T>, b: seq<T>)
    ensures StartsWith(a + b, a)
  {
    assert (a + b)[..|a|] == a;
  }

  /** Python's `s.split(sep, 1)` when it yields two parts; `None` when `sep` is absent. */
  function SplitOnce<T(==)>(s: seq<T>, sep: seq<T>): (r: Option<(seq<T>, seq<T>)>)
    ensures r.None? <==> !Contains(s, sep)
    ensures r.Some? ==> s == r.value.0 + sep + r.value.1
  {
    match IndexOf(s, sep)
    case None => None
    case Some(i) =>
      assert s == s[..i] + sep + s[i + |sep|..];
      Some((s[..i], s[i + |sep|..]))
  }

  lemma SplitOnceAt<T>(s: seq<T>, sep: seq<T>, i: nat)
    requires IndexOf(s, sep) == Some(i)
    ensures i + |sep| <= |s| && SplitOnce(s, sep) == Some((s[..i], s[i + |sep|..]))
  {
  }

  /** Splitting at the first `c` of `a + [c] + b`, where `a` holds no `c`, gives back `a` and `b`. */
  lemma SplitOnceOf<T>(a: seq<T>, c: T, b: seq<T>)
    requires c !in a
    ensures SplitOnce(a + [c] + b, [c]) == Some((a, b))
  {
    var s := a + [c] + b;
    assert s[|a|..|a| + 1] == [c];
    forall j | 0 <= j < |a|
      ensures !MatchAt(s, [c], j)
    {
      assert s[j..j + 1] == [a[j]];
    }
    IndexOfAt(s, [c], |a|);
    assert s[..|a|] == a && s[|a| + 1..] == b;
  }

  /** The first part of `split(sep, 1)` does not contain the separator. */
  lemma SplitOnceFirst<T>(s: seq<T>, sep: seq<T>)
    requires |sep| > 0 && SplitOnce(s, sep).Some?
    ensures !Contains(SplitOnce(s, sep).value.0, sep)
  {
    var i := IndexOf(s, sep).value;
    IndexOfFirst(s, sep);
    forall j | 0 <= j
      ensures !MatchAt(s[..i], sep, j)
    {
      if MatchAt(s[..i], sep, j) {
        assert s[..i][j..j + |sep|] == s[j..j + |sep|];
        assert MatchAt(s, sep, j);
      }
    }
    IndexOfNone(s[..i], sep);
  }

  /** Index of the last `c` in `s`. */
  function LastIndexOf<T(==)>(s: seq<T>, c: T): (r: Option<nat>)
    ensures r.Some? ==> r.value < |s| && s[r.value] == c && forall j :: r.value < j < |s| ==> s[j] != c
    ensures r.None? ==> c !in s
  {
    if s == [] then None
    else if s[|s| - 1] == c then Some(|s| - 1)
    else LastIndexOf(s[..|s| - 1], c)
  }

  /** Python's `s.rsplit(c, 1)` when it yields two parts; `None` when `c` is absent. */
  function RSplitOnce<T(==)>(s: seq<T>, c: T): (r: Option<(seq<T>, seq<T>)>)
    ensures r.None? <==> c !in s
    ensures r.Some? ==> s == r.value.0 + [c] + r.value.1 && c !in r.value.1
  {
    match LastIndexOf(s, c)
    case None => None
    case Some(i) =>
      assert s == s[..i] + [c] + s[i + 1..];
      Some((s[..i], s[i + 1..]))
  }

  /** Python's `s.split(c)` for a one-element separator. */
  function SplitAll<T(==)>(s: seq<T>, c: T): (r: seq<seq<T>>)
    ensures |r| >= 1
    ensures c !in s ==> r == [s]
    ensures forall i :: 0 <= i < |r| ==> c !in r[i]
  {
    IndexOfFirst(s, [c]);
    match IndexOf(s, [c])
    case None =>
      assert forall j :: 0 <= j < |s| ==> s[j] != c by {
        forall j | 0 <= j < |s| ensures s[j] != c {
          assert s[j..j + 1] == [s[j]];
          assert !MatchAt(s, [c], j);
        }
      }
      [s]
    case Some(i) =>
      assert s[i..i + 1] == [c];
      assert s[i] == c;
      assert c !in s[..i] by {
        forall j | 0 <= j < i ensures s[..i][j] != c {
          assert s[j..j + 1] == [s[j]];
          assert !MatchAt(s, [c], j);
        }
      }
      [s[..i]] + SplitAll(s[i + 1..], c)
  }

  /** Python's `sep.join(parts)`. */
  function Join<T>(parts: seq<seq<T>>, sep: seq<T>): seq<T>
  {
    if parts == [] then []
    else if |parts| == 1 then parts[0]
    else parts[0] + sep + Join(parts[1..], sep)
  }

  /** Joining one more part adds the separator and the part. */
  lemma {:induction false} JoinAppend<T>(parts: seq<seq<T>>, x: seq<T>, sep: seq<T>)
    requires parts != []
    ensures Join(parts + [x], sep) == Join(parts, sep) + sep + x
    decreases |parts|
  {
    var ps := parts + [x];
    if |parts| == 1 {
      assert ps[1..] == [x];
    } else {
      assert ps[1..] == parts[1..] + [x];
      JoinAppend(parts[1..], x, sep);
    }
  }

  /** Python's `s.replace(a, b)` for single elements. */
  function ReplaceAll<T(==)>(s: seq<T>, a: T, b: T): (r: seq<T>)
    ensures |r| == |s|
    ensures forall i :: 0 <= i < |s| ==> r[i] == if s[i] == a then b else s[i]
  {
    seq(|s|, i requires 0 <= i < |s| => if s[i] == a then b else s[i])
  }

  // ---------------------------------------------------------------- slices

  function Min(a: int, b: int): int { if a < b then a else b }
  function Max(a: int, b: int): int { if a < b then b else a }

  /** Python's `s[:k]`, including negative `k`. */
  function SliceTo<T>(s: seq<T>, k: int): (r: seq<T>)
    ensures 0 <= k <= |s| ==> r == s[..k]
    ensures r <= s
  {
    if k >= 0 then s[..Min(k, |s|)] else s[..Max(0, |s| + k)]
  }

  /** `a` is a suffix of `b`. */
  predicate IsSuffix<T(==)>(a: seq<T>, b: seq<T>)
  {
    |a| <= |b| && a == b[|b| - |a|..]
  }

  /** Python's `s[k:]`, including negative `k`. */
  function SliceFrom<T(==)>(s: seq<T>, k: int): (r: seq<T>)
    ensures 0 <= k <= |s| ==> r == s[k..]
    ensures IsSuffix(r, s)
  {
    if k >= 0 then s[Min(k, |s|)..] else s[Max(0, |s| + k)..]
  }

  // ---------------------------------------------------------------- whitespace

  /** Python's `str.isspace()` for one character. */
  predicate IsSpace(c: char)
  {
    var n := c as int;
    (9 <= n <= 13) || (28 <= n <= 32) || n == 0x85 || n == 0xA0 || n == 0x1680
    || (0x2000 <= n <= 0x200A) || n == 0x2028 || n == 0x2029 || n == 0x202F
    || n == 0x205F || n == 0x3000
  }

  /** Python's `bytes.isspace()` for one byte (ASCII whitespace only). */
  predicate IsAsciiSpace(c: char)
  {
    c == ' ' || (9 <= c as int <= 13)
  }

  predicate Blank(c: char, unicode: bool)
  {
    if unicode then IsSpace(c) else IsAsciiSpace(c)
  }

  /** Python's `s.lstrip()`. */
  function LStrip(s: string, unicode: bool): (r: string)
    ensures IsSuffix(r, s)
  {
    if |s| > 0 && Blank(s[0], unicode) then LStrip(s[1..], unicode) else s
  }

  /** Python's `s.rstrip()`. */
  function RStrip(s: string, unicode: bool): (r: string)
    ensures r <= s
  {
    if |s| > 0 && Blank(s[|s| - 1], unicode) then RStrip(s[..|s| - 1], unicode) else s
  }

  /** Python's `s.strip()`: `unicode` selects str (true) or bytes (false) whitespace. */
  function Strip(s: string, unicode: bool): string
  {
    RStrip(LStrip(s, unicode), unicode)
  }

  /** `lstrip` removes exactly the leading run of whitespace. */
  lemma {:induction false} LStripSpec(s: string, unicode: bool)
    ensures var r := LStrip(s, unicode);
      (r != [] ==> !Blank(r[0], unicode)) && forall i :: 0 <= i < |s| - |r| ==> Blank(s[i], unicode)
  {
    if |s| > 0 && Blank(s[0], unicode) {
      var t := s[1..];
      LStripSpec(t, unicode);
      forall i | 0 <= i < |s| - |LStrip(t, unicode)|
        ensures Blank(s[i], unicode)
      {
        if i > 0 {
          assert s[i] == t[i - 1];
        }
      }
    }
  }

  /** `rstrip` removes exactly the trailing run of whitespace. */
  lemma {:induction false} RStripSpec(s: string, unicode: bool)
    ensures var r := RStrip(s, unicode);
      (r != [] ==> !Blank(r[|r| - 1], unicode)) && forall i :: |r| <= i < |s| ==> Blank(s[i], unicode)
  {
    if |s| > 0 && Blank(s[|s| - 1], unicode) {
      RStripSpec(s[..|s| - 1], unicode);
    }
  }

  /** The stripped text neither starts nor ends with whitespace. */
  lemma StripEnds(s: string, unicode: bool)
    ensures var r := Strip(s, unicode); r != [] ==> !Blank(r[0], unicode) && !Blank(r[|r| - 1], unicode)
  {
    var l := LStrip(s, unicode);
    LStripSpec(s, unicode);
    RStripSpec(l, unicode);
  }

  // ---------------------------------------------------------------- integers

  /** The value of one digit character in bases up to 36, or -1. */
  function DigitValue(c: char): int
  {
    if '0' <= c <= '9' then c as int - '0' as int
    else if 'a' <= c <= 'z' then c as int - 'a' as int + 10
    else if 'A' <= c <= 'Z' then c as int - 'A' as int + 10
    else -1
  }

  /** Every character of `s` is a digit of `base`. */
  predicate AllDigits(s: string, base: nat)
  {
    s == [] || (0 <= DigitValue(s[|s| - 1]) < base && AllDigits(s[..|s| - 1], base))
  }

  function DigitsValue(s: string, base: nat): nat
    requires AllDigits(s, base)
  {
    if s == [] then 0 else DigitsValue(s[..|s| - 1], base) * base + DigitValue(s[|s| - 1])
  }

  /** The text after an optional leading sign. */
  function Unsigned(t: string): (u: string)
    ensures |u| <= |t|
  {
    if t != [] && (t[0] == '-' || t[0] == '+') then t[1..] else t
  }

  /** For base 16, the text after an optional `0x` / `0X`. */
  function Unprefixed(u: string, base: nat): (v: string)
    ensures |v| <= |u|
  {
    if base == 16 && |u| >= 2 && u[0] == '0' && (u[1] == 'x' || u[1] == 'X') then u[2..] else u
  }

  /** `int(t, base)` on text that has already been stripped of surrounding whitespace. */
  function ParseStripped(t: string, base: nat): (r: Option<int>)
    requires base == 10 || base == 16
    ensures r.Some? ==> t != []
  {
    var v := Unprefixed(Unsigned(t), base);
    if t == [] || v == [] || !AllDigits(v, base) then None
    else if t[0] == '-' then Some(-(DigitsValue(v, base) as int))
    else Some(DigitsValue(v, base))
  }

  /**
   * Python's `int(s, base)` for base 10 and 16: surrounding whitespace, an optional sign,
   * for base 16 an optional `0x` / `0X` prefix, then at least one digit.
   */
  function ParseInt(s: string, base: nat, unicode: bool): Option<int>
    requires base == 10 || base == 16
  {
    ParseStripped(Strip(s, unicode), base)
  }

  /** Text that neither starts nor ends with whitespace is its own strip. */
  lemma StripNone(s: string, unicode: bool)
    requires s != [] && !Blank(s[0], unicode) && !Blank(s[|s| - 1], unicode)
    ensures Strip(s, unicode) == s
  {
  }

  function HexDigit(d: nat): (c: char)
    requires d < 16
    ensures DigitValue(c) == d
  {
    if d < 10 then ('0' as int + d) as char else ('a' as int + d - 10) as char
  }

  /** Python's `'%x' % n` for n >= 0: lower-case, no leading zeros. */
  function Hex(n: nat): (r: string)
    ensures |r| >= 1 && AllDigits(r, 16)
    ensures forall i :: 0 <= i < |r| ==> '0' <= r[i] <= '9' || 'a' <= r[i] <= 'f'
  {
    if n < 16 then [HexDigit(n)] else Hex(n / 16) + [HexDigit(n % 16)]
  }

  function DecDigit(d: nat): (c: char)
    requires d < 10
    ensures DigitValue(c) == d && '0' <= c <= '9'
  {
    ('0' as int + d) as char
  }

  function Digits10(n: nat): (r: string)
    ensures |r| >= 1 && AllDigits(r, 10)
    ensures forall i :: 0 <= i < |r| ==> '0' <= r[i] <= '9'
  {
    if n < 10 then [DecDigit(n)] else Digits10(n / 10) + [DecDigit(n % 10)]
  }

  /** Python's `'%d' % n`. */
  function Decimal(n: int): string
  {
    if n < 0 then "-" + Digits10(-n) else Digits10(n)
  }

  lemma {:induction false} HexValue(n: nat)
    ensures DigitsValue(Hex(n), 16) == n
  {
    if n >= 16 {
      HexValue(n / 16);
      var s := Hex(n);
      assert s[..|s| - 1] == Hex(n / 16);
    }
  }

  lemma {:induction false} Digits10Value(n: nat)
    ensures DigitsValue(Digits10(n), 10) == n
  {
    if n >= 10 {
      Digits10Value(n / 10);
      var s := Digits10(n);
      assert s[..|s| - 1] == Digits10(n / 10);
    }
  }

  /** Plain digits, with no sign and no `0x`, parse to their value. */
  lemma ParseDigits(v: string, base: nat)
    requires base == 10 || base == 16
    requires v != [] && AllDigits(v, base)
    requires v[0] != '-' && v[0] != '+'
    requires |v| >= 2 ==> v[1] != 'x' && v[1] != 'X'
    ensures ParseStripped(v, base) == Some(DigitsValue(v, base) as int)
  {
    assert Unprefixed(Unsigned(v), base) == v;
  }

  /** A minus sign in front of plain digits negates their value. */
  lemma ParseNegative(v: string, base: nat)
    requires base == 10 || base == 16
    requires v != [] && AllDigits(v, base)
    requires '0' <= v[0] <= '9'
    requires |v| >= 2 ==> v[1] != 'x' && v[1] != 'X'
    ensures ParseStripped("-" + v, base) == Some(-(DigitsValue(v, base) as int))
  {
    assert Unsigned("-" + v) == v;
    assert Unprefixed(v, base) == v;
  }

  /** What `'%x'` writes, `int(..., 16)` reads back. */
  lemma HexRoundTrip(n: nat, unicode: bool)
    ensures ParseInt(Hex(n), 16, unicode) == Some(n)
  {
    var h := Hex(n);
    StripNone(h, unicode);
    HexValue(n);
    ParseDigits(h, 16);
  }

  /** What `'%d'` writes, `int(...)` reads back. */
  lemma DecimalRoundTrip(n: int, unicode: bool)
    ensures ParseInt(Decimal(n), 10, unicode) == Some(n)
  {
    if n < 0 {
      NegativeRoundTrip(n, unicode);
    } else {
      var digits := Digits10(n);
      Digits10Value(n);
      ParseDigits(digits, 10);
      StripNone(digits, unicode);
    }
  }

  lemma NegativeRoundTrip(n: int, unicode: bool)
    requires n < 0
    ensures ParseInt("-" + Digits10(-n), 10, unicode) == Some(n)
  {
    var m: nat := -n;
    NegativeStrip(m, unicode);
    NegativeParse(m);
    StrippedParse("-" + Digits10(m), 10, unicode, -(m as int));
  }

  /** Text that is its own strip parses as it stands. */
  lemma StrippedParse(d: string, base: nat, unicode: bool, v: int)
    requires base == 10 || base == 16
    requires Strip(d, unicode) == d && ParseStripped(d, base) == Some(v)
    ensures ParseInt(d, base, unicode) == Some(v)
  {
  }

  lemma NegativeParse(m: nat)
    ensures ParseStripped("-" + Digits10(m), 10) == Some(-(m as int))
  {
    var d := Digits10(m);
    Digits10Value(m);
    ParseNegative(d, 10);
  }

  lemma NegativeStrip(m: nat, unicode: bool)
    ensures Strip("-" + Digits10(m), unicode) == "-" + Digits10(m)
  {
    var digits := Digits10(m);
    var d := "-" + digits;
    assert d[|d| - 1] == digits[|digits| - 1];
    StripNone(d, unicode);
  }

  // ---------------------------------------------------------------- encodings

  /** Bytes read one per character, as the model decodes wire text (exact for ASCII). */
  function Latin1Text(b: seq<byte>): (r: string)
    ensures |r| == |b| && forall i :: 0 <= i < |b| ==> r[i] as int == b[i]
  {
    seq(|b|, i requires 0 <= i < |b| => b[i] as char)
  }

  /** Characters written one per byte (exact for characters below 256). */
  function Latin1(s: string): (r: seq<byte>)
    ensures |r| == |s| && forall i :: 0 <= i < |s| ==> r[i] == (s[i] as int) % 256
  {
    seq(|s|, i requires 0 <= i < |s| => (s[i] as int) % 256)
  }

  lemma Latin1RoundTrip(b: seq<byte>)
    ensures Latin1(Latin1Text(b)) == b
  {
  }

  lemma Latin1Append(a: string, b: string)
    ensures Latin1(a + b) == Latin1(a) + Latin1(b)
  {
  }

  /** UTF-8 encoding of one character (Python's `bytes(c, 'utf-8')`). */
  function Utf8Char(c: char): (r: seq<byte>)
    ensures 1 <= |r| <= 4
    ensures |r| == 1 <==> c as int < 0x80
    ensures |r| == 1 ==> r[0] == c as int
    ensures |r| > 1 ==> forall i :: 0 <= i < |r| ==> r[i] >= 0x80
  {
    var n := c as int;
    if n < 0x80 then [n]
    else if n < 0x800 then [0xC0 + n / 64, 0x80 + n % 64]
    else if n < 0x10000 then [0xE0 + n / 4096, 0x80 + (n / 64) % 64, 0x80 + n % 64]
    else [0xF0 + n / 262144, 0x80 + (n / 4096) % 64, 0x80 + (n / 64) % 64, 0x80 + n % 64]
  }

  /** Python's `bytes(s, 'utf-8')`. */
  function Utf8(s: string): seq<byte>
  {
    if s == [] then [] else Utf8Char(s[0]) + Utf8(s[1..])
  }

  lemma {:induction false} Utf8Append(a: string, b: string)
    ensures Utf8(a + b) == Utf8(a) + Utf8(b)
  {
    if a != [] {
      assert (a + b)[0] == a[0];
      assert (a + b)[1..] == a[1..] + b;
      Utf8Append(a[1..], b);
      calc {
        Utf8(a + b);
        Utf8Char(a[0]) + Utf8(a[1..] + b);
        Utf8Char(a[0]) + (Utf8(a[1..]) + Utf8(b));
        (Utf8Char(a[0]) + Utf8(a[1..])) + Utf8(b);
      }
    } else {
      assert a + b == b;
    }
  }

  /** A byte below 0x80 occurs in the UTF-8 form only where the same character occurs in the text. */
  lemma {:induction false} Utf8AsciiByte(s: string, c: char)
    requires c as int < 0x80
    requires c !in s
    ensures (c as int) !in Utf8(s)
  {
    if s != [] {
      Utf8AsciiByte(s[1..], c);
    }
  }

  /** On ASCII text UTF-8 and one-byte-per-character agree. */
  lemma {:induction false} Utf8Ascii(s: string)
    requires forall i :: 0 <= i < |s| ==> s[i] as int < 0x80
    ensures Utf8(s) == Latin1(s)
  {
    if s != [] {
      Utf8Ascii(s[1..]);
      assert Latin1(s) == [s[0] as int] + Latin1(s[1..]);
    }
  }

  predicate Cont(x: int) { 0x80 <= x < 0xC0 }

  /**
   * Decodes the UTF-8 form of one character at the front of `b`, with the strict rules of
   * Python's `'utf-8'` codec (no overlong forms, no surrogates, nothing above U+10FFFF);
   * the result holds the character and how many bytes it used.
   */
  function DecodeFirst(b: seq<byte>): (r: Option<(char, nat)>)
    ensures r.Some? ==> 1 <= r.value.1 <= |b| && r.value.1 <= 4
  {
    if b == [] then None
    else
      var b0: int := b[0];
      if b0 < 0x80 then Some((b0 as char, 1))
      else if 0xC2 <= b0 < 0xE0 then
        if |b| >= 2 && Cont(b[1]) then
          Some((Utf8Value2(b0, b[1]) as char, 2))
        else None
      else if 0xE0 <= b0 < 0xF0 then
        var lo := if b0 == 0xE0 then 0xA0 else 0x80;
        var hi := if b0 == 0xED then 0xA0 else 0xC0;
        if |b| >= 3 && lo <= b[1] < hi && Cont(b[2]) then
          var n := Utf8Value3(b0, b[1], b[2]);
          assert n < 0xD800 || 0xE000 <= n < 0x10000;
          Some((n as char, 3))
        else None
      else if 0xF0 <= b0 < 0xF5 then
        var lo := if b0 == 0xF0 then 0x90 else 0x80;
        var hi := if b0 == 0xF4 then 0x90 else 0xC0;
        if |b| >= 4 && lo <= b[1] < hi && Cont(b[2]) && Cont(b[3]) then
          var n := Utf8Value4(b0, b[1], b[2], b[3]);
          assert 0x10000 <= n < 0x110000;
          Some((n as char, 4))
        else None
      else None
  }

  function Utf8Value2(b0: int, b1: int): int
  {
    (b0 - 0xC0) * 64 + (b1 - 0x80)
  }

  function Utf8Value3(b0: int, b1: int, b2: int): int
  {
    (b0 - 0xE0) * 4096 + (b1 - 0x80) * 64 + (b2 - 0x80)
  }

  function Utf8Value4(b0: int, b1: int, b2: int, b3: int): int
  {
    (b0 - 0xF0) * 262144 + (b1 - 0x80) * 4096 + (b2 - 0x80) * 64 + (b3 - 0x80)
  }

  /** Python's `str(b, 'utf-8')`: `None` where the codec raises UnicodeDecodeError. */
  function Utf8Decode(b: seq<byte>): (r: Option<string>)
    decreases |b|
  {
    if b == [] then Some("")
    else match DecodeFirst(b)
      case None => None
      case Some((c, k)) =>
        match Utf8Decode(b[k..])
        case None => None
        case Some(rest) => Some([c] + rest)
  }

  lemma DecodeFirstChar(c: char, t: seq<byte>)
    ensures DecodeFirst(Utf8Char(c) + t) == Some((c, |Utf8Char(c)|))
  {
    var n := c as int;
    if n < 0x80 {
    } else if n < 0x800 {
      DecodeTwo(c, t);
    } else if n < 0x10000 {
      DecodeThree(c, t);
    } else {
      DecodeFour(c, t);
    }
  }

  lemma DecodeTwo(c: char, t: seq<byte>)
    requires 0x80 <= c as int < 0x800
    ensures DecodeFirst(Utf8Char(c) + t) == Some((c, 2))
  {
    var n := c as int;
    var b := Utf8Char(c) + t;
    assert b[0] == 0xC0 + n / 64 && b[1] == 0x80 + n % 64;
    assert Utf8Value2(b[0], b[1]) == n;
  }

  lemma DecodeThree(c: char, t: seq<byte>)
    requires 0x800 <= c as int < 0x10000
    ensures DecodeFirst(Utf8Char(c) + t) == Some((c, 3))
  {
    var n := c as int;
    var b := Utf8Char(c) + t;
    assert b[0] == 0xE0 + n / 4096 && b[1] == 0x80 + (n / 64) % 64 && b[2] == 0x80 + n % 64;
    assert n / 64 == (n / 4096) * 64 + (n / 64) % 64;
    assert Utf8Value3(b[0], b[1], b[2]) == n;
  }

  lemma DecodeFour(c: char, t: seq<byte>)
    requires 0x10000 <= c as int
    ensures DecodeFirst(Utf8Char(c) + t) == Some((c, 4))
  {
    var n := c as int;
    var b := Utf8Char(c) + t;
    assert b[0] == 0xF0 + n / 262144 && b[1] == 0x80 + (n / 4096) % 64;
    assert b[2] == 0x80 + (n / 64) % 64 && b[3] == 0x80 + n % 64;
    assert n / 4096 == (n / 262144) * 64 + (n / 4096) % 64;
    assert n / 64 == (n / 4096) * 64 + (n / 64) % 64;
    assert Utf8Value4(b[0], b[1], b[2], b[3]) == n;
  }

  /** What `bytes(s, 'utf-8')` writes, `str(..., 'utf-8')` reads back. */
  lemma {:induction false} Utf8RoundTrip(s: string)
    ensures Utf8Decode(Utf8(s)) == Some(s)
  {
    if s != [] {
      var k := |Utf8Char(s[0])|;
      DecodeFirstChar(s[0], Utf8(s[1..]));
      assert Utf8(s)[k..] == Utf8(s[1..]);
      Utf8RoundTrip(s[1..]);
      assert [s[0]] + s[1..] == s;
    }
  }

  // ---------------------------------------------------------------- lines

  /** The characters at which Python's `str.splitlines()` ends a line. */
  predicate LineBreak(c: char)
  {
    c == '\n' || c == '\r' || c as int == 0x0B || c as int == 0x0C
    || 0x1C <= c as int <= 0x1E || c as int == 0x85 || c as int == 0x2028 || c as int == 0x2029
  }

  /** `splitlines()` of `s`, with `cur` the part of the current line already seen. */
  function SplitLinesFrom(s: string, cur: string): (r: seq<string>)
    ensures s != [] || cur != [] ==> r != []
  {
    if s == [] then (if cur == [] then [] else [cur])
    else if s[0] == '\r' && |s| > 1 && s[1] == '\n' then [cur] + SplitLinesFrom(s[2..], [])
    else if LineBreak(s[0]) then [cur] + SplitLinesFrom(s[1..], [])
    else SplitLinesFrom(s[1..], cur + [s[0]])
  }

  /**
   * Python's `s.splitlines()`: `\r\n` and each single line-break character end a line, a
   * final line break opens no further line, and the empty text has no lines.
   */
  function SplitLines(s: string): seq<string>
  {
    SplitLinesFrom(s, [])
  }

  /** Each line followed by `\n`. */
  function Terminated(lines: seq<string>): string
  {
    if lines == [] then [] else lines[0] + "\n" + Terminated(lines[1..])
  }

  predicate NoBreaks(l: string)
  {
    forall i :: 0 <= i < |l| ==> !LineBreak(l[i])
  }

  lemma {:induction false} SplitLineOff(cur: string, l: string, rest: string)
    requires NoBreaks(l)
    ensures SplitLinesFrom(l + "\n" + rest, cur) == [cur + l] + SplitLinesFrom(rest, [])
    decreases |l|
  {
    if l == [] {
      assert l + "\n" + rest == "\n" + rest;
      assert cur + l == cur;
    } else {
      assert (l + "\n" + rest)[1..] == l[1..] + "\n" + rest;
      assert (l + "\n" + rest)[0] == l[0];
      SplitLineOff(cur + [l[0]], l[1..], rest);
      assert cur + [l[0]] + l[1..] == cur + l;
    }
  }

  /** Lines without line breaks, each ended by `\n`, split back into the same lines. */
  lemma {:induction false} SplitLinesRoundTrip(lines: seq<string>)
    requires forall i :: 0 <= i < |lines| ==> NoBreaks(lines[i])
    ensures SplitLines(Terminated(lines)) == lines
    decreases |lines|
  {
    if lines != [] {
      SplitLineOff([], lines[0], Terminated(lines[1..]));
      SplitLinesRoundTrip(lines[1..]);
      assert [] + lines[0] == lines[0];
      assert [lines[0]] + lines[1..] == lines;
    }
  }
}
