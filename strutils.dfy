/**
 * The log-line helpers: `str_addr` renders a socket address, `str_route_map_key` and the
 * bytes case of `str_args` render bytes as base64 (section 4 of RFC 4648), and `str_args`
 * renders a call's arguments, truncating long text and long bytes.
 */
module StrUtils {
  import opened Wrappers
  import opened PyText
  import opened Values

  // ---------------------------------------------------------------- base64

  /** The base64 alphabet: `A`-`Z`, `a`-`z`, `0`-`9`, `+`, `/`. */
  function Sextet(d: nat): (c: char)
    requires d < 64
  {
    if d < 26 then ('A' as int + d) as char
    else if d < 52 then ('a' as int + d - 26) as char
    else if d < 62 then ('0' as int + d - 52) as char
    else if d == 62 then '+'
    else '/'
  }

  /** The position of a character in the base64 alphabet, or -1. */
  function SextetValue(c: char): (v: int)
    ensures -1 <= v < 64
  {
    if 'A' <= c <= 'Z' then c as int - 'A' as int
    else if 'a' <= c <= 'z' then c as int - 'a' as int + 26
    else if '0' <= c <= '9' then c as int - '0' as int + 52
    else if c == '+' then 62
    else if c == '/' then 63
    else -1
  }

  lemma SextetRoundTrip(d: nat)
    requires d < 64
    ensures SextetValue(Sextet(d)) == d && Sextet(d) != '='
  {
  }

  /** A character of encoded text: an alphabet character or the pad; none is whitespace. */
  predicate IsBase64Char(c: char)
  {
    SextetValue(c) >= 0 || c == '='
  }

  lemma Base64CharNotBlank(c: char)
    requires IsBase64Char(c)
    ensures !Blank(c, true)
  {
  }

  /**
   * Three bytes as four characters: the 24 bits taken six at a time, the first byte's top
   * six bits first.
   */
  function Quad(x: byte, y: byte, z: byte): (r: string)
    ensures |r| == 4 && forall i :: 0 <= i < 4 ==> SextetValue(r[i]) >= 0
  {
    SextetRoundTrip(x / 4);
    SextetRoundTrip(x % 4 * 16 + y / 16);
    SextetRoundTrip(y % 16 * 4 + z / 64);
    SextetRoundTrip(z % 64);
    [Sextet(x / 4), Sextet(x % 4 * 16 + y / 16), Sextet(y % 16 * 4 + z / 64), Sextet(z % 64)]
  }

  /** The final group of two bytes: the 16 bits padded with zeros to 18, and one pad. */
  function Pair(x: byte, y: byte): (r: string)
    ensures |r| == 4 && r[3] == '=' && forall i :: 0 <= i < 3 ==> SextetValue(r[i]) >= 0
  {
    SextetRoundTrip(x / 4);
    SextetRoundTrip(x % 4 * 16 + y / 16);
    SextetRoundTrip(y % 16 * 4);
    [Sextet(x / 4), Sextet(x % 4 * 16 + y / 16), Sextet(y % 16 * 4), '=']
  }

  /** The final group of one byte: the 8 bits padded with zeros to 12, and two pads. */
  function Single(x: byte): (r: string)
    ensures |r| == 4 && r[2] == '=' && r[3] == '=' && forall i :: 0 <= i < 2 ==> SextetValue(r[i]) >= 0
  {
    SextetRoundTrip(x / 4);
    SextetRoundTrip(x % 4 * 16);
    [Sextet(x / 4), Sextet(x % 4 * 16), '=', '=']
  }

  /** Base64 encoding with padding and no line breaks: `binascii.b2a_base64(b)` without its newline. */
  function Base64(b: seq<byte>): (r: string)
    ensures |r| == 4 * ((|b| + 2) / 3)
    ensures forall i :: 0 <= i < |r| ==> IsBase64Char(r[i])
    decreases |b|
  {
    if |b| == 0 then ""
    else if |b| == 1 then Single(b[0])
    else if |b| == 2 then Pair(b[0], b[1])
    else
      var q, rest := Quad(b[0], b[1], b[2]), Base64(b[3..]);
      assert (|b| + 2) / 3 == (|b[3..]| + 2) / 3 + 1;
      assert forall i :: 0 <= i < |q + rest| ==> (q + rest)[i] == if i < 4 then q[i] else rest[i - 4];
      q + rest
  }

  /** The bytes four sextets stand for (the last `k` of the three are dropped for padding). */
  function Bytes3(v0: nat, v1: nat, v2: nat, v3: nat): (r: seq<byte>)
    requires v0 < 64 && v1 < 64 && v2 < 64 && v3 < 64
    ensures |r| == 3
  {
    [v0 * 4 + v1 / 16, v1 % 16 * 16 + v2 / 4, v2 % 4 * 64 + v3]
  }

  /** The sextets of four characters, if they all belong to the alphabet. */
  function Group(c0: char, c1: char, c2: char, c3: char): Option<seq<byte>>
  {
    var v0, v1, v2, v3 := SextetValue(c0), SextetValue(c1), SextetValue(c2), SextetValue(c3);
    if v0 < 0 || v1 < 0 || v2 < 0 || v3 < 0 then None
    else Some(Bytes3(v0, v1, v2, v3))
  }

  /** Base64 decoding of padded text; the reference the encoder is checked against. */
  function Unbase64(s: string): (r: Option<seq<byte>>)
    decreases |s|
  {
    if s == [] then Some([])
    else if |s| < 4 then None
    else if |s| == 4 && s[2] == '=' && s[3] == '=' then
      match Group(s[0], s[1], 'A', 'A')
      case None => None
      case Some(g) => Some(g[..1])
    else if |s| == 4 && s[3] == '=' then
      match Group(s[0], s[1], s[2], 'A')
      case None => None
      case Some(g) => Some(g[..2])
    else
      match Group(s[0], s[1], s[2], s[3])
      case None => None
      case Some(g) =>
        match Unbase64(s[4..])
        case None => None
        case Some(rest) => Some(g + rest)
  }

  /** Division by 4, 16 or 64 takes a number apart at a digit boundary. */
  lemma Split(a: nat, b: nat, k: nat)
    requires (k == 4 || k == 16 || k == 64) && b < k
    ensures (a * k + b) / k == a && (a * k + b) % k == b
  {
  }

  /** The sextets of three bytes give the bytes back. */
  lemma Bytes3Inverse(x: byte, y: byte, z: byte)
    ensures Bytes3(x / 4, x % 4 * 16 + y / 16, y % 16 * 4 + z / 64, z % 64) == [x, y, z]
  {
    Split(x % 4, y / 16, 16);
    Split(y % 16, z / 64, 4);
  }

  lemma QuadRoundTrip(x: byte, y: byte, z: byte)
    ensures var q := Quad(x, y, z);
      Group(q[0], q[1], q[2], q[3]) == Some([x, y, z])
  {
    SextetRoundTrip(x / 4);
    SextetRoundTrip(x % 4 * 16 + y / 16);
    SextetRoundTrip(y % 16 * 4 + z / 64);
    SextetRoundTrip(z % 64);
    Bytes3Inverse(x, y, z);
  }

  lemma PairRoundTrip(x: byte, y: byte)
    ensures var q := Pair(x, y);
      q[2] != '=' && Group(q[0], q[1], q[2], 'A') == Some([x, y, 0])
  {
    SextetRoundTrip(x / 4);
    SextetRoundTrip(x % 4 * 16 + y / 16);
    SextetRoundTrip(y % 16 * 4);
    assert SextetValue('A') == 0;
    Bytes3Inverse(x, y, 0);
  }

  lemma SingleRoundTrip(x: byte)
    ensures var q := Single(x);
      Group(q[0], q[1], 'A', 'A') == Some([x, 0, 0])
  {
    SextetRoundTrip(x / 4);
    SextetRoundTrip(x % 4 * 16);
    assert SextetValue('A') == 0;
    Bytes3Inverse(x, 0, 0);
  }

  lemma SingleDecodes(x: byte)
    ensures Unbase64(Single(x)) == Some([x])
  {
    SingleRoundTrip(x);
    assert [x, 0, 0][..1] == [x];
  }

  lemma PairDecodes(x: byte, y: byte)
    ensures Unbase64(Pair(x, y)) == Some([x, y])
  {
    PairRoundTrip(x, y);
    assert [x, y, 0][..2] == [x, y];
  }

  /** A full group followed by more text decodes to its three bytes and the rest. */
  lemma QuadDecodes(x: byte, y: byte, z: byte, t: string, rest: seq<byte>)
    requires Unbase64(t) == Some(rest)
    ensures Unbase64(Quad(x, y, z) + t) == Some([x, y, z] + rest)
  {
    var q := Quad(x, y, z);
    var s := q + t;
    QuadRoundTrip(x, y, z);
    assert s[..4] == q && s[4..] == t;
    assert s[0] == q[0] && s[1] == q[1] && s[2] == q[2] && s[3] == q[3];
    assert s[3] != '=' by {
      assert SextetValue(q[3]) >= 0;
    }
  }

  lemma Base64Front(b: seq<byte>)
    requires |b| >= 3
    ensures Base64(b) == Quad(b[0], b[1], b[2]) + Base64(b[3..])
    ensures [b[0], b[1], b[2]] + b[3..] == b
  {
    Three(b);
  }

  lemma Three<T>(b: seq<T>)
    requires |b| >= 3
    ensures [b[0], b[1], b[2]] + b[3..] == b
  {
    assert [b[0], b[1], b[2]] == b[..3];
  }

  /** Decoding the encoding gives the bytes back. */
  lemma {:induction false} Base64RoundTrip(b: seq<byte>)
    ensures Unbase64(Base64(b)) == Some(b)
    decreases |b|
  {
    if |b| == 1 {
      SingleDecodes(b[0]);
      assert [b[0]] == b;
    } else if |b| == 2 {
      PairDecodes(b[0], b[1]);
      assert [b[0], b[1]] == b;
    } else if |b| >= 3 {
      Base64Front(b);
      Base64RoundTrip(b[3..]);
      QuadDecodes(b[0], b[1], b[2], Base64(b[3..]), b[3..]);
    }
  }

  // ---------------------------------------------------------------- str_route_map_key

  /** Text without whitespace loses exactly the newline `b2a_base64` appends. */
  lemma StripNewline(s: string)
    requires forall i :: 0 <= i < |s| ==> !Blank(s[i], true)
    ensures Strip(s + "\n", true) == s
  {
    var t := s + "\n";
    assert Blank('\n', true);
    if s == [] {
      assert LStrip(t, true) == LStrip([], true);
    } else {
      assert t[0] == s[0] && t[|t| - 1] == '\n';
      assert LStrip(t, true) == t;
      assert t[..|t| - 1] == s;
      assert RStrip(s, true) == s;
    }
  }

  /** `str_route_map_key(key)`: the key's base64 text. */
  function StrRouteMapKey(key: seq<byte>): (r: string)
    ensures r == Base64(key)
  {
    forall i | 0 <= i < |Base64(key)| {
      Base64CharNotBlank(Base64(key)[i]);
    }
    StripNewline(Base64(key));
    Strip(Base64(key) + "\n", true)
  }

  // ---------------------------------------------------------------- str_args

  /** `_trunc(a, l)`: text longer than `l` keeps its first `l - 2` characters and gains `..`. */
  function Trunc(a: string, l: int): (r: string)
    ensures |a| <= l ==> r == a
    ensures |a| > l >= 2 ==> |r| == l && r[..l - 2] == a[..l - 2] && r[l - 2..] == ".."
  {
    if |a| > l then SliceTo(a, l - 2) + ".." else a
  }

  /** `'%d' % a` for an int, where a bool counts as 0 or 1: decimal text that `int()` reads back. */
  function IntText(a: Value): (r: string)
    requires a.VInt? || a.VBool?
    ensures ParseInt(r, 10, true) == Some(if a.VInt? then a.i else if a.b then 1 else 0)
  {
    var n := if a.VInt? then a.i else if a.b then 1 else 0;
    DecimalRoundTrip(n, true);
    assert a.VBool? ==> Decimal(n) == if a.b then "1" else "0";
    if a.VInt? then Decimal(a.i) else if a.b then "1" else "0"
  }

  /** `"'%s'" % _trunc(s, 16)`: the text, cut to 16, between single quotes. */
  function Quoted(s: string): (r: string)
    ensures |r| == |Trunc(s, 16)| + 2 <= 18 && r[0] == '\'' && r[|r| - 1] == '\''
    ensures |s| <= 16 ==> r[1..|r| - 1] == s
    ensures |s| > 16 ==> r[1..|r| - 1] == s[..14] + ".."
  {
    var t := Trunc(s, 16);
    Between("'", t, "'");
    "'" + t + "'"
  }

  /** Bytes as `str_args` shows them: the base64 text, cut to 25 characters and the length when over 30. */
  function BytesText(b: seq<byte>): (r: string)
  {
    var rv := Base64(b);
    if |rv| > 30 then rv[..25] + ".." + Decimal(|b|) else rv
  }

  /** Up to 21 bytes are shown whole; from 22 on the text is cut after 25 characters. */
  lemma BytesWhole(b: seq<byte>)
    ensures |b| <= 21 ==> BytesText(b) == Base64(b) && |BytesText(b)| <= 28
    ensures |b| > 21 ==> BytesText(b) == Base64(b)[..25] + ".." + Decimal(|b|)
  {
    var n := |b|;
    var k := (n + 2) / 3;
    assert |Base64(b)| == 4 * k;
    if n <= 21 {
      assert k <= 7;
    } else {
      assert k >= 8;
    }
  }

  /** `_fmt(a)`; a float's `%.3f` is not modelled. */
  function Fmt(a: Value): (r: string)
    requires !a.VFloat?
    ensures a.VStr? ==> |r| == |Trunc(a.s, 16)| + 2 <= 18 && r[0] == '\'' && r[|r| - 1] == '\''
    ensures a.VStr? && |a.s| <= 16 ==> r[1..|r| - 1] == a.s
    ensures a.VStr? && |a.s| > 16 ==> r[1..|r| - 1] == a.s[..14] + ".."
    ensures a.VInt? ==> ParseInt(r, 10, true) == Some(a.i)
    ensures a.VBool? ==> ParseInt(r, 10, true) == Some(if a.b then 1 else 0)
    ensures (a.VDict? || a.VList? || a.VTuple? || a.VNone? || a.VObject?) ==> |r| >= 2 && r[0] == '<' && r[|r| - 1] == '>'
    ensures a.VDict? ==> |r| >= 8 && r[..6] == "<dict(" && r[|r| - 2..] == ")>" && ParseInt(r[6..|r| - 2], 10, true) == Some(|a.entries|)
    ensures a.VList? ==> |r| >= 8 && r[..6] == "<list(" && r[|r| - 2..] == ")>" && ParseInt(r[6..|r| - 2], 10, true) == Some(|a.items|)
    ensures a.VObject? ==> r[1..|r| - 1] == a.className
    ensures a.VTuple? ==> r == "<tuple>"
    ensures a.VNone? ==> r == "<NoneType>"
  {
    match a
    case VStr(s) => Quoted(s)
    case VInt(_) => IntText(a)
    case VBool(_) => IntText(a)
    case VBytes(b) => BytesText(b)
    case VDict(m) => CountText("<dict(", |m|)
    case VList(xs) => CountText("<list(", |xs|)
    case _ => "<" + TypeName(a) + ">"
  }

  /** `<dict(n)>` and `<list(n)>`: the opening, the count in decimal, then `)>`. */
  function CountText(open: string, n: nat): (r: string)
    requires |open| == 6
    ensures |r| >= 8 && r[..6] == open && r[|r| - 2..] == ")>" && ParseInt(r[6..|r| - 2], 10, true) == Some(n)
  {
    var digits := Decimal(n);
    DecimalRoundTrip(n, true);
    Between(open, digits, ")>");
    open + digits + ")>"
  }

  lemma Between<T>(a: seq<T>, m: seq<T>, b: seq<T>)
    ensures var s := a + m + b; s[..|a|] == a && s[|a|..|s| - |b|] == m && s[|s| - |b|..] == b
  {
  }

  predicate NoFloatArg(args: seq<Value>)
  {
    forall i :: 0 <= i < |args| ==> !args[i].VFloat?
  }

  /** The formatted arguments, in order. */
  function Formatted(args: seq<Value>): (r: seq<string>)
    requires NoFloatArg(args)
    ensures |r| == |args| && forall i :: 0 <= i < |args| ==> r[i] == Fmt(args[i])
  {
    if args == [] then [] else [Fmt(args[0])] + Formatted(args[1..])
  }

  /** `str_args(args)`: the formatted arguments joined by `, `. */
  function StrArgs(args: seq<Value>): (r: string)
    requires NoFloatArg(args)
  {
    Join(Formatted(args), ", ")
  }

  /** One more argument adds `, ` and its formatting. */
  lemma StrArgsAppend(args: seq<Value>, a: Value)
    requires NoFloatArg(args) && args != [] && !a.VFloat?
    ensures NoFloatArg(args + [a])
    ensures StrArgs(args + [a]) == StrArgs(args) + ", " + Fmt(a)
  {
    FormattedAppend(args, a);
    JoinAppend(Formatted(args), Fmt(a), ", ");
  }

  lemma {:induction false} FormattedAppend(args: seq<Value>, a: Value)
    requires NoFloatArg(args) && !a.VFloat?
    ensures NoFloatArg(args + [a])
    ensures Formatted(args + [a]) == Formatted(args) + [Fmt(a)]
    decreases |args|
  {
    assert forall i :: 0 <= i < |args| ==> (args + [a])[i] == args[i];
    if args == [] {
      assert args + [a] == [a];
    } else {
      assert (args + [a])[1..] == args[1..] + [a];
      assert NoFloatArg(args[1..]) by {
        assert forall i :: 0 <= i < |args[1..]| ==> args[1..][i] == args[i + 1];
      }
      FormattedAppend(args[1..], a);
    }
  }

  /** A single argument is shown alone. */
  lemma StrArgsOne(a: Value)
    requires !a.VFloat?
    ensures StrArgs([a]) == Fmt(a)
  {
    assert Formatted([a]) == [Fmt(a)];
  }

  // ---------------------------------------------------------------- str_addr

  /** Values whose `str()` is modelled: None, bools, ints, floats (by their text) and text. */
  predicate Scalar(v: Value)
  {
    v.VNone? || v.VBool? || v.VInt? || v.VFloat? || v.VStr?
  }

  /** `str(v)` for a scalar value. */
  function Str(v: Value): string
    requires Scalar(v)
  {
    match v
    case VNone => "None"
    case VBool(b) => if b then "True" else "False"
    case VInt(i) => Decimal(i)
    case VFloat(t) => t
    case VStr(s) => s
  }

  /** The elements of a tuple or list. */
  function Elements(addr: Value): seq<Value>
    requires addr.VTuple? || addr.VList?
  {
    if addr.VTuple? then addr.elems else addr.items
  }

  /** The components `str_addr` prints are scalars. */
  predicate Printable(addr: Value)
  {
    if addr.VTuple? || addr.VList? then
      forall i :: 0 <= i < |Elements(addr)| && i < 3 ==> Scalar(Elements(addr)[i])
    else Scalar(addr)
  }

  /**
   * `str_addr(addr)`: a tuple or list of three whose last is an int gives `a/[b]:c`, any
   * other of two or more gives `[a]:b`, one of fewer raises the format's TypeError, and
   * anything else is `str(addr)`.
   */
  function StrAddr(addr: Value): (r: Result<string, Exc>)
    requires Printable(addr)
    ensures r.Err? <==> (addr.VTuple? || addr.VList?) && |Elements(addr)| < 2
    ensures r.Err? ==> r.error.kind == TypeError
  {
    if addr.VTuple? || addr.VList? then
      var xs := Elements(addr);
      if |xs| == 3 && (xs[2].VInt? || xs[2].VBool?) then
        Ok(Str(xs[0]) + "/[" + Str(xs[1]) + "]:" + Str(xs[2]))
      else if |xs| < 2 then
        Err(Exc(TypeError, "not enough arguments for format string"))
      else
        Ok("[" + Str(xs[0]) + "]:" + Str(xs[1]))
    else
      Ok(Str(addr))
  }

  /** An IPv4 or IPv6 socket name `(host, port, ...)` shows as `[host]:port`. */
  lemma HostPort(host: string, port: int, more: seq<Value>)
    requires |more| != 1 || !(more[0].VInt? || more[0].VBool?)
    requires forall i :: 0 <= i < |more| && i < 1 ==> Scalar(more[i])
    ensures Printable(VTuple([VStr(host), VInt(port)] + more))
    ensures StrAddr(VTuple([VStr(host), VInt(port)] + more)) == Ok("[" + host + "]:" + Decimal(port))
  {
    var xs := [VStr(host), VInt(port)] + more;
    assert xs[0] == VStr(host) && xs[1] == VInt(port);
    assert |xs| == 3 ==> xs[2] == more[0];
  }

  /** Three parts whose last is a number show as `a/[b]:c`. */
  lemma ThreeParts(a: string, b: string, c: int)
    ensures StrAddr(VList([VStr(a), VStr(b), VInt(c)])) == Ok(a + "/[" + b + "]:" + Decimal(c))
  {
  }

  /** A Unix-domain socket's name, a path, is shown as it is. */
  lemma PathAddr(path: string)
    ensures StrAddr(VStr(path)) == Ok(path)
  {
  }
}
