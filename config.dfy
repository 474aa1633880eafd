/**
 * `RPCKitten.Configuration`: settings that start as None, are set from `--key=value`
 * arguments coerced to the type of the class default, and may be filled from the defaults
 * afterwards; plus the line cleaning of configuration files.
 */
module Config {
  import opened Wrappers
  import opened PyText
  import opened Values
  import opened StrUtils

  // ---------------------------------------------------------------- configuration files

  /** A leading `--` is dropped. */
  function DropDashes(line: string): (r: string)
    ensures r == line || "--" + r == line
  {
    if SliceTo(line, 2) == "--" then line[2..] else line
  }

  /** Everything from the first `#` on is cut. */
  function CutComment(a: string): (r: string)
    ensures '#' !in r && r <= a
  {
    match IndexOf(a, "#")
    case Some(i) =>
      IndexOfFirst(a, "#");
      forall j | 0 <= j < i
        ensures a[..i][j] != '#'
      {
        assert a[j..j + 1] == [a[j]];
        assert !MatchAt(a, "#", j);
      }
      a[..i]
    case None =>
      IndexOfFirst(a, "#");
      forall j | 0 <= j < |a|
        ensures a[j] != '#'
      {
        assert a[j..j + 1] == [a[j]];
        assert !MatchAt(a, "#", j);
      }
      a
  }

  /** `_clean_line`: drop a leading `--`, cut at the first `#`, strip whitespace. */
  function CleanLine(line: string): (r: string)
    ensures r != [] ==> !IsSpace(r[0]) && !IsSpace(r[|r| - 1])
    ensures '#' !in r
  {
    var b := CutComment(DropDashes(line));
    StripEnds(b, true);
    StripKeeps(b, '#');
    Strip(b, true)
  }

  /** Text starting with `#` after the line does not change whether `--` is dropped. */
  lemma DashesThenComment(line: string, t: string)
    requires t != [] && t[0] == '#'
    ensures DropDashes(line + t) == DropDashes(line) + t
  {
    var l := line + t;
    if |line| >= 2 {
      assert l[..2] == line[..2];
      if SliceTo(line, 2) == "--" {
        assert l[2..] == line[2..] + t;
      }
    } else {
      assert SliceTo(l, 2)[|line|] == '#';
    }
  }

  /** Text starting with `#` after the line is cut away. */
  lemma CutThenComment(a: string, t: string)
    requires t != [] && t[0] == '#'
    ensures CutComment(a + t) == CutComment(a)
  {
    var l := a + t;
    match IndexOf(a, "#")
    case Some(i) =>
      IndexOfExtend(a, t, "#");
      assert l[..i] == a[..i];
    case None =>
      IndexOfFirst(a, "#");
      forall j | 0 <= j < |a|
        ensures !MatchAt(l, "#", j)
      {
        assert l[j..j + 1] == a[j..j + 1];
        assert !MatchAt(a, "#", j);
      }
      assert l[|a|..|a| + 1] == "#";
      IndexOfAt(l, "#", |a|);
      assert l[..|a|] == a;
  }

  /** A comment after the text changes nothing. */
  lemma CommentIgnored(line: string, comment: string)
    ensures CleanLine(line + "#" + comment) == CleanLine(line)
  {
    var t := "#" + comment;
    assert line + "#" + comment == line + t;
    DashesThenComment(line, t);
    CutThenComment(DropDashes(line), t);
  }

  /** Stripping keeps only characters of the original. */
  lemma StripKeeps(s: string, c: char)
    requires c !in s
    ensures c !in Strip(s, true)
  {
    var l := LStrip(s, true);
    var r := Strip(s, true);
    assert r <= l;
    forall i | 0 <= i < |r|
      ensures r[i] != c
    {
      assert r[i] == l[i] == s[|s| - |l| + i];
    }
  }

  const TooFew: string := "not enough values to unpack (expected 2, got 1)"
  const TooMany: string := "too many values to unpack (expected 2)"

  /** One cleaned, non-empty line `key = value`: exactly one `=`, both sides stripped. */
  function FileLine(line: string): (r: Result<(string, string), Exc>)
    ensures r.Ok? ==> '=' !in r.value.0 && '=' !in r.value.1
    ensures r.Err? ==> r.error.kind == ValueError
  {
    var parts := SplitAll(line, '=');
    if |parts| < 2 then Err(Exc(ValueError, TooFew))
    else if |parts| > 2 then Err(Exc(ValueError, TooMany))
    else
      StripKeeps(parts[0], '=');
      StripKeeps(parts[1], '=');
      Ok((Strip(parts[0], true), Strip(parts[1], true)))
  }

  /**
   * `_configure_from_file` up to the `configure` call: the file's lines, cleaned, blank ones
   * skipped, each turned into `--key=value`; the first malformed line is a ValueError.
   */
  function FileArgs(lines: seq<string>): (r: Result<seq<string>, Exc>)
    ensures r.Ok? ==> forall i :: 0 <= i < |r.value| ==> ParseArg(r.value[i]).Some?
    ensures r.Err? ==> r.error.kind == ValueError
  {
    if lines == [] then Ok([])
    else
      var n := |lines| - 1;
      match FileArgs(lines[..n])
      case Err(e) => Err(e)
      case Ok(front) =>
        var line := CleanLine(lines[n]);
        if line == [] then Ok(front)
        else
          match FileLine(line)
          case Err(e) => Err(e)
          case Ok((k, v)) =>
            OptionArg(k, v);
            Ok(front + ["--" + k + "=" + v])
  }

  // ---------------------------------------------------------------- arguments

  /** A `--key=value` argument: the key with `-` turned into `_`, and the value. */
  function ParseArg(arg: string): (r: Option<(string, string)>)
    ensures r.Some? ==> StartsWith(arg, "--") && '-' !in r.value.0
  {
    if StartsWith(arg, "--") && Contains(arg, "=") then
      match SplitOnce(arg[2..], "=")
      case Some((k, v)) => Some((ReplaceAll(k, '-', '_'), v))
      case None => None
    else None
  }

  /** What a file line turns into is read back as the key (dashes turned into underscores) and value. */
  lemma OptionArg(k: string, v: string)
    requires '=' !in k
    ensures ParseArg("--" + k + "=" + v) == Some((ReplaceAll(k, '-', '_'), v))
  {
    var arg := "--" + k + "=" + v;
    assert arg == "--" + (k + ['='] + v);
    PrefixOfAppend("--", k + ['='] + v);
    assert arg[2..] == k + ['='] + v;
    SplitOnceOf(k, '=', v);
    assert arg[2 + |k|..2 + |k| + 1] == "=";
    assert MatchAt(arg, "=", 2 + |k|);
    IndexOfFirst(arg, "=");
  }

  const BoolTrue: set<char> := {'y', 'Y', 't', 'T', '1'}
  const IntLiteral: string := "invalid literal for int() with base 10: "
  const NotAList: string := "Not a list: "
  const NotADict: string := "Not a dict: "

  /** `'%s' % v`: `str(v)` for scalars; other values show as their type name in angle brackets. */
  function Shown(v: Value): (r: string)
    ensures Scalar(v) ==> r == Str(v)
  {
    if Scalar(v) then Str(v) else "<" + TypeName(v) + ">"
  }

  /**
   * The value stored for `val` given the class default: an empty value restores the
   * default; otherwise the default's type decides: bool by the first character, float and
   * JSON through the parsers supplied, int through `int()`, anything else as text.
   */
  function Coerce(dflt: Value, val: string, float: string -> Result<Value, Exc>,
                  json: string -> Result<Value, Exc>): (r: Result<Value, Exc>)
    ensures val == "" ==> r == Ok(dflt)
    ensures val != "" && dflt.VBool? ==> r == Ok(VBool(val[0] in BoolTrue))
    ensures val != "" && dflt.VInt? ==> (r.Ok? <==> ParseInt(val, 10, true).Some?)
    ensures val != "" && dflt.VInt? && r.Ok? ==> r.value == VInt(ParseInt(val, 10, true).value)
    ensures val != "" && (dflt.VList? || dflt.VDict?) && r.Ok? ==> r.value.VList? == dflt.VList? && r.value.VDict? == dflt.VDict?
    ensures val != "" && (dflt.VList? || dflt.VDict?) && json(val).Err? ==> r == Err(json(val).error)
    ensures val != "" && dflt.VList? && json(val).Ok? && !json(val).value.VList? ==>
      r == Err(Exc(ValueError, NotAList + Shown(json(val).value)))
    ensures val != "" && dflt.VDict? && json(val).Ok? && !json(val).value.VDict? ==>
      r == Err(Exc(ValueError, NotADict + Shown(json(val).value)))
    ensures val != "" && (dflt.VNone? || dflt.VStr?) ==> r == Ok(VStr(val))
  {
    if val == "" then Ok(dflt)
    else
      match dflt
      case VBool(_) => Ok(VBool(val[0] in BoolTrue))
      case VFloat(_) => float(val)
      case VInt(_) =>
        (match ParseInt(val, 10, true)
         case Some(n) => Ok(VInt(n))
         case None => Err(Exc(ValueError, IntLiteral + "'" + val + "'")))
      case VList(_) =>
        (match json(val)
         case Err(e) => Err(e)
         case Ok(v) => if v.VList? then Ok(v) else Err(Exc(ValueError, NotAList + Shown(v))))
      case VDict(_) =>
        (match json(val)
         case Err(e) => Err(e)
         case Ok(v) => if v.VDict? then Ok(v) else Err(Exc(ValueError, NotADict + Shown(v))))
      case _ => Ok(VStr(val))
  }

  /** JSON that decodes to a number, for a list setting, raises ValueError naming that number. */
  lemma NumberNotAList(xs: seq<Value>, val: string, n: int,
                       float: string -> Result<Value, Exc>, json: string -> Result<Value, Exc>)
    requires val != "" && json(val) == Ok(VInt(n))
    ensures Coerce(VList(xs), val, float, json) == Err(Exc(ValueError, "Not a list: " + Decimal(n)))
  {
  }

  /** A decimal written by `'%d'` sets an int setting to that number. */
  lemma IntSetting(dflt: int, n: int, float: string -> Result<Value, Exc>, json: string -> Result<Value, Exc>)
    ensures Coerce(VInt(dflt), Decimal(n), float, json) == Ok(VInt(n))
  {
    DecimalRoundTrip(n, true);
    assert Decimal(n) != "";
  }

  /** `getattr(cls, key.upper())`: the class default of a setting. */
  function DefaultOf(defaults: map<string, Value>, key: string): (r: Value)
    ensures key !in defaults ==> r == VNone
    ensures key in defaults ==> r == defaults[key]
  {
    if key in defaults then defaults[key] else VNone
  }

  /** The settings and the arguments used so far. */
  datatype Pass = Pass(settings: map<string, Value>, consumed: set<string>)

  /**
   * One argument of the `configure` loop: a `--key=value` with a key that starts with `_`
   * is a KeyError; one naming a setting stores the coerced value and is consumed; anything
   * else is left alone.
   */
  function Apply(defaults: map<string, Value>, p: Pass, arg: string,
                 float: string -> Result<Value, Exc>, json: string -> Result<Value, Exc>): (r: Result<Pass, Exc>)
    ensures r.Ok? ==> r.value.settings.Keys == p.settings.Keys
    ensures r.Ok? && ParseArg(arg).None? ==> r.value == p
    ensures r.Err? ==> ParseArg(arg).Some?
    ensures r.Err? ==> var key := ParseArg(arg).value.0;
      if StartsWith(key, "_") then r.error.kind == KeyError
      else key in p.settings && Coerce(DefaultOf(defaults, key), ParseArg(arg).value.1, float, json) == Err(r.error)
    ensures r.Ok? && ParseArg(arg).Some? ==> var (key, val) := ParseArg(arg).value;
      if key in p.settings then
        Coerce(DefaultOf(defaults, key), val, float, json).Ok? &&
        r.value == Pass(p.settings[key := Coerce(DefaultOf(defaults, key), val, float, json).value], p.consumed + {arg})
      else r.value == p
  {
    match ParseArg(arg)
    case None => Ok(p)
    case Some((key, val)) =>
      if StartsWith(key, "_") then Err(Exc(KeyError, "'" + key + "'"))
      else if key !in p.settings then Ok(p)
      else
        match Coerce(DefaultOf(defaults, key), val, float, json)
        case Err(e) => Err(e)
        case Ok(v) => Ok(Pass(p.settings[key := v], p.consumed + {arg}))
  }

  /** Where the loop ends: the state reached and the exception that stopped it, if any. */
  datatype Outcome = Outcome(pass: Pass, error: Option<Exc>)

  /** The `configure` loop over `args` from the given settings; settings changed before an exception stay changed. */
  function Run(defaults: map<string, Value>, settings: map<string, Value>, args: seq<string>,
               float: string -> Result<Value, Exc>, json: string -> Result<Value, Exc>): (o: Outcome)
    ensures o.pass.settings.Keys == settings.Keys
  {
    if args == [] then Outcome(Pass(settings, {}), None)
    else
      var o := Run(defaults, settings, args[..|args| - 1], float, json);
      if o.error.Some? then o
      else
        match Apply(defaults, o.pass, args[|args| - 1], float, json)
        case Err(e) => Outcome(o.pass, Some(e))
        case Ok(p) => Outcome(p, None)
  }

  /** Once an argument raised, the later ones change nothing. */
  lemma {:induction false} RunStops(defaults: map<string, Value>, settings: map<string, Value>, args: seq<string>,
                                    i: nat, float: string -> Result<Value, Exc>, json: string -> Result<Value, Exc>)
    requires i <= |args| && Run(defaults, settings, args[..i], float, json).error.Some?
    ensures Run(defaults, settings, args, float, json) == Run(defaults, settings, args[..i], float, json)
    decreases |args|
  {
    if i < |args| {
      var n := |args| - 1;
      assert args[..n][..i] == args[..i];
      RunStops(defaults, settings, args[..n], i, float, json);
    } else {
      assert args[..i] == args;
    }
  }

  /** Only settings some argument names can change. */
  lemma {:induction false} RunFrame(defaults: map<string, Value>, settings: map<string, Value>, args: seq<string>,
                                    k: string, float: string -> Result<Value, Exc>, json: string -> Result<Value, Exc>)
    requires k in settings
    requires forall i :: 0 <= i < |args| ==> ParseArg(args[i]).None? || ParseArg(args[i]).value.0 != k
    ensures Run(defaults, settings, args, float, json).pass.settings[k] == settings[k]
    decreases |args|
  {
    if args != [] {
      var n := |args| - 1;
      assert forall i :: 0 <= i < n ==> args[..n][i] == args[i];
      RunFrame(defaults, settings, args[..n], k, float, json);
    }
  }

  /** Every consumed argument is a `--key=value` naming an existing setting. */
  lemma {:induction false} ConsumedKnown(defaults: map<string, Value>, settings: map<string, Value>, args: seq<string>,
                                         float: string -> Result<Value, Exc>, json: string -> Result<Value, Exc>)
    ensures forall a :: a in Run(defaults, settings, args, float, json).pass.consumed ==>
      a in args && ParseArg(a).Some? && ParseArg(a).value.0 in settings
    decreases |args|
  {
    if args != [] {
      var n := |args| - 1;
      ConsumedKnown(defaults, settings, args[..n], float, json);
      assert forall a :: a in args[..n] ==> a in args;
    }
  }

  /** `[a for a in args if a not in consumed]`. */
  function Unconsumed(args: seq<string>, consumed: set<string>): (r: seq<string>)
    ensures forall i :: 0 <= i < |r| ==> r[i] in args && r[i] !in consumed
    ensures forall i :: 0 <= i < |args| && args[i] !in consumed ==> args[i] in r
  {
    if args == [] then []
    else
      var n := |args| - 1;
      var front := Unconsumed(args[..n], consumed);
      assert forall i :: 0 <= i < n ==> args[..n][i] == args[i];
      front + (if args[n] in consumed then [] else [args[n]])
  }

  /** Python's `repr` of a list of strings (without escaping). */
  function ReprList(xs: seq<string>): string
  {
    "[" + Join(seq(|xs|, i requires 0 <= i < |xs| => "'" + xs[i] + "'"), ", ") + "]"
  }

  const Unrecognized: string := "Unrecognized arguments: "

  /**
   * `_set_defaults` on the settings: a setting whose name does not start with `_` and which
   * is still None takes its class default, when that is not None.
   */
  function WithDefaults(defaults: map<string, Value>, settings: map<string, Value>): (r: map<string, Value>)
    ensures r.Keys == settings.Keys
    ensures forall k :: k in settings && settings[k] != VNone ==> r[k] == settings[k]
    ensures forall k :: k in settings && settings[k] == VNone && !StartsWith(k, "_") ==> r[k] == DefaultOf(defaults, k)
  {
    map k | k in settings ::
      if !StartsWith(k, "_") && settings[k] == VNone && DefaultOf(defaults, k) != VNone then DefaultOf(defaults, k)
      else settings[k]
  }

  /** Filling the defaults twice is filling them once. */
  lemma DefaultsIdempotent(defaults: map<string, Value>, settings: map<string, Value>)
    ensures WithDefaults(defaults, WithDefaults(defaults, settings)) == WithDefaults(defaults, settings)
  {
  }

  /**
   * A configuration object: the class defaults by setting name (`getattr(cls, key.upper())`)
   * and the instance's settings (`self.__dict__`).
   */
  class Configuration {
    const defaults: map<string, Value>
    var settings: map<string, Value>

    /** `__init__`: every setting the class declares starts as None. */
    constructor(defaults: map<string, Value>)
      ensures this.defaults == defaults
      ensures settings.Keys == defaults.Keys && forall k :: k in settings ==> settings[k] == VNone
    {
      this.defaults := defaults;
      settings := map k | k in defaults :: VNone;
    }

    /**
     * `configure(args, strict, set_defaults)`: apply the arguments in order, then reject
     * what was not used when strict, then fill the defaults; returns the unused arguments.
     */
    method Configure(args: seq<string>, strict: bool, setDefaults: bool,
                     float: string -> Result<Value, Exc>, json: string -> Result<Value, Exc>)
      returns (r: Result<seq<string>, Exc>)
      modifies this
      ensures var o := Run(defaults, old(settings), args, float, json);
        var un := Unconsumed(args, o.pass.consumed);
        if o.error.Some? then r == Err(o.error.value) && settings == o.pass.settings
        else if strict && un != [] then
          r == Err(Exc(ValueError, Unrecognized + ReprList(un))) && settings == o.pass.settings
        else
          r == Ok(un) && settings == (if setDefaults then WithDefaults(defaults, o.pass.settings) else o.pass.settings)
    {
      var consumed: set<string> := {};
      var i := 0;
      while i < |args|
        invariant 0 <= i <= |args|
        invariant Run(defaults, old(settings), args[..i], float, json) == Outcome(Pass(settings, consumed), None)
      {
        assert args[..i + 1][..i] == args[..i];
        match Apply(defaults, Pass(settings, consumed), args[i], float, json)
        case Err(e) =>
          RunStops(defaults, old(settings), args, i + 1, float, json);
          return Err(e);
        case Ok(p) =>
          settings := p.settings;
          consumed := p.consumed;
        i := i + 1;
      }
      assert args[..i] == args;
      var un := Unconsumed(args, consumed);
      if strict && un != [] {
        return Err(Exc(ValueError, Unrecognized + ReprList(un)));
      }
      if setDefaults {
        settings := WithDefaults(defaults, settings);
      }
      return Ok(un);
    }
  }

  // ---------------------------------------------------------------- one argument, as the source promises

  /** Dashes in a key become underscores; the setting takes the value. */
  lemma DashedKey(defaults: map<string, Value>, p: Pass, k: string, v: string,
                  float: string -> Result<Value, Exc>, json: string -> Result<Value, Exc>)
    requires '=' !in k && ReplaceAll(k, '-', '_') in p.settings && !StartsWith(ReplaceAll(k, '-', '_'), "_")
    requires ReplaceAll(k, '-', '_') in defaults && defaults[ReplaceAll(k, '-', '_')].VStr?
    ensures var key := ReplaceAll(k, '-', '_');
      Apply(defaults, p, "--" + k + "=" + v, float, json)
        == Ok(Pass(p.settings[key := if v == "" then defaults[key] else VStr(v)], p.consumed + {"--" + k + "=" + v}))
  {
    OptionArg(k, v);
  }

  /** A key that starts with `_` (after the dash rewrite) is a KeyError. */
  lemma PrivateKeyRefused(defaults: map<string, Value>, p: Pass, k: string, v: string,
                          float: string -> Result<Value, Exc>, json: string -> Result<Value, Exc>)
    requires '=' !in k && StartsWith(ReplaceAll(k, '-', '_'), "_")
    ensures Apply(defaults, p, "--" + k + "=" + v, float, json).Err?
    ensures Apply(defaults, p, "--" + k + "=" + v, float, json).error.kind == KeyError
  {
    OptionArg(k, v);
  }

  /** `--key=` puts the class default back. */
  lemma EmptyRestoresDefault(defaults: map<string, Value>, p: Pass, k: string,
                             float: string -> Result<Value, Exc>, json: string -> Result<Value, Exc>)
    requires '=' !in k && ReplaceAll(k, '-', '_') in p.settings && !StartsWith(ReplaceAll(k, '-', '_'), "_")
    requires ReplaceAll(k, '-', '_') in defaults
    ensures var key := ReplaceAll(k, '-', '_');
      Apply(defaults, p, "--" + k + "=", float, json).Ok? &&
      Apply(defaults, p, "--" + k + "=", float, json).value.settings[key] == defaults[key]
  {
    OptionArg(k, "");
    assert "--" + k + "=" + "" == "--" + k + "=";
  }

  /** A bool setting is true exactly when the value starts with y, Y, t, T or 1. */
  lemma BoolSetting(defaults: map<string, Value>, p: Pass, k: string, v: string,
                    float: string -> Result<Value, Exc>, json: string -> Result<Value, Exc>)
    requires '=' !in k && ReplaceAll(k, '-', '_') in p.settings && !StartsWith(ReplaceAll(k, '-', '_'), "_")
    requires ReplaceAll(k, '-', '_') in defaults && defaults[ReplaceAll(k, '-', '_')].VBool? && v != ""
    ensures var key := ReplaceAll(k, '-', '_');
      Apply(defaults, p, "--" + k + "=" + v, float, json).Ok? &&
      Apply(defaults, p, "--" + k + "=" + v, float, json).value.settings[key]
        == VBool(v[0] in {'y', 'Y', 't', 'T', '1'})
  {
    OptionArg(k, v);
  }
}
