/**
 * `RPCKitten.extract_kwargs`: the `--key=value` strings of an argument list become keyword
 * arguments, everything else stays positional, and a non-empty `allowed` set limits which
 * keys may appear.
 */
module Kwargs {
  import opened Wrappers
  import opened PyText
  import opened Values

  /** `is_arg`: a string whose first two characters are `--`. */
  predicate IsOption(a: Value)
  {
    a.VStr? && StartsWith(a.s, "--")
  }

  /** `[a for a in args if not is_arg(a)]`. */
  function Positional(args: seq<Value>): (r: seq<Value>)
    ensures |r| <= |args|
    ensures forall i :: 0 <= i < |r| ==> !IsOption(r[i])
  {
    if args == [] then []
    else
      var last := args[|args| - 1];
      Positional(args[..|args| - 1]) + (if IsOption(last) then [] else [last])
  }

  /** `a[2:]` of every option, in order. */
  function OptionTexts(args: seq<Value>): (r: seq<string>)
    ensures |r| + |Positional(args)| == |args|
  {
    if args == [] then []
    else
      var last := args[|args| - 1];
      OptionTexts(args[..|args| - 1]) + (if IsOption(last) then [last.s[2..]] else [])
  }

  /** Filtering distributes over concatenation: the positional arguments keep their order. */
  lemma {:induction false} PositionalAppend(xs: seq<Value>, ys: seq<Value>)
    ensures Positional(xs + ys) == Positional(xs) + Positional(ys)
    decreases |ys|
  {
    if ys != [] {
      var n := |ys| - 1;
      assert (xs + ys)[..|xs + ys| - 1] == xs + ys[..n];
      assert (xs + ys)[|xs + ys| - 1] == ys[n];
      var tail := if IsOption(ys[n]) then [] else [ys[n]];
      assert Positional(xs + ys) == Positional(xs + ys[..n]) + tail;
      assert Positional(ys) == Positional(ys[..n]) + tail;
      PositionalAppend(xs, ys[..n]);
    } else {
      assert xs + ys == xs;
    }
  }

  /** Every argument that is not an option is kept. */
  lemma {:induction false} PositionalKeeps(args: seq<Value>, i: nat)
    requires i < |args| && !IsOption(args[i])
    ensures args[i] in Positional(args)
  {
    assert args == args[..i] + [args[i]] + args[i + 1..];
    PositionalAppend(args[..i] + [args[i]], args[i + 1..]);
    PositionalAppend(args[..i], [args[i]]);
    assert Positional([args[i]]) == [args[i]] by {
      assert [args[i]][..0] == [];
    }
  }

  const NotPair: string := "dictionary update sequence element #"
  const NotPairEnd: string := " has length 1; 2 is required"

  /**
   * The pairs `dict(...)` is built from: each text split at its first `=`; the first text
   * without one is a ValueError naming its position.
   */
  function Pairs(texts: seq<string>): (r: Result<seq<(string, string)>, Exc>)
    ensures r.Ok? <==> forall i :: 0 <= i < |texts| ==> Contains(texts[i], "=")
    ensures r.Ok? ==> |r.value| == |texts|
    ensures r.Ok? ==> forall i :: 0 <= i < |texts| ==>
      texts[i] == r.value[i].0 + "=" + r.value[i].1 && !Contains(r.value[i].0, "=")
    ensures r.Err? ==> r.error.kind == ValueError
  {
    if texts == [] then Ok([])
    else
      var n := |texts| - 1;
      match Pairs(texts[..n])
      case Err(e) => Err(e)
      case Ok(ps) =>
        match SplitOnce(texts[n], "=")
        case None => Err(Exc(ValueError, NotPair + Decimal(n) + NotPairEnd))
        case Some((k, v)) =>
          SplitOnceFirst(texts[n], "=");
          Ok(ps + [(k, v)])
  }

  /** The keys of the pairs. */
  function KeySet(ps: seq<(string, string)>): (r: set<string>)
    ensures forall i :: 0 <= i < |ps| ==> ps[i].0 in r
  {
    if ps == [] then {}
    else
      var n := |ps| - 1;
      assert forall i :: 0 <= i < n ==> ps[..n][i] == ps[i];
      KeySet(ps[..n]) + {ps[n].0}
  }

  /** `dict(pairs)`: one entry per key. */
  function ToMap(ps: seq<(string, string)>): (m: map<string, string>)
    ensures m.Keys == KeySet(ps)
  {
    if ps == [] then map[]
    else
      var n := |ps| - 1;
      ToMap(ps[..n])[ps[n].0 := ps[n].1]
  }

  /** A key takes the value of its last pair. */
  lemma {:induction false} LastWins(ps: seq<(string, string)>, i: nat)
    requires i < |ps| && forall j :: i < j < |ps| ==> ps[j].0 != ps[i].0
    ensures ToMap(ps)[ps[i].0] == ps[i].1
    decreases |ps|
  {
    var n := |ps| - 1;
    if i < n {
      var front := ps[..n];
      assert front[i] == ps[i];
      assert forall j :: i < j < n ==> front[j] == ps[j];
      LastWins(front, i);
      assert ps[n].0 != ps[i].0;
    }
  }

  /** Where the check loop stops: the first pair whose key `allowed` does not hold. */
  function FirstUnknown(ps: seq<(string, string)>, allowed: set<string>): (r: Option<nat>)
    ensures r.None? <==> KeySet(ps) <= allowed
    ensures r.Some? ==> r.value < |ps| && ps[r.value].0 !in allowed
    ensures r.Some? ==> forall j :: 0 <= j < r.value ==> ps[j].0 in allowed
  {
    if ps == [] then None
    else
      var n := |ps| - 1;
      assert forall i :: 0 <= i < n ==> ps[..n][i] == ps[i];
      match FirstUnknown(ps[..n], allowed)
      case Some(i) => Some(i)
      case None => if ps[n].0 in allowed then None else Some(n)
  }

  const Unrecognized: string := "Unrecognized option: --"

  /**
   * `extract_kwargs(args, allowed)`, with an empty `allowed` standing for None or an empty
   * collection: the positional arguments and the keyword dictionary, or a ValueError.
   */
  function ExtractKwargs(args: seq<Value>, allowed: set<string>): (r: Result<(seq<Value>, map<string, string>), Exc>)
    ensures r.Err? ==> r.error.kind == ValueError
    ensures r.Ok? ==> r.value.0 == Positional(args)
    ensures r.Ok? ==> allowed == {} || r.value.1.Keys <= allowed
    ensures r.Ok? <==> Pairs(OptionTexts(args)).Ok? &&
                       (allowed == {} || KeySet(Pairs(OptionTexts(args)).value) <= allowed)
  {
    match Pairs(OptionTexts(args))
    case Err(e) => Err(e)
    case Ok(ps) =>
      if allowed != {} && FirstUnknown(ps, allowed).Some? then
        Err(Exc(ValueError, Unrecognized + ps[FirstUnknown(ps, allowed).value].0))
      else
        Ok((Positional(args), ToMap(ps)))
  }

  /** An appended option adds its text; the positional arguments stay. */
  lemma OptionTextAppended(args: seq<Value>, k: string, v: string)
    ensures OptionTexts(args + [VStr("--" + k + "=" + v)]) == OptionTexts(args) + [k + "=" + v]
    ensures Positional(args + [VStr("--" + k + "=" + v)]) == Positional(args)
  {
    var a := VStr("--" + k + "=" + v);
    var args' := args + [a];
    assert args'[..|args'| - 1] == args && args'[|args'| - 1] == a;
    assert "--" + k + "=" + v == "--" + (k + "=" + v);
    PrefixOfAppend("--", k + "=" + v);
    assert IsOption(a) && a.s[2..] == k + "=" + v;
  }

  /** A text `k=v` whose key holds no `=` adds the pair `(k, v)`. */
  lemma PairAppended(texts: seq<string>, k: string, v: string)
    requires Pairs(texts).Ok? && '=' !in k
    ensures Pairs(texts + [k + "=" + v]) == Ok(Pairs(texts).value + [(k, v)])
  {
    var texts' := texts + [k + "=" + v];
    assert texts'[..|texts|] == texts && texts'[|texts|] == k + "=" + v;
    SplitOnceOf(k, '=', v);
  }

  /** One more `--key=value` argument adds (or overwrites) that key and leaves the rest alone. */
  lemma OptionAppended(args: seq<Value>, allowed: set<string>, k: string, v: string)
    requires ExtractKwargs(args, allowed).Ok?
    requires '=' !in k && (allowed == {} || k in allowed)
    ensures var (pos, kw) := ExtractKwargs(args, allowed).value;
      ExtractKwargs(args + [VStr("--" + k + "=" + v)], allowed) == Ok((pos, kw[k := v]))
  {
    var args' := args + [VStr("--" + k + "=" + v)];
    OptionTextAppended(args, k, v);
    var texts := OptionTexts(args);
    PairAppended(texts, k, v);
    var ps := Pairs(texts).value;
    var ps' := ps + [(k, v)];
    assert ps'[..|ps|] == ps && ps'[|ps|] == (k, v);
    assert KeySet(ps') == KeySet(ps) + {k};
    assert ToMap(ps') == ToMap(ps)[k := v];
  }

  /** One more positional argument is appended to the positional list; the keywords stay. */
  lemma PositionalAppended(args: seq<Value>, allowed: set<string>, a: Value)
    requires ExtractKwargs(args, allowed).Ok? && !IsOption(a)
    ensures var (pos, kw) := ExtractKwargs(args, allowed).value;
      ExtractKwargs(args + [a], allowed) == Ok((pos + [a], kw))
  {
    var args' := args + [a];
    assert args'[..|args'| - 1] == args && args'[|args'| - 1] == a;
    assert Positional(args') == Positional(args) + [a];
    assert OptionTexts(args') == OptionTexts(args);
  }

  /** Plain values are all positional. */
  lemma TwoPositional(x: Value, y: Value, allowed: set<string>)
    requires !IsOption(x) && !IsOption(y)
    ensures ExtractKwargs([x, y], allowed) == Ok(([x, y], map[]))
  {
    var a0: seq<Value> := [];
    assert ExtractKwargs(a0, allowed) == Ok(([], map[]));
    PositionalAppended(a0, allowed, x);
    assert a0 + [x] == [x];
    PositionalAppended([x], allowed, y);
    assert [x] + [y] == [x, y];
  }

  /** Two positional arguments and an option. */
  lemma OptionAfterTwo(x: Value, y: Value, k: string, v: string, allowed: set<string>)
    requires !IsOption(x) && !IsOption(y)
    requires '=' !in k && (allowed == {} || k in allowed)
    ensures ExtractKwargs([x, y, VStr("--" + k + "=" + v)], allowed) == Ok(([x, y], map[k := v]))
  {
    TwoPositional(x, y, allowed);
    OptionAppended([x, y], allowed, k, v);
    assert [x, y] + [VStr("--" + k + "=" + v)] == [x, y, VStr("--" + k + "=" + v)];
  }

  /** Two positional arguments, an option, and one more positional argument. */
  lemma OptionBetween(x: Value, y: Value, k: string, v: string, z: Value, allowed: set<string>)
    requires !IsOption(x) && !IsOption(y) && !IsOption(z)
    requires '=' !in k && (allowed == {} || k in allowed)
    ensures ExtractKwargs([x, y, VStr("--" + k + "=" + v), z], allowed) == Ok(([x, y, z], map[k := v]))
  {
    var o := VStr("--" + k + "=" + v);
    OptionAfterTwo(x, y, k, v, allowed);
    PositionalAppended([x, y, o], allowed, z);
    assert [x, y, o] + [z] == [x, y, o, z] && [x, y] + [z] == [x, y, z];
  }

  /** The example of the docstring: `[1, 2, '--three=four', 4]` with `['three']` allowed. */
  lemma DocstringExample()
    ensures ExtractKwargs([VInt(1), VInt(2), VStr("--three=four"), VInt(4)], {"three"})
         == Ok(([VInt(1), VInt(2), VInt(4)], map["three" := "four"]))
  {
    assert "three"[3] != '=';
    OptionText("three", "four", "--three=four");
    OptionBetween(VInt(1), VInt(2), "three", "four", VInt(4), {"three"});
  }

  lemma OptionText(k: string, v: string, t: string)
    requires |t| == |k| + |v| + 3 && t[..2] == "--" && t[2..2 + |k|] == k
    requires t[2 + |k|] == '=' && t[3 + |k|..] == v
    ensures "--" + k + "=" + v == t
  {
    assert t == t[..2] + t[2..2 + |k|] + [t[2 + |k|]] + t[3 + |k|..];
  }
}
