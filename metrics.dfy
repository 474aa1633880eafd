/**
 * The metrics store: counters, gauges and bounded sample lists kept in a public and a
 * private dictionary, each with its own type map; the samples are pruned (the oldest first,
 * or at random) before a new one is appended.
 */
module Metrics {
  import opened Wrappers
  import opened PyText
  import opened Values

  const CountType: string := "count"
  const GuageType: string := "guage"
  const SampleType: string := "sample"
  const MaxSamples: nat := 25
  const PruneOldest: int := 0
  const PruneRandom: int := 1

  /**
   * One of the two dictionaries: the metrics by key, and its `_type_map` entry (kept apart
   * here; no metric key may be `_type_map`).
   */
  datatype Store = Store(stats: map<string, Value>, types: map<string, string>)

  const Fresh: Store := Store(map[], map[])

  /** `s2` differs from `s1` at most at `key`. */
  predicate OnlyAt(s1: Store, s2: Store, key: string)
  {
    && s2.stats.Keys <= s1.stats.Keys + {key} && s2.types.Keys <= s1.types.Keys + {key}
    && (forall k :: k in s1.stats && k != key ==> k in s2.stats && s2.stats[k] == s1.stats[k])
    && (forall k :: k in s1.types && k != key ==> k in s2.types && s2.types[k] == s1.types[k])
  }

  /**
   * The float `float(t) + cnt` for the float written `t`: float arithmetic is not modelled,
   * so the caller supplies it.
   */
  type FloatPlus = (string, int) -> string

  /** `max_samples or METRICS_MAX_SAMPLES`. */
  function Limit(maxSamples: nat): (m: nat)
    ensures m >= 1
    ensures maxSamples != 0 ==> m == maxSamples
  {
    if maxSamples == 0 then MaxSamples else maxSamples
  }

  // ---------------------------------------------------------------- gauges and counters

  /** `metrics_guage`: the value is stored only when the key is new; the type is recorded. */
  function Guaged(s: Store, key: string, val: Value): (r: Store)
    ensures OnlyAt(s, r, key) && key in r.stats
    ensures key in s.stats ==> r.stats[key] == s.stats[key]
    ensures key !in s.stats ==> key in r.stats && r.stats[key] == val
    ensures r.types == s.types[key := GuageType]
  {
    Store(s.stats[key := if key in s.stats then s.stats[key] else val], s.types[key := GuageType])
  }

  /** `stats.get(key, 0) + cnt`. */
  function Plus(v: Value, cnt: int, fplus: FloatPlus): (r: Result<Value, Exc>)
    ensures v.VInt? ==> r == Ok(VInt(v.i + cnt))
    ensures v.VBool? ==> r == Ok(VInt((if v.b then 1 else 0) + cnt))
    ensures v.VFloat? ==> r == Ok(VFloat(fplus(v.text, cnt)))
    ensures r.Err? <==> !v.VInt? && !v.VBool? && !v.VFloat?
    ensures r.Err? ==> r.error.kind == TypeError
  {
    match v
    case VInt(n) => Ok(VInt(n + cnt))
    case VBool(b) => Ok(VInt((if b then 1 else 0) + cnt))
    case VFloat(t) => Ok(VFloat(fplus(t, cnt)))
    case VStr(_) => Err(Exc(TypeError, "can only concatenate str (not \"int\") to str"))
    case VList(_) => Err(Exc(TypeError, "can only concatenate list (not \"int\") to list"))
    case VTuple(_) => Err(Exc(TypeError, "can only concatenate tuple (not \"int\") to tuple"))
    case VBytes(_) => Err(Exc(TypeError, "can't concat int to bytes"))
    case _ => Err(Exc(TypeError, "unsupported operand type(s) for +: '" + TypeName(v) + "' and 'int'"))
  }

  /** `metrics_count`: add `cnt` to the key, starting from 0, and record the type. */
  function Counted(s: Store, key: string, cnt: int, fplus: FloatPlus): (r: Result<Store, Exc>)
    ensures r.Ok? ==> OnlyAt(s, r.value, key)
    ensures r.Ok? ==> key in r.value.stats && r.value.types == s.types[key := CountType]
    ensures key !in s.stats ==> r == Ok(Store(s.stats[key := VInt(cnt)], s.types[key := CountType]))
    ensures key in s.stats && s.stats[key].VInt? ==> r.Ok? && r.value.stats[key] == VInt(s.stats[key].i + cnt)
    ensures key in s.stats && s.stats[key].VFloat? ==> r.Ok? && r.value.stats[key] == VFloat(fplus(s.stats[key].text, cnt))
    ensures r.Err? <==> key in s.stats && !s.stats[key].VInt? && !s.stats[key].VBool? && !s.stats[key].VFloat?
  {
    match Plus(if key in s.stats then s.stats[key] else VInt(0), cnt, fplus)
    case Err(e) => Err(e)
    case Ok(v) => Ok(Store(s.stats[key := v], s.types[key := CountType]))
  }

  // ---------------------------------------------------------------- samples

  /** `a` is `b` with some elements left out, the rest in order. */
  predicate IsSubseq<T(==)>(a: seq<T>, b: seq<T>)
    decreases |b|
  {
    if a == [] then true
    else if b == [] then false
    else (a[|a| - 1] == b[|b| - 1] && IsSubseq(a[..|a| - 1], b[..|b| - 1])) || IsSubseq(a, b[..|b| - 1])
  }

  lemma {:induction false} SubseqRefl<T>(a: seq<T>)
    ensures IsSubseq(a, a)
    decreases |a|
  {
    if a != [] {
      SubseqRefl(a[..|a| - 1]);
    }
  }

  /** Removing one element leaves a subsequence. */
  lemma {:induction false} SubseqDrop<T>(b: seq<T>, i: nat)
    requires i < |b|
    ensures IsSubseq(b[..i] + b[i + 1..], b)
    decreases |b|
  {
    var n := |b| - 1;
    var c := b[..i] + b[i + 1..];
    if i == n {
      assert c == b[..n];
      SubseqRefl(b[..n]);
      if c != [] {
        assert IsSubseq(c, b[..|b| - 1]);
      }
    } else {
      assert c[|c| - 1] == b[n];
      assert c[..|c| - 1] == b[..n][..i] + b[..n][i + 1..];
      SubseqDrop(b[..n], i);
    }
  }

  lemma {:induction false} SubseqTrans<T>(a: seq<T>, b: seq<T>, c: seq<T>)
    requires IsSubseq(a, b) && IsSubseq(b, c)
    ensures IsSubseq(a, c)
    decreases |c|
  {
    if a != [] {
      assert b != [] && c != [];
      var c' := c[..|c| - 1];
      if IsSubseq(b, c') {
        SubseqTrans(a, b, c');
      } else {
        var b' := b[..|b| - 1];
        assert b[|b| - 1] == c[|c| - 1] && IsSubseq(b', c');
        if a[|a| - 1] == b[|b| - 1] && IsSubseq(a[..|a| - 1], b') {
          SubseqTrans(a[..|a| - 1], b', c');
        } else {
          SubseqTrans(a, b', c');
        }
      }
    }
  }

  /** `_prune_oldest_samples` on a list: drop from the front until fewer than `m` are left. */
  function Oldest<T>(vals: seq<T>, m: nat): (r: seq<T>)
    requires m >= 1
    ensures |r| == Min(|vals|, m - 1)
    ensures r == vals[|vals| - |r|..]
    decreases |vals|
  {
    if |vals| < m then vals else Oldest(vals[1..], m)
  }

  /** The index `random.randint(0, n - 1)` gives for the `step`-th pop of the list at `key`, reduced into range. */
  type Draw = (string, nat, nat) -> nat

  /** `_prune_samples_at_random` on a list: drop random elements until fewer than `m` are left. */
  function AtRandom<T>(key: string, vals: seq<T>, m: nat, draw: Draw, step: nat): (r: seq<T>)
    requires m >= 1
    ensures |r| == Min(|vals|, m - 1)
    ensures IsSubseq(r, vals)
    decreases |vals|
  {
    if |vals| < m then
      SubseqRefl(vals);
      vals
    else
      var i := draw(key, step, |vals|) % |vals|;
      var rest := vals[..i] + vals[i + 1..];
      var r := AtRandom(key, rest, m, draw, step + 1);
      SubseqDrop(vals, i);
      SubseqTrans(r, rest, vals);
      r
  }

  /** `_prune_oldest_samples(vals, max_samples)`. */
  method PruneOldestSamples<T>(vals: seq<T>, maxSamples: nat) returns (kept: seq<T>)
    ensures kept == Oldest(vals, Limit(maxSamples))
  {
    var m := Limit(maxSamples);
    kept := vals;
    while |kept| >= m
      invariant Oldest(kept, m) == Oldest(vals, m)
      decreases |kept|
    {
      kept := kept[1..];
    }
  }

  /** `_prune_samples_at_random(vals, max_samples)`, the list being the one stored at `key`. */
  method PruneSamplesAtRandom<T>(key: string, vals: seq<T>, maxSamples: nat, draw: Draw) returns (kept: seq<T>)
    ensures kept == AtRandom(key, vals, Limit(maxSamples), draw, 0)
  {
    var m := Limit(maxSamples);
    kept := vals;
    var step := 0;
    while |kept| >= m
      invariant AtRandom(key, kept, m, draw, step) == AtRandom(key, vals, m, draw, 0)
      decreases |kept|
    {
      var i := draw(key, step, |kept|) % |kept|;
      kept := kept[..i] + kept[i + 1..];
      step := step + 1;
    }
  }

  /** The list after pruning by the method `prune` names. */
  function Pruned(key: string, vals: seq<Value>, maxSamples: nat, prune: int, draw: Draw): (r: seq<Value>)
    ensures |r| == Min(|vals|, Limit(maxSamples) - 1)
    ensures IsSubseq(r, vals)
  {
    var m := Limit(maxSamples);
    if prune == PruneRandom then AtRandom(key, vals, m, draw, 0)
    else
      var r := Oldest(vals, m);
      assert vals == vals[..|vals| - |r|] + r;
      SubseqRefl(r);
      SuffixSubseq(vals[..|vals| - |r|], r);
      r
  }

  /** A suffix is a subsequence. */
  lemma {:induction false} SuffixSubseq<T>(a: seq<T>, b: seq<T>)
    requires IsSubseq(b, b)
    ensures IsSubseq(b, a + b)
    decreases |b|
  {
    if b != [] {
      var n := |b| - 1;
      assert (a + b)[..|a + b| - 1] == a + b[..n];
      SubseqRefl(b[..n]);
      SuffixSubseq(a, b[..n]);
    }
  }


  /**
   * The exception `metrics_sample` raises when the key holds something other than a list:
   * no `len()` for numbers, None and objects; no `pop` or `append` for text, bytes and
   * tuples; a dict has no entry at the index popped.
   */
  function NotAList(key: string, v: Value, maxSamples: nat, prune: int, draw: Draw): (e: Exc)
    requires !v.VList?
    ensures (v.VStr? || v.VBytes? || v.VTuple?) ==> e.kind == AttributeError
    ensures (v.VNone? || v.VBool? || v.VInt? || v.VFloat? || v.VObject?) ==> e.kind == TypeError
  {
    var m := Limit(maxSamples);
    match v
    case VStr(s) => Exc(AttributeError, "'str' object has no attribute '" + (if |s| >= m then "pop" else "append") + "'")
    case VBytes(b) => Exc(AttributeError, "'bytes' object has no attribute '" + (if |b| >= m then "pop" else "append") + "'")
    case VTuple(t) => Exc(AttributeError, "'tuple' object has no attribute '" + (if |t| >= m then "pop" else "append") + "'")
    case VDict(d) =>
      if |d| >= m then Exc(KeyError, Decimal(if prune == PruneRandom then draw(key, 0, |d|) % |d| else 0))
      else Exc(AttributeError, "'dict' object has no attribute 'append'")
    case _ => Exc(TypeError, "object of type '" + TypeName(v) + "' has no len()")
  }

  /**
   * `metrics_sample`: the list at the key (a new empty one when absent) is pruned and the
   * value appended; the type is recorded first, so it stays recorded when the key holds
   * something that is not a list and the call raises.
   */
  function Sampled(s: Store, key: string, val: Value, maxSamples: nat, prune: int, draw: Draw): (r: (Store, Option<Exc>))
    ensures OnlyAt(s, r.0, key) && key in r.0.stats
    ensures r.0.types == s.types[key := SampleType]
    ensures r.1.None? <==> key !in s.stats || s.stats[key].VList?
    ensures r.1.None? ==> var before := if key in s.stats then s.stats[key].items else [];
      && r.0.stats[key].VList?
      && |r.0.stats[key].items| == Min(|before|, Limit(maxSamples) - 1) + 1
      && r.0.stats[key].items[|r.0.stats[key].items| - 1] == val
      && IsSubseq(r.0.stats[key].items[..|r.0.stats[key].items| - 1], before)
    ensures r.1.Some? ==> r.0.stats == s.stats
  {
    var current := if key in s.stats then s.stats[key] else VList([]);
    var s1 := Store(s.stats[key := current], s.types[key := SampleType]);
    if current.VList? then
      var kept := Pruned(key, current.items, maxSamples, prune, draw);
      assert (kept + [val])[..|kept|] == kept;
      (Store(s1.stats[key := VList(kept + [val])], s1.types), None)
    else
      assert s1.stats == s.stats;
      (s1, Some(NotAList(key, current, maxSamples, prune, draw)))
  }

  /** A sample list never grows past the limit, and the newest value is kept. */
  lemma SampleBounded(s: Store, key: string, val: Value, maxSamples: nat, prune: int, draw: Draw)
    requires key !in s.stats || s.stats[key].VList?
    ensures var items := Sampled(s, key, val, maxSamples, prune, draw).0.stats[key].items;
      0 < |items| <= Limit(maxSamples) && val in items
  {
  }

  // ---------------------------------------------------------------- both stores

  /** The public and the private dictionary. */
  datatype Stores = Stores(pub: Store, priv: Store)

  /** `_get_stats(public)`. */
  function Pick(st: Stores, public: bool): Store
  {
    if public then st.pub else st.priv
  }

  /** `st` with the dictionary `public` selects replaced. */
  function Put(st: Stores, public: bool, s: Store): (r: Stores)
    ensures Pick(r, public) == s && Pick(r, !public) == Pick(st, !public)
  {
    if public then Stores(s, st.priv) else Stores(st.pub, s)
  }

  /** `s2` differs from `s1` at most at the keys of `keys`, and lost none. */
  predicate Within(s1: Store, s2: Store, keys: set<string>)
  {
    && s2.stats.Keys <= s1.stats.Keys + keys && s2.types.Keys <= s1.types.Keys + keys
    && (forall k :: k in s1.stats && k !in keys ==> k in s2.stats && s2.stats[k] == s1.stats[k])
    && (forall k :: k in s1.types && k !in keys ==> k in s2.types && s2.types[k] == s1.types[k])
  }

  /** One call `metrics_http_request` makes. */
  datatype Call = CountCall(key: string, cnt: int, public: bool) | SampleCall(key: string, val: Value, public: bool)

  /** The effect of one call: only the selected dictionary changes, and only at the call's key. */
  function Perform(st: Stores, c: Call, draw: Draw, fplus: FloatPlus): (r: (Stores, Option<Exc>))
    ensures Pick(r.0, !c.public) == Pick(st, !c.public)
    ensures OnlyAt(Pick(st, c.public), Pick(r.0, c.public), c.key)
  {
    var s := Pick(st, c.public);
    match c
    case CountCall(key, cnt, public) =>
      (match Counted(s, key, cnt, fplus)
       case Err(e) => (st, Some(e))
       case Ok(s') => (Put(st, public, s'), None))
    case SampleCall(key, val, public) =>
      var (s', e) := Sampled(s, key, val, 0, PruneRandom, draw);
      (Put(st, public, s'), e)
  }

  /** The calls in order, stopping at the first that raises. */
  function PerformAll(st: Stores, calls: seq<Call>, draw: Draw, fplus: FloatPlus): (r: (Stores, Option<Exc>))
    decreases |calls|
  {
    if calls == [] then (st, None)
    else
      var (st', e) := PerformAll(st, calls[..|calls| - 1], draw, fplus);
      if e.Some? then (st', e) else Perform(st', calls[|calls| - 1], draw, fplus)
  }

  /** Running two lists of calls is running their concatenation. */
  lemma {:induction false} PerformAllAppend(st: Stores, xs: seq<Call>, ys: seq<Call>, draw: Draw, fplus: FloatPlus)
    ensures PerformAll(st, xs, draw, fplus).1.Some? ==> PerformAll(st, xs + ys, draw, fplus) == PerformAll(st, xs, draw, fplus)
    ensures PerformAll(st, xs, draw, fplus).1.None? ==>
      PerformAll(st, xs + ys, draw, fplus) == PerformAll(PerformAll(st, xs, draw, fplus).0, ys, draw, fplus)
    decreases |ys|
  {
    if ys == [] {
      assert xs + ys == xs;
    } else {
      var n := |ys| - 1;
      assert (xs + ys)[..|xs + ys| - 1] == xs + ys[..n];
      assert (xs + ys)[|xs + ys| - 1] == ys[n];
      PerformAllAppend(st, xs, ys[..n], draw, fplus);
    }
  }

  /** Calls that reach one dictionary only at `keys` change that dictionary only there. */
  lemma {:induction false} SideWithin(st: Stores, calls: seq<Call>, public: bool, keys: set<string>, draw: Draw, fplus: FloatPlus)
    requires SideIn(calls, public, keys)
    ensures Within(Pick(st, public), Pick(PerformAll(st, calls, draw, fplus).0, public), keys)
    decreases |calls|
  {
    if calls != [] {
      var n := |calls| - 1;
      assert forall i :: 0 <= i < n ==> calls[..n][i] == calls[i];
      SideWithin(st, calls[..n], public, keys, draw, fplus);
    }
  }

  /** `'_unix' if via_unix_domain else '_tcp'`. */
  function Via(unixDomain: bool): string
  {
    if unixDomain then "_unix" else "_tcp"
  }

  /** The keys one turn of `metrics_http_request` writes: `<prefix>_<code>`, the transport, bytes sent, time. */
  function CodeKey(prefix: string, code: int): string
  {
    prefix + ("_" + Decimal(code))
  }

  function ViaKey(prefix: string, unixDomain: bool): string
  {
    prefix + Via(unixDomain)
  }

  function SentKey(prefix: string): string
  {
    prefix + "_sent_bytes"
  }

  function ElapsedKey(prefix: string): string
  {
    prefix + "_elapsed_us"
  }

  /** The four keys one turn writes. */
  datatype Keys = Keys(code: string, via: string, sent: string, elapsed: string)

  function KeysOf(prefix: string, code: int, unixDomain: bool): Keys
  {
    Keys(CodeKey(prefix, code), ViaKey(prefix, unixDomain), SentKey(prefix), ElapsedKey(prefix))
  }

  /** The calls of a turn: the counts go to the dictionary `public` selects, the transport count to the private one. */
  function TurnOf(public: bool, k: Keys, sent: int, elapsedUs: int): seq<Call>
  {
    [CountCall(k.code, 1, public), CountCall(k.via, 1, false)]
    + (if sent != 0 then [CountCall(k.sent, sent, public)] else [])
    + (if elapsedUs != 0 then [SampleCall(k.elapsed, VInt(elapsedUs), public)] else [])
  }

  /** The calls of one turn of the loop in `metrics_http_request`. */
  function TurnCalls(prefix: string, code: int, unixDomain: bool, sent: int, elapsedUs: int): seq<Call>
  {
    TurnOf(prefix == "http", KeysOf(prefix, code, unixDomain), sent, elapsedUs)
  }

  /** All calls of `metrics_http_request`: those for `http`, then those for the handler's name. */
  function RequestCalls(code: int, handler: string, unixDomain: bool, sent: int, elapsedUs: int): seq<Call>
  {
    TurnCalls("http", code, unixDomain, sent, elapsedUs) + TurnCalls(handler, code, unixDomain, sent, elapsedUs)
  }

  /** The keys a turn counts or samples into the dictionary `public` selects. */
  function TurnKeys(prefix: string, code: int): set<string>
  {
    {CodeKey(prefix, code), SentKey(prefix), ElapsedKey(prefix)}
  }

  /** The public keys a request may touch: `http_<code>`, `http_sent_bytes`, `http_elapsed_us`. */
  function PublicKeys(code: int): set<string>
  {
    TurnKeys("http", code)
  }

  /** Every call among `calls` to the dictionary `public` selects is at one of `keys`. */
  predicate SideIn(calls: seq<Call>, public: bool, keys: set<string>)
  {
    forall i :: 0 <= i < |calls| && calls[i].public == public ==> calls[i].key in keys
  }

  lemma SideInAppend(xs: seq<Call>, ys: seq<Call>, public: bool, keys: set<string>)
    requires SideIn(xs, public, keys) && SideIn(ys, public, keys)
    ensures SideIn(xs + ys, public, keys)
  {
    forall i | 0 <= i < |xs + ys| && (xs + ys)[i].public == public
      ensures (xs + ys)[i].key in keys
    {
      if i >= |xs| {
        assert (xs + ys)[i] == ys[i - |xs|];
      }
    }
  }

  /** In a turn, the public calls are those of the `http` prefix, at its public keys. */
  lemma TurnPublic(prefix: string, code: int, unixDomain: bool, sent: int, elapsedUs: int)
    ensures SideIn(TurnCalls(prefix, code, unixDomain, sent, elapsedUs), true, PublicKeys(code))
  {
    var public := prefix == "http";
    var keys := PublicKeys(code);
    var opt3 := if sent != 0 then [CountCall(SentKey(prefix), sent, public)] else [];
    var opt4 := if elapsedUs != 0 then [SampleCall(ElapsedKey(prefix), VInt(elapsedUs), public)] else [];
    var head := [CountCall(CodeKey(prefix, code), 1, public), CountCall(ViaKey(prefix, unixDomain), 1, false)];
    assert SideIn(head, true, keys);
    assert SideIn(opt3, true, keys);
    assert SideIn(opt4, true, keys);
    SideInAppend(head, opt3, true, keys);
    SideInAppend(head + opt3, opt4, true, keys);
  }

  /**
   * The public dictionary only changes at the `http_` keys of the status code, the bytes
   * sent and the elapsed time, whatever the handler is called.
   */
  lemma RequestPublic(st: Stores, code: int, handler: string, unixDomain: bool, sent: int, elapsedUs: int, draw: Draw, fplus: FloatPlus)
    ensures Within(st.pub, PerformAll(st, RequestCalls(code, handler, unixDomain, sent, elapsedUs), draw, fplus).0.pub, PublicKeys(code))
  {
    TurnPublic("http", code, unixDomain, sent, elapsedUs);
    TurnPublic(handler, code, unixDomain, sent, elapsedUs);
    SideInAppend(TurnCalls("http", code, unixDomain, sent, elapsedUs), TurnCalls(handler, code, unixDomain, sent, elapsedUs), true, PublicKeys(code));
    SideWithin(st, RequestCalls(code, handler, unixDomain, sent, elapsedUs), true, PublicKeys(code), draw, fplus);
  }

  /** The keys a turn reaches in the private dictionary: all of them unless the prefix is `http`. */
  function PrivateTurnKeys(prefix: string, code: int, unixDomain: bool): set<string>
  {
    {ViaKey(prefix, unixDomain)} + (if prefix == "http" then {} else TurnKeys(prefix, code))
  }

  /**
   * In a turn, the private calls are the connection counter and, unless the prefix is
   * `http`, all the others.
   */
  lemma TurnPrivate(prefix: string, code: int, unixDomain: bool, sent: int, elapsedUs: int)
    ensures SideIn(TurnCalls(prefix, code, unixDomain, sent, elapsedUs), false, PrivateTurnKeys(prefix, code, unixDomain))
  {
    var public := prefix == "http";
    var keys := PrivateTurnKeys(prefix, code, unixDomain);
    var opt3 := if sent != 0 then [CountCall(SentKey(prefix), sent, public)] else [];
    var opt4 := if elapsedUs != 0 then [SampleCall(ElapsedKey(prefix), VInt(elapsedUs), public)] else [];
    var head := [CountCall(CodeKey(prefix, code), 1, public), CountCall(ViaKey(prefix, unixDomain), 1, false)];
    assert SideIn(head, false, keys);
    assert SideIn(opt3, false, keys);
    assert SideIn(opt4, false, keys);
    SideInAppend(head, opt3, false, keys);
    SideInAppend(head + opt3, opt4, false, keys);
  }

  /**
   * The private dictionary only changes at `http_unix` or `http_tcp` and at the keys of the
   * handler's own turn.
   */
  lemma RequestPrivate(st: Stores, code: int, handler: string, unixDomain: bool, sent: int, elapsedUs: int, draw: Draw, fplus: FloatPlus)
    ensures var keys := PrivateTurnKeys("http", code, unixDomain) + PrivateTurnKeys(handler, code, unixDomain);
      Within(st.priv, PerformAll(st, RequestCalls(code, handler, unixDomain, sent, elapsedUs), draw, fplus).0.priv, keys)
  {
    var keys := PrivateTurnKeys("http", code, unixDomain) + PrivateTurnKeys(handler, code, unixDomain);
    TurnPrivate("http", code, unixDomain, sent, elapsedUs);
    TurnPrivate(handler, code, unixDomain, sent, elapsedUs);
    SideInAppend(TurnCalls("http", code, unixDomain, sent, elapsedUs), TurnCalls(handler, code, unixDomain, sent, elapsedUs), false, keys);
    SideWithin(st, RequestCalls(code, handler, unixDomain, sent, elapsedUs), false, keys, draw, fplus);
  }

  /** The connection counters are not among the public keys. */
  lemma ViaNotPublic(code: int, unixDomain: bool)
    ensures ViaKey("http", unixDomain) !in PublicKeys(code)
  {
    var via := Via(unixDomain);
    assert via[1] == 'u' || via[1] == 't';
    DecimalStart(code);
    DifferAfter("http", via, "_" + Decimal(code), 1);
    DifferAfter("http", via, "_sent_bytes", 1);
    DifferAfter("http", via, "_elapsed_us", 1);
  }

  /** Texts with a common prefix that differ after it. */
  lemma DifferAfter(p: string, x: string, y: string, i: nat)
    requires i < |x| && i < |y| && x[i] != y[i]
    ensures p + x != p + y
  {
    assert (p + x)[|p| + i] == x[i];
    assert (p + y)[|p| + i] == y[i];
  }

  /** The connection counters (`http_unix`, `http_tcp`) never reach the public dictionary. */
  lemma ViaPrivate(st: Stores, code: int, handler: string, unixDomain: bool, sent: int, elapsedUs: int, draw: Draw, fplus: FloatPlus)
    requires ViaKey("http", unixDomain) !in st.pub.stats
    ensures ViaKey("http", unixDomain) !in PerformAll(st, RequestCalls(code, handler, unixDomain, sent, elapsedUs), draw, fplus).0.pub.stats
  {
    RequestPublic(st, code, handler, unixDomain, sent, elapsedUs, draw, fplus);
    ViaNotPublic(code, unixDomain);
  }

  /** A decimal starts with a digit or a minus sign. */
  lemma DecimalStart(n: int)
    ensures Decimal(n) != [] && (Decimal(n)[0] == '-' || '0' <= Decimal(n)[0] <= '9')
  {
  }

  // ---------------------------------------------------------------- the object

  /** The metrics mix-in's state: `stats_public` and `stats_private`. */
  class Varz {
    var pub: Store
    var priv: Store

    /** `__init__`: both dictionaries hold only an empty type map. */
    constructor()
      ensures pub == Fresh && priv == Fresh
    {
      pub := Fresh;
      priv := Fresh;
    }

    function State(): Stores
      reads this
    {
      Stores(pub, priv)
    }

    /** `metrics_guage(key, val, public)`. */
    method MetricsGuage(key: string, val: Value, public: bool)
      modifies this
      ensures State() == Put(old(State()), public, Guaged(Pick(old(State()), public), key, val))
    {
      if public {
        pub := Guaged(pub, key, val);
      } else {
        priv := Guaged(priv, key, val);
      }
    }

    /** `metrics_count(key, cnt, public)`; the dictionaries are unchanged when it raises. */
    method MetricsCount(key: string, cnt: int, public: bool, fplus: FloatPlus) returns (err: Option<Exc>)
      modifies this
      ensures (State(), err) == Perform(old(State()), CountCall(key, cnt, public), (k, s, n) => 0, fplus)
    {
      var stats := if public then pub else priv;
      match Counted(stats, key, cnt, fplus)
      case Err(e) =>
        return Some(e);
      case Ok(s) =>
        if public {
          pub := s;
        } else {
          priv := s;
        }
        return None;
    }

    /** `metrics_sample(key, val, max_samples, prune, public)`. */
    method MetricsSample(key: string, val: Value, maxSamples: nat, prune: int, public: bool, draw: Draw)
      returns (err: Option<Exc>)
      modifies this
      ensures var (s, e) := Sampled(Pick(old(State()), public), key, val, maxSamples, prune, draw);
        State() == Put(old(State()), public, s) && err == e
    {
      var before := if public then pub else priv;
      var stats := before;
      var current := if key in stats.stats then stats.stats[key] else VList([]);
      stats := Store(stats.stats[key := current], stats.types[key := SampleType]);
      if current.VList? {
        var kept;
        if prune == PruneRandom {
          kept := PruneSamplesAtRandom(key, current.items, maxSamples, draw);
        } else {
          kept := PruneOldestSamples(current.items, maxSamples);
        }
        assert kept == Pruned(key, current.items, maxSamples, prune, draw);
        stats := Store(stats.stats[key := VList(kept + [val])], stats.types);
        err := None;
        assert (stats, err) == Sampled(before, key, val, maxSamples, prune, draw);
      } else {
        err := Some(NotAList(key, current, maxSamples, prune, draw));
        assert (stats, err) == Sampled(before, key, val, maxSamples, prune, draw);
      }
      if public {
        pub := stats;
      } else {
        priv := stats;
      }
    }

    /** The `metrics_count` or `metrics_sample` call `c` stands for. */
    method Apply(c: Call, draw: Draw, fplus: FloatPlus) returns (err: Option<Exc>)
      modifies this
      ensures (State(), err) == Perform(old(State()), c, draw, fplus)
    {
      match c
      case CountCall(key, cnt, public) =>
        err := MetricsCount(key, cnt, public, fplus);
      case SampleCall(key, val, public) =>
        err := MetricsSample(key, val, 0, PruneRandom, public, draw);
    }

    /** The calls in order, up to the first that raises. */
    method ApplyAll(calls: seq<Call>, draw: Draw, fplus: FloatPlus) returns (err: Option<Exc>)
      modifies this
      ensures (State(), err) == PerformAll(old(State()), calls, draw, fplus)
    {
      ghost var st := State();
      assert calls[..0] == [];
      for j := 0 to |calls|
        invariant PerformAll(st, calls[..j], draw, fplus) == (State(), None)
      {
        PerformAllNext(st, calls, j, draw, fplus);
        err := Apply(calls[j], draw, fplus);
        if err.Some? {
          PerformAllRaised(st, calls, j + 1, draw, fplus);
          return;
        }
      }
      assert calls[..|calls|] == calls;
      err := None;
    }

    /**
     * `metrics_http_request(request_info, elapsed_us, sent)` with the request's status code,
     * handler name and socket kind; `sent` and `elapsedUs` are 0 when absent. The loop over
     * the prefixes `http` and the handler's name is unrolled.
     */
    method MetricsHttpRequest(code: int, handler: string, unixDomain: bool, sent: int, elapsedUs: int, draw: Draw, fplus: FloatPlus)
      returns (err: Option<Exc>)
      modifies this
      ensures (State(), err) == PerformAll(old(State()), RequestCalls(code, handler, unixDomain, sent, elapsedUs), draw, fplus)
    {
      PerformAllAppend(State(), TurnCalls("http", code, unixDomain, sent, elapsedUs),
        TurnCalls(handler, code, unixDomain, sent, elapsedUs), draw, fplus);
      err := ApplyAll(TurnCalls("http", code, unixDomain, sent, elapsedUs), draw, fplus);
      if err.Some? {
        return;
      }
      err := ApplyAll(TurnCalls(handler, code, unixDomain, sent, elapsedUs), draw, fplus);
    }

    /**
     * `public_api_varz(request_info)` without the start-time gauge: the public metrics, and
     * for an authenticated caller the private ones over them. The merged type map is the
     * private dictionary's own, so the public types are written into it.
     */
    method PublicApiVarz(authed: bool) returns (values: map<string, Value>, types: map<string, string>)
      modifies this
      ensures pub == old(pub) && priv.stats == old(priv.stats)
      ensures !authed ==> values == pub.stats && types == pub.types && priv == old(priv)
      ensures authed ==> values == pub.stats + priv.stats
      ensures authed ==> priv.types == old(priv.types) + pub.types && types == priv.types
    {
      values := pub.stats;
      types := pub.types;
      if authed {
        values := values + priv.stats;
        priv := Store(priv.stats, priv.types + pub.types);
        types := priv.types;
      }
    }
  }

  /** `metrics_count(key, c)` for each `c` in turn. */
  function CountAll(s: Store, key: string, cnts: seq<int>, fplus: FloatPlus): (r: Result<Store, Exc>)
    ensures r.Ok? ==> cnts != [] ==> key in r.value.stats
  {
    if cnts == [] then Ok(s)
    else
      match CountAll(s, key, cnts[..|cnts| - 1], fplus)
      case Err(e) => Err(e)
      case Ok(s') => Counted(s', key, cnts[|cnts| - 1], fplus)
  }

  function Sum(xs: seq<int>): int
  {
    if xs == [] then 0 else Sum(xs[..|xs| - 1]) + xs[|xs| - 1]
  }

  /** One more call after a run that raised nothing. */
  lemma PerformAllNext(st: Stores, calls: seq<Call>, j: nat, draw: Draw, fplus: FloatPlus)
    requires j < |calls| && PerformAll(st, calls[..j], draw, fplus).1.None?
    ensures PerformAll(st, calls[..j + 1], draw, fplus) == Perform(PerformAll(st, calls[..j], draw, fplus).0, calls[j], draw, fplus)
  {
    Slices(calls, j);
    PerformAllStep(st, calls[..j], calls[j], draw, fplus);
  }

  lemma Slices<T>(s: seq<T>, j: nat)
    requires j <= |s|
    ensures j < |s| ==> s[..j + 1] == s[..j] + [s[j]]
    ensures s[..j] + s[j..] == s
  {
  }

  lemma PerformAllStep(st: Stores, calls: seq<Call>, c: Call, draw: Draw, fplus: FloatPlus)
    requires PerformAll(st, calls, draw, fplus).1.None?
    ensures PerformAll(st, calls + [c], draw, fplus) == Perform(PerformAll(st, calls, draw, fplus).0, c, draw, fplus)
  {
    assert (calls + [c])[..|calls|] == calls;
  }

  /** Once a call raised, the later calls do nothing. */
  lemma PerformAllRaised(st: Stores, calls: seq<Call>, j: nat, draw: Draw, fplus: FloatPlus)
    requires j <= |calls| && PerformAll(st, calls[..j], draw, fplus).1.Some?
    ensures PerformAll(st, calls, draw, fplus) == PerformAll(st, calls[..j], draw, fplus)
  {
    PerformAllAppend(st, calls[..j], calls[j..], draw, fplus);
    Slices(calls, j);
  }

  /** A fresh counter holds the sum of everything counted into it. */
  lemma {:induction false} CountsAdd(s: Store, key: string, cnts: seq<int>, fplus: FloatPlus)
    requires key !in s.stats
    ensures CountAll(s, key, cnts, fplus).Ok?
    ensures cnts != [] ==> CountAll(s, key, cnts, fplus).value.stats[key] == VInt(Sum(cnts))
    decreases |cnts|
  {
    if |cnts| > 1 {
      CountsAdd(s, key, cnts[..|cnts| - 1], fplus);
    }
  }
}
