/**
 * What one call of `metrics_http_request` does to the counters it names, proved over any
 * step that counts, samples and leaves other keys alone, and then for `Perform`.
 */
module Counting {
  import opened Wrappers
  import opened PyText
  import opened Values
  import opened Metrics

  /** `stats.get(key)`. */
  function At(s: Store, key: string): Option<Value>
  {
    if key in s.stats then Some(s.stats[key]) else None
  }

  /** The integer a counter holds, 0 when the key is absent. */
  function CountOf(s: Store, key: string): int
  {
    if At(s, key).Some? && At(s, key).value.VInt? then At(s, key).value.i else 0
  }

  /** The key is absent or holds an integer, so counting into it adds to `CountOf`. */
  predicate Countable(s: Store, key: string)
  {
    At(s, key).None? || At(s, key).value.VInt?
  }

  /** The key is absent or holds a list, so sampling into it cannot raise. */
  predicate Samplable(s: Store, key: string)
  {
    At(s, key).None? || At(s, key).value.VList?
  }

  /** The key holds the integer `n`. */
  predicate Counts(s: Store, key: string, n: int)
  {
    At(s, key) == Some(VInt(n))
  }

  /** The key holds a sample list, within the default limit, whose newest entry is `v`. */
  predicate Newest(s: Store, key: string, v: Value)
  {
    && At(s, key).Some? && At(s, key).value.VList?
    && 0 < |At(s, key).value.items| <= MaxSamples
    && At(s, key).value.items[|At(s, key).value.items| - 1] == v
  }

  /** The effect of one call, as a value: the counting lemmas below hold for any sound one. */
  type Step = (Stores, Call) -> (Stores, Option<Exc>)

  /** `Perform`, as a `Step`. */
  function Performs(draw: Draw, fplus: FloatPlus): Step
  {
    (st: Stores, c: Call) => Perform(st, c, draw, fplus)
  }

  /**
   * What the counting lemmas use of a step: a count into a countable key adds to it, a
   * sample into a key holding a list or nothing becomes the newest, neither raises, and no
   * other entry changes.
   */
  ghost predicate Sound(step: Step)
  {
    && (forall st: Stores, c: Call {:trigger step(st, c)} :: c.CountCall? && Countable(Pick(st, c.public), c.key) ==>
          && step(st, c).1.None?
          && Counts(Pick(step(st, c).0, c.public), c.key, CountOf(Pick(st, c.public), c.key) + c.cnt))
    && (forall st: Stores, c: Call {:trigger step(st, c)} :: c.SampleCall? && Samplable(Pick(st, c.public), c.key) ==>
          step(st, c).1.None? && Newest(Pick(step(st, c).0, c.public), c.key, c.val))
    && (forall st: Stores, c: Call, p: bool, k: string {:trigger At(Pick(step(st, c).0, p), k)} :: p != c.public || k != c.key ==>
          At(Pick(step(st, c).0, p), k) == At(Pick(st, p), k))
  }

  /** `Perform` is sound. */
  lemma PerformSound(draw: Draw, fplus: FloatPlus)
    ensures Sound(Performs(draw, fplus))
  {
    var step := Performs(draw, fplus);
    forall st: Stores, c: Call | c.CountCall? && Countable(Pick(st, c.public), c.key)
      ensures step(st, c).1.None?
      ensures Counts(Pick(step(st, c).0, c.public), c.key, CountOf(Pick(st, c.public), c.key) + c.cnt)
    {
      PerformCounts(st, c.key, c.cnt, c.public, draw, fplus);
    }
    forall st: Stores, c: Call | c.SampleCall? && Samplable(Pick(st, c.public), c.key)
      ensures step(st, c).1.None? && Newest(Pick(step(st, c).0, c.public), c.key, c.val)
    {
      PerformSamples(st, c.key, c.val, c.public, draw, fplus);
    }
    forall st: Stores, c: Call, p: bool, k: string | p != c.public || k != c.key
      ensures At(Pick(step(st, c).0, p), k) == At(Pick(st, p), k)
    {
      PerformKeeps(st, c, p, k, draw, fplus);
    }
  }

  lemma PerformCounts(st: Stores, key: string, cnt: int, public: bool, draw: Draw, fplus: FloatPlus)
    requires Countable(Pick(st, public), key)
    ensures var r := Perform(st, CountCall(key, cnt, public), draw, fplus);
      r.1.None? && Counts(Pick(r.0, public), key, CountOf(Pick(st, public), key) + cnt)
  {
  }

  lemma PerformSamples(st: Stores, key: string, val: Value, public: bool, draw: Draw, fplus: FloatPlus)
    requires Samplable(Pick(st, public), key)
    ensures var r := Perform(st, SampleCall(key, val, public), draw, fplus);
      r.1.None? && Newest(Pick(r.0, public), key, val)
  {
    SampleBounded(Pick(st, public), key, val, 0, PruneRandom, draw);
  }

  lemma PerformKeeps(st: Stores, c: Call, p: bool, k: string, draw: Draw, fplus: FloatPlus)
    requires p != c.public || k != c.key
    ensures At(Pick(Perform(st, c, draw, fplus).0, p), k) == At(Pick(st, p), k)
  {
  }

  /** `r`, followed by the step of `c` when `r` raised nothing. */
  function Then(r: (Stores, Option<Exc>), c: Call, step: Step): (Stores, Option<Exc>)
  {
    if r.1.Some? then r else step(r.0, c)
  }

  /** `PerformAll` over any step. */
  function Run(st: Stores, calls: seq<Call>, step: Step): (Stores, Option<Exc>)
    decreases |calls|
  {
    if calls == [] then (st, None) else Then(Run(st, calls[..|calls| - 1], step), calls[|calls| - 1], step)
  }

  lemma {:induction false} RunPerforms(st: Stores, calls: seq<Call>, draw: Draw, fplus: FloatPlus)
    ensures Run(st, calls, Performs(draw, fplus)) == PerformAll(st, calls, draw, fplus)
    decreases |calls|
  {
    if calls != [] {
      RunPerforms(st, calls[..|calls| - 1], draw, fplus);
    }
  }

  lemma RunSnoc(st: Stores, calls: seq<Call>, c: Call, step: Step)
    ensures Run(st, calls + [c], step) == Then(Run(st, calls, step), c, step)
  {
    assert (calls + [c])[..|calls|] == calls;
  }

  lemma {:induction false} RunAppend(st: Stores, xs: seq<Call>, ys: seq<Call>, step: Step)
    ensures Run(st, xs, step).1.None? ==> Run(st, xs + ys, step) == Run(Run(st, xs, step).0, ys, step)
    ensures Run(st, xs, step).1.Some? ==> Run(st, xs + ys, step) == Run(st, xs, step)
    decreases |ys|
  {
    if ys == [] {
      assert xs + ys == xs;
    } else {
      var n := |ys| - 1;
      assert xs + ys == (xs + ys[..n]) + [ys[n]];
      RunSnoc(st, xs + ys[..n], ys[n], step);
      RunSnoc(Run(st, xs, step).0, ys[..n], ys[n], step);
      assert ys == ys[..n] + [ys[n]];
      RunAppend(st, xs, ys[..n], step);
    }
  }

  /** The four keys of a turn differ from each other. */
  predicate Distinct(k: Keys)
  {
    && k.code != k.via && k.code != k.sent && k.code != k.elapsed
    && k.via != k.sent && k.via != k.elapsed && k.sent != k.elapsed
  }

  /**
   * A turn can count and sample without raising: its counters are absent or hold integers
   * and its time key is absent or holds a list.
   */
  predicate Ready(st: Stores, public: bool, k: Keys)
  {
    && Countable(Pick(st, public), k.code) && Countable(st.priv, k.via)
    && Countable(Pick(st, public), k.sent) && Samplable(Pick(st, public), k.elapsed)
  }

  /** A turn runs its calls one after the other. */
  lemma TurnSteps(st: Stores, public: bool, k: Keys, sent: int, elapsedUs: int, step: Step)
    ensures var r2 := Then(Then((st, None), CountCall(k.code, 1, public), step), CountCall(k.via, 1, false), step);
      var r3 := if sent != 0 then Then(r2, CountCall(k.sent, sent, public), step) else r2;
      var r4 := if elapsedUs != 0 then Then(r3, SampleCall(k.elapsed, VInt(elapsedUs), public), step) else r3;
      Run(st, TurnOf(public, k, sent, elapsedUs), step) == r4
  {
    var c1, c2 := CountCall(k.code, 1, public), CountCall(k.via, 1, false);
    var opt3 := if sent != 0 then [CountCall(k.sent, sent, public)] else [];
    var opt4 := if elapsedUs != 0 then [SampleCall(k.elapsed, VInt(elapsedUs), public)] else [];
    assert TurnOf(public, k, sent, elapsedUs) == [c1, c2] + opt3 + opt4;
    assert [] + [c1] == [c1] && [c1] + [c2] == [c1, c2];
    RunSnoc(st, [], c1, step);
    RunSnoc(st, [c1], c2, step);
    if sent != 0 {
      RunSnoc(st, [c1, c2], opt3[0], step);
    } else {
      assert [c1, c2] + opt3 == [c1, c2];
    }
    if elapsedUs != 0 {
      RunSnoc(st, [c1, c2] + opt3, opt4[0], step);
    } else {
      assert [c1, c2] + opt3 + opt4 == [c1, c2] + opt3;
    }
  }

  /** The four keys of a turn are distinct: they differ in the character after the prefix. */
  lemma TurnKeysDiffer(prefix: string, code: int, unixDomain: bool)
    ensures Distinct(KeysOf(prefix, code, unixDomain))
  {
    var via := Via(unixDomain);
    assert via[1] == 'u' || via[1] == 't';
    DecimalStart(code);
    DifferAfter(prefix, "_" + Decimal(code), via, 1);
    DifferAfter(prefix, "_" + Decimal(code), "_sent_bytes", 1);
    DifferAfter(prefix, "_" + Decimal(code), "_elapsed_us", 1);
    DifferAfter(prefix, via, "_sent_bytes", 1);
    DifferAfter(prefix, via, "_elapsed_us", 1);
    DifferAfter(prefix, "_sent_bytes", "_elapsed_us", 1);
  }

  /** The two counts a turn starts with. */
  lemma HeadCounts(st: Stores, public: bool, k: Keys, step: Step)
    requires Sound(step) && Distinct(k)
    requires Countable(Pick(st, public), k.code) && Countable(st.priv, k.via)
    ensures var r := Then(Then((st, None), CountCall(k.code, 1, public), step), CountCall(k.via, 1, false), step);
      var s, s' := Pick(st, public), Pick(r.0, public);
      && r.1.None?
      && Counts(s', k.code, CountOf(s, k.code) + 1)
      && Counts(r.0.priv, k.via, CountOf(st.priv, k.via) + 1)
      && At(s', k.sent) == At(s, k.sent) && At(s', k.elapsed) == At(s, k.elapsed)
  {
    var r1 := step(st, CountCall(k.code, 1, public));
    assert At(Pick(r1.0, false), k.via) == At(Pick(st, false), k.via);
    var r2 := step(r1.0, CountCall(k.via, 1, false));
    assert At(Pick(r2.0, public), k.code) == At(Pick(r1.0, public), k.code);
    assert At(Pick(r1.0, public), k.sent) == At(Pick(st, public), k.sent);
    assert At(Pick(r2.0, public), k.sent) == At(Pick(r1.0, public), k.sent);
    assert At(Pick(r1.0, public), k.elapsed) == At(Pick(st, public), k.elapsed);
    assert At(Pick(r2.0, public), k.elapsed) == At(Pick(r1.0, public), k.elapsed);
  }

  /** The count of the bytes sent, after the first two. */
  lemma SentCounts(r: (Stores, Option<Exc>), public: bool, k: Keys, sent: int, step: Step)
    requires Sound(step) && Distinct(k) && r.1.None? && Countable(Pick(r.0, public), k.sent)
    ensures var r' := Then(r, CountCall(k.sent, sent, public), step);
      var s, s' := Pick(r.0, public), Pick(r'.0, public);
      && r'.1.None?
      && Counts(s', k.sent, CountOf(s, k.sent) + sent)
      && At(s', k.code) == At(s, k.code) && At(s', k.elapsed) == At(s, k.elapsed)
      && At(r'.0.priv, k.via) == At(r.0.priv, k.via)
  {
    var r' := step(r.0, CountCall(k.sent, sent, public));
    assert At(Pick(r'.0, public), k.code) == At(Pick(r.0, public), k.code);
    assert At(Pick(r'.0, public), k.elapsed) == At(Pick(r.0, public), k.elapsed);
    assert At(Pick(r'.0, false), k.via) == At(Pick(r.0, false), k.via);
  }

  /** The sample of the elapsed time, last in a turn. */
  lemma ElapsedSamples(r: (Stores, Option<Exc>), public: bool, k: Keys, elapsedUs: int, step: Step)
    requires Sound(step) && Distinct(k) && r.1.None? && Samplable(Pick(r.0, public), k.elapsed)
    ensures var r' := Then(r, SampleCall(k.elapsed, VInt(elapsedUs), public), step);
      var s, s' := Pick(r.0, public), Pick(r'.0, public);
      && r'.1.None?
      && Newest(s', k.elapsed, VInt(elapsedUs))
      && At(s', k.code) == At(s, k.code) && At(s', k.sent) == At(s, k.sent)
      && At(r'.0.priv, k.via) == At(r.0.priv, k.via)
  {
    var r' := step(r.0, SampleCall(k.elapsed, VInt(elapsedUs), public));
    assert At(Pick(r'.0, public), k.code) == At(Pick(r.0, public), k.code);
    assert At(Pick(r'.0, public), k.sent) == At(Pick(r.0, public), k.sent);
    assert At(Pick(r'.0, false), k.via) == At(Pick(r.0, false), k.via);
  }

  /**
   * One turn of the loop in `metrics_http_request`, when its keys are ready: the status
   * counter and the transport counter grow by one, the bytes counter by `sent` when that is
   * not 0, the time becomes the newest sample when it is not 0, and nothing raises.
   */
  lemma TurnCounts(st: Stores, public: bool, k: Keys, sent: int, elapsedUs: int, step: Step)
    requires Sound(step) && Distinct(k) && Ready(st, public, k)
    ensures var r := Run(st, TurnOf(public, k, sent, elapsedUs), step);
      var s, s' := Pick(st, public), Pick(r.0, public);
      && r.1.None?
      && Counts(s', k.code, CountOf(s, k.code) + 1)
      && Counts(r.0.priv, k.via, CountOf(st.priv, k.via) + 1)
      && (sent != 0 ==> Counts(s', k.sent, CountOf(s, k.sent) + sent))
      && (sent == 0 ==> At(s', k.sent) == At(s, k.sent))
      && (elapsedUs != 0 ==> Newest(s', k.elapsed, VInt(elapsedUs)))
      && (elapsedUs == 0 ==> At(s', k.elapsed) == At(s, k.elapsed))
  {
    TurnSteps(st, public, k, sent, elapsedUs, step);
    HeadCounts(st, public, k, step);
    var r2 := Then(Then((st, None), CountCall(k.code, 1, public), step), CountCall(k.via, 1, false), step);
    var r3 := if sent != 0 then Then(r2, CountCall(k.sent, sent, public), step) else r2;
    if sent != 0 {
      SentCounts(r2, public, k, sent, step);
    }
    if elapsedUs != 0 {
      ElapsedSamples(r3, public, k, elapsedUs, step);
    }
  }

  /** A turn leaves alone every key it does not write. */
  lemma TurnKeeps(st: Stores, public: bool, k: Keys, sent: int, elapsedUs: int, step: Step, p: bool, key: string)
    requires Sound(step)
    requires p == public ==> key != k.code && key != k.sent && key != k.elapsed
    requires !p ==> key != k.via
    ensures At(Pick(Run(st, TurnOf(public, k, sent, elapsedUs), step).0, p), key) == At(Pick(st, p), key)
  {
    TurnSteps(st, public, k, sent, elapsedUs, step);
  }

  /** What a turn does to the public counters of `k`, given as the number of times it counts them. */
  predicate PublicCounted(st: Stores, p: Store, k: Keys, n: int, sent: int, elapsedUs: int)
  {
    && Counts(p, k.code, CountOf(st.pub, k.code) + n)
    && (sent != 0 ==> Counts(p, k.sent, CountOf(st.pub, k.sent) + n * sent))
    && (sent == 0 ==> At(p, k.sent) == At(st.pub, k.sent))
    && (elapsedUs != 0 ==> Newest(p, k.elapsed, VInt(elapsedUs)))
    && (elapsedUs == 0 ==> At(p, k.elapsed) == At(st.pub, k.elapsed))
  }

  /** A public turn, then one that counts elsewhere. */
  lemma PublicOnce(st: Stores, k: Keys, g: Keys, sent: int, elapsedUs: int, step: Step)
    requires Sound(step) && Distinct(k) && Ready(st, true, k)
    ensures PublicCounted(st, Run(st, TurnOf(true, k, sent, elapsedUs) + TurnOf(false, g, sent, elapsedUs), step).0.pub, k, 1, sent, elapsedUs)
  {
    var first := TurnOf(true, k, sent, elapsedUs);
    TurnCounts(st, true, k, sent, elapsedUs, step);
    var mid := Run(st, first, step).0;
    RunAppend(st, first, TurnOf(false, g, sent, elapsedUs), step);
    TurnKeeps(mid, false, g, sent, elapsedUs, step, true, k.code);
    TurnKeeps(mid, false, g, sent, elapsedUs, step, true, k.sent);
    TurnKeeps(mid, false, g, sent, elapsedUs, step, true, k.elapsed);
  }

  /** The same public turn twice. */
  lemma PublicTwice(st: Stores, k: Keys, sent: int, elapsedUs: int, step: Step)
    requires Sound(step) && Distinct(k) && Ready(st, true, k)
    ensures PublicCounted(st, Run(st, TurnOf(true, k, sent, elapsedUs) + TurnOf(true, k, sent, elapsedUs), step).0.pub, k, 2, sent, elapsedUs)
  {
    var first := TurnOf(true, k, sent, elapsedUs);
    TurnCounts(st, true, k, sent, elapsedUs, step);
    var mid := Run(st, first, step).0;
    RunAppend(st, first, first, step);
    TurnCounts(mid, true, k, sent, elapsedUs, step);
  }

  /**
   * The public counters of the two turns of a request, for any sound step; the second turn
   * is public only when it repeats the first one's keys.
   */
  lemma RequestPublicRun(st: Stores, k: Keys, g: Keys, twice: bool, sent: int, elapsedUs: int, step: Step)
    requires Sound(step) && Distinct(k) && Ready(st, true, k) && (twice ==> g == k)
    ensures var p := Run(st, TurnOf(true, k, sent, elapsedUs) + TurnOf(twice, g, sent, elapsedUs), step).0.pub;
      PublicCounted(st, p, k, if twice then 2 else 1, sent, elapsedUs)
  {
    if twice {
      PublicTwice(st, k, sent, elapsedUs, step);
    } else {
      PublicOnce(st, k, g, sent, elapsedUs, step);
    }
  }

  /** What a private turn does to the counters of `g`. */
  predicate PrivateCounted(s: Store, q: Store, g: Keys, sent: int, elapsedUs: int)
  {
    && Counts(q, g.code, CountOf(s, g.code) + 1)
    && Counts(q, g.via, CountOf(s, g.via) + 1)
    && (sent != 0 ==> Counts(q, g.sent, CountOf(s, g.sent) + sent))
    && (sent == 0 ==> At(q, g.sent) == At(s, g.sent))
    && (elapsedUs != 0 ==> Newest(q, g.elapsed, VInt(elapsedUs)))
    && (elapsedUs == 0 ==> At(q, g.elapsed) == At(s, g.elapsed))
  }

  /** A public turn leaves the private keys of `g` alone but for its own transport counter. */
  lemma FirstTurnKeeps(st: Stores, k: Keys, g: Keys, sent: int, elapsedUs: int, step: Step)
    requires Sound(step) && k.via != g.code && k.via != g.via && k.via != g.sent && k.via != g.elapsed
    ensures var q := Run(st, TurnOf(true, k, sent, elapsedUs), step).0.priv;
      && At(q, g.code) == At(st.priv, g.code) && At(q, g.via) == At(st.priv, g.via)
      && At(q, g.sent) == At(st.priv, g.sent) && At(q, g.elapsed) == At(st.priv, g.elapsed)
  {
    TurnKeeps(st, true, k, sent, elapsedUs, step, false, g.code);
    TurnKeeps(st, true, k, sent, elapsedUs, step, false, g.via);
    TurnKeeps(st, true, k, sent, elapsedUs, step, false, g.sent);
    TurnKeeps(st, true, k, sent, elapsedUs, step, false, g.elapsed);
  }

  /** The private turn that follows a public one counts as if it came first, and keeps the public turn's transport counter. */
  lemma SecondTurn(st: Stores, k: Keys, g: Keys, sent: int, elapsedUs: int, step: Step)
    requires Sound(step) && Distinct(g) && Ready(st, false, g)
    requires k.via != g.code && k.via != g.via && k.via != g.sent && k.via != g.elapsed
    ensures var mid := Run(st, TurnOf(true, k, sent, elapsedUs), step).0;
      var r := Run(mid, TurnOf(false, g, sent, elapsedUs), step);
      && r.1.None? && PrivateCounted(st.priv, r.0.priv, g, sent, elapsedUs)
      && At(r.0.priv, k.via) == At(mid.priv, k.via)
  {
    var mid := Run(st, TurnOf(true, k, sent, elapsedUs), step).0;
    FirstTurnKeeps(st, k, g, sent, elapsedUs, step);
    TurnCounts(mid, false, g, sent, elapsedUs, step);
    TurnKeeps(mid, false, g, sent, elapsedUs, step, false, k.via);
  }

  /**
   * The private counters of the two turns of a request whose second turn is private, for any
   * sound step: the first turn's transport counter and all of the second turn's counters.
   */
  lemma RequestPrivateRun(st: Stores, k: Keys, g: Keys, sent: int, elapsedUs: int, step: Step)
    requires Sound(step) && Distinct(k) && Distinct(g) && Ready(st, true, k) && Ready(st, false, g)
    requires k.via != g.code && k.via != g.via && k.via != g.sent && k.via != g.elapsed
    ensures var r := Run(st, TurnOf(true, k, sent, elapsedUs) + TurnOf(false, g, sent, elapsedUs), step);
      var q := r.0.priv;
      && r.1.None?
      && Counts(q, k.via, CountOf(st.priv, k.via) + 1)
      && PrivateCounted(st.priv, q, g, sent, elapsedUs)
  {
    var first := TurnOf(true, k, sent, elapsedUs);
    TurnCounts(st, true, k, sent, elapsedUs, step);
    SecondTurn(st, k, g, sent, elapsedUs, step);
    RunAppend(st, first, TurnOf(false, g, sent, elapsedUs), step);
  }

  /** A request's calls are a public turn under the `http` keys, then a turn under the handler's keys. */
  lemma RequestTurns(code: int, handler: string, unixDomain: bool, sent: int, elapsedUs: int)
    ensures RequestCalls(code, handler, unixDomain, sent, elapsedUs)
      == TurnOf(true, KeysOf("http", code, unixDomain), sent, elapsedUs) + TurnOf(handler == "http", KeysOf(handler, code, unixDomain), sent, elapsedUs)
  {
  }

  /** `RequestPublicRun` for the keys of a request. */
  lemma RequestPublicSteps(st: Stores, code: int, handler: string, unixDomain: bool, sent: int, elapsedUs: int, step: Step)
    requires Sound(step) && Ready(st, true, KeysOf("http", code, unixDomain))
    ensures var p := Run(st, RequestCalls(code, handler, unixDomain, sent, elapsedUs), step).0.pub;
      PublicCounted(st, p, KeysOf("http", code, unixDomain), if handler == "http" then 2 else 1, sent, elapsedUs)
  {
    var k, g := KeysOf("http", code, unixDomain), KeysOf(handler, code, unixDomain);
    TurnKeysDiffer("http", code, unixDomain);
    RequestTurns(code, handler, unixDomain, sent, elapsedUs);
    if handler == "http" {
      assert g == k;
    }
    RequestPublicRun(st, k, g, handler == "http", sent, elapsedUs, step);
  }

  /**
   * The public counters of a request, when `http_<code>` and `http_sent_bytes` (and the
   * private `http_unix` or `http_tcp`) are absent or hold integers and `http_elapsed_us` is
   * absent or holds a list: `http_<code>` grows by one, `http_sent_bytes` by `sent` unless
   * that is 0, and the elapsed time is the newest sample of `http_elapsed_us` unless it is 0;
   * twice over when the handler is itself named `http`.
   */
  lemma RequestPublicCounts(st: Stores, code: int, handler: string, unixDomain: bool, sent: int, elapsedUs: int, draw: Draw, fplus: FloatPlus)
    requires Ready(st, true, KeysOf("http", code, unixDomain))
    ensures var p := PerformAll(st, RequestCalls(code, handler, unixDomain, sent, elapsedUs), draw, fplus).0.pub;
      PublicCounted(st, p, KeysOf("http", code, unixDomain), if handler == "http" then 2 else 1, sent, elapsedUs)
  {
    PerformSound(draw, fplus);
    RunPerforms(st, RequestCalls(code, handler, unixDomain, sent, elapsedUs), draw, fplus);
    RequestPublicSteps(st, code, handler, unixDomain, sent, elapsedUs, Performs(draw, fplus));
  }

  /** Apart from a handler itself named `http`, no private key of the handler is `http_unix` or `http_tcp`. */
  lemma HandlerKeysApart(handler: string, code: int, unixDomain: bool)
    requires handler != "http"
    ensures ViaKey("http", unixDomain) !in PrivateTurnKeys(handler, code, unixDomain)
  {
    var w := ViaKey("http", unixDomain);
    assert w[|w| - 1] == 'p' || w[|w| - 1] == 'x';
    var d := Decimal(code);
    assert '0' <= d[|d| - 1] <= '9';
    assert CodeKey(handler, code)[|CodeKey(handler, code)| - 1] == d[|d| - 1];
    assert SentKey(handler)[|SentKey(handler)| - 1] == 's';
    assert ElapsedKey(handler)[|ElapsedKey(handler)| - 1] == 's';
    var v := ViaKey(handler, unixDomain);
    assert v[..|handler|] == handler && |v| == |handler| + |Via(unixDomain)|;
    assert w[..4] == "http" && |w| == 4 + |Via(unixDomain)|;
  }

  /** The keys of a request to a handler not named `http` are all distinct, but for `http_<code>`, `http_sent_bytes` and `http_elapsed_us`, which live in the other dictionary. */
  lemma RequestKeysApart(code: int, handler: string, unixDomain: bool)
    requires handler != "http"
    ensures var k, g := KeysOf("http", code, unixDomain), KeysOf(handler, code, unixDomain);
      Distinct(k) && Distinct(g) && k.via != g.code && k.via != g.via && k.via != g.sent && k.via != g.elapsed
  {
    TurnKeysDiffer("http", code, unixDomain);
    TurnKeysDiffer(handler, code, unixDomain);
    HandlerKeysApart(handler, code, unixDomain);
  }

  /** `RequestPrivateRun` for the keys of a request. */
  lemma RequestPrivateSteps(st: Stores, code: int, handler: string, unixDomain: bool, sent: int, elapsedUs: int, step: Step)
    requires Sound(step) && handler != "http"
    requires Ready(st, true, KeysOf("http", code, unixDomain)) && Ready(st, false, KeysOf(handler, code, unixDomain))
    ensures var k, g := KeysOf("http", code, unixDomain), KeysOf(handler, code, unixDomain);
      var r := Run(st, RequestCalls(code, handler, unixDomain, sent, elapsedUs), step);
      var q := r.0.priv;
      && r.1.None?
      && Counts(q, k.via, CountOf(st.priv, k.via) + 1)
      && PrivateCounted(st.priv, q, g, sent, elapsedUs)
  {
    var k, g := KeysOf("http", code, unixDomain), KeysOf(handler, code, unixDomain);
    RequestKeysApart(code, handler, unixDomain);
    RequestTurns(code, handler, unixDomain, sent, elapsedUs);
    RequestPrivateRun(st, k, g, sent, elapsedUs, step);
  }

  /**
   * The private counters of a request to a handler not named `http`, when the request's
   * counters are absent or hold integers and its time keys are absent or hold lists:
   * `http_unix` or `http_tcp` grows by one, and so do the handler's status and transport
   * counters; its bytes counter grows by `sent` unless that is 0; the elapsed time is its
   * newest sample unless it is 0; nothing raises.
   */
  lemma RequestPrivateCounts(st: Stores, code: int, handler: string, unixDomain: bool, sent: int, elapsedUs: int, draw: Draw, fplus: FloatPlus)
    requires handler != "http"
    requires Ready(st, true, KeysOf("http", code, unixDomain)) && Ready(st, false, KeysOf(handler, code, unixDomain))
    ensures var k, g := KeysOf("http", code, unixDomain), KeysOf(handler, code, unixDomain);
      var r := PerformAll(st, RequestCalls(code, handler, unixDomain, sent, elapsedUs), draw, fplus);
      var q := r.0.priv;
      && r.1.None?
      && Counts(q, k.via, CountOf(st.priv, k.via) + 1)
      && PrivateCounted(st.priv, q, g, sent, elapsedUs)
  {
    PerformSound(draw, fplus);
    RunPerforms(st, RequestCalls(code, handler, unixDomain, sent, elapsedUs), draw, fplus);
    RequestPrivateSteps(st, code, handler, unixDomain, sent, elapsedUs, Performs(draw, fplus));
  }
}
