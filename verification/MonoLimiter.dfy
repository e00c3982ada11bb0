/** The in-process token bucket (internal/ratelimit/mono_limiter.go): refilled lazily, only once a
    whole token has accrued, and reset after a quiet period longer than its time to live. */
module Mono {
  import opened Limiter

  datatype Config = Config(rate: real, burst: int, ttl: real) {
    ghost predicate Valid() { 0.0 < rate && 0 <= burst }
    function Full(): real { burst as real }
  }

  datatype Bucket = Bucket(tokens: real, last: real)

  /** Tokens accrued in a duration. */
  function Gain(cfg: Config, d: real): real { d / NANOS_PER_SECOND * cfg.rate }

  /** The duration that accrues so many tokens. */
  function Wait(cfg: Config, tokens: real): real
    requires 0.0 < cfg.rate
  {
    tokens / cfg.rate * NANOS_PER_SECOND
  }

  function Refill(cfg: Config, b: Bucket, now: real): Bucket
    requires 0.0 < cfg.rate
  {
    var gain := Gain(cfg, now - b.last);
    if gain >= 1.0 then
      Bucket(if b.tokens + gain > cfg.Full() then cfg.Full() else b.tokens + gain, b.last + Wait(cfg, gain))
    else b
  }

  /** The bucket a call finds: inserted when absent, reset when stale (if `resets`), then refilled. */
  function Found(cfg: Config, resets: bool, b: Option<Bucket>, now: real): Bucket
    requires 0.0 < cfg.rate
  {
    var present := if b.None? then Bucket(cfg.Full(), now) else b.value;
    var current := if resets && now - present.last > cfg.ttl then Bucket(cfg.Full(), now) else present;
    Refill(cfg, current, now)
  }

  function Decide(cfg: Config, resets: bool, b: Option<Bucket>, now: real): Result
    requires 0.0 < cfg.rate
  {
    var found := Found(cfg, resets, b, now);
    if found.tokens - 1.0 < 0.0 then Deny(Wait(cfg, 1.0 - found.tokens)) else Allow
  }

  function Next(cfg: Config, resets: bool, b: Option<Bucket>, now: real): Bucket
    requires 0.0 < cfg.rate
  {
    var found := Found(cfg, resets, b, now);
    if found.tokens - 1.0 < 0.0 then found else found.(tokens := found.tokens - 1.0)
  }

  class BucketCell {
    var tokens: real
    var last: real

    constructor (tokens: real, last: real)
      ensures this.tokens == tokens && this.last == last
    {
      this.tokens, this.last := tokens, last;
    }

    function View(): Bucket
      reads this
    {
      Bucket(tokens, last)
    }

    /** Reset, refill and charge one call, in place. */
    method Charge(cfg: Config, now: real) returns (r: Result)
      requires 0.0 < cfg.rate
      modifies this
      ensures r == Decide(cfg, true, Some(old(View())), now)
      ensures View() == Next(cfg, true, Some(old(View())), now)
    {
      if now - last > cfg.ttl {
        tokens := cfg.burst as real;
        last := now;
      }
      var tokensToAdd := Gain(cfg, now - last);
      if tokensToAdd >= 1.0 {
        tokens := tokens + tokensToAdd;
        if tokens > cfg.burst as real {
          tokens := cfg.burst as real;
        }
        last := last + Wait(cfg, tokensToAdd);
      }
      var newTokens := tokens - 1.0;
      if newTokens < 0.0 {
        assert -newTokens == 1.0 - tokens;
        return Deny(Wait(cfg, -newTokens));
      }
      tokens := newTokens;
      r := Allow;
    }
  }

  class MonoLimiter {
    const cfg: Config
    var buckets: map<string, BucketCell>

    /** No two keys share a bucket. */
    ghost predicate Valid()
      reads this
    {
      cfg.Valid() && forall k, k' :: k in buckets && k' in buckets && k != k' ==> buckets[k] != buckets[k']
    }

    ghost function View(): map<string, Bucket>
      reads this, buckets.Values
    {
      map k | k in buckets :: buckets[k].View()
    }

    constructor (cfg: Config)
      requires cfg.Valid()
      ensures Valid() && this.cfg == cfg && View() == map[]
    {
      this.cfg := cfg;
      buckets := map[];
    }

    /** One call, under the mutex; `now` was read before the lock was taken. */
    method Allow(key: string, now: real) returns (r: Result)
      requires Valid()
      modifies this, buckets.Values
      ensures Valid() && fresh(buckets.Values - old(buckets.Values))
      ensures r == Decide(cfg, true, Lookup(old(View()), key), now)
      ensures View() == old(View())[key := Next(cfg, true, Lookup(old(View()), key), now)]
    {
      if key !in buckets {
        var cell := new BucketCell(cfg.burst as real, now);
        buckets := buckets[key := cell];
      }
      r := buckets[key].Charge(cfg, now);
    }
  }

  // ---------- one key's runs ----------

  /** The bucket after calls at `nows`, starting from `start`. */
  function After(cfg: Config, resets: bool, start: Option<Bucket>, nows: seq<real>): Option<Bucket>
    requires 0.0 < cfg.rate
  {
    if nows == [] then start
    else Some(Next(cfg, resets, After(cfg, resets, start, nows[..|nows| - 1]), nows[|nows| - 1]))
  }

  /** How many of the calls at `nows` are admitted. */
  function AdmittedCount(cfg: Config, resets: bool, start: Option<Bucket>, nows: seq<real>): nat
    requires 0.0 < cfg.rate
  {
    if nows == [] then 0
    else
      var before := nows[..|nows| - 1];
      AdmittedCount(cfg, resets, start, before)
      + (if Decide(cfg, resets, After(cfg, resets, start, before), nows[|nows| - 1]) == Allow then 1 else 0)
  }

  function Step(cfg: Config): (Option<Bucket>, real) -> Option<Bucket> {
    (b, now) => if 0.0 < cfg.rate then Some(Next(cfg, true, b, now)) else b
  }

  lemma {:induction false} AfterIsEntryAfter(cfg: Config, nows: seq<real>)
    requires cfg.Valid()
    ensures EntryAfter(Step(cfg), nows) == After(cfg, true, None, nows)
  {
    if nows != [] { AfterIsEntryAfter(cfg, nows[..|nows| - 1]); }
  }

  /** Many keys at once: a key's bucket depends on the calls on that key only. */
  lemma KeyHoldsItsOwnCalls(cfg: Config, calls: seq<Call>, key: string)
    requires cfg.Valid()
    ensures Lookup(TableAfter(Step(cfg), calls), key) == After(cfg, true, None, Readings(calls, key))
  {
    KeysAreIsolated(Step(cfg), calls, key);
    AfterIsEntryAfter(cfg, Readings(calls, key));
  }

  /** A bucket at rest: never below zero, and at least one token short of full, because a call
      that fills it also takes a token. */
  predicate AtRest(cfg: Config, b: Option<Bucket>) {
    b.Some? ==> 0.0 <= b.value.tokens && (b.value.tokens <= cfg.Full() - 1.0 || b.value.tokens == cfg.Full() == 0.0)
  }

  lemma {:induction false} AlwaysAtRest(cfg: Config, resets: bool, start: Option<Bucket>, nows: seq<real>)
    requires cfg.Valid() && AtRest(cfg, start)
    ensures AtRest(cfg, After(cfg, resets, start, nows))
  {
    if nows != [] {
      AlwaysAtRest(cfg, resets, start, nows[..|nows| - 1]);
    }
  }

  lemma GainFacts(cfg: Config, x: real, y: real)
    requires 0.0 < cfg.rate
    ensures Gain(cfg, x + y) == Gain(cfg, x) + Gain(cfg, y)
    ensures 0.0 <= x <==> 0.0 <= Gain(cfg, x)
    ensures Wait(cfg, Gain(cfg, x)) == x
    ensures Gain(cfg, Wait(cfg, x)) == x
    ensures 0.0 <= x <==> 0.0 <= Wait(cfg, x)
  {
    var r := cfg.rate;
    assert (x + y) / NANOS_PER_SECOND == x / NANOS_PER_SECOND + y / NANOS_PER_SECOND;
    assert x / NANOS_PER_SECOND * r / r == x / NANOS_PER_SECOND;
    var q := x / r;
    assert q * r == x;
    if 0.0 <= x { assert 0.0 <= x / NANOS_PER_SECOND * r; } else { assert x / NANOS_PER_SECOND * r < 0.0; }
    if 0.0 <= q { assert 0.0 <= q * r; } else { assert q * r < 0.0; }
  }

  // ---------- the window bound ----------

  /** The time to live covers a refill from empty to full, or there is nothing to refill. */
  predicate Forgettable(cfg: Config) {
    cfg.burst < 1 || Gain(cfg, cfg.ttl) >= cfg.Full()
  }

  /** What holds after `n` admissions of a stretch that began at the bucket `start`: either no
      call of the stretch has refilled the bucket, or its last refill lies in the stretch. */
  ghost predicate Spent(cfg: Config, start: Option<Bucket>, b: Option<Bucket>, n: nat, t1: real, t2: real) {
    || (b == start && n == 0)
    || (b.Some? && start.Some? && b.value.last == start.value.last
        && n as real + b.value.tokens <= start.value.tokens && Gain(cfg, t1 - start.value.last) < 1.0)
    || (b.Some? && t1 <= b.value.last <= t2
        && n as real + b.value.tokens <= cfg.Full() + Gain(cfg, b.value.last - t1))
  }

  function Charged(cfg: Config, resets: bool, b: Option<Bucket>, now: real): nat
    requires 0.0 < cfg.rate
  {
    if Decide(cfg, resets, b, now) == Allow then 1 else 0
  }

  /** One call either leaves the last refill where it was, or moves it to `now`. */
  lemma CallCases(cfg: Config, resets: bool, b: Bucket, now: real)
    requires cfg.Valid() && AtRest(cfg, Some(b))
    ensures var b', d := Next(cfg, resets, Some(b), now), Charged(cfg, resets, Some(b), now) as real;
            var gain := Gain(cfg, now - b.last);
            || (gain < 1.0 && b'.last == b.last && d + b'.tokens == b.tokens)
            || (b'.last == now && d + b'.tokens <= cfg.Full()
                && ((gain >= 1.0 && d + b'.tokens <= b.tokens + gain) || (resets && now - b.last > cfg.ttl)))
  {
    GainFacts(cfg, now - b.last, 0.0);
    GainFacts(cfg, 0.0, 0.0);
  }

  lemma SpentStep(cfg: Config, resets: bool, start: Option<Bucket>, b: Option<Bucket>, n: nat, t1: real, t2: real, now: real)
    requires cfg.Valid() && cfg.burst >= 1 && (resets ==> Forgettable(cfg)) && AtRest(cfg, start) && AtRest(cfg, b)
    requires Spent(cfg, start, b, n, t1, t2) && t1 <= now <= t2
    ensures Spent(cfg, start, Some(Next(cfg, resets, b, now)), n + Charged(cfg, resets, b, now), t1, t2)
  {
    GainFacts(cfg, now - t1, 0.0);
    GainFacts(cfg, 0.0, 0.0);
    if b.Some? {
      var last := b.value.last;
      GainFacts(cfg, now - last, last - t1);
      GainFacts(cfg, t1 - last, last - t1);
      GainFacts(cfg, now - last - cfg.ttl, cfg.ttl);
      CallCases(cfg, resets, b.value, now);
      assert Gain(cfg, now - t1) == Gain(cfg, now - last) + Gain(cfg, last - t1) by {
        assert now - t1 == (now - last) + (last - t1);
      }
      assert Gain(cfg, t1 - last) == -Gain(cfg, last - t1) by {
        assert (t1 - last) + (last - t1) == 0.0;
      }
      SpentCases(cfg, start, b.value, n, t1, t2, now, Next(cfg, resets, b, now), Charged(cfg, resets, b, now),
                 Gain(cfg, now - last), Gain(cfg, last - t1));
    } else {
      assert Charged(cfg, resets, b, now) == 1;
    }
  }

  /** The arithmetic of a step: `gain` accrued since the last refill, `lead` between `t1` and it. */
  lemma SpentCases(cfg: Config, start: Option<Bucket>, b: Bucket, n: nat, t1: real, t2: real, now: real,
                   b': Bucket, d: nat, gain: real, lead: real)
    requires cfg.burst >= 1 && t1 <= now <= t2 && 0.0 <= gain + lead
    requires AtRest(cfg, start) && AtRest(cfg, Some(b)) && Spent(cfg, start, Some(b), n, t1, t2)
    requires Gain(cfg, b.last - t1) == lead && Gain(cfg, t1 - b.last) == -lead && Gain(cfg, now - t1) == gain + lead
    requires || (gain < 1.0 && b'.last == b.last && d as real + b'.tokens == b.tokens)
             || (b'.last == now && d as real + b'.tokens <= cfg.Full()
                 && (d as real + b'.tokens <= b.tokens + gain || cfg.Full() < gain))
    ensures Spent(cfg, start, Some(b'), n + d, t1, t2)
  {
    assert (n + d) as real == n as real + d as real;
  }

  lemma {:induction false} StretchSpends(cfg: Config, resets: bool, start: Option<Bucket>, nows: seq<real>, t1: real, t2: real)
    requires cfg.Valid() && cfg.burst >= 1 && (resets ==> Forgettable(cfg)) && AtRest(cfg, start)
    requires forall k :: 0 <= k < |nows| ==> t1 <= nows[k] <= t2
    ensures Spent(cfg, start, After(cfg, resets, start, nows), AdmittedCount(cfg, resets, start, nows), t1, t2)
  {
    if nows != [] {
      var before := nows[..|nows| - 1];
      StretchSpends(cfg, resets, start, before, t1, t2);
      AlwaysAtRest(cfg, resets, start, before);
      SpentStep(cfg, resets, start, After(cfg, resets, start, before), AdmittedCount(cfg, resets, start, before),
                t1, t2, nows[|nows| - 1]);
    }
  }

  lemma {:induction false} NothingToSpend(cfg: Config, resets: bool, start: Option<Bucket>, nows: seq<real>)
    requires cfg.Valid() && cfg.burst == 0 && AtRest(cfg, start)
    ensures AdmittedCount(cfg, resets, start, nows) == 0
  {
    if nows != [] {
      var before := nows[..|nows| - 1];
      NothingToSpend(cfg, resets, start, before);
      AlwaysAtRest(cfg, resets, start, before);
    }
  }

  lemma SpentWithin(cfg: Config, start: Option<Bucket>, b: Option<Bucket>, n: nat, t1: real, t2: real)
    requires cfg.Valid() && cfg.burst >= 1 && AtRest(cfg, start) && AtRest(cfg, b) && t1 <= t2
    requires Spent(cfg, start, b, n, t1, t2)
    ensures n as real <= cfg.Full() + Gain(cfg, t2 - t1)
  {
    GainFacts(cfg, t2 - t1, 0.0);
    if b.Some? {
      GainFacts(cfg, t2 - b.value.last, b.value.last - t1);
      assert t2 - t1 == (t2 - b.value.last) + (b.value.last - t1);
    }
  }

  lemma StretchBound(cfg: Config, resets: bool, earlier: seq<real>, stretch: seq<real>, t1: real, t2: real)
    requires cfg.Valid() && (resets ==> Forgettable(cfg)) && t1 <= t2
    requires forall k :: 0 <= k < |stretch| ==> t1 <= stretch[k] <= t2
    ensures AdmittedCount(cfg, resets, After(cfg, resets, None, earlier), stretch) as real
            <= cfg.Full() + Gain(cfg, t2 - t1)
  {
    hide Next, Decide, Spent;
    var start := After(cfg, resets, None, earlier);
    AlwaysAtRest(cfg, resets, None, earlier);
    if cfg.burst == 0 {
      NothingToSpend(cfg, resets, start, stretch);
      GainFacts(cfg, t2 - t1, 0.0);
    } else {
      StretchSpends(cfg, resets, start, stretch, t1, t2);
      AlwaysAtRest(cfg, resets, start, stretch);
      SpentWithin(cfg, start, After(cfg, resets, start, stretch), AdmittedCount(cfg, resets, start, stretch), t1, t2);
    }
  }

  /** After any calls whatever, a consecutive stretch of calls on one key whose clock readings lie
      in [t1, t2], in any order, admits at most burst + rate * (t2 - t1). */
  lemma WindowBound(cfg: Config, earlier: seq<real>, stretch: seq<real>, t1: real, t2: real)
    requires cfg.Valid() && Forgettable(cfg) && t1 <= t2
    requires forall k :: 0 <= k < |stretch| ==> t1 <= stretch[k] <= t2
    ensures AdmittedCount(cfg, true, After(cfg, true, None, earlier), stretch) as real
            <= cfg.Full() + Gain(cfg, t2 - t1)
  {
    StretchBound(cfg, true, earlier, stretch, t1, t2);
  }

  // ---------- the time to live ----------

  ghost predicate SameAnswer(cfg: Config, nows: seq<real>, now: real)
    requires 0.0 < cfg.rate
  {
    Decide(cfg, true, After(cfg, true, None, nows), now) == Decide(cfg, false, After(cfg, false, None, nows), now)
  }

  /** A reset that comes late enough does what a refill would have done. */
  lemma ResetIsRefill(cfg: Config, b: Bucket, now: real)
    requires cfg.Valid() && cfg.burst >= 1 && Forgettable(cfg) && AtRest(cfg, Some(b))
    ensures Found(cfg, true, Some(b), now) == Found(cfg, false, Some(b), now)
  {
    GainFacts(cfg, now - b.last - cfg.ttl, cfg.ttl);
    GainFacts(cfg, now - b.last, 0.0);
    GainFacts(cfg, 0.0, 0.0);
  }

  lemma {:induction false} SameBuckets(cfg: Config, nows: seq<real>)
    requires cfg.Valid() && cfg.burst >= 1 && Forgettable(cfg)
    ensures After(cfg, true, None, nows) == After(cfg, false, None, nows)
  {
    if nows != [] {
      var before := nows[..|nows| - 1];
      SameBuckets(cfg, before);
      AlwaysAtRest(cfg, true, None, before);
      if After(cfg, true, None, before).Some? {
        ResetIsRefill(cfg, After(cfg, true, None, before).value, nows[|nows| - 1]);
      }
    }
  }

  /** Forgetting is invisible: with a long enough time to live every call of every run, in any
      order of clock readings, gets the answer and the retry time of a limiter without resets. */
  lemma ForgettingIsInvisible(cfg: Config, nows: seq<real>, now: real)
    requires cfg.Valid() && Forgettable(cfg)
    ensures SameAnswer(cfg, nows, now)
  {
    AlwaysAtRest(cfg, true, None, nows);
    AlwaysAtRest(cfg, false, None, nows);
    if cfg.burst >= 1 {
      SameBuckets(cfg, nows);
      if After(cfg, true, None, nows).Some? {
        ResetIsRefill(cfg, After(cfg, true, None, nows).value, now);
      }
    }
  }

  /** A pause longer than the time to live, yet too short for a full refill. */
  function ShortPause(cfg: Config): real
    requires 0.0 < cfg.rate
  {
    ((if cfg.ttl < 0.0 then 0.0 else cfg.ttl) + Wait(cfg, cfg.Full())) / 2.0
  }

  lemma ShortPauseFits(cfg: Config)
    requires cfg.Valid() && !Forgettable(cfg)
    ensures 0.0 < ShortPause(cfg) && cfg.ttl < ShortPause(cfg) && Gain(cfg, ShortPause(cfg)) < cfg.Full()
  {
    var w, t := Wait(cfg, cfg.Full()), ShortPause(cfg);
    GainFacts(cfg, cfg.Full(), 0.0);
    assert 0.0 < w;
    GainFacts(cfg, cfg.ttl - w, w);
    GainFacts(cfg, t - w, w);
  }

  /** The bucket after two bursts, `t` apart. */
  function AfterBursts(cfg: Config, n: nat, m: nat, t: real): Option<Bucket> {
    var last := if m > 0 then t else 0.0;
    if n == 0 then None
    else if cfg.ttl < 0.0 then Some(Bucket(cfg.Full() - 1.0, last))
    else Some(Bucket((cfg.burst - (if m > 0 then m else n)) as real, last))
  }

  /** A call finds a whole token at once after an insertion, a reset, or within a burst. */
  lemma BurstCall(cfg: Config, b: Option<Bucket>, now: real, left: real)
    requires cfg.Valid() && 1.0 <= left <= cfg.Full()
    requires b.None? || now - b.value.last > cfg.ttl ==> left == cfg.Full()
    requires b.Some? && now - b.value.last <= cfg.ttl ==> b.value == Bucket(left, now)
    ensures Next(cfg, true, b, now) == Bucket(left - 1.0, now) && Decide(cfg, true, b, now) == Allow
  {
    GainFacts(cfg, 0.0, 0.0);
  }

  lemma BurstStep(cfg: Config, n: nat, m: nat, t: real)
    requires cfg.Valid() && n <= cfg.burst && m <= cfg.burst && (0 < m ==> n == cfg.burst) && cfg.ttl < t && 0 < n + m
    ensures var n', m', now := if m > 0 then n else n - 1, if m > 0 then m - 1 else 0, if m > 0 then t else 0.0;
            && Some(Next(cfg, true, AfterBursts(cfg, n', m', t), now)) == AfterBursts(cfg, n, m, t)
            && Decide(cfg, true, AfterBursts(cfg, n', m', t), now) == Allow
  {
    hide Next, Decide;
    var n', m' := if m > 0 then n else n - 1, if m > 0 then m - 1 else 0;
    var left := if cfg.ttl < 0.0 then cfg.burst else cfg.burst - (if m > 0 then m' else n');
    BurstCall(cfg, AfterBursts(cfg, n', m', t), if m > 0 then t else 0.0, left as real);
  }

  lemma {:induction false} BurstsAdmitted(cfg: Config, n: nat, m: nat, t: real)
    requires cfg.Valid() && n <= cfg.burst && m <= cfg.burst && (0 < m ==> n == cfg.burst) && cfg.ttl < t
    ensures After(cfg, true, None, TwoBursts(n, m, t)) == AfterBursts(cfg, n, m, t)
    ensures AdmittedCount(cfg, true, None, TwoBursts(n, m, t)) == n + m
    decreases n + m
  {
    hide Next, Decide;
    if n + m == 0 {
      assert TwoBursts(n, m, t) == [];
    } else {
      var n', m' := if m > 0 then n else n - 1, if m > 0 then m - 1 else 0;
      var run := TwoBursts(n, m, t);
      assert run[..|run| - 1] == TwoBursts(n', m', t);
      assert run[|run| - 1] == if m > 0 then t else 0.0;
      BurstsAdmitted(cfg, n', m', t);
      BurstStep(cfg, n, m, t);
    }
  }

  ghost predicate BreaksBound(cfg: Config, run: seq<real>, t: real)
    requires 0.0 < cfg.rate
  {
    && 0.0 <= t && Sorted(run) && (forall k :: 0 <= k < |run| ==> 0.0 <= run[k] <= t)
    && AdmittedCount(cfg, true, None, run) as real > cfg.Full() + Gain(cfg, t - 0.0)
  }

  /** The condition on the window bound is exact: without it two bursts break the bound. */
  lemma WindowBoundNeedsTtl(cfg: Config)
    requires cfg.Valid() && !Forgettable(cfg)
    ensures exists run, t :: BreaksBound(cfg, run, t)
  {
    ShortPauseFits(cfg);
    BurstsAdmitted(cfg, cfg.burst, cfg.burst, ShortPause(cfg));
    assert BreaksBound(cfg, TwoBursts(cfg.burst, cfg.burst, ShortPause(cfg)), ShortPause(cfg));
  }

  lemma {:induction false} SameAnswersSameCount(cfg: Config, run: seq<real>)
    requires cfg.Valid() && Sorted(run)
    requires forall nows, now :: Sorted(nows + [now]) ==> SameAnswer(cfg, nows, now)
    ensures AdmittedCount(cfg, true, None, run) == AdmittedCount(cfg, false, None, run)
  {
    if run != [] {
      var before, last := run[..|run| - 1], run[|run| - 1];
      assert before + [last] == run;
      SameAnswersSameCount(cfg, before);
      assert SameAnswer(cfg, before, last);
    }
  }

  /** The condition is exact here too: when it fails, some run tells the two limiters apart. */
  lemma ForgettingIsVisible(cfg: Config)
    requires cfg.Valid() && !Forgettable(cfg)
    ensures exists nows, now :: Sorted(nows + [now]) && !SameAnswer(cfg, nows, now)
  {
    if forall nows, now :: Sorted(nows + [now]) ==> SameAnswer(cfg, nows, now) {
      WindowBoundNeedsTtl(cfg);
      var run, t :| BreaksBound(cfg, run, t);
      SameAnswersSameCount(cfg, run);
      StretchBound(cfg, false, [], run, 0.0, t);
    }
  }

  // ---------- the retry time ----------

  /** A denial leaves the bucket as it was, and asks for a wait in (0, 1 / rate]. */
  lemma DenialChangesNothing(cfg: Config, b: Bucket, now: real)
    requires cfg.Valid() && cfg.burst >= 1 && AtRest(cfg, Some(b))
    requires Decide(cfg, true, Some(b), now).Deny?
    ensures Next(cfg, true, Some(b), now) == b && b.tokens < 1.0
    ensures Decide(cfg, true, Some(b), now) == Deny(Wait(cfg, 1.0 - b.tokens))
    ensures Gain(cfg, now - b.last) < 1.0 && now - b.last <= cfg.ttl
  {
    GainFacts(cfg, 0.0, 0.0);
  }

  lemma WaitOrder(cfg: Config, x: real)
    requires 0.0 < cfg.rate && 0.0 < x <= 1.0
    ensures 0.0 < Wait(cfg, x) <= Wait(cfg, 1.0)
  {
    GainFacts(cfg, x, 0.0);
    GainFacts(cfg, Wait(cfg, x), Wait(cfg, 1.0) - Wait(cfg, x));
    GainFacts(cfg, Wait(cfg, 1.0) - Wait(cfg, x), 0.0);
    GainFacts(cfg, 1.0, 0.0);
    GainFacts(cfg, 0.0, 0.0);
  }

  /** A denied caller is told to wait at most one interval, whatever the clock readings. */
  lemma RetryWithinOneInterval(cfg: Config, nows: seq<real>, now: real)
    requires cfg.Valid() && Decide(cfg, true, After(cfg, true, None, nows), now).Deny?
    ensures 0.0 < Decide(cfg, true, After(cfg, true, None, nows), now).retryAfter <= Wait(cfg, 1.0)
  {
    hide Wait, Gain, After;
    AlwaysAtRest(cfg, true, None, nows);
    var found := Found(cfg, true, After(cfg, true, None, nows), now);
    WaitOrder(cfg, 1.0 - found.tokens);
  }

  /** Waiting out a whole interval since the last refill always suffices. */
  lemma IntervalSuffices(cfg: Config, b: Bucket, later: real)
    requires cfg.Valid() && cfg.burst >= 1 && AtRest(cfg, Some(b))
    requires b.last + Wait(cfg, 1.0) <= later
    ensures Decide(cfg, true, Some(b), later) == Allow
  {
    GainFacts(cfg, 1.0, 0.0);
    GainFacts(cfg, later - b.last - Wait(cfg, 1.0), Wait(cfg, 1.0));
  }

  /** A caller that waits exactly the retry time is not always admitted: it is if and only if the
      time already accrued at the denial was worth at least the tokens held, or the bucket has
      gone stale. With a burst of zero it never is. */
  lemma RetryHonouredIff(cfg: Config, b: Bucket, now: real)
    requires cfg.Valid() && AtRest(cfg, Some(b)) && Decide(cfg, true, Some(b), now).Deny?
    ensures Decide(cfg, true, Some(b), now).retryAfter == Wait(cfg, 1.0 - b.tokens)
    ensures var later := now + Wait(cfg, 1.0 - b.tokens);
            Decide(cfg, true, Some(Next(cfg, true, Some(b), now)), later) == Allow <==>
            cfg.burst >= 1 && (Gain(cfg, now - b.last) >= b.tokens || later - b.last > cfg.ttl)
  {
    GainFacts(cfg, 0.0, 0.0);
    if cfg.burst >= 1 {
      DenialChangesNothing(cfg, b, now);
      var r := Wait(cfg, 1.0 - b.tokens);
      GainFacts(cfg, 1.0 - b.tokens, 0.0);
      GainFacts(cfg, now - b.last, r);
    } else {
      hide Gain, Wait;
      assert Next(cfg, true, Some(b), now).tokens <= 0.0;
    }
  }

  /** A run that shows it: two calls at time zero and one after 1.5 seconds, with one token per
      second and a burst of two. The next is denied, and denied again after the announced wait. */
  lemma RetryTimeCanBeTooShort()
    ensures var cfg, s := Config(1.0, 2, 30.0 * NANOS_PER_SECOND), NANOS_PER_SECOND;
            var b := After(cfg, true, None, [0.0, 0.0, 1.5 * s]);
            && Decide(cfg, true, b, 1.5 * s) == Deny(0.5 * s)
            && Decide(cfg, true, Some(Next(cfg, true, b, 1.5 * s)), 1.5 * s + 0.5 * s) == Deny(0.5 * s)
  {
    var cfg, s := Config(1.0, 2, 30.0 * NANOS_PER_SECOND), NANOS_PER_SECOND;
    var run := [0.0, 0.0, 1.5 * s];
    assert run[..2] == [0.0, 0.0] && run[..2][..1] == [0.0];
    assert After(cfg, true, None, [0.0]) == Some(Bucket(1.0, 0.0)) by { assert [0.0][..0] == []; }
    assert After(cfg, true, None, [0.0, 0.0]) == Some(Bucket(0.0, 0.0)) by { assert [0.0, 0.0][..1] == [0.0]; }
    assert After(cfg, true, None, run) == Some(Bucket(0.5, 1.5 * s)) by { assert run[..2] == [0.0, 0.0]; }
  }

  // ---------- a caller that keeps following the retry time ----------

  /** What an attempt finds, and when it is made. */
  datatype Attempt = Attempt(bucket: Bucket, at: real)

  function Announced(r: Result): real { if r.Deny? then r.retryAfter else 0.0 }

  /** The k-th attempt of a caller that waits exactly what each denial announces. */
  function Follow(cfg: Config, b: Bucket, now: real, k: nat): Attempt
    requires 0.0 < cfg.rate
  {
    if k == 0 then Attempt(b, now)
    else
      var a := Follow(cfg, b, now, k - 1);
      Attempt(Next(cfg, true, Some(a.bucket), a.at), a.at + Announced(Decide(cfg, true, Some(a.bucket), a.at)))
  }

  ghost predicate AttemptAdmitted(cfg: Config, b: Bucket, now: real, k: nat)
    requires 0.0 < cfg.rate
  {
    Decide(cfg, true, Some(Follow(cfg, b, now, k).bucket), Follow(cfg, b, now, k).at) == Allow
  }

  /** As long as attempts are denied the bucket stays, and each announces the wait of the first. */
  lemma {:induction false} DeniedAttemptsAnnounceTheSame(cfg: Config, b: Bucket, now: real, k: nat)
    requires cfg.Valid() && cfg.burst >= 1 && AtRest(cfg, Some(b))
    requires forall j :: 0 <= j < k ==> !AttemptAdmitted(cfg, b, now, j)
    ensures Follow(cfg, b, now, k) == Attempt(b, now + k as real * Wait(cfg, 1.0 - b.tokens))
  {
    hide Next, Decide, Wait, Gain;
    if k > 0 {
      DeniedAttemptsAnnounceTheSame(cfg, b, now, k - 1);
      assert !AttemptAdmitted(cfg, b, now, k - 1);
      DenialChangesNothing(cfg, b, Follow(cfg, b, now, k - 1).at);
      OneMoreWait(k - 1, Wait(cfg, 1.0 - b.tokens));
    }
  }

  lemma OneMoreWait(k: nat, r: real)
    ensures k as real * r + r == (k + 1) as real * r
  {
  }

  function Ceiling(x: real): int { -((-x).Floor) }

  /** Enough waits add up to a whole token. */
  lemma WaitsAddUp(cfg: Config, need: real, k: nat)
    requires cfg.Valid() && 0.0 < need && Ceiling(1.0 / need) <= k
    ensures 1.0 <= Gain(cfg, k as real * Wait(cfg, need))
  {
    var quotient := 1.0 / need;
    assert quotient * need == 1.0;
    assert quotient <= k as real;
    ProductMonotone(quotient, k as real, need);
    GainFacts(cfg, need, 0.0);
    var w := Wait(cfg, need) / NANOS_PER_SECOND * cfg.rate;
    assert w == need;
    assert Gain(cfg, k as real * Wait(cfg, need)) == k as real * w;
  }

  /** A lone caller that waits exactly what each denial announces is admitted within
      ceil(1 / (1 - tokens)) retries. */
  lemma FollowingRetryTimeTerminates(cfg: Config, b: Bucket, now: real)
    requires cfg.Valid() && cfg.burst >= 1 && AtRest(cfg, Some(b)) && b.last <= now
    requires Decide(cfg, true, Some(b), now).Deny?
    ensures b.tokens < 1.0
    ensures exists k :: 0 < k <= Ceiling(1.0 / (1.0 - b.tokens)) && AttemptAdmitted(cfg, b, now, k)
  {
    DenialChangesNothing(cfg, b, now);
    CeilingPositive(1.0 - b.tokens);
    WaitsAddUp(cfg, 1.0 - b.tokens, Ceiling(1.0 / (1.0 - b.tokens)));
    AttemptsReach(cfg, b, now, Ceiling(1.0 / (1.0 - b.tokens)));
  }

  lemma AttemptsReach(cfg: Config, b: Bucket, now: real, k: nat)
    requires cfg.Valid() && cfg.burst >= 1 && AtRest(cfg, Some(b)) && b.last <= now
    requires Decide(cfg, true, Some(b), now).Deny?
    requires 0 < k && 1.0 <= Gain(cfg, k as real * Wait(cfg, 1.0 - b.tokens))
    ensures exists j :: 0 < j <= k && AttemptAdmitted(cfg, b, now, j)
  {
    hide Next, Decide, Wait, Gain, AtRest;
    if forall j :: 0 < j < k ==> !AttemptAdmitted(cfg, b, now, j) {
      assert Follow(cfg, b, now, 0) == Attempt(b, now) && !AttemptAdmitted(cfg, b, now, 0);
      DeniedAttemptsAnnounceTheSame(cfg, b, now, k);
      LateCallAdmitted(cfg, b, now, k as real * Wait(cfg, 1.0 - b.tokens));
      assert AttemptAdmitted(cfg, b, now, k);
    }
  }

  lemma CeilingPositive(x: real)
    requires 0.0 < x
    ensures 1 <= Ceiling(1.0 / x)
  {
    assert 1.0 / x * x == 1.0;
    assert 0.0 < 1.0 / x;
  }

  lemma LateCallAdmitted(cfg: Config, b: Bucket, now: real, wait: real)
    requires cfg.Valid() && cfg.burst >= 1 && AtRest(cfg, Some(b)) && b.last <= now
    requires 1.0 <= Gain(cfg, wait)
    ensures Decide(cfg, true, Some(b), now + wait) == Allow
  {
    GainFacts(cfg, now - b.last, wait);
    assert now + wait - b.last == now - b.last + wait;
    GainFacts(cfg, 0.0, 0.0);
  }
}
