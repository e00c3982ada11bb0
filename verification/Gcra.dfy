/** The GCRA script and the Redis-backed limiter that runs it (internal/ratelimit/gcra.lua,
    internal/ratelimit/redis_limiter.go). */
module Gcra {
  import opened Limiter

  const NANOS_PER_MILLI: real := 1000000.0

  /** `rate` is per second; `ttlMillis` is the expiry passed to SET as its PX argument. */
  datatype Config = Config(rate: real, burst: int, ttlMillis: int) {
    ghost predicate Valid() { 0.0 < rate }

    function Interval(): (i: real)
      requires 0.0 < rate
      ensures 0.0 < i
    {
      NANOS_PER_SECOND / rate
    }

    function Offset(): real
      requires 0.0 < rate
    {
      Interval() * burst as real
    }

    function Ttl(): real { ttlMillis as real * NANOS_PER_MILLI }
  }

  // ---------- the script and its caller ----------

  datatype Reply = Denied(retryAfter: real) | Admitted(newTat: real)

  /** The later of the stored arrival time and the clock; just the clock when nothing is stored. */
  function Base(tat: Option<real>, now: real): real {
    match tat
    case None => now
    case Some(t) => if t < now then now else t
  }

  /** The script's test, once the interval and the burst offset are known. */
  function Gate(i: real, offset: real, tat: Option<real>, now: real): Reply {
    var newTat := Base(tat, now) + i;
    var allowAt := newTat - offset;
    if now < allowAt then Denied(allowAt - now) else Admitted(newTat)
  }

  function Script(cfg: Config, tat: Option<real>, now: real): Reply
    requires cfg.Valid()
  {
    Gate(cfg.Interval(), cfg.Offset(), tat, now)
  }

  /** A Redis key with an expiry. */
  datatype Entry = Entry(tat: real, expiresAt: real)

  /** GET: an expired key reads as absent. */
  function Read(entry: Option<Entry>, now: real): Option<real> {
    if entry.Some? && now < entry.value.expiresAt then Some(entry.value.tat) else None
  }

  function Decide(cfg: Config, entry: Option<Entry>, now: real): Result
    requires cfg.Valid()
  {
    match Script(cfg, Read(entry, now), now)
    case Denied(retryAfter) => Deny(retryAfter)
    case Admitted(_) => Allow
  }

  /** An admission overwrites the key. SET refuses an expiry that is not positive; the script then
      fails, which the caller reads as an admission, and nothing is stored. */
  function Next(cfg: Config, entry: Option<Entry>, now: real): Option<Entry>
    requires cfg.Valid()
  {
    match Script(cfg, Read(entry, now), now)
    case Denied(_) => entry
    case Admitted(newTat) => if cfg.ttlMillis <= 0 then entry else Some(Entry(newTat, now + cfg.Ttl()))
  }

  class RedisLimiter {
    const cfg: Config
    var keys: map<string, Entry>

    constructor (cfg: Config)
      requires cfg.Valid()
      ensures this.cfg == cfg && keys == map[]
    {
      this.cfg := cfg;
      keys := map[];
    }

    method Allow(key: string, now: real) returns (r: Result)
      requires cfg.Valid()
      modifies this
      ensures r == Decide(cfg, Lookup(old(keys), "ratelimit:" + key), now)
      ensures keys == Store(old(keys), "ratelimit:" + key, Next(cfg, Lookup(old(keys), "ratelimit:" + key), now))
    {
      var name := "ratelimit:" + key;
      var tat := now;
      if name in keys && now < keys[name].expiresAt {
        tat := keys[name].tat;
      }
      var interval := NANOS_PER_SECOND / cfg.rate;
      var newTat := (if tat < now then now else tat) + interval;
      var allowAt := newTat - interval * cfg.burst as real;
      if now < allowAt {
        assert name !in keys ==> keys - {name} == keys;
        return Deny(allowAt - now);
      }
      if cfg.ttlMillis > 0 {
        keys := keys[name := Entry(newTat, now + cfg.Ttl())];
      } else {
        assert name !in keys ==> keys - {name} == keys;
      }
      r := Result.Allow;
    }
  }

  // ---------- the script without expiry ----------

  /** The arrival time stored after admissions at the times `a`. */
  function TatOf(i: real, a: seq<real>): Option<real> {
    if a == [] then None
    else Some(Base(TatOf(i, a[..|a| - 1]), a[|a| - 1]) + i)
  }

  /** The admitted clock readings of a run of calls on one key that never expires. */
  function Admissions(i: real, offset: real, nows: seq<real>): (a: seq<real>) {
    if nows == [] then []
    else
      var before := Admissions(i, offset, nows[..|nows| - 1]);
      var now := nows[|nows| - 1];
      if Gate(i, offset, TatOf(i, before), now).Admitted? then before + [now] else before
  }

  function AdmittedTimes(cfg: Config, nows: seq<real>): seq<real>
    requires cfg.Valid()
  {
    Admissions(cfg.Interval(), cfg.Offset(), nows)
  }

  /** The answer to a call at `now`, made after the calls at `nows`. */
  function Verdict(cfg: Config, nows: seq<real>, now: real): Reply
    requires cfg.Valid()
  {
    Script(cfg, TatOf(cfg.Interval(), AdmittedTimes(cfg, nows)), now)
  }

  lemma {:induction false} AdmissionsAreCalls(i: real, offset: real, nows: seq<real>, hi: real)
    requires Sorted(nows)
    requires forall k :: 0 <= k < |nows| ==> nows[k] <= hi
    ensures Sorted(Admissions(i, offset, nows))
    ensures forall k :: 0 <= k < |Admissions(i, offset, nows)| ==> Admissions(i, offset, nows)[k] <= hi
  {
    if nows != [] {
      AdmissionsAreCalls(i, offset, nows[..|nows| - 1], nows[|nows| - 1]);
    }
  }

  // ---------- the closed form of the stored time ----------

  /** `n` intervals, added up. */
  function Times(n: nat, i: real): real {
    if n == 0 then 0.0 else Times(n - 1, i) + i
  }

  lemma {:induction false} TimesIsProduct(n: nat, i: real)
    ensures Times(n, i) == n as real * i
  {
    if n > 0 { TimesIsProduct(n - 1, i); }
  }

  lemma {:induction false} TimesMonotone(m: nat, n: nat, i: real)
    requires m <= n && 0.0 <= i
    ensures Times(m, i) <= Times(n, i)
  {
    if m < n { TimesMonotone(m, n - 1, i); }
  }

  /** When the k-th of the admissions `a`, and all after it, would be paid off one by one. */
  function PaidOff(i: real, a: seq<real>, k: int): real
    requires 0 <= k < |a|
  {
    a[k] + Times(|a| - k, i)
  }

  /** The stored time is the maximum over the admissions k of a[k] + (n - k) * interval. */
  lemma {:induction false} TatClosedForm(i: real, a: seq<real>)
    requires a != []
    ensures TatOf(i, a).Some?
    ensures forall k :: 0 <= k < |a| ==> PaidOff(i, a, k) <= TatOf(i, a).value
    ensures exists k :: 0 <= k < |a| && PaidOff(i, a, k) == TatOf(i, a).value
  {
    var m := |a| - 1;
    var before := a[..m];
    assert Times(1, i) == Times(0, i) + i;
    assert PaidOff(i, a, m) == a[m] + i;
    if before != [] {
      TatClosedForm(i, before);
      forall k | 0 <= k < m ensures PaidOff(i, a, k) == PaidOff(i, before, k) + i {
        assert Times(m - k + 1, i) == Times(m - k, i) + i;
      }
      var t := TatOf(i, before).value;
      if t < a[m] {
        assert PaidOff(i, a, m) == TatOf(i, a).value;
      } else {
        var k :| 0 <= k < m && PaidOff(i, before, k) == t;
        assert PaidOff(i, a, k) == TatOf(i, a).value;
      }
    } else {
      assert PaidOff(i, a, 0) == TatOf(i, a).value;
    }
  }

  // ---------- windows ----------

  /** How many of the times `a` lie in [lo, hi]. */
  function CountIn(a: seq<real>, lo: real, hi: real): nat {
    if a == [] then 0
    else CountIn(a[..|a| - 1], lo, hi) + (if lo <= a[|a| - 1] <= hi then 1 else 0)
  }

  /** `n` admissions in a window of length `len` are more than burst + rate * len. */
  predicate Exceeds(cfg: Config, n: nat, len: real) {
    n as real > cfg.burst as real + cfg.rate * (len / NANOS_PER_SECOND)
  }

  /** The same bound, counted in intervals. */
  predicate Over(i: real, offset: real, n: nat, len: real) {
    Times(n, i) > offset + len
  }

  /** No window of any length holds more than burst + rate * length of the times `a`. */
  ghost predicate Conforming(cfg: Config, a: seq<real>) {
    forall lo, hi :: lo <= hi ==> !Exceeds(cfg, CountIn(a, lo, hi), hi - lo)
  }

  ghost predicate Fits(i: real, offset: real, a: seq<real>) {
    forall lo, hi :: lo <= hi ==> !Over(i, offset, CountIn(a, lo, hi), hi - lo)
  }

  lemma ExceedsIsOver(cfg: Config, n: nat, len: real)
    requires cfg.Valid()
    ensures Exceeds(cfg, n, len) <==> Over(cfg.Interval(), cfg.Offset(), n, len)
  {
    var i := cfg.Interval();
    TimesIsProduct(n, i);
    var x, y := n as real, cfg.burst as real + cfg.rate * (len / NANOS_PER_SECOND);
    assert y * i == cfg.Offset() + len by {
      assert i * cfg.rate == NANOS_PER_SECOND;
      assert cfg.rate * (len / NANOS_PER_SECOND) * i == (i * cfg.rate) * (len / NANOS_PER_SECOND);
    }
    assert (x - y) * i == x * i - y * i;
    if x > y { assert (x - y) * i > 0.0; }
    if x <= y { assert (y - x) * i >= 0.0; }
  }

  lemma ConformingIsFits(cfg: Config, a: seq<real>)
    requires cfg.Valid()
    ensures Conforming(cfg, a) <==> Fits(cfg.Interval(), cfg.Offset(), a)
  {
    forall lo, hi
      ensures Exceeds(cfg, CountIn(a, lo, hi), hi - lo) <==>
              Over(cfg.Interval(), cfg.Offset(), CountIn(a, lo, hi), hi - lo)
    {
      ExceedsIsOver(cfg, CountIn(a, lo, hi), hi - lo);
    }
  }

  lemma BurstOffset(cfg: Config)
    requires cfg.Valid() && cfg.burst >= 1
    ensures cfg.Interval() <= cfg.Offset()
  {
    ProductMonotone(1.0, cfg.burst as real, cfg.Interval());
  }

  /** In sorted times that all lie before `hi`, those counted are exactly a suffix. */
  lemma {:induction false} CountIsSuffix(a: seq<real>, lo: real, hi: real)
    requires Sorted(a)
    requires forall k :: 0 <= k < |a| ==> a[k] <= hi
    ensures CountIn(a, lo, hi) <= |a|
    ensures forall k :: 0 <= k < |a| ==> (lo <= a[k] <==> |a| - CountIn(a, lo, hi) <= k)
  {
    if a != [] {
      CountIsSuffix(a[..|a| - 1], lo, hi);
      assert |a| > 1 && a[|a| - 1] < lo ==> a[..|a| - 1][|a| - 2] < lo;
    }
  }

  /** A denial is witnessed by a window that starts at an admission. */
  lemma DenialFindsWindow(i: real, offset: real, a: seq<real>, now: real)
    requires 0.0 < i <= offset && Sorted(a)
    requires forall k :: 0 <= k < |a| ==> a[k] <= now
    requires Gate(i, offset, TatOf(i, a), now).Denied?
    ensures exists lo :: lo <= now && Over(i, offset, CountIn(a, lo, now) + 1, now - lo)
  {
    TatClosedForm(i, a);
    var k :| 0 <= k < |a| && PaidOff(i, a, k) == TatOf(i, a).value;
    CountIsSuffix(a, a[k], now);
    TimesMonotone(|a| - k + 1, CountIn(a, a[k], now) + 1, i);
    assert Times(|a| - k + 1, i) == Times(|a| - k, i) + i;
    assert Over(i, offset, CountIn(a, a[k], now) + 1, now - a[k]);
  }

  /** A window that one more admission would overfill forces a denial. */
  lemma WindowForcesDenial(i: real, offset: real, a: seq<real>, now: real, lo: real)
    requires 0.0 < i <= offset && Sorted(a) && lo <= now
    requires forall k :: 0 <= k < |a| ==> a[k] <= now
    requires Over(i, offset, CountIn(a, lo, now) + 1, now - lo)
    ensures Gate(i, offset, TatOf(i, a), now).Denied?
  {
    var n := CountIn(a, lo, now);
    assert Times(n + 1, i) == Times(n, i) + i;
    CountIsSuffix(a, lo, now);
    if n > 0 {
      TatClosedForm(i, a);
      assert PaidOff(i, a, |a| - n) <= TatOf(i, a).value;
    }
  }

  /** Without expiry a call is denied exactly when admitting it would overfill a window. */
  lemma ForeverDeniedIffFull(cfg: Config, nows: seq<real>, now: real)
    requires cfg.Valid() && cfg.burst >= 1 && Sorted(nows + [now])
    ensures Verdict(cfg, nows, now).Denied? <==>
            exists lo :: lo <= now && Exceeds(cfg, CountIn(AdmittedTimes(cfg, nows), lo, now) + 1, now - lo)
  {
    hide Exceeds, Over, Gate;
    var i, offset, a := cfg.Interval(), cfg.Offset(), AdmittedTimes(cfg, nows);
    BurstOffset(cfg);
    PrefixSorted(nows, now);
    AdmissionsAreCalls(i, offset, nows, now);
    forall lo
      ensures Exceeds(cfg, CountIn(a, lo, now) + 1, now - lo) <==> Over(i, offset, CountIn(a, lo, now) + 1, now - lo)
    {
      ExceedsIsOver(cfg, CountIn(a, lo, now) + 1, now - lo);
    }
    if Verdict(cfg, nows, now).Denied? {
      DenialFindsWindow(i, offset, a, now);
    }
    if lo :| lo <= now && Exceeds(cfg, CountIn(a, lo, now) + 1, now - lo) {
      WindowForcesDenial(i, offset, a, now, lo);
    }
  }

  lemma PrefixSorted(nows: seq<real>, now: real)
    requires Sorted(nows + [now])
    ensures Sorted(nows)
    ensures forall k :: 0 <= k < |nows| ==> nows[k] <= now
  {
    var all := nows + [now];
    forall j, k | 0 <= j < k < |nows| ensures nows[j] <= nows[k] { assert all[j] <= all[k]; }
    forall k | 0 <= k < |nows| ensures nows[k] <= now { assert all[k] <= all[|nows|]; }
  }

  /** The admissions counted in a window, one interval each from its start, are paid off by the
      stored time; so they fit, in whatever order the clock readings come. */
  lemma {:induction false} WindowIsPaidOff(i: real, offset: real, nows: seq<real>, lo: real, hi: real)
    requires 0.0 < i && 0.0 <= offset && lo <= hi
    ensures var a := Admissions(i, offset, nows);
            var n := CountIn(a, lo, hi);
            && (0 < n ==> a != [] && lo + Times(n, i) <= TatOf(i, a).value)
            && Times(n, i) <= offset + (hi - lo)
  {
    if nows != [] {
      var before, now := nows[..|nows| - 1], nows[|nows| - 1];
      WindowIsPaidOff(i, offset, before, lo, hi);
      var b := Admissions(i, offset, before);
      assert (b + [now])[..|b|] == b;
      assert Times(CountIn(b, lo, hi) + 1, i) == Times(CountIn(b, lo, hi), i) + i;
    }
  }

  /** Without expiry no window of any run holds more than the bound. */
  lemma ForeverConforms(cfg: Config, nows: seq<real>)
    requires cfg.Valid() && cfg.burst >= 0
    ensures Conforming(cfg, AdmittedTimes(cfg, nows))
  {
    var i, offset, a := cfg.Interval(), cfg.Offset(), AdmittedTimes(cfg, nows);
    ProductMonotone(0.0, cfg.burst as real, i);
    forall lo, hi | lo <= hi ensures !Over(i, offset, CountIn(a, lo, hi), hi - lo) {
      WindowIsPaidOff(i, offset, nows, lo, hi);
    }
    ConformingIsFits(cfg, a);
  }

  // ---------- the continuously refilled token bucket ----------

  /** A plain token bucket: full at the start, refilled continuously, one token per admission. */
  datatype Bucket = Full | Bucket(tokens: real, at: real)

  function Refilled(cfg: Config, bucket: Bucket, now: real): real
    requires cfg.Valid()
  {
    match bucket
    case Full => cfg.burst as real
    case Bucket(tokens, at) =>
      var more := tokens + (now - at) * cfg.rate / NANOS_PER_SECOND;
      if more < cfg.burst as real then more else cfg.burst as real
  }

  function BucketAfter(cfg: Config, nows: seq<real>): Bucket
    requires cfg.Valid()
  {
    if nows == [] then Full
    else
      var now := nows[|nows| - 1];
      var tokens := Refilled(cfg, BucketAfter(cfg, nows[..|nows| - 1]), now);
      Bucket(if tokens >= 1.0 then tokens - 1.0 else tokens, now)
  }

  /** tokens = burst - max(tat - now, 0) / interval. */
  function TokensOf(cfg: Config, tat: Option<real>, now: real): real
    requires cfg.Valid()
  {
    cfg.burst as real - (Base(tat, now) - now) / cfg.Interval()
  }

  lemma OneTokenPerInterval(cfg: Config, d: real)
    requires cfg.Valid()
    ensures (d + cfg.Interval()) / cfg.Interval() == d / cfg.Interval() + 1.0
    ensures d * cfg.rate / NANOS_PER_SECOND == d / cfg.Interval()
    ensures 0.0 <= d <==> 0.0 <= d / cfg.Interval()
  {
    var i := cfg.Interval();
    var q := d / i;
    assert q * i == d;
    assert i * cfg.rate == NANOS_PER_SECOND;
    assert d * cfg.rate == q * (i * cfg.rate);
    if 0.0 <= q { assert 0.0 <= q * i; } else { assert q * i < 0.0; }
    assert (q + 1.0) * i == d + i;
  }

  lemma QuotientSplits(x: real, y: real, i: real)
    requires 0.0 < i
    ensures (x + y) / i == x / i + y / i
  {
    assert (x / i + y / i) * i == x + y;
  }

  lemma AdmitsOnToken(cfg: Config, tat: Option<real>, now: real)
    requires cfg.Valid()
    ensures Script(cfg, tat, now).Admitted? <==> TokensOf(cfg, tat, now) >= 1.0
  {
    var i, owed := cfg.Interval(), Base(tat, now) - now;
    var q := owed / i;
    assert q * i == owed;
    var room := cfg.burst as real - q - 1.0;
    assert room * i == cfg.Offset() - owed - i;
    if room >= 0.0 { assert room * i >= 0.0; } else { assert room * i < 0.0; }
  }

  /** Letting time pass, and taking a token, commute with the reading of a stored time as tokens. */
  lemma TokensFollow(cfg: Config, tat: Option<real>, at: real, now: real)
    requires cfg.Valid() && at <= now
    ensures Refilled(cfg, Bucket(TokensOf(cfg, tat, at), at), now) == TokensOf(cfg, tat, now)
    ensures TokensOf(cfg, Some(Base(tat, at) + cfg.Interval()), at) == TokensOf(cfg, tat, at) - 1.0
  {
    var i, owed := cfg.Interval(), Base(tat, at) - at;
    OneTokenPerInterval(cfg, owed);
    OneTokenPerInterval(cfg, now - at);
    QuotientSplits(owed - (now - at), now - at, i);
    OneTokenPerInterval(cfg, owed - (now - at));
    assert 0.0 / i == 0.0;
  }

  lemma FullAtStart(cfg: Config, now: real)
    requires cfg.Valid()
    ensures Refilled(cfg, Full, now) == TokensOf(cfg, None, now)
  {
    assert 0.0 / cfg.Interval() == 0.0;
  }

  /** Without expiry the script and the token bucket bisimulate. */
  lemma {:induction false} ForeverIsTokenBucket(cfg: Config, nows: seq<real>, now: real)
    requires cfg.Valid() && Sorted(nows + [now])
    ensures Refilled(cfg, BucketAfter(cfg, nows), now)
            == TokensOf(cfg, TatOf(cfg.Interval(), AdmittedTimes(cfg, nows)), now)
    ensures Verdict(cfg, nows, now).Admitted? <==> Refilled(cfg, BucketAfter(cfg, nows), now) >= 1.0
  {
    hide Refilled, TokensOf, Base, Gate;
    var tat := TatOf(cfg.Interval(), AdmittedTimes(cfg, nows));
    AdmitsOnToken(cfg, tat, now);
    if nows == [] {
      FullAtStart(cfg, now);
    } else {
      var before, last := nows[..|nows| - 1], nows[|nows| - 1];
      PrefixSorted(nows, now);
      assert before + [last] == nows;
      ForeverIsTokenBucket(cfg, before, last);
      TokensFollow(cfg, TatOf(cfg.Interval(), AdmittedTimes(cfg, before)), last, now);
      TokensFollow(cfg, tat, last, now);
      var a := AdmittedTimes(cfg, before);
      assert (a + [last])[..|a|] == a;
    }
  }

  // ---------- the retry time ----------

  /** The retry time is exact: with no admission or expiry in between, every call before it is
      denied and every call from then on is admitted. */
  lemma RetryTimeIsExact(cfg: Config, tat: Option<real>, now: real, later: real)
    requires cfg.Valid() && cfg.burst >= 1 && now <= later
    requires Script(cfg, tat, now).Denied?
    ensures Script(cfg, tat, later).Admitted? <==> now + Script(cfg, tat, now).retryAfter <= later
  {
    BurstOffset(cfg);
  }

  /** With a burst below one the promise fails for every retry time: nothing is ever admitted. */
  lemma RetryTimeNeedsBurst(cfg: Config, tat: Option<real>, now: real)
    requires cfg.Valid() && cfg.burst < 1
    ensures Script(cfg, tat, now).Denied?
  {
    ProductMonotone(cfg.burst as real, 0.0, cfg.Interval());
  }

  // ---------- the expiry of the key ----------

  /** The Redis entry after the calls at `nows` on one key, with expiry. */
  function Stored(cfg: Config, nows: seq<real>): Option<Entry>
    requires cfg.Valid()
  {
    if nows == [] then None
    else Next(cfg, Stored(cfg, nows[..|nows| - 1]), nows[|nows| - 1])
  }

  /** Many keys at once: a key's entry depends on the calls on that key only. */
  function Step(cfg: Config): (Option<Entry>, real) -> Option<Entry> {
    (entry, now) => if 0.0 < cfg.rate then Next(cfg, entry, now) else entry
  }

  lemma {:induction false} StoredIsEntryAfter(cfg: Config, nows: seq<real>)
    requires cfg.Valid()
    ensures EntryAfter(Step(cfg), nows) == Stored(cfg, nows)
  {
    if nows != [] { StoredIsEntryAfter(cfg, nows[..|nows| - 1]); }
  }

  lemma KeyHoldsItsOwnCalls(cfg: Config, calls: seq<Call>, key: string)
    requires cfg.Valid()
    ensures Lookup(TableAfter(Step(cfg), calls), key) == Stored(cfg, Readings(calls, key))
  {
    KeysAreIsolated(Step(cfg), calls, key);
    StoredIsEntryAfter(cfg, Readings(calls, key));
  }

  /** What a limiter whose keys never expire answers to the same call. */
  function DecideForever(cfg: Config, nows: seq<real>, now: real): Result
    requires cfg.Valid()
  {
    match Verdict(cfg, nows, now)
    case Denied(retryAfter) => Deny(retryAfter)
    case Admitted(_) => Allow
  }

  /** The expiry is long enough to refill the bucket, or there is no bucket to refill. */
  predicate Forgettable(cfg: Config) {
    cfg.burst < 1 || cfg.rate * (cfg.Ttl() / NANOS_PER_SECOND) >= cfg.burst as real
  }

  lemma ForgettableTtl(cfg: Config)
    requires cfg.Valid() && cfg.burst >= 1
    ensures Forgettable(cfg) <==> cfg.Offset() <= cfg.Ttl()
  {
    ExceedsIsOver(cfg, 0, cfg.Ttl());
    var i := cfg.Interval();
    var x, y := cfg.burst as real, cfg.rate * (cfg.Ttl() / NANOS_PER_SECOND);
    assert y * i == cfg.Ttl() by {
      assert i * cfg.rate == NANOS_PER_SECOND;
      assert y * i == (i * cfg.rate) * (cfg.Ttl() / NANOS_PER_SECOND);
    }
    if x <= y { ProductMonotone(x, y, i); } else { assert (x - y) * i > 0.0; }
  }

  /** An entry that remembers the same time, and outlives it. */
  ghost predicate Remembers(entry: Option<Entry>, tat: Option<real>) {
    match entry
    case None => tat == None
    case Some(e) => tat == Some(e.tat) && e.tat <= e.expiresAt
  }

  lemma {:induction false} StoredRemembers(cfg: Config, nows: seq<real>)
    requires cfg.Valid() && Forgettable(cfg)
    ensures Remembers(Stored(cfg, nows), TatOf(cfg.Interval(), AdmittedTimes(cfg, nows)))
  {
    if nows != [] {
      var before, now := nows[..|nows| - 1], nows[|nows| - 1];
      StoredRemembers(cfg, before);
      var a := AdmittedTimes(cfg, before);
      assert (a + [now])[..|a|] == a;
      if cfg.burst < 1 {
        RetryTimeNeedsBurst(cfg, Read(Stored(cfg, before), now), now);
        RetryTimeNeedsBurst(cfg, TatOf(cfg.Interval(), a), now);
      } else {
        BurstOffset(cfg);
        ForgettableTtl(cfg);
      }
    }
  }

  ghost predicate SameAnswer(cfg: Config, nows: seq<real>, now: real)
    requires cfg.Valid()
  {
    Decide(cfg, Stored(cfg, nows), now) == DecideForever(cfg, nows, now)
  }

  /** Forgetting is invisible: with a long enough expiry every call of every run, in any order of
      clock readings, gets the answer and the retry time of a limiter that never forgets. */
  lemma ForgettingIsInvisible(cfg: Config, nows: seq<real>, now: real)
    requires cfg.Valid() && Forgettable(cfg)
    ensures SameAnswer(cfg, nows, now)
  {
    StoredRemembers(cfg, nows);
  }

  /** The admitted clock readings of a run of calls on one Redis key. */
  function KeyAdmissions(cfg: Config, nows: seq<real>): seq<real>
    requires cfg.Valid()
  {
    if nows == [] then []
    else
      var before, now := nows[..|nows| - 1], nows[|nows| - 1];
      KeyAdmissions(cfg, before) + (if Decide(cfg, Stored(cfg, before), now) == Allow then [now] else [])
  }

  /** As long as the answers agree, so do the admissions. */
  lemma {:induction false} SameAdmissions(cfg: Config, nows: seq<real>)
    requires cfg.Valid() && forall k :: 0 <= k < |nows| ==> SameAnswer(cfg, nows[..k], nows[k])
    ensures KeyAdmissions(cfg, nows) == AdmittedTimes(cfg, nows)
  {
    hide Stored, Decide;
    if nows != [] {
      var m := |nows| - 1;
      forall k | 0 <= k < m ensures SameAnswer(cfg, nows[..m][..k], nows[..m][k]) {
        assert nows[..m][..k] == nows[..k];
      }
      SameAdmissions(cfg, nows[..m]);
      assert SameAnswer(cfg, nows[..m], nows[m]);
      assert AdmittedTimes(cfg, nows[..m]) + [] == AdmittedTimes(cfg, nows[..m]);
    }
  }

  lemma ForgettableAdmissions(cfg: Config, nows: seq<real>)
    requires cfg.Valid() && Forgettable(cfg)
    ensures KeyAdmissions(cfg, nows) == AdmittedTimes(cfg, nows)
  {
    forall k | 0 <= k < |nows| ensures SameAnswer(cfg, nows[..k], nows[k]) {
      ForgettingIsInvisible(cfg, nows[..k], nows[k]);
    }
    SameAdmissions(cfg, nows);
  }

  // ---------- what holds of every run on a key that expires ----------

  /** No window of a run holds more than burst + rate * length admissions, whatever the order in
      which the clock readings reach Redis. */
  lemma AdmittedConforms(cfg: Config, nows: seq<real>)
    requires cfg.Valid() && cfg.burst >= 0 && Forgettable(cfg)
    ensures Conforming(cfg, KeyAdmissions(cfg, nows))
  {
    ForgettableAdmissions(cfg, nows);
    ForeverConforms(cfg, nows);
  }

  /** The limiter is maximal: with a clock that does not go back, a call is denied exactly when
      admitting it would overfill some window that ends now. */
  lemma DeniedIffWindowFull(cfg: Config, nows: seq<real>, now: real)
    requires cfg.Valid() && Forgettable(cfg) && Sorted(nows + [now])
    ensures Decide(cfg, Stored(cfg, nows), now).Deny? <==>
            exists lo :: lo <= now && Exceeds(cfg, CountIn(KeyAdmissions(cfg, nows), lo, now) + 1, now - lo)
  {
    hide Exceeds, CountIn;
    ForgettingIsInvisible(cfg, nows, now);
    ForgettableAdmissions(cfg, nows);
    if cfg.burst >= 1 {
      ForeverDeniedIffFull(cfg, nows, now);
    } else {
      RetryTimeNeedsBurst(cfg, TatOf(cfg.Interval(), AdmittedTimes(cfg, nows)), now);
      OneIsTooMany(cfg, CountIn(KeyAdmissions(cfg, nows), now, now) + 1);
      assert Exceeds(cfg, CountIn(KeyAdmissions(cfg, nows), now, now) + 1, now - now);
    }
  }

  lemma OneIsTooMany(cfg: Config, n: nat)
    requires cfg.Valid() && cfg.burst < 1 && 1 <= n
    ensures Exceeds(cfg, n, 0.0)
  {
    assert cfg.rate * (0.0 / NANOS_PER_SECOND) == 0.0;
  }

  /** The script and the token bucket bisimulate: after any run of calls with a clock that does
      not go back they hold the same tokens, and they answer the next call alike. */
  lemma ScriptIsTokenBucket(cfg: Config, nows: seq<real>, now: real)
    requires cfg.Valid() && Forgettable(cfg) && Sorted(nows + [now])
    ensures Refilled(cfg, BucketAfter(cfg, nows), now) == TokensOf(cfg, Read(Stored(cfg, nows), now), now)
    ensures Decide(cfg, Stored(cfg, nows), now) == Allow <==> Refilled(cfg, BucketAfter(cfg, nows), now) >= 1.0
  {
    hide Refilled, Gate;
    ForeverIsTokenBucket(cfg, nows, now);
    ForgettingIsInvisible(cfg, nows, now);
    StoredRemembers(cfg, nows);
  }

  /** After a denial, the next call at a later time is admitted exactly from the end of the retry
      time on, whether or not the key expires in between. */
  lemma RetryHonouredAcrossExpiry(cfg: Config, nows: seq<real>, now: real, later: real)
    requires cfg.Valid() && cfg.burst >= 1 && Forgettable(cfg) && now <= later
    requires Decide(cfg, Stored(cfg, nows), now).Deny?
    ensures Decide(cfg, Stored(cfg, nows + [now]), later) == Allow <==>
            now + Decide(cfg, Stored(cfg, nows), now).retryAfter <= later
  {
    var all := nows + [now];
    assert all[..|nows|] == nows;
    ForgettingIsInvisible(cfg, nows, now);
    ForgettingIsInvisible(cfg, all, later);
    RetryTimeIsExact(cfg, TatOf(cfg.Interval(), AdmittedTimes(cfg, nows)), now, later);
  }

  lemma {:induction false} StoredStaysNear(cfg: Config, nows: seq<real>, now: real)
    requires cfg.Valid() && cfg.burst >= 0 && Sorted(nows + [now])
    ensures Stored(cfg, nows).Some? ==> Stored(cfg, nows).value.tat <= now + cfg.Offset()
  {
    ProductMonotone(0.0, cfg.burst as real, cfg.Interval());
    if nows != [] {
      var before, last := nows[..|nows| - 1], nows[|nows| - 1];
      PrefixSorted(nows, now);
      assert before + [last] == nows;
      StoredStaysNear(cfg, before, last);
    }
  }

  /** With a clock that does not go back, a denied caller is told to wait at most one interval,
      however long keys live. */
  lemma RetryWithinOneInterval(cfg: Config, nows: seq<real>, now: real)
    requires cfg.Valid() && cfg.burst >= 0 && Sorted(nows + [now])
    requires Decide(cfg, Stored(cfg, nows), now).Deny?
    ensures 0.0 < Decide(cfg, Stored(cfg, nows), now).retryAfter <= cfg.Interval()
  {
    StoredStaysNear(cfg, nows, now);
    ProductMonotone(0.0, cfg.burst as real, cfg.Interval());
  }

  // ---------- no conforming policy admits more ----------

  /** The calls that some other policy admits: those with `take[k]`. */
  function Taken(nows: seq<real>, take: seq<bool>): seq<real>
    requires |take| == |nows|
  {
    if nows == [] then []
    else
      var m := |nows| - 1;
      Taken(nows[..m], take[..m]) + (if take[m] then [nows[m]] else [])
  }

  lemma {:induction false} TakenIsSorted(nows: seq<real>, take: seq<bool>, hi: real)
    requires |take| == |nows| && Sorted(nows)
    requires forall k :: 0 <= k < |nows| ==> nows[k] <= hi
    ensures Sorted(Taken(nows, take))
    ensures forall k :: 0 <= k < |Taken(nows, take)| ==> Taken(nows, take)[k] <= hi
  {
    if nows != [] {
      var m := |nows| - 1;
      TakenIsSorted(nows[..m], take[..m], nows[m]);
    }
  }

  /** Times that fit never push the stored time more than the burst offset ahead of the last. */
  lemma FittingBoundsTat(i: real, offset: real, a: seq<real>)
    requires 0.0 < i && Sorted(a) && a != [] && Fits(i, offset, a)
    ensures TatOf(i, a).value <= a[|a| - 1] + offset
  {
    var last := a[|a| - 1];
    TatClosedForm(i, a);
    var k :| 0 <= k < |a| && PaidOff(i, a, k) == TatOf(i, a).value;
    CountIsSuffix(a, a[k], last);
    assert !Over(i, offset, CountIn(a, a[k], last), last - a[k]);
    TimesMonotone(|a| - k, CountIn(a, a[k], last), i);
  }

  lemma FittingPrefix(i: real, offset: real, a: seq<real>, x: real)
    requires 0.0 < i && Fits(i, offset, a + [x])
    ensures Fits(i, offset, a)
  {
    forall lo, hi | lo <= hi ensures !Over(i, offset, CountIn(a, lo, hi), hi - lo) {
      assert (a + [x])[..|a|] == a;
      assert !Over(i, offset, CountIn(a + [x], lo, hi), hi - lo);
      TimesMonotone(CountIn(a, lo, hi), CountIn(a + [x], lo, hi), i);
    }
  }

  /** How far a limiter that admitted `n` and now reads `t` may be ahead of a rival that admitted
      the calls `p`. */
  ghost predicate Leads(i: real, t: Option<real>, n: nat, p: seq<real>, x: real) {
    |p| <= n && Base(t, x) <= Base(TatOf(i, p), x) + Times(n - |p|, i)
  }

  lemma LeadStep(i: real, offset: real, t: Option<real>, n: nat, p: seq<real>, now: real, take: bool, x: real)
    requires 0.0 < i && now <= x && Leads(i, t, n, p, now)
    requires take ==> TatOf(i, p + [now]).value <= now + offset
    ensures var admitted := Gate(i, offset, t, now).Admitted?;
            Leads(i, if admitted then Some(Base(t, now) + i) else t, if admitted then n + 1 else n,
                  if take then p + [now] else p, x)
  {
    hide Gate, Base;
    assert (p + [now])[..|p|] == p;
    var d := n - |p|;
    TimesMonotone(0, d, i);
    if d > 0 { TimesMonotone(0, d - 1, i); }
    assert Times(d + 1, i) == Times(d, i) + i;
    LeadArithmetic(i, offset, t, TatOf(i, p), Times(d, i), now, take, x);
  }

  lemma LeadArithmetic(i: real, offset: real, t: Option<real>, r: Option<real>, ahead: real, now: real, take: bool, x: real)
    requires 0.0 < i && now <= x && 0.0 <= ahead && Base(t, now) <= Base(r, now) + ahead
    requires take ==> Base(r, now) <= now + offset - i
    ensures var admitted := Gate(i, offset, t, now).Admitted?;
            var t' := if admitted then Some(Base(t, now) + i) else t;
            var r' := if take then Some(Base(r, now) + i) else r;
            var ahead' := ahead + (if admitted then i else 0.0) - (if take then i else 0.0);
            && (take && !admitted ==> 0.0 < ahead)
            && (0.0 <= ahead' ==> Base(t', x) <= Base(r', x) + ahead')
  {
  }

  /** What a later call reads is no later than what this call read or wrote. */
  lemma ReadLater(cfg: Config, nows: seq<real>, now: real, x: real)
    requires cfg.Valid() && now <= x
    ensures var i, t := cfg.Interval(), Read(Stored(cfg, nows), now);
            var t' := if Script(cfg, t, now).Admitted? then Some(Base(t, now) + i) else t;
            Base(Read(Next(cfg, Stored(cfg, nows), now), x), x) <= Base(t', x)
  {
    if cfg.ttlMillis <= 0 { NeverStored(cfg, nows); }
  }

  lemma {:induction false} NeverStored(cfg: Config, nows: seq<real>)
    requires cfg.Valid() && cfg.ttlMillis <= 0
    ensures Stored(cfg, nows) == None
  {
    if nows != [] { NeverStored(cfg, nows[..|nows| - 1]); }
  }

  /** Exchange argument, along any run. */
  lemma {:induction false} RivalFallsBehind(cfg: Config, nows: seq<real>, take: seq<bool>, x: real)
    requires cfg.Valid() && |take| == |nows| && Sorted(nows)
    requires Fits(cfg.Interval(), cfg.Offset(), Taken(nows, take))
    requires forall k :: 0 <= k < |nows| ==> nows[k] <= x
    ensures Leads(cfg.Interval(), Read(Stored(cfg, nows), x), |KeyAdmissions(cfg, nows)|, Taken(nows, take), x)
  {
    hide Fits, Gate, Base, TatOf, Next;
    var i, offset := cfg.Interval(), cfg.Offset();
    if nows == [] {
      assert Times(0, i) == 0.0;
      assert TatOf(i, []) == None by { EmptyTat(i); }
    } else {
      var m := |nows| - 1;
      var before, now := nows[..m], nows[m];
      var p := Taken(before, take[..m]);
      if take[m] {
        FittingPrefix(i, offset, p, now);
        TakenIsSorted(nows, take, now);
        FittingBoundsTat(i, offset, p + [now]);
      } else {
        assert Taken(nows, take) == p;
      }
      RivalFallsBehind(cfg, before, take[..m], now);
      LeadStep(i, offset, Read(Stored(cfg, before), now), |KeyAdmissions(cfg, before)|, p, now, take[m], x);
      ReadLater(cfg, before, now, x);
    }
  }

  lemma EmptyTat(i: real)
    ensures TatOf(i, []) == None
  {
  }

  /** The limiter is optimal: on a forward clock no choice of calls that keeps every window within
      burst + rate * length contains more calls than the limiter admits, however long keys live. */
  lemma NoConformingPolicyAdmitsMore(cfg: Config, nows: seq<real>, take: seq<bool>)
    requires cfg.Valid() && |take| == |nows| && Sorted(nows)
    requires Conforming(cfg, Taken(nows, take))
    ensures |Taken(nows, take)| <= |KeyAdmissions(cfg, nows)|
  {
    ConformingIsFits(cfg, Taken(nows, take));
    RivalFallsBehind(cfg, nows, take, if nows == [] then 0.0 else nows[|nows| - 1]);
  }

  // ---------- when the expiry shows ----------

  function ExpiryTime(cfg: Config): real {
    if cfg.ttlMillis <= 0 then 0.0 else cfg.Ttl()
  }

  /** The next of a burst of calls at `t` that found the key absent. */
  lemma BurstAdmits(cfg: Config, k: nat, t: real)
    requires cfg.Valid() && k < cfg.burst
    ensures var i := cfg.Interval();
            Script(cfg, if k == 0 then None else Some(t + Times(k, i)), t) == Reply.Admitted(t + Times(k + 1, i))
  {
    var i := cfg.Interval();
    TimesIsProduct(k + 1, i);
    TimesMonotone(0, k, i);
    ProductMonotone((k + 1) as real, cfg.burst as real, i);
    assert Times(0, i) == 0.0 && Times(k + 1, i) == Times(k, i) + i;
  }

  lemma NextOfBurst(cfg: Config, entry: Option<Entry>, k: nat, t: real)
    requires cfg.Valid() && k < cfg.burst
    requires Read(entry, t) == if k == 0 then None else Some(t + Times(k, cfg.Interval()))
    ensures Next(cfg, entry, t) ==
            if cfg.ttlMillis <= 0 then entry else Some(Entry(t + Times(k + 1, cfg.Interval()), t + cfg.Ttl()))
    ensures Decide(cfg, entry, t) == Allow
  {
    hide Script, Times, Read;
    BurstAdmits(cfg, k, t);
  }

  /** The key after two bursts one expiry apart. */
  function BurstEntry(cfg: Config, n: nat, m: nat): Option<Entry>
    requires cfg.Valid()
  {
    var t, i := ExpiryTime(cfg), cfg.Interval();
    if cfg.ttlMillis <= 0 || n == 0 then None
    else if m == 0 then Some(Entry(0.0 + Times(n, i), t))
    else Some(Entry(t + Times(m, i), t + t))
  }

  /** With expiry, the second burst finds the key as absent as the first did. */
  lemma BurstStep(cfg: Config, n: nat, m: nat)
    requires cfg.Valid() && ((m == 0 && n < cfg.burst) || (n == cfg.burst && m < cfg.burst))
    ensures Decide(cfg, BurstEntry(cfg, n, m), NextOfBursts(cfg, n)) == Allow
    ensures Next(cfg, BurstEntry(cfg, n, m), NextOfBursts(cfg, n))
            == if n < cfg.burst then BurstEntry(cfg, n + 1, 0) else BurstEntry(cfg, n, m + 1)
  {
    hide Next, Decide, Times;
    NextOfBurst(cfg, BurstEntry(cfg, n, m), if cfg.ttlMillis <= 0 then 0 else if n < cfg.burst then n else m,
                NextOfBursts(cfg, n));
  }

  lemma {:induction false} BurstsAreForgotten(cfg: Config, n: nat, m: nat)
    requires cfg.Valid() && n <= cfg.burst && m <= cfg.burst && (0 < m ==> n == cfg.burst)
    ensures Stored(cfg, TwoBursts(n, m, ExpiryTime(cfg))) == BurstEntry(cfg, n, m)
    decreases n + m
  {
    hide Next, Times;
    if n + m > 0 {
      var t := ExpiryTime(cfg);
      var n', m' := if m > 0 then n else n - 1, if m > 0 then m - 1 else 0;
      assert TwoBursts(n, m, t) == TwoBursts(n', m', t) + [NextOfBursts(cfg, n')];
      assert TwoBursts(n, m, t)[..n + m - 1] == TwoBursts(n', m', t);
      BurstsAreForgotten(cfg, n', m');
      BurstStep(cfg, n', m');
    }
  }

  /** The call after the first n + m of two full bursts. */
  function NextOfBursts(cfg: Config, n: nat): real {
    if n < cfg.burst then 0.0 else ExpiryTime(cfg)
  }

  /** Both bursts are admitted in full when the key expires in between. */
  lemma BurstsAdmittedWithExpiry(cfg: Config, n: nat, m: nat)
    requires cfg.Valid() && ((m == 0 && n < cfg.burst) || (n == cfg.burst && m < cfg.burst))
    ensures Decide(cfg, Stored(cfg, TwoBursts(n, m, ExpiryTime(cfg))), NextOfBursts(cfg, n)) == Allow
  {
    BurstsAreForgotten(cfg, n, m);
    BurstStep(cfg, n, m);
  }

  lemma {:induction false} BurstsAdmitted(cfg: Config, n: nat, m: nat)
    requires cfg.Valid() && n <= cfg.burst && m <= cfg.burst && (0 < m ==> n == cfg.burst)
    ensures KeyAdmissions(cfg, TwoBursts(n, m, ExpiryTime(cfg))) == TwoBursts(n, m, ExpiryTime(cfg))
    decreases n + m
  {
    hide Decide, Stored;
    var t := ExpiryTime(cfg);
    var run := TwoBursts(n, m, t);
    if n + m > 0 {
      var n', m' := if m > 0 then n else n - 1, if m > 0 then m - 1 else 0;
      assert run == TwoBursts(n', m', t) + [NextOfBursts(cfg, n')];
      assert run[..|run| - 1] == TwoBursts(n', m', t);
      BurstsAdmitted(cfg, n', m');
      BurstsAdmittedWithExpiry(cfg, n', m');
    }
  }

  lemma {:induction false} CountAll(a: seq<real>, lo: real, hi: real)
    requires forall k :: 0 <= k < |a| ==> lo <= a[k] <= hi
    ensures CountIn(a, lo, hi) == |a|
  {
    if a != [] { CountAll(a[..|a| - 1], lo, hi); }
  }

  /** Two full bursts closer together than a refill are more than any window may hold. */
  lemma TwoBurstsOverfill(cfg: Config)
    requires cfg.Valid() && !Forgettable(cfg)
    ensures var b, t := cfg.burst, ExpiryTime(cfg);
            0.0 <= t && Sorted(TwoBursts(b, b, t)) && !Conforming(cfg, TwoBursts(b, b, t))
  {
    var b, t := cfg.burst, ExpiryTime(cfg);
    CountAll(TwoBursts(b, b, t), 0.0, t);
    assert cfg.rate * (0.0 / NANOS_PER_SECOND) == 0.0;
    assert Exceeds(cfg, CountIn(TwoBursts(b, b, t), 0.0, t), t - 0.0);
  }

  /** The condition on the window bound is exact: when it fails, two bursts on a forward clock
      break the bound. */
  lemma WindowBoundIffForgettable(cfg: Config)
    requires cfg.Valid() && cfg.burst >= 0
    ensures (forall nows :: Conforming(cfg, KeyAdmissions(cfg, nows))) <==> Forgettable(cfg)
    ensures (forall nows :: Sorted(nows) ==> Conforming(cfg, KeyAdmissions(cfg, nows))) <==> Forgettable(cfg)
  {
    hide Conforming;
    if Forgettable(cfg) {
      forall nows ensures Conforming(cfg, KeyAdmissions(cfg, nows)) { AdmittedConforms(cfg, nows); }
    } else {
      var run := TwoBursts(cfg.burst, cfg.burst, ExpiryTime(cfg));
      TwoBurstsOverfill(cfg);
      BurstsAdmitted(cfg, cfg.burst, cfg.burst);
      assert Sorted(run) && !Conforming(cfg, KeyAdmissions(cfg, run));
    }
  }

  /** The condition is exact for the answers too: when it fails, some run tells the limiter from
      one that never forgets. */
  lemma ForgettingIsVisible(cfg: Config)
    requires cfg.Valid() && !Forgettable(cfg)
    ensures exists nows, now :: Sorted(nows + [now]) && !SameAnswer(cfg, nows, now)
  {
    hide Conforming, SameAnswer;
    if forall nows, now :: Sorted(nows + [now]) ==> SameAnswer(cfg, nows, now) {
      var run := TwoBursts(cfg.burst, cfg.burst, ExpiryTime(cfg));
      TwoBurstsOverfill(cfg);
      BurstsAdmitted(cfg, cfg.burst, cfg.burst);
      forall k | 0 <= k < |run| ensures SameAnswer(cfg, run[..k], run[k]) {
        assert Sorted(run[..k] + [run[k]]);
      }
      SameAdmissions(cfg, run);
      ForeverConforms(cfg, run);
    }
  }
}
