/** The two implementations of the limiter interface side by side, with the same rate and burst. */
module Compare {
  import opened Limiter
  import Gcra
  import Mono

  /** Which calls of a run on one key the in-process limiter admits. */
  function MonoTakes(cfg: Mono.Config, nows: seq<real>): (take: seq<bool>)
    requires 0.0 < cfg.rate
    ensures |take| == |nows|
  {
    if nows == [] then []
    else
      var before, now := nows[..|nows| - 1], nows[|nows| - 1];
      MonoTakes(cfg, before) + [Mono.Decide(cfg, true, Mono.After(cfg, true, None, before), now) == Allow]
  }

  lemma {:induction false} TakesAt(cfg: Mono.Config, nows: seq<real>, k: nat)
    requires 0.0 < cfg.rate && k < |nows|
    ensures MonoTakes(cfg, nows)[k]
            == (Mono.Decide(cfg, true, Mono.After(cfg, true, None, nows[..k]), nows[k]) == Allow)
  {
    hide Mono.Next, Mono.Decide;
    if k < |nows| - 1 {
      var before := nows[..|nows| - 1];
      TakesAt(cfg, before, k);
      assert before[..k] == nows[..k];
    }
  }

  /** How many of take[p..q] are true. */
  function TakenBetween(take: seq<bool>, p: nat, q: nat): nat
    requires p <= q <= |take|
  {
    if p == q then 0 else TakenBetween(take, p, q - 1) + (if take[q - 1] then 1 else 0)
  }

  /** A stretch of calls admits what the whole run admits there. */
  lemma {:induction false} StretchCount(cfg: Mono.Config, nows: seq<real>, p: nat, q: nat)
    requires 0.0 < cfg.rate && p <= q <= |nows|
    ensures var start := Mono.After(cfg, true, None, nows[..p]);
            && Mono.After(cfg, true, start, nows[p..q]) == Mono.After(cfg, true, None, nows[..q])
            && Mono.AdmittedCount(cfg, true, start, nows[p..q]) == TakenBetween(MonoTakes(cfg, nows), p, q)
  {
    hide Mono.Next, Mono.Decide;
    if p < q {
      StretchCount(cfg, nows, p, q - 1);
      TakesAt(cfg, nows, q - 1);
      assert nows[p..q][..q - p - 1] == nows[p..q - 1];
      assert nows[..q][..q - 1] == nows[..q - 1];
    }
  }

  lemma TakenGrows(nows: seq<real>, take: seq<bool>, lo: real, hi: real)
    requires |take| == |nows| && nows != []
    ensures var m := |nows| - 1;
            Gcra.CountIn(Gcra.Taken(nows, take), lo, hi)
            == Gcra.CountIn(Gcra.Taken(nows[..m], take[..m]), lo, hi) + (if take[m] && lo <= nows[m] <= hi then 1 else 0)
  {
    var m := |nows| - 1;
    var before := Gcra.Taken(nows[..m], take[..m]);
    assert (before + [nows[m]])[..|before|] == before && before + [] == before;
  }

  /** nows[p..q] are the first `m` times that lie in [lo, hi]; those before are earlier. */
  ghost predicate IsStretch(nows: seq<real>, m: nat, lo: real, hi: real, p: nat, q: nat) {
    && p <= q <= m <= |nows|
    && (forall k :: p <= k < q ==> lo <= nows[k] <= hi)
    && (forall k :: 0 <= k < p ==> nows[k] < lo)
    && (q < m ==> hi < nows[q])
  }

  lemma StretchGrows(nows: seq<real>, take: seq<bool>, m: nat, lo: real, hi: real, p: nat, q: nat)
      returns (p': nat, q': nat)
    requires |take| == |nows| && Sorted(nows) && lo <= hi && m < |nows| && IsStretch(nows, m, lo, hi, p, q)
    ensures IsStretch(nows, m + 1, lo, hi, p', q')
    ensures TakenBetween(take, p', q') == TakenBetween(take, p, q) + (if take[m] && lo <= nows[m] <= hi then 1 else 0)
  {
    p', q' := p, q;
    assert q < m ==> nows[q] <= nows[m];
    assert p < q ==> nows[p] <= nows[m];
    if nows[m] < lo {
      p', q' := m + 1, m + 1;
    } else if nows[m] <= hi {
      q' := m + 1;
    }
  }

  /** In sorted times, those taken in a window are those taken in a stretch. */
  lemma {:induction false} WindowIsStretch(nows: seq<real>, take: seq<bool>, lo: real, hi: real, m: nat)
      returns (p: nat, q: nat)
    requires |take| == |nows| && Sorted(nows) && lo <= hi && m <= |nows|
    ensures IsStretch(nows, m, lo, hi, p, q)
    ensures Gcra.CountIn(Gcra.Taken(nows[..m], take[..m]), lo, hi) == TakenBetween(take, p, q)
  {
    p, q := 0, 0;
    if m > 0 {
      hide Gcra.Taken, Gcra.CountIn, IsStretch, TakenBetween;
      p, q := WindowIsStretch(nows, take, lo, hi, m - 1);
      assert nows[..m][..m - 1] == nows[..m - 1] && take[..m][..m - 1] == take[..m - 1];
      TakenGrows(nows[..m], take[..m], lo, hi);
      p, q := StretchGrows(nows, take, m - 1, lo, hi, p, q);
    }
  }

  ghost predicate SameLimits(m: Mono.Config, g: Gcra.Config) {
    m.Valid() && g.Valid() && m.rate == g.rate && m.burst == g.burst
  }

  lemma BoundsAgree(m: Mono.Config, g: Gcra.Config, n: nat, len: real)
    requires SameLimits(m, g) && n as real <= m.Full() + Mono.Gain(m, len)
    ensures !Gcra.Exceeds(g, n, len)
  {
  }

  lemma WindowConforms(m: Mono.Config, g: Gcra.Config, nows: seq<real>, lo: real, hi: real)
    requires SameLimits(m, g) && Mono.Forgettable(m) && Sorted(nows) && lo <= hi
    ensures !Gcra.Exceeds(g, Gcra.CountIn(Gcra.Taken(nows, MonoTakes(m, nows)), lo, hi), hi - lo)
  {
    var p, q := WindowIsStretch(nows, MonoTakes(m, nows), lo, hi, |nows|);
    assert nows[..|nows|] == nows && MonoTakes(m, nows)[..|nows|] == MonoTakes(m, nows);
    StretchCount(m, nows, p, q);
    Mono.WindowBound(m, nows[..p], nows[p..q], lo, hi);
    BoundsAgree(m, g, TakenBetween(MonoTakes(m, nows), p, q), hi - lo);
  }

  /** In-process admissions never overfill a window, of whatever position and length. */
  lemma MonoConforms(m: Mono.Config, g: Gcra.Config, nows: seq<real>)
    requires SameLimits(m, g) && Mono.Forgettable(m) && Sorted(nows)
    ensures Gcra.Conforming(g, Gcra.Taken(nows, MonoTakes(m, nows)))
  {
    forall lo, hi | lo <= hi
      ensures !Gcra.Exceeds(g, Gcra.CountIn(Gcra.Taken(nows, MonoTakes(m, nows)), lo, hi), hi - lo)
    {
      WindowConforms(m, g, nows, lo, hi);
    }
  }

  lemma {:induction false} TakenCount(cfg: Mono.Config, nows: seq<real>)
    requires 0.0 < cfg.rate
    ensures |Gcra.Taken(nows, MonoTakes(cfg, nows))| == Mono.AdmittedCount(cfg, true, None, nows)
  {
    if nows != [] {
      TakenCount(cfg, nows[..|nows| - 1]);
      assert MonoTakes(cfg, nows)[..|nows| - 1] == MonoTakes(cfg, nows[..|nows| - 1]);
    }
  }

  /** Refilling lazily costs callers: on every run of calls the in-process limiter admits at most
      as many as the Redis limiter would, whose admissions no conforming policy exceeds. */
  lemma MonoNeverAdmitsMore(m: Mono.Config, g: Gcra.Config, nows: seq<real>)
    requires SameLimits(m, g) && Mono.Forgettable(m) && Sorted(nows)
    ensures Mono.AdmittedCount(m, true, None, nows) <= |Gcra.KeyAdmissions(g, nows)|
  {
    TakenCount(m, nows);
    MonoConforms(m, g, nows);
    Gcra.NoConformingPolicyAdmitsMore(g, nows, MonoTakes(m, nows));
  }

  // ---------- the in-process limiter from below ----------

  /** The tokens held, and those accrued but not yet credited; all of them when there is no bucket. */
  function Worth(m: Mono.Config, b: Option<Mono.Bucket>, x: real): real {
    match b
    case None => m.Full()
    case Some(bucket) => bucket.tokens + Mono.Gain(m, x - bucket.last)
  }

  ghost predicate OneLess(m: Mono.Config, g: Gcra.Config) {
    m.Valid() && g.Valid() && m.rate == g.rate && g.burst == m.burst - 1
  }

  /** What a call at `now` leaves: the worth, capped by a full bucket, less the token it takes. */
  lemma WorthAfterCall(m: Mono.Config, b: Option<Mono.Bucket>, now: real)
    requires m.Valid() && m.burst >= 1
    ensures var admitted := Mono.Decide(m, true, b, now) == Allow;
            var left := Worth(m, Some(Mono.Next(m, true, b, now)), now);
            && left >= (if Worth(m, b, now) < m.Full() then Worth(m, b, now) else m.Full()) - (if admitted then 1.0 else 0.0)
            && (!admitted ==> left < 2.0)
  {
    Mono.GainFacts(m, 0.0, 0.0);
    if b.Some? {
      var gain := Mono.Gain(m, now - b.value.last);
      Mono.GainFacts(m, now - b.value.last, 0.0);
      assert b.value.last + (now - b.value.last) == now;
    }
  }

  lemma WorthGrows(m: Mono.Config, b: Mono.Bucket, now: real, x: real)
    requires m.Valid()
    ensures Worth(m, Some(b), x) == Worth(m, Some(b), now) + Mono.Gain(m, x - now)
  {
    Mono.GainFacts(m, now - b.last, x - now);
    assert (now - b.last) + (x - now) == x - b.last;
  }

  /** The bucket of one token less refills no faster. */
  lemma SmallBucketGrows(m: Mono.Config, g: Gcra.Config, tokens: real, now: real, x: real)
    requires OneLess(m, g)
    ensures Gcra.Refilled(g, Gcra.Bucket(tokens, now), x) <= tokens + Mono.Gain(m, x - now)
  {
    assert (x - now) * g.rate / NANOS_PER_SECOND == (x - now) / NANOS_PER_SECOND * m.rate;
  }

  lemma SmallBucketIsSmall(m: Mono.Config, g: Gcra.Config, bucket: Gcra.Bucket, x: real)
    requires OneLess(m, g)
    ensures Gcra.Refilled(g, bucket, x) <= m.Full() - 1.0
  {
  }

  /** After any run the limiter is worth a token more than a continuous bucket of one token less,
      but for the calls it has admitted beyond those of that bucket. */
  ghost predicate Richer(m: Mono.Config, g: Gcra.Config, nows: seq<real>, x: real)
    requires m.Valid() && g.Valid()
  {
    var lead := Mono.AdmittedCount(m, true, None, nows) - |Gcra.AdmittedTimes(g, nows)|;
    && 0 <= lead
    && Gcra.Refilled(g, Gcra.BucketAfter(g, nows), x) + 1.0
       <= Worth(m, Mono.After(m, true, None, nows), x) + lead as real
  }

  /** The exchange at one call, in numbers: `c` tokens against a worth of `w` and a lead of `l`. */
  lemma ExchangeOnce(c: real, w: real, left: real, full: real, l: int, taken: bool, given: bool)
    requires 0 <= l && c + 1.0 <= w + l as real && c <= full - 1.0
    requires left >= (if w < full then w else full) - (if taken then 1.0 else 0.0)
    requires !taken ==> left < 2.0
    requires given <==> c >= 1.0
    ensures var l' := l + (if taken then 1 else 0) - (if given then 1 else 0);
            && 0 <= l'
            && (if given then c - 1.0 else c) + 1.0 <= left + l' as real
  {
    if l >= 1 { assert l as real >= 1.0; }
  }

  lemma {:induction false} StaysRicher(m: Mono.Config, g: Gcra.Config, nows: seq<real>, x: real)
    requires OneLess(m, g) && m.burst >= 1 && Sorted(nows + [x])
    ensures Richer(m, g, nows, x)
  {
    hide Mono.Next, Mono.Decide, Mono.Gain, Gcra.Refilled, Worth, Gcra.Gate, Gcra.TatOf;
    if nows == [] {
      SmallBucketIsSmall(m, g, Gcra.Full, x);
      assert Worth(m, None, x) == m.Full() by { NoBucketIsFull(m, x); }
    } else {
      var before, now := nows[..|nows| - 1], nows[|nows| - 1];
      Gcra.PrefixSorted(nows, x);
      assert before + [now] == nows;
      StaysRicher(m, g, before, now);
      Gcra.ForeverIsTokenBucket(g, before, now);
      var b, c := Mono.After(m, true, None, before), Gcra.Refilled(g, Gcra.BucketAfter(g, before), now);
      var b' := Mono.Next(m, true, b, now);
      var lead := Mono.AdmittedCount(m, true, None, before) - |Gcra.AdmittedTimes(g, before)|;
      WorthAfterCall(m, b, now);
      SmallBucketIsSmall(m, g, Gcra.BucketAfter(g, before), now);
      ExchangeOnce(c, Worth(m, b, now), Worth(m, Some(b'), now), m.Full(), lead,
                   Mono.Decide(m, true, b, now) == Allow, c >= 1.0);
      WorthGrows(m, b', now, x);
      SmallBucketGrows(m, g, if c >= 1.0 then c - 1.0 else c, now, x);
    }
  }

  lemma NoBucketIsFull(m: Mono.Config, x: real)
    ensures Worth(m, None, x) == m.Full()
  {
  }

  /** Lazy refilling costs less than one token: on a forward clock the in-process limiter admits at
      least as many calls of a run as the GCRA limiter with a burst of one less. */
  lemma MonoAdmitsNoFewer(m: Mono.Config, g: Gcra.Config, nows: seq<real>)
    requires OneLess(m, g) && m.burst >= 1 && Sorted(nows)
    ensures |Gcra.AdmittedTimes(g, nows)| <= Mono.AdmittedCount(m, true, None, nows)
  {
    var x := if nows == [] then 0.0 else nows[|nows| - 1];
    assert Sorted(nows + [x]);
    StaysRicher(m, g, nows, x);
  }

  /** A limiter with this rate and a burst of one less, whose keys live long enough. */
  ghost function Smaller(m: Mono.Config): (g: Gcra.Config)
    requires m.Valid()
    ensures OneLess(m, g) && Gcra.Forgettable(g)
  {
    LongEnough(m.rate, m.Full());
    Gcra.Config(m.rate, m.burst - 1, (m.Full() / m.rate * 1000.0).Floor + 1)
  }

  lemma LongEnough(rate: real, full: real)
    requires 0.0 < rate
    ensures rate * (((full / rate * 1000.0).Floor + 1) as real * Gcra.NANOS_PER_MILLI / NANOS_PER_SECOND) >= full
  {
    var q := full / rate * 1000.0;
    var n := (q.Floor + 1) as real;
    assert q <= n;
    assert n * Gcra.NANOS_PER_MILLI / NANOS_PER_SECOND == n / 1000.0;
    assert full / rate <= n / 1000.0;
    ProductMonotone(full / rate, n / 1000.0, rate);
  }

  /** No choice of calls that keeps every window within burst - 1 + rate * length contains more
      calls of a run than the in-process limiter admits. */
  lemma NoStricterPolicyAdmitsMore(m: Mono.Config, nows: seq<real>, take: seq<bool>)
    requires m.Valid() && m.burst >= 1 && Sorted(nows) && |take| == |nows|
    requires Gcra.Conforming(Smaller(m), Gcra.Taken(nows, take))
    ensures |Gcra.Taken(nows, take)| <= Mono.AdmittedCount(m, true, None, nows)
  {
    var g := Smaller(m);
    Gcra.NoConformingPolicyAdmitsMore(g, nows, take);
    Gcra.ForgettableAdmissions(g, nows);
    MonoAdmitsNoFewer(m, g, nows);
  }
}
