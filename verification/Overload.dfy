/** The limiters and the tarpit together: what a rate-limited client waits. */
module Overload {
  import opened Limiter
  import Gcra
  import Mono
  import Tarpit

  /** `r` is a retry time that the in-process limiter can answer, in some state of some key. */
  ghost predicate MonoAnswers(cfg: Mono.Config, r: real)
    requires 0.0 < cfg.rate
  {
    exists nows, now :: Mono.Decide(cfg, true, Mono.After(cfg, true, None, nows), now) == Deny(r)
  }

  /** The same for the Redis limiter, with a clock that does not go back. */
  ghost predicate GcraAnswers(cfg: Gcra.Config, r: real)
    requires cfg.Valid()
  {
    exists nows, now :: Sorted(nows + [now]) && Gcra.Decide(cfg, Gcra.Stored(cfg, nows), now) == Deny(r)
  }

  ghost function MonoTimes(cfg: Mono.Config): real -> bool
    requires 0.0 < cfg.rate
  {
    r => MonoAnswers(cfg, r)
  }

  ghost function GcraTimes(cfg: Gcra.Config): real -> bool
    requires cfg.Valid()
  {
    r => GcraAnswers(cfg, r)
  }

  lemma MonoAnswersWithin(cfg: Mono.Config, r: real)
    requires cfg.Valid() && MonoAnswers(cfg, r)
    ensures 0.0 < r <= NANOS_PER_SECOND / cfg.rate
  {
    var nows, now :| Mono.Decide(cfg, true, Mono.After(cfg, true, None, nows), now) == Deny(r);
    Mono.RetryWithinOneInterval(cfg, nows, now);
    WaitOfOneToken(cfg);
  }

  lemma WaitOfOneToken(cfg: Mono.Config)
    requires 0.0 < cfg.rate
    ensures Mono.Wait(cfg, 1.0) == NANOS_PER_SECOND / cfg.rate
  {
    var x := 1.0 / cfg.rate;
    assert x * cfg.rate == 1.0;
    assert x * NANOS_PER_SECOND * cfg.rate == NANOS_PER_SECOND;
  }

  lemma GcraAnswersWithin(cfg: Gcra.Config, r: real)
    requires cfg.Valid() && 0 <= cfg.burst && GcraAnswers(cfg, r)
    ensures 0.0 < r <= NANOS_PER_SECOND / cfg.rate
  {
    var nows, now :| Sorted(nows + [now]) && Gcra.Decide(cfg, Gcra.Stored(cfg, nows), now) == Deny(r);
    Gcra.RetryWithinOneInterval(cfg, nows, now);
  }

  /** Every denial among the events carries a retry time that `answers` allows. */
  ghost predicate DenialsFrom(es: seq<Tarpit.Event>, answers: real -> bool) {
    forall k :: 0 <= k < |es| && es[k].Routed? && es[k].route.Denied? ==> answers(es[k].route.retryAfter)
  }

  /** A run with immediate dispatch and without cancellation. */
  ghost predicate ImmediateRun(s: Tarpit.State, es: seq<Tarpit.Event>) {
    es != [] ==>
      var before := es[..|es| - 1];
      ImmediateRun(s, before) && !es[|es| - 1].Cancel? && Tarpit.Immediate(Tarpit.Exec(s, before), es[|es| - 1])
  }

  lemma {:induction false} LimitedRunIsCalm(s: Tarpit.State, es: seq<Tarpit.Event>, answers: real -> bool, d: real)
    requires ImmediateRun(s, es) && DenialsFrom(es, answers)
    requires forall r :: answers(r) ==> r <= d
    ensures Tarpit.CalmRun(s, es, d)
  {
    if es != [] { LimitedRunIsCalm(s, es[..|es| - 1], answers, d); }
  }

  /** The bound for a connection that waits at some point of a run from the start. */
  lemma WaitInLimitedRun(m: nat, es: seq<Tarpit.Event>, k: nat, answers: real -> bool, d: real, c: nat)
    requires 0 < m && k <= |es| && ImmediateRun(Tarpit.Initial(m), es) && DenialsFrom(es, answers)
    requires forall r :: answers(r) ==> r <= d
    requires Tarpit.Waiting(Tarpit.Exec(Tarpit.Initial(m), es[..k]), c)
    ensures var s, t := Tarpit.Exec(Tarpit.Initial(m), es[..k]), Tarpit.Exec(Tarpit.Initial(m), es);
            c in t.closed || t.now <= s.now + Tarpit.LongestWait(Tarpit.JobsAhead(s, c), m, d)
  {
    hide Tarpit.Exec, Tarpit.CalmRun, Tarpit.Waiting, ImmediateRun, DenialsFrom, Tarpit.Inv;
    var start := Tarpit.Initial(m);
    var s := Tarpit.Exec(start, es[..k]);
    assert es[..k] + es[k..] == es;
    LimitedRunIsCalm(start, es, answers, d);
    Tarpit.CalmConcat(start, es[..k], es[k..], d);
    Tarpit.ExecConcat(start, es[..k], es[k..]);
    Tarpit.CalmRunIsTimely(start, es[..k], d);
    var place := Tarpit.RunInv(m, es[..k]);
    Tarpit.QueuedConnectionIsClosedInTime(s, es[k..], m, place, d, c);
  }

  /** In a run whose denials come from the in-process limiter, a rate-limited connection behind q
      unfinished ones is closed within (q / m + 1) / rate. */
  lemma TarpittedClientWaits(cfg: Mono.Config, m: nat, es: seq<Tarpit.Event>, k: nat, c: nat)
    requires cfg.Valid() && 0 < m && k <= |es|
    requires ImmediateRun(Tarpit.Initial(m), es) && DenialsFrom(es, MonoTimes(cfg))
    requires Tarpit.Waiting(Tarpit.Exec(Tarpit.Initial(m), es[..k]), c)
    ensures var s, t := Tarpit.Exec(Tarpit.Initial(m), es[..k]), Tarpit.Exec(Tarpit.Initial(m), es);
            c in t.closed || t.now <= s.now + Tarpit.LongestWait(Tarpit.JobsAhead(s, c), m, NANOS_PER_SECOND / cfg.rate)
  {
    hide Tarpit.Exec, Tarpit.Waiting, ImmediateRun, DenialsFrom, MonoAnswers, Tarpit.JobsAhead;
    var d := NANOS_PER_SECOND / cfg.rate;
    forall r | MonoAnswers(cfg, r) ensures r <= d { MonoAnswersWithin(cfg, r); }
    WaitInLimitedRun(m, es, k, MonoTimes(cfg), d, c);
  }

  /** The same behind the Redis limiter. */
  lemma TarpittedClientWaitsBehindRedis(cfg: Gcra.Config, m: nat, es: seq<Tarpit.Event>, k: nat, c: nat)
    requires cfg.Valid() && 0 <= cfg.burst && 0 < m && k <= |es|
    requires ImmediateRun(Tarpit.Initial(m), es) && DenialsFrom(es, GcraTimes(cfg))
    requires Tarpit.Waiting(Tarpit.Exec(Tarpit.Initial(m), es[..k]), c)
    ensures var s, t := Tarpit.Exec(Tarpit.Initial(m), es[..k]), Tarpit.Exec(Tarpit.Initial(m), es);
            c in t.closed || t.now <= s.now + Tarpit.LongestWait(Tarpit.JobsAhead(s, c), m, NANOS_PER_SECOND / cfg.rate)
  {
    hide Tarpit.Exec, Tarpit.Waiting, ImmediateRun, DenialsFrom, GcraAnswers, Tarpit.JobsAhead;
    var d := NANOS_PER_SECOND / cfg.rate;
    forall r | GcraAnswers(cfg, r) ensures r <= d { GcraAnswersWithin(cfg, r); }
    WaitInLimitedRun(m, es, k, GcraTimes(cfg), d, c);
  }

  /** A connection that the in-process limiter denies is held for no less than the time it answers. */
  lemma HeldAsAnnounced(cfg: Mono.Config, nows: seq<real>, m: nat, before: seq<Tarpit.Event>, after: seq<Tarpit.Event>)
    requires var s := Tarpit.Exec(Tarpit.Initial(m), before);
             && s.routing.Some? && |s.queue| < Tarpit.QUEUE_CAPACITY
             && cfg.Valid() && Mono.Decide(cfg, true, Mono.After(cfg, true, None, nows), s.now).Deny?
    requires Tarpit.Cancel !in before && Tarpit.Cancel !in after
    ensures var s := Tarpit.Exec(Tarpit.Initial(m), before);
            var r := Mono.Decide(cfg, true, Mono.After(cfg, true, None, nows), s.now).retryAfter;
            var t := Tarpit.Exec(Tarpit.Initial(m), before + [Tarpit.Routed(Tarpit.Denied(r))] + after);
            s.routing.value in t.closed ==> s.now + r <= t.now
  {
    hide Mono.Decide, Tarpit.Exec;
    var s := Tarpit.Exec(Tarpit.Initial(m), before);
    Mono.RetryWithinOneInterval(cfg, nows, s.now);
    var r := Mono.Decide(cfg, true, Mono.After(cfg, true, None, nows), s.now).retryAfter;
    Tarpit.HeldForRetryTime(m, before, r, after);
  }

  /** The tarpit lets a client of the Redis limiter go no sooner than the limiter would admit it: if
      nothing else has called for its key, its next call is admitted. */
  lemma ReleasedClientIsAdmitted(cfg: Gcra.Config, nows: seq<real>, m: nat,
                                 before: seq<Tarpit.Event>, after: seq<Tarpit.Event>)
    requires var s := Tarpit.Exec(Tarpit.Initial(m), before);
             && s.routing.Some? && |s.queue| < Tarpit.QUEUE_CAPACITY
             && cfg.Valid() && cfg.burst >= 1 && Gcra.Forgettable(cfg)
             && Gcra.Decide(cfg, Gcra.Stored(cfg, nows), s.now).Deny?
    requires Tarpit.Cancel !in before && Tarpit.Cancel !in after
    ensures var s := Tarpit.Exec(Tarpit.Initial(m), before);
            var r := Gcra.Decide(cfg, Gcra.Stored(cfg, nows), s.now).retryAfter;
            var t := Tarpit.Exec(Tarpit.Initial(m), before + [Tarpit.Routed(Tarpit.Denied(r))] + after);
            s.routing.value in t.closed ==>
              s.now + r <= t.now && Gcra.Decide(cfg, Gcra.Stored(cfg, nows + [s.now]), t.now) == Allow
  {
    hide Tarpit.Exec, Gcra.Stored;
    var s := Tarpit.Exec(Tarpit.Initial(m), before);
    var r := Gcra.Decide(cfg, Gcra.Stored(cfg, nows), s.now).retryAfter;
    var t := Tarpit.Exec(Tarpit.Initial(m), before + [Tarpit.Routed(Tarpit.Denied(r))] + after);
    Tarpit.HeldForRetryTime(m, before, r, after);
    if s.routing.value in t.closed {
      Gcra.RetryHonouredAcrossExpiry(cfg, nows, s.now, t.now);
    }
  }
}
