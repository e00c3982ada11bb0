/** Port forwards over one SPDY connection (internal/k8s/forward_manager.go): many concurrent calls
    of Forward, each with two critical sections, racing with Close over a shared stream map. */
module ForwardManager {
  import opened Limiter
  import opened Decimal

  const MAX_UINT64: nat := 0xFFFF_FFFF_FFFF_FFFF

  /** The two goroutines of a call that race for its once-only cleanup. */
  datatype Closer = Caller | Watcher

  /** Where a call of Forward is. `id` is its request number, `e` and `d` its two streams; from
      `Cleaning` on the cleanup has been entered, by the closer named. */
  datatype Phase =
    | Fresh
    | Checked
    | Numbered(id: nat)
    | Registered(id: nat, e: nat, d: nat)
    | Counted(id: nat, e: nat, d: nat)
    | Cleaning(id: nat, e: nat, d: nat, closer: Closer)
    | Cleaned(id: nat, e: nat, d: nat)
    | Settled(id: nat, e: nat, d: nat)
    | Done

  /** Each event names the call it belongs to. `errorOk` and `dataOk` are the outcomes of creating
      the two streams on an open connection. */
  datatype Event =
    | Call
    | Check(c: nat)
    | Number(c: nat)
    | Create(c: nat, errorOk: bool, dataOk: bool)
    | Count(c: nat)
    | CloseAll(c: nat, closer: Closer)
    | CleanUp(c: nat)
    | Uncount(c: nat)
    | Return(c: nat)
    | Close

  /** Streams are numbered as they are created; `owner` gives the call that created each. `issued`
      records the request number of each call, also after its return, and `raised` and `lowered`
      how often each call has raised and lowered the gauge. */
  datatype State = State(
    closed: bool,
    reqId: nat,
    active: map<StreamName, nat>,
    gauge: int,
    calls: seq<Phase>,
    owner: seq<nat>,
    closedStreams: set<nat>,
    issued: map<nat, nat>,
    raised: multiset<nat>,
    lowered: multiset<nat>
  )

  const INITIAL: State := State(false, 0, map[], 0, [], [], {}, map[], multiset{}, multiset{})

  /** The cleanup has been entered: calling it again waits for it and does nothing. */
  predicate OnceTaken(p: Phase) { p.Cleaning? || p.Cleaned? || p.Settled? }

  predicate Enabled(s: State, e: Event) {
    match e
    case Call => true
    case Check(c) => c < |s.calls| && s.calls[c].Fresh?
    case Number(c) => c < |s.calls| && s.calls[c].Checked? && s.reqId < MAX_UINT64
    case Create(c, _, _) => c < |s.calls| && s.calls[c].Numbered?
    case Count(c) => c < |s.calls| && s.calls[c].Registered?
    case CloseAll(c, _) => c < |s.calls| && (s.calls[c].Counted? || OnceTaken(s.calls[c]))
    case CleanUp(c) => c < |s.calls| && s.calls[c].Cleaning?
    case Uncount(c) => c < |s.calls| && s.calls[c].Cleaned?
    case Return(c) => c < |s.calls| && s.calls[c].Settled?
    case Close => true
  }

  /** The critical section that creates both streams. On a closed connection nothing is created. */
  function CreateStreams(s: State, c: nat, errorOk: bool, dataOk: bool): State
    requires Enabled(s, Create(c, errorOk, dataOk))
  {
    var id, e := s.calls[c].id, |s.owner|;
    if s.closed || !errorOk then s.(calls := s.calls[c := Done])
    else if !dataOk then
      s.(calls := s.calls[c := Done], owner := s.owner + [c], closedStreams := s.closedStreams + {e},
         active := s.active[ErrorKey(id) := e] - {ErrorKey(id)})
    else
      s.(calls := s.calls[c := Registered(id, e, e + 1)], owner := s.owner + [c, c],
         active := s.active[ErrorKey(id) := e][DataKey(id) := e + 1])
  }

  /** One step; an event that is not enabled changes nothing. */
  function Step(s: State, e: Event): State {
    if !Enabled(s, e) then s else
    match e
    case Call => s.(calls := s.calls + [Fresh])
    case Check(c) => s.(calls := s.calls[c := if s.closed then Done else Checked])
    case Number(c) => s.(reqId := s.reqId + 1, issued := s.issued[c := s.reqId + 1], calls := s.calls[c := Numbered(s.reqId + 1)])
    case Create(c, errorOk, dataOk) => CreateStreams(s, c, errorOk, dataOk)
    case Count(c) =>
      var p := s.calls[c];
      s.(gauge := s.gauge + 1, raised := s.raised + multiset{c}, calls := s.calls[c := Counted(p.id, p.e, p.d)])
    case CloseAll(c, closer) =>
      var p := s.calls[c];
      if OnceTaken(p) then s else s.(calls := s.calls[c := Cleaning(p.id, p.e, p.d, closer)])
    case CleanUp(c) =>
      var p := s.calls[c];
      s.(closedStreams := s.closedStreams + {p.d, p.e},
         active := s.active - {DataKey(p.id), ErrorKey(p.id)},
         calls := s.calls[c := Cleaned(p.id, p.e, p.d)])
    case Uncount(c) =>
      var p := s.calls[c];
      s.(gauge := s.gauge - 1, lowered := s.lowered + multiset{c}, calls := s.calls[c := Settled(p.id, p.e, p.d)])
    case Return(c) => s.(calls := s.calls[c := Done])
    case Close =>
      if s.closed then s
      else s.(closed := true, closedStreams := s.closedStreams + s.active.Values, active := map[])
  }

  function Exec(s: State, es: seq<Event>): State {
    if es == [] then s else Step(Exec(s, es[..|es| - 1]), es[|es| - 1])
  }

  /** The manager's fields; each method is one critical section or one atomic step of call `c`. */
  class Manager {
    var closed: bool
    var reqId: nat
    var active: map<StreamName, nat>
    var gauge: int
    var calls: seq<Phase>
    var owner: seq<nat>
    var closedStreams: set<nat>
    ghost var issued: map<nat, nat>
    ghost var raised: multiset<nat>
    ghost var lowered: multiset<nat>

    ghost function View(): State
      reads this
    {
      State(closed, reqId, active, gauge, calls, owner, closedStreams, issued, raised, lowered)
    }

    /** What every interleaving keeps holds of the manager. */
    ghost predicate Valid()
      reads this
    {
      Inv(View())
    }

    constructor ()
      ensures Valid() && View() == INITIAL
    {
      closed, reqId, active, gauge := false, 0, map[], 0;
      calls, owner, closedStreams := [], [], {};
      issued, raised, lowered := map[], multiset{}, multiset{};
    }

    method CheckOpen(c: nat)
      requires Valid() && Enabled(View(), Check(c))
      modifies this
      ensures Valid() && View() == Step(old(View()), Check(c))
    {
      hide Inv;
      InvStep(View(), Check(c));
      if closed {
        calls := calls[c := Done];
      } else {
        calls := calls[c := Checked];
      }
    }

    method NextRequest(c: nat)
      requires Valid() && Enabled(View(), Number(c))
      modifies this
      ensures Valid() && View() == Step(old(View()), Number(c))
    {
      hide Inv;
      InvStep(View(), Number(c));
      reqId := reqId + 1;
      issued := issued[c := reqId];
      calls := calls[c := Numbered(reqId)];
    }

    /** Register the error stream, then the data stream; undo the first when the second fails. */
    method OpenStreams(c: nat, errorOk: bool, dataOk: bool)
      requires Valid() && Enabled(View(), Create(c, errorOk, dataOk))
      modifies this
      ensures Valid() && View() == Step(old(View()), Create(c, errorOk, dataOk))
    {
      hide Inv;
      InvStep(View(), Create(c, errorOk, dataOk));
      var id := calls[c].id;
      if closed || !errorOk {
        calls := calls[c := Done];
        return;
      }
      var e := |owner|;
      owner := owner + [c];
      active := active[ErrorKey(id) := e];
      if !dataOk {
        closedStreams := closedStreams + {e};
        active := active - {ErrorKey(id)};
        calls := calls[c := Done];
        return;
      }
      owner := owner + [c];
      active := active[DataKey(id) := e + 1];
      calls := calls[c := Registered(id, e, e + 1)];
      assert owner == old(owner) + [c, c];
    }

    method RaiseGauge(c: nat)
      requires Valid() && Enabled(View(), Count(c))
      modifies this
      ensures Valid() && View() == Step(old(View()), Count(c))
    {
      hide Inv;
      InvStep(View(), Count(c));
      var p := calls[c];
      gauge, raised := gauge + 1, raised + multiset{c};
      calls := calls[c := Counted(p.id, p.e, p.d)];
    }

    /** One of the two closers calls the cleanup; only the first call enters it. */
    method EnterCleanUp(c: nat, closer: Closer)
      requires Valid() && Enabled(View(), CloseAll(c, closer))
      modifies this
      ensures Valid() && View() == Step(old(View()), CloseAll(c, closer))
    {
      hide Inv;
      InvStep(View(), CloseAll(c, closer));
      var p := calls[c];
      if p.Counted? {
        calls := calls[c := Cleaning(p.id, p.e, p.d, closer)];
      }
    }

    /** The locked part of the cleanup. */
    method CloseStreams(c: nat)
      requires Valid() && Enabled(View(), CleanUp(c))
      modifies this
      ensures Valid() && View() == Step(old(View()), CleanUp(c))
    {
      hide Inv;
      InvStep(View(), CleanUp(c));
      var p := calls[c];
      closedStreams := closedStreams + {p.d, p.e};
      active := active - {DataKey(p.id)};
      active := active - {ErrorKey(p.id)};
      calls := calls[c := Cleaned(p.id, p.e, p.d)];
      assert active == old(active) - {DataKey(p.id), ErrorKey(p.id)};
    }

    /** The deferred part of the cleanup, after the lock is released. */
    method LowerGauge(c: nat)
      requires Valid() && Enabled(View(), Uncount(c))
      modifies this
      ensures Valid() && View() == Step(old(View()), Uncount(c))
    {
      hide Inv;
      InvStep(View(), Uncount(c));
      var p := calls[c];
      gauge, lowered := gauge - 1, lowered + multiset{c};
      calls := calls[c := Settled(p.id, p.e, p.d)];
    }

    /** Close every registered stream, then forget them all. */
    method CloseManager()
      requires Valid()
      modifies this
      ensures Valid() && View() == Step(old(View()), Close)
    {
      hide Inv;
      InvStep(View(), Close);
      if closed {
        return;
      }
      closed := true;
      var todo := active.Keys;
      ghost var done: set<StreamName> := {};
      ghost var shut: set<nat> := {};
      while todo != {}
        invariant done == active.Keys - todo && todo <= active.Keys
        invariant forall k :: k in done ==> active[k] in shut
        invariant shut <= active.Values
        invariant closedStreams == old(closedStreams) + shut
        invariant View() == old(View()).(closed := true, closedStreams := closedStreams)
      {
        var k :| k in todo;
        closedStreams := closedStreams + {active[k]};
        shut := shut + {active[k]};
        done := done + {k};
        todo := todo - {k};
      }
      assert shut == active.Values;
      active := map[];
    }
  }

  // ---------- what every interleaving keeps ----------

  predicate HasId(p: Phase) { !p.Fresh? && !p.Checked? && !p.Done? }

  predicate HasStreams(p: Phase) { HasId(p) && !p.Numbered? }

  /** Registered and not yet cleaned up: its two streams belong in the map. */
  predicate IsLive(p: Phase) { p.Registered? || p.Counted? || p.Cleaning? }

  predicate InGauge(p: Phase) { p.Counted? || p.Cleaning? || p.Cleaned? }

  predicate IsEarly(p: Phase) { p.Fresh? || p.Checked? }

  /** No number was issued twice, to whatever calls, and none is larger than the counter. */
  ghost predicate IdsUnique(s: State) {
    && (forall c :: c in s.issued ==> c < |s.calls| && !IsEarly(s.calls[c]) && s.issued[c] <= s.reqId)
    && (forall b, c :: b in s.issued && c in s.issued && b != c ==> s.issued[b] != s.issued[c])
    && (forall c :: 0 <= c < |s.calls| && HasId(s.calls[c]) ==> c in s.issued && s.issued[c] == s.calls[c].id)
  }

  ghost predicate DistinctIds(calls: seq<Phase>) {
    forall b, c :: 0 <= b < c < |calls| && HasId(calls[b]) && HasId(calls[c]) ==> calls[b].id != calls[c].id
  }

  /** Live call `c` has its two streams in the map, under its two names. */
  ghost predicate Mapped(active: map<StreamName, nat>, p: Phase)
    requires IsLive(p)
  {
    && ErrorKey(p.id) in active && active[ErrorKey(p.id)] == p.e
    && DataKey(p.id) in active && active[DataKey(p.id)] == p.d
  }

  /** Some live call has `k` as one of its names. */
  ghost predicate Named(calls: seq<Phase>, k: StreamName) {
    exists c :: 0 <= c < |calls| && IsLive(calls[c]) && (k == ErrorKey(calls[c].id) || k == DataKey(calls[c].id))
  }

  /** The map holds exactly the error and data streams of the live calls; nothing after Close. */
  ghost predicate MapExact(s: State) {
    if s.closed then s.active == map[]
    else
      AllMapped(s.active, s.calls) && (forall k :: k in s.active ==> Named(s.calls, k))
  }

  ghost predicate AllMapped(active: map<StreamName, nat>, calls: seq<Phase>) {
    forall c :: 0 <= c < |calls| && IsLive(calls[c]) ==> Mapped(active, calls[c])
  }

  /** The streams of a call that has some, and whose they are. */
  ghost predicate Owns(s: State, c: nat, x: nat) {
    c < |s.calls| && HasStreams(s.calls[c]) && (x == s.calls[c].e || x == s.calls[c].d)
  }

  ghost predicate StreamsOwned(s: State) {
    && (forall c :: 0 <= c < |s.calls| && HasStreams(s.calls[c]) ==>
          s.calls[c].e < |s.owner| && s.calls[c].d < |s.owner| && s.owner[s.calls[c].e] == s.owner[s.calls[c].d] == c)
    && (forall x :: 0 <= x < |s.owner| ==> s.owner[x] < |s.calls|)
    && (forall x :: 0 <= x < |s.owner| && x !in s.closedStreams ==> Owns(s, s.owner[x], x))
  }

  /** A stream is open only while its call is live and the manager is open. */
  ghost predicate OpenOnlyWhileLive(s: State) {
    forall x :: 0 <= x < |s.owner| && x !in s.closedStreams ==>
      s.owner[x] < |s.calls| && IsLive(s.calls[s.owner[x]]) && !s.closed
  }

  /** The calls between the two updates of the gauge. */
  function GaugeCalls(calls: seq<Phase>): set<int> { set c | 0 <= c < |calls| && InGauge(calls[c]) }

  ghost predicate GaugeExact(s: State) { s.gauge == |GaugeCalls(s.calls)| }

  /** Each call raises the gauge at most once, and has lowered it as often unless it is counted. */
  ghost predicate GaugeBalanced(s: State) {
    && s.gauge == |s.raised| - |s.lowered|
    && (forall c :: s.raised[c] <= 1)
    && (forall c :: 0 <= c < |s.calls| ==> s.raised[c] == s.lowered[c] + One(InGauge(s.calls[c])))
    && (forall c :: 0 <= c < |s.calls| && BeforeCount(s.calls[c]) ==> s.raised[c] == 0)
    && (forall c :: |s.calls| <= c ==> s.raised[c] == s.lowered[c] == 0)
  }

  predicate BeforeCount(p: Phase) { IsEarly(p) || p.Numbered? || p.Registered? }

  predicate BeforeStreams(p: Phase) { IsEarly(p) || p.Numbered? }

  /** The streams of a call are the two it was registered with. */
  ghost predicate OwnStreams(s: State, x: nat)
    requires x < |s.owner|
  {
    && s.owner[x] < |s.calls| && !BeforeStreams(s.calls[s.owner[x]])
    && (HasStreams(s.calls[s.owner[x]]) ==> x == s.calls[s.owner[x]].e || x == s.calls[s.owner[x]].d)
  }

  ghost predicate BothOpen(s: State, c: nat) {
    c < |s.calls| && IsLive(s.calls[c]) ==> s.calls[c].e !in s.closedStreams && s.calls[c].d !in s.closedStreams
  }

  /** No other stream is ever closed, and until Close both streams of a live call are open. */
  ghost predicate OpenExact(s: State) {
    && (forall x :: 0 <= x < |s.owner| ==> OwnStreams(s, x))
    && (forall x :: x in s.closedStreams ==> x < |s.owner|)
    && (!s.closed ==> forall c :: 0 <= c < |s.calls| ==> BothOpen(s, c))
  }

  ghost predicate Inv(s: State) {
    && IdsUnique(s) && MapExact(s) && StreamsOwned(s) && OpenOnlyWhileLive(s)
    && GaugeExact(s) && GaugeBalanced(s) && OpenExact(s)
  }

  function One(b: bool): nat { if b then 1 else 0 }

  lemma GaugeChange(calls: seq<Phase>, c: nat, p: Phase)
    requires c < |calls|
    ensures |GaugeCalls(calls[c := p])| == |GaugeCalls(calls)| + One(InGauge(p)) - One(InGauge(calls[c]))
  {
    assert GaugeCalls(calls[c := p]) == if InGauge(p) then GaugeCalls(calls) + {c} else GaugeCalls(calls) - {c};
    assert c in GaugeCalls(calls) <==> InGauge(calls[c]);
  }

  /** A step of a call changes the phase of that call only, and the gauge to match. */
  lemma OneCallChanges(s: State, e: Event)
    requires Enabled(s, e) && !e.Call? && !e.Close?
    ensures var s' := Step(s, e);
            && e.c < |s.calls| && |s'.calls| == |s.calls| && s'.calls == s.calls[e.c := s'.calls[e.c]]
            && s'.gauge - s.gauge == One(InGauge(s'.calls[e.c])) - One(InGauge(s.calls[e.c]))
  {
  }

  lemma GaugeStep(s: State, e: Event)
    requires GaugeExact(s)
    ensures GaugeExact(Step(s, e))
  {
    hide GaugeCalls;
    if Enabled(s, e) {
      if e.Call? {
        NewCallUncounted(s.calls);
      } else if !e.Close? {
        hide Step;
        OneCallChanges(s, e);
        GaugeChange(s.calls, e.c, Step(s, e).calls[e.c]);
      }
    }
  }

  lemma NewCallUncounted(calls: seq<Phase>)
    ensures GaugeCalls(calls + [Fresh]) == GaugeCalls(calls)
  {
  }

  /** Which events raise and lower, and when. */
  lemma GaugeEvents(s: State, e: Event)
    requires Enabled(s, e) && !e.Call? && !e.Close?
    ensures var s', p, p' := Step(s, e), s.calls[e.c], Step(s, e).calls[e.c];
            && s'.raised == s.raised + (if e.Count? then multiset{e.c} else multiset{})
            && s'.lowered == s.lowered + (if e.Uncount? then multiset{e.c} else multiset{})
            && s'.gauge == s.gauge + One(e.Count?) - One(e.Uncount?)
            && One(InGauge(p')) == One(InGauge(p)) + One(e.Count?) - One(e.Uncount?)
            && (e.Count? ==> BeforeCount(p)) && (BeforeCount(p') ==> BeforeCount(p) && !e.Count?)
  {
    OneCallChanges(s, e);
  }

  lemma BalanceStep(s: State, e: Event)
    requires GaugeBalanced(s)
    ensures GaugeBalanced(Step(s, e))
  {
    hide Step, Enabled, InGauge;
    if !Enabled(s, e) || e.Call? || e.Close? {
      OtherEvents(s, e);
    } else {
      hide BeforeCount;
      OneCallChanges(s, e);
      GaugeEvents(s, e);
    }
  }

  /** What is not a step of a call: a new call, Close, and events that are not enabled. */
  lemma OtherEvents(s: State, e: Event)
    requires !Enabled(s, e) || e.Call? || e.Close?
    ensures var s' := Step(s, e);
            && s'.calls == (if e.Call? then s.calls + [Fresh] else s.calls) && s'.owner == s.owner
            && s.closedStreams <= s'.closedStreams
            && !InGauge(Fresh) && !IsLive(Fresh) && !HasStreams(Fresh)
            && s'.gauge == s.gauge && s'.raised == s.raised && s'.lowered == s.lowered
            && (!Enabled(s, e) || e.Call? ==> s'.active == s.active && s'.closed == s.closed)
  {
  }

  /** A step outside the two locked parts changes neither the map nor the streams of its call. */
  lemma SmallStep(s: State, e: Event)
    requires Enabled(s, e) && !e.Call? && !e.Close? && !e.Create? && !e.CleanUp?
    ensures var s', p, p' := Step(s, e), s.calls[e.c], Step(s, e).calls[e.c];
            && e.c < |s.calls| && s'.closedStreams == s.closedStreams && s'.active == s.active
            && s'.closed == s.closed && s'.owner == s.owner
            && (IsLive(p') <==> IsLive(p)) && (IsLive(p) ==> HasStreams(p') && p'.id == p.id && p'.e == p.e && p'.d == p.d)
            && (HasStreams(p') ==> HasStreams(p) && p'.e == p.e && p'.d == p.d)
            && s'.calls == s.calls[e.c := p']
  {
    OneCallChanges(s, e);
  }

  /** Calls that are under way have different numbers. */
  lemma IdsAreDistinct(s: State)
    requires IdsUnique(s)
    ensures DistinctIds(s.calls)
  {
  }

  lemma NumberIsNew(s: State, c: nat)
    requires IdsUnique(s) && Enabled(s, Number(c))
    ensures IdsUnique(Step(s, Number(c)))
  {
  }

  lemma SameIds(s: State, s': State)
    requires IdsUnique(s) && s'.reqId == s.reqId && s'.issued == s.issued && |s.calls| <= |s'.calls|
    requires forall b :: 0 <= b < |s.calls| && !IsEarly(s.calls[b]) ==> !IsEarly(s'.calls[b])
    requires forall b :: 0 <= b < |s.calls| && HasId(s'.calls[b]) ==> HasId(s.calls[b]) && s.calls[b].id == s'.calls[b].id
    requires forall b :: |s.calls| <= b < |s'.calls| ==> !HasId(s'.calls[b])
    ensures IdsUnique(s')
  {
  }

  lemma IdsStep(s: State, e: Event)
    requires IdsUnique(s)
    ensures IdsUnique(Step(s, e))
  {
    hide IdsUnique;
    if e.Number? && Enabled(s, e) {
      NumberIsNew(s, e.c);
    } else {
      SameIds(s, Step(s, e));
    }
  }

  ghost predicate Assigned(s: State, c: nat) {
    c < |s.calls| && HasStreams(s.calls[c]) ==>
      s.calls[c].e < |s.owner| && s.calls[c].d < |s.owner| && s.owner[s.calls[c].e] == s.owner[s.calls[c].d] == c
  }

  lemma AssignedByCreate(s: State, b: nat, errorOk: bool, dataOk: bool, c: nat)
    requires Enabled(s, Create(b, errorOk, dataOk)) && Assigned(s, c)
    ensures Assigned(Step(s, Create(b, errorOk, dataOk)), c)
  {
  }

  lemma StreamsAssigned(s: State, e: Event, c: nat)
    requires Assigned(s, c)
    ensures Assigned(Step(s, e), c)
  {
    hide Step, Enabled, HasStreams;
    if !Enabled(s, e) || e.Call? || e.Close? {
      OtherEvents(s, e);
    } else if e.Create? {
      AssignedByCreate(s, e.c, e.errorOk, e.dataOk, c);
    } else if e.CleanUp? {
      CleanUpKeepsStreams(s, e.c);
    } else {
      SmallStep(s, e);
    }
  }

  lemma CleanUpKeepsStreams(s: State, c: nat)
    requires Enabled(s, CleanUp(c))
    ensures var s', p := Step(s, CleanUp(c)), s.calls[c];
            && c < |s.calls| && HasStreams(p) && s'.owner == s.owner && s.closedStreams <= s'.closedStreams
            && s'.calls == s.calls[c := Cleaned(p.id, p.e, p.d)] && HasStreams(s'.calls[c])
  {
  }

  lemma OwnsAfterCreate(s: State, b: nat, errorOk: bool, dataOk: bool, x: nat)
    requires Enabled(s, Create(b, errorOk, dataOk))
    requires x < |s.owner| && x !in s.closedStreams ==> Owns(s, s.owner[x], x)
    requires x < |Step(s, Create(b, errorOk, dataOk)).owner| && x !in Step(s, Create(b, errorOk, dataOk)).closedStreams
    ensures Owns(Step(s, Create(b, errorOk, dataOk)), Step(s, Create(b, errorOk, dataOk)).owner[x], x)
  {
  }

  lemma StillOwns(s: State, e: Event, x: nat)
    requires StreamsOwned(s) && OpenOnlyWhileLive(s)
    requires x < |Step(s, e).owner| && x !in Step(s, e).closedStreams
    ensures Owns(Step(s, e), Step(s, e).owner[x], x)
  {
    hide Step, Enabled, HasStreams, IsLive;
    if !Enabled(s, e) || e.Call? || e.Close? {
      OtherEvents(s, e);
    } else if e.Create? {
      OwnsAfterCreate(s, e.c, e.errorOk, e.dataOk, x);
    } else if e.CleanUp? {
      CleanUpKeepsStreams(s, e.c);
    } else {
      SmallStep(s, e);
    }
  }

  lemma OwnersAreCalls(s: State, e: Event)
    requires forall x :: 0 <= x < |s.owner| ==> s.owner[x] < |s.calls|
    ensures forall x :: 0 <= x < |Step(s, e).owner| ==> Step(s, e).owner[x] < |Step(s, e).calls|
  {
  }

  lemma OwnedStep(s: State, e: Event)
    requires StreamsOwned(s) && OpenOnlyWhileLive(s)
    ensures StreamsOwned(Step(s, e))
  {
    hide Step;
    var s' := Step(s, e);
    OwnersAreCalls(s, e);
    forall c | 0 <= c < |s'.calls| && HasStreams(s'.calls[c])
      ensures s'.calls[c].e < |s'.owner| && s'.calls[c].d < |s'.owner|
      ensures s'.owner[s'.calls[c].e] == s'.owner[s'.calls[c].d] == c
    {
      assert Assigned(s, c);
      StreamsAssigned(s, e, c);
    }
    forall x | 0 <= x < |s'.owner| && x !in s'.closedStreams ensures Owns(s', s'.owner[x], x) {
      StillOwns(s, e, x);
    }
  }

  lemma OpenIsActive(s: State, x: nat)
    requires !s.closed && MapExact(s) && StreamsOwned(s) && OpenOnlyWhileLive(s)
    requires x < |s.owner| && x !in s.closedStreams
    ensures x in s.active.Values
  {
    var p := s.calls[s.owner[x]];
    assert Owns(s, s.owner[x], x) && Mapped(s.active, p);
    assert s.active[ErrorKey(p.id)] in s.active.Values && s.active[DataKey(p.id)] in s.active.Values;
  }

  lemma OldStreamStillLive(s: State, e: Event, x: nat)
    requires MapExact(s) && StreamsOwned(s) && OpenOnlyWhileLive(s)
    requires x < |s.owner| && x !in Step(s, e).closedStreams
    ensures var s' := Step(s, e);
            x < |s'.owner| && s'.owner[x] < |s'.calls| && IsLive(s'.calls[s'.owner[x]]) && !s'.closed
  {
    hide MapExact, StreamsOwned;
    assert x !in s.closedStreams;
    assert Owns(s, s.owner[x], x) by { OwnerOf(s, x); }
    if e.Close? { OpenIsActive(s, x); }
  }

  lemma OwnerOf(s: State, x: nat)
    requires StreamsOwned(s) && x < |s.owner| && x !in s.closedStreams
    ensures Owns(s, s.owner[x], x)
  {
  }

  lemma StillLive(s: State, e: Event, x: nat)
    requires MapExact(s) && StreamsOwned(s) && OpenOnlyWhileLive(s)
    requires x < |Step(s, e).owner| && x !in Step(s, e).closedStreams
    ensures var s' := Step(s, e);
            s'.owner[x] < |s'.calls| && IsLive(s'.calls[s'.owner[x]]) && !s'.closed
  {
    hide MapExact, StreamsOwned, OpenOnlyWhileLive;
    if x < |s.owner| { OldStreamStillLive(s, e, x); }
  }

  lemma OpenStep(s: State, e: Event)
    requires MapExact(s) && StreamsOwned(s) && OpenOnlyWhileLive(s)
    ensures OpenOnlyWhileLive(Step(s, e))
  {
    hide Step, MapExact, StreamsOwned;
    var s' := Step(s, e);
    forall x | 0 <= x < |s'.owner| && x !in s'.closedStreams
      ensures s'.owner[x] < |s'.calls| && IsLive(s'.calls[s'.owner[x]]) && !s'.closed
    {
      StillLive(s, e, x);
    }
  }

  /** A name of the map is still a name after call `c` changed, unless it was a name of `c`. */
  lemma StillNamed(calls: seq<Phase>, c: nat, p: Phase, k: StreamName)
    requires c < |calls| && Named(calls, k)
    requires IsLive(calls[c]) ==> k != ErrorKey(calls[c].id) && k != DataKey(calls[c].id)
    ensures Named(calls[c := p], k)
  {
    var b :| 0 <= b < |calls| && IsLive(calls[b]) && (k == ErrorKey(calls[b].id) || k == DataKey(calls[b].id));
    assert calls[c := p][b] == calls[b];
  }

  /** A request number that is not registered yet has no name in the map. */
  lemma NameIsNew(active: map<StreamName, nat>, calls: seq<Phase>, c: nat)
    requires DistinctIds(calls) && c < |calls| && calls[c].Numbered?
    requires forall k :: k in active ==> Named(calls, k)
    ensures ErrorKey(calls[c].id) !in active && DataKey(calls[c].id) !in active
  {
  }

  /** Registering a call adds its two names and touches no other. */
  lemma MappedAfterCreate(active: map<StreamName, nat>, calls: seq<Phase>, c: nat, e: nat)
    requires DistinctIds(calls) && c < |calls| && calls[c].Numbered? && AllMapped(active, calls)
    ensures var id := calls[c].id;
            AllMapped(active[ErrorKey(id) := e][DataKey(id) := e + 1], calls[c := Registered(id, e, e + 1)])
  {
    var id := calls[c].id;
    var calls' := calls[c := Registered(id, e, e + 1)];
    forall b: nat | b < |calls'| && IsLive(calls'[b])
      ensures Mapped(active[ErrorKey(id) := e][DataKey(id) := e + 1], calls'[b])
    {
      if b != c {
        assert Mapped(active, calls[b]);
        assert calls[b].id != id;
      }
    }
  }

  lemma MapGrows(s: State, c: nat)
    requires IdsUnique(s) && MapExact(s) && Enabled(s, Create(c, true, true)) && !s.closed
    ensures MapExact(Step(s, Create(c, true, true)))
  {
    var id, e := s.calls[c].id, |s.owner|;
    var calls := s.calls[c := Registered(id, e, e + 1)];
    var active := s.active[ErrorKey(id) := e][DataKey(id) := e + 1];
    IdsAreDistinct(s);
    MappedAfterCreate(s.active, s.calls, c, e);
    forall k | k in active ensures Named(calls, k) {
      if k in s.active {
        StillNamed(s.calls, c, Registered(id, e, e + 1), k);
      } else {
        assert IsLive(calls[c]) && calls[c].id == id;
      }
    }
  }

  lemma AddThenRemove<K, V>(m: map<K, V>, k: K, v: V)
    requires k !in m
    ensures m[k := v] - {k} == m
  {
  }

  /** A failed data stream leaves the map as it was: the error stream's name was new. */
  lemma MapUndone(s: State, c: nat)
    requires IdsUnique(s) && MapExact(s) && Enabled(s, Create(c, true, false)) && !s.closed
    ensures Step(s, Create(c, true, false)).active == s.active
  {
    IdsAreDistinct(s);
    NameIsNew(s.active, s.calls, c);
    AddThenRemove(s.active, ErrorKey(s.calls[c].id), |s.owner|);
  }

  /** Cleaning up a call removes its two names and touches no other. */
  lemma MappedAfterCleanUp(active: map<StreamName, nat>, calls: seq<Phase>, c: nat, p: Phase)
    requires DistinctIds(calls) && c < |calls| && IsLive(calls[c]) && !IsLive(p) && AllMapped(active, calls)
    ensures AllMapped(active - {DataKey(calls[c].id), ErrorKey(calls[c].id)}, calls[c := p])
  {
    var calls' := calls[c := p];
    forall b: nat | b < |calls'| && IsLive(calls'[b])
      ensures Mapped(active - {DataKey(calls[c].id), ErrorKey(calls[c].id)}, calls'[b])
    {
      assert b != c && Mapped(active, calls[b]) && calls[b].id != calls[c].id;
    }
  }

  lemma MapShrinks(s: State, c: nat)
    requires IdsUnique(s) && MapExact(s) && Enabled(s, CleanUp(c)) && !s.closed
    ensures MapExact(Step(s, CleanUp(c)))
  {
    var p := s.calls[c];
    var p' := Cleaned(p.id, p.e, p.d);
    IdsAreDistinct(s);
    MappedAfterCleanUp(s.active, s.calls, c, p');
    forall k | k in s.active - {DataKey(p.id), ErrorKey(p.id)} ensures Named(s.calls[c := p'], k) {
      StillNamed(s.calls, c, p', k);
    }
  }

  /** Steps that leave the map alone also leave the live calls as they were. */
  lemma SameLiveSameMap(s: State, s': State)
    requires MapExact(s) && s'.active == s.active && s'.closed == s.closed && |s.calls| <= |s'.calls|
    requires forall b :: 0 <= b < |s.calls| ==>
               && (IsLive(s.calls[b]) <==> IsLive(s'.calls[b]))
               && (IsLive(s.calls[b])
                   ==> s'.calls[b].id == s.calls[b].id && s'.calls[b].e == s.calls[b].e && s'.calls[b].d == s.calls[b].d)
    requires forall b :: |s.calls| <= b < |s'.calls| ==> !IsLive(s'.calls[b])
    ensures MapExact(s')
  {
    if !s.closed {
      forall b | 0 <= b < |s'.calls| && IsLive(s'.calls[b]) ensures Mapped(s'.active, s'.calls[b]) {
        assert Mapped(s.active, s.calls[b]);
      }
      forall k | k in s'.active ensures Named(s'.calls, k) {
        assert Named(s.calls, k);
        var b :| 0 <= b < |s.calls| && IsLive(s.calls[b]) && (k == ErrorKey(s.calls[b].id) || k == DataKey(s.calls[b].id));
        assert IsLive(s'.calls[b]);
      }
    }
  }

  /** A failed registration leaves the map alone. */
  lemma MapWithoutStreams(s: State, c: nat, errorOk: bool, dataOk: bool)
    requires IdsUnique(s) && MapExact(s) && Enabled(s, Create(c, errorOk, dataOk))
    requires s.closed || !errorOk || !dataOk
    ensures MapExact(Step(s, Create(c, errorOk, dataOk)))
  {
    hide MapExact, IdsUnique, IsLive;
    assert !IsLive(Done) && !IsLive(s.calls[c]) by { NotLive(s.calls[c]); }
    if !s.closed && errorOk { MapUndone(s, c); }
    SameLiveSameMap(s, Step(s, Create(c, errorOk, dataOk)));
  }

  lemma NotLive(p: Phase)
    requires p.Numbered?
    ensures !IsLive(Done) && !IsLive(p)
  {
  }

  lemma MapStep(s: State, e: Event)
    requires IdsUnique(s) && MapExact(s)
    ensures MapExact(Step(s, e))
  {
    hide Step, Enabled, MapExact, IdsUnique, IsLive;
    if !Enabled(s, e) || e.Call? {
      OtherEvents(s, e);
      SameLiveSameMap(s, Step(s, e));
    } else if e.Create? {
      if s.closed || !e.errorOk || !e.dataOk {
        MapWithoutStreams(s, e.c, e.errorOk, e.dataOk);
      } else {
        MapGrows(s, e.c);
      }
    } else if e.CleanUp? {
      MapAfterCleanUp(s, e.c);
    } else if e.Close? {
      MapAfterClose(s);
    } else {
      SmallStep(s, e);
      SameLiveSameMap(s, Step(s, e));
    }
  }

  lemma MapAfterCleanUp(s: State, c: nat)
    requires IdsUnique(s) && MapExact(s) && Enabled(s, CleanUp(c))
    ensures MapExact(Step(s, CleanUp(c)))
  {
    if !s.closed { MapShrinks(s, c); }
  }

  lemma MapAfterClose(s: State)
    requires MapExact(s)
    ensures MapExact(Step(s, Close))
  {
  }

  lemma OwnStreamsStep(s: State, e: Event, x: nat)
    requires (forall y :: 0 <= y < |s.owner| ==> OwnStreams(s, y)) && x < |Step(s, e).owner|
    ensures OwnStreams(Step(s, e), x)
  {
    assert x < |s.owner| ==> OwnStreams(s, x);
  }

  /** What the map names was created. */
  lemma NamedStreamsExist(s: State, k: StreamName)
    requires MapExact(s) && StreamsOwned(s) && k in s.active
    ensures s.active[k] < |s.owner|
  {
    hide Owns;
    assert Named(s.calls, k);
    var c :| 0 <= c < |s.calls| && IsLive(s.calls[c]) && (k == ErrorKey(s.calls[c].id) || k == DataKey(s.calls[c].id));
    assert Mapped(s.active, s.calls[c]);
  }

  lemma ClosedExistStep(s: State, e: Event)
    requires MapExact(s) && StreamsOwned(s) && forall x :: x in s.closedStreams ==> x < |s.owner|
    ensures forall x :: x in Step(s, e).closedStreams ==> x < |Step(s, e).owner|
  {
    hide MapExact;
    if e.Close? {
      forall k | k in s.active ensures s.active[k] < |s.owner| { NamedStreamsExist(s, k); }
    }
  }

  lemma BothOpenAfterCreate(s: State, b: nat, errorOk: bool, dataOk: bool, c: nat)
    requires Enabled(s, Create(b, errorOk, dataOk)) && BothOpen(s, c) && Assigned(s, c)
    requires forall x :: x in s.closedStreams ==> x < |s.owner|
    ensures BothOpen(Step(s, Create(b, errorOk, dataOk)), c)
  {
  }

  lemma BothOpenAfterCleanUp(s: State, b: nat, c: nat)
    requires Enabled(s, CleanUp(b)) && BothOpen(s, c) && Assigned(s, b) && Assigned(s, c)
    ensures BothOpen(Step(s, CleanUp(b)), c)
  {
  }

  lemma BothOpenStep(s: State, e: Event, c: nat)
    requires StreamsOwned(s) && BothOpen(s, c) && e != Close
    requires forall x :: x in s.closedStreams ==> x < |s.owner|
    ensures BothOpen(Step(s, e), c)
  {
    assert Assigned(s, c) && (Enabled(s, e) && e.CleanUp? ==> Assigned(s, e.c));
    hide Step, Enabled, HasStreams, IsLive, StreamsOwned, Assigned;
    if !Enabled(s, e) || e.Call? {
      OtherEvents(s, e);
    } else if e.Create? {
      BothOpenAfterCreate(s, e.c, e.errorOk, e.dataOk, c);
    } else if e.CleanUp? {
      BothOpenAfterCleanUp(s, e.c, c);
    } else {
      SmallStep(s, e);
    }
  }

  lemma OnlyCloseCloses(s: State, e: Event)
    ensures Step(s, e).closed <==> s.closed || e == Close
  {
  }

  lemma OpenExactStep(s: State, e: Event)
    requires MapExact(s) && StreamsOwned(s) && OpenExact(s)
    ensures OpenExact(Step(s, e))
  {
    hide Step, MapExact, StreamsOwned, OwnStreams, BothOpen;
    var s' := Step(s, e);
    forall x | 0 <= x < |s'.owner| ensures OwnStreams(s', x) { OwnStreamsStep(s, e, x); }
    ClosedExistStep(s, e);
    OnlyCloseCloses(s, e);
    if !s'.closed {
      forall c | 0 <= c < |s'.calls| ensures BothOpen(s', c) {
        assert BothOpen(s, c) by { if c >= |s.calls| { NothingToOpen(s, c); } }
        BothOpenStep(s, e, c);
      }
    }
  }

  lemma NothingToOpen(s: State, c: nat)
    requires |s.calls| <= c
    ensures BothOpen(s, c)
  {
  }

  lemma InvStep(s: State, e: Event)
    requires Inv(s)
    ensures Inv(Step(s, e))
  {
    hide Step, IdsUnique, MapExact, StreamsOwned, OpenOnlyWhileLive, GaugeExact, GaugeBalanced, OpenExact;
    IdsStep(s, e);
    MapStep(s, e);
    OwnedStep(s, e);
    OpenStep(s, e);
    GaugeStep(s, e);
    BalanceStep(s, e);
    OpenExactStep(s, e);
  }

  lemma {:induction false} RunInv(es: seq<Event>)
    ensures Inv(Exec(INITIAL, es))
  {
    hide Step;
    if es != [] {
      RunInv(es[..|es| - 1]);
      InvStep(Exec(INITIAL, es[..|es| - 1]), es[|es| - 1]);
    }
  }

  // ---------- what holds of every manager ----------

  /** The manager is closed exactly when Close has run. */
  lemma {:induction false} ClosedIffClose(es: seq<Event>)
    ensures Exec(INITIAL, es).closed <==> Close in es
  {
    hide Step;
    if es != [] {
      var before, e := es[..|es| - 1], es[|es| - 1];
      assert es == before + [e];
      ClosedIffClose(before);
      OnlyCloseCloses(Exec(INITIAL, before), e);
    }
  }

  predicate Registers(p: Phase, k: StreamName, x: nat) {
    IsLive(p) && ((k == ErrorKey(p.id) && x == p.e) || (k == DataKey(p.id) && x == p.d))
  }

  /** Until Close the map holds exactly the error and data pair of each registered call that is not
      yet cleaned up, under names no two calls share; after Close it stays empty. */
  lemma MapHoldsLivePairs(es: seq<Event>, k: StreamName, x: nat)
    ensures var s := Exec(INITIAL, es);
            k in s.active && s.active[k] == x <==>
            Close !in es && exists c :: 0 <= c < |s.calls| && Registers(s.calls[c], k, x)
  {
    hide Exec, IdsUnique, StreamsOwned, OpenOnlyWhileLive, GaugeExact, GaugeBalanced, OpenExact;
    var s := Exec(INITIAL, es);
    RunInv(es);
    ClosedIffClose(es);
    if !s.closed && k in s.active && s.active[k] == x {
      assert Named(s.calls, k);
      var c :| 0 <= c < |s.calls| && IsLive(s.calls[c]) && (k == ErrorKey(s.calls[c].id) || k == DataKey(s.calls[c].id));
      assert Mapped(s.active, s.calls[c]);
      assert Registers(s.calls[c], k, x);
    }
    if c :| !s.closed && 0 <= c < |s.calls| && Registers(s.calls[c], k, x) {
      assert Mapped(s.active, s.calls[c]);
    }
  }

  lemma IssuedStaysOneStep(s: State, e: Event, c: nat)
    requires IdsUnique(s) && c in s.issued
    ensures c in Step(s, e).issued && Step(s, e).issued[c] == s.issued[c]
  {
  }

  /** No two calls ever made get the same request number, whether or not they have returned, and a
      call keeps its number whatever happens later. */
  lemma {:induction false} RequestNumbersAreUnique(es: seq<Event>, fs: seq<Event>)
    ensures var s, t := Exec(INITIAL, es), Exec(Exec(INITIAL, es), fs);
            && (forall b, c :: b in s.issued && c in s.issued && b != c ==> s.issued[b] != s.issued[c])
            && (forall c :: 0 <= c < |s.calls| && HasId(s.calls[c]) ==> c in s.issued && s.issued[c] == s.calls[c].id)
            && (forall c :: c in s.issued ==> c in t.issued && t.issued[c] == s.issued[c])
    ensures IdsUnique(Exec(Exec(INITIAL, es), fs))
  {
    hide Step;
    RunInv(es);
    if fs != [] {
      var s, t := Exec(INITIAL, es), Exec(Exec(INITIAL, es), fs[..|fs| - 1]);
      RequestNumbersAreUnique(es, fs[..|fs| - 1]);
      IdsStep(t, fs[|fs| - 1]);
      forall c: nat | c in s.issued ensures c in Step(t, fs[|fs| - 1]).issued && Step(t, fs[|fs| - 1]).issued[c] == s.issued[c] {
        IssuedStaysOneStep(t, fs[|fs| - 1], c);
      }
    }
  }

  /** A stream is closed exactly when its call is no longer live, or Close has run: none outlives its
      call or the manager, and none is cut off before. */
  lemma EveryStreamIsClosed(es: seq<Event>, x: nat)
    requires x < |Exec(INITIAL, es).owner|
    ensures var s := Exec(INITIAL, es);
            s.owner[x] < |s.calls| && (x in s.closedStreams <==> Close in es || !IsLive(s.calls[s.owner[x]]))
  {
    hide Exec, IdsUnique, MapExact, GaugeExact, GaugeBalanced;
    RunInv(es);
    ClosedIffClose(es);
    var s := Exec(INITIAL, es);
    assert OwnStreams(s, x);
    assert !s.closed ==> BothOpen(s, s.owner[x]);
  }

  /** What Close has shut stays shut: no stream is created any more, the map stays empty, and a call
      made later gets no further than the check. */
  ghost predicate ShutSince(s: State, t: State) {
    && t.closed && t.active == map[] && t.owner == s.owner && t.closedStreams == s.closedStreams
    && |s.calls| <= |t.calls|
    && (forall c :: |s.calls| <= c < |t.calls| ==> t.calls[c].Fresh? || t.calls[c].Done?)
    && (forall c :: c in t.issued ==> c < |s.calls|)
  }

  lemma ShutStep(s: State, t: State, e: Event)
    requires ShutSince(s, t) && forall c :: 0 <= c < |t.calls| && HasStreams(t.calls[c]) ==>
               t.calls[c].e in t.closedStreams && t.calls[c].d in t.closedStreams
    ensures ShutSince(s, Step(t, e))
  {
    hide HasStreams;
    if Enabled(t, e) {
      match e
      case CleanUp(c) =>
        CleanUpKeepsStreams(t, c);
        var p := t.calls[c];
        assert t.closedStreams + {p.d, p.e} == t.closedStreams;
        assert t.active - {DataKey(p.id), ErrorKey(p.id)} == t.active;
      case _ =>
    }
  }

  lemma ShutStreamsAreClosed(s: State, c: nat)
    requires StreamsOwned(s) && OpenOnlyWhileLive(s) && s.closed && c < |s.calls| && HasStreams(s.calls[c])
    ensures s.calls[c].e in s.closedStreams && s.calls[c].d in s.closedStreams
  {
  }

  /** Close closes every stream there is and empties the map; and in every continuation no stream is
      created or reopened, the map stays empty, and new calls fail before they get a number. */
  lemma {:induction false} CloseIsFinal(es: seq<Event>, fs: seq<Event>)
    requires Close in es
    ensures var s, t := Exec(INITIAL, es), Exec(Exec(INITIAL, es), fs);
            && s.active == map[] && (forall x: nat :: x < |s.owner| <==> x in s.closedStreams)
            && ShutSince(s, t)
    ensures Inv(Exec(Exec(INITIAL, es), fs))
  {
    hide Step, IdsUnique, GaugeExact, GaugeBalanced, StreamsOwned;
    var s := Exec(INITIAL, es);
    RunInv(es);
    ClosedIffClose(es);
    if fs == [] {
      assert forall c :: c in s.issued ==> c < |s.calls| by { IssuedToCalls(s); }
    } else {
      var t, e := Exec(s, fs[..|fs| - 1]), fs[|fs| - 1];
      CloseIsFinal(es, fs[..|fs| - 1]);
      forall c | 0 <= c < |t.calls| && HasStreams(t.calls[c])
        ensures t.calls[c].e in t.closedStreams && t.calls[c].d in t.closedStreams
      {
        ShutStreamsAreClosed(t, c);
      }
      ShutStep(s, t, e);
      InvStep(t, e);
    }
  }

  lemma IssuedToCalls(s: State)
    requires IdsUnique(s)
    ensures forall c :: c in s.issued ==> c < |s.calls|
  {
  }

  // ---------- one call from start to end ----------

  lemma ExecAppend(s: State, es: seq<Event>, e: Event)
    ensures Exec(s, es + [e]) == Step(Exec(s, es), e)
  {
    assert (es + [e])[..|es|] == es;
  }

  lemma ExecThree(s: State, e1: Event, e2: Event, e3: Event)
    ensures Exec(s, [e1, e2, e3]) == Step(Step(Step(s, e1), e2), e3)
  {
    assert Exec(s, []) == s && [] + [e1] == [e1] && [e1] + [e2] == [e1, e2] && [e1, e2] + [e3] == [e1, e2, e3];
    ExecAppend(s, [], e1);
    ExecAppend(s, [e1], e2);
    ExecAppend(s, [e1, e2], e3);
  }

  /** A new call gets through the check and takes a number. */
  function Opening(c: nat): seq<Event> { [Event.Call, Check(c), Number(c)] }

  lemma LastCall(calls: seq<Phase>, p: Phase, q: Phase)
    ensures (calls + [p])[|calls|] == p && (calls + [p])[|calls| := q] == calls + [q]
  {
  }

  lemma CallGetsNumber(s: State)
    requires !s.closed && s.reqId < MAX_UINT64
    ensures var c, n, t := |s.calls|, s.reqId + 1, Exec(s, Opening(|s.calls|));
            t == s.(calls := s.calls + [Numbered(n)], reqId := n, issued := s.issued[c := n])
  {
    var c := |s.calls|;
    ExecThree(s, Event.Call, Check(c), Number(c));
    hide Exec, Step;
    var s1 := s.(calls := s.calls + [Fresh]);
    var s2 := s.(calls := s.calls + [Checked]);
    assert Step(s, Event.Call) == s1 by { CallAppends(s); }
    assert Step(s1, Check(c)) == s2 by {
      LastCall(s.calls, Fresh, Checked);
      CheckLets(s1, c);
    }
    LastCall(s.calls, Checked, Numbered(s.reqId + 1));
    NumberGives(s2, c);
  }

  lemma CallAppends(s: State)
    ensures Step(s, Event.Call) == s.(calls := s.calls + [Fresh])
  {
  }

  lemma CheckLets(s: State, c: nat)
    requires !s.closed && c < |s.calls| && s.calls[c].Fresh?
    ensures Step(s, Check(c)) == s.(calls := s.calls[c := Checked])
  {
  }

  lemma NumberGives(s: State, c: nat)
    requires s.reqId < MAX_UINT64 && c < |s.calls| && s.calls[c].Checked?
    ensures Step(s, Number(c))
            == s.(calls := s.calls[c := Numbered(s.reqId + 1)], reqId := s.reqId + 1, issued := s.issued[c := s.reqId + 1])
  {
  }

  /** The call with two streams is registered, counted, and enters its cleanup. */
  lemma CallIsServed(s: State, calls: seq<Phase>, n: nat, closer: Closer)
    requires !s.closed && s.calls == calls + [Numbered(n)]
    ensures var c, e := |calls|, |s.owner|;
            Exec(s, [Create(c, true, true), Count(c), CloseAll(c, closer)])
            == s.(active := s.active[ErrorKey(n) := e][DataKey(n) := e + 1], owner := s.owner + [c, c],
                  gauge := s.gauge + 1, raised := s.raised + multiset{c}, calls := calls + [Cleaning(n, e, e + 1, closer)])
  {
    var c, e := |calls|, |s.owner|;
    ExecThree(s, Create(c, true, true), Count(c), CloseAll(c, closer));
    hide Exec, Step;
    LastCall(calls, Numbered(n), Registered(n, e, e + 1));
    LastCall(calls, Registered(n, e, e + 1), Counted(n, e, e + 1));
    LastCall(calls, Counted(n, e, e + 1), Cleaning(n, e, e + 1, closer));
    var s1 := s.(active := s.active[ErrorKey(n) := e][DataKey(n) := e + 1], owner := s.owner + [c, c],
                 calls := calls + [Registered(n, e, e + 1)]);
    CreateRegisters(s, calls, n);
    assert Step(s, Create(c, true, true)) == s1;
    CountRaises(s1, c);
    EnterMarks(s1.(gauge := s.gauge + 1, raised := s.raised + multiset{c}, calls := calls + [Counted(n, e, e + 1)]), c, closer);
  }

  lemma CreateRegisters(s: State, calls: seq<Phase>, n: nat)
    requires !s.closed && s.calls == calls + [Numbered(n)]
    ensures var c, e := |calls|, |s.owner|;
            Step(s, Create(c, true, true))
            == s.(active := s.active[ErrorKey(n) := e][DataKey(n) := e + 1], owner := s.owner + [c, c],
                  calls := calls + [Registered(n, e, e + 1)])
  {
    LastCall(calls, Numbered(n), Registered(n, |s.owner|, |s.owner| + 1));
  }

  lemma CountRaises(s: State, c: nat)
    requires c < |s.calls| && s.calls[c].Registered?
    ensures var p := s.calls[c];
            Step(s, Count(c)) == s.(gauge := s.gauge + 1, raised := s.raised + multiset{c},
                                    calls := s.calls[c := Counted(p.id, p.e, p.d)])
  {
  }

  lemma EnterMarks(s: State, c: nat, closer: Closer)
    requires c < |s.calls| && s.calls[c].Counted?
    ensures var p := s.calls[c];
            Step(s, CloseAll(c, closer)) == s.(calls := s.calls[c := Cleaning(p.id, p.e, p.d, closer)])
  {
  }

  /** The call is cleaned up and returns. */
  lemma CallIsCleanedUp(s: State, calls: seq<Phase>, n: nat, e: nat, closer: Closer)
    requires s.calls == calls + [Cleaning(n, e, e + 1, closer)]
    ensures var c := |calls|;
            Exec(s, [CleanUp(c), Uncount(c), Return(c)])
            == s.(active := s.active - {DataKey(n), ErrorKey(n)}, closedStreams := s.closedStreams + {e + 1, e},
                  gauge := s.gauge - 1, lowered := s.lowered + multiset{c}, calls := calls + [Done])
  {
    var c := |calls|;
    ExecThree(s, CleanUp(c), Uncount(c), Return(c));
    hide Exec, Step;
    var s1 := s.(active := s.active - {DataKey(n), ErrorKey(n)}, closedStreams := s.closedStreams + {e + 1, e},
                 calls := calls + [Cleaned(n, e, e + 1)]);
    var s2 := s1.(gauge := s.gauge - 1, lowered := s.lowered + multiset{c}, calls := calls + [Settled(n, e, e + 1)]);
    assert Step(s, CleanUp(c)) == s1 by {
      LastCall(calls, Cleaning(n, e, e + 1, closer), Cleaned(n, e, e + 1));
      CleanUpRemoves(s, c);
    }
    assert Step(s1, Uncount(c)) == s2 by {
      LastCall(calls, Cleaned(n, e, e + 1), Settled(n, e, e + 1));
      UncountLowers(s1, c);
    }
    assert Step(s2, Return(c)) == s2.(calls := calls + [Done]) by {
      LastCall(calls, Settled(n, e, e + 1), Done);
      ReturnEnds(s2, c);
    }
  }

  lemma CleanUpRemoves(s: State, c: nat)
    requires c < |s.calls| && s.calls[c].Cleaning?
    ensures var p := s.calls[c];
            Step(s, CleanUp(c)) == s.(active := s.active - {DataKey(p.id), ErrorKey(p.id)},
                                      closedStreams := s.closedStreams + {p.d, p.e},
                                      calls := s.calls[c := Cleaned(p.id, p.e, p.d)])
  {
  }

  lemma UncountLowers(s: State, c: nat)
    requires c < |s.calls| && s.calls[c].Cleaned?
    ensures var p := s.calls[c];
            Step(s, Uncount(c)) == s.(gauge := s.gauge - 1, lowered := s.lowered + multiset{c},
                                      calls := s.calls[c := Settled(p.id, p.e, p.d)])
  {
  }

  lemma ReturnEnds(s: State, c: nat)
    requires c < |s.calls| && s.calls[c].Settled?
    ensures Step(s, Return(c)) == s.(calls := s.calls[c := Done])
  {
  }

  /** Until Close a call whose two streams can be created registers them both under its own number,
      and is counted; when it has been cleaned up and has returned, the map and the gauge are as the
      call found them, and of the streams its own two, and no others, have been closed. */
  lemma ForwardRoundTrip(es: seq<Event>, closer: Closer)
    requires Close !in es && Exec(INITIAL, es).reqId < MAX_UINT64
    ensures var s := Exec(INITIAL, es);
            var c, n, e := |s.calls|, s.reqId + 1, |s.owner|;
            var u := Exec(Exec(s, Opening(c)), [Create(c, true, true), Count(c), CloseAll(c, closer)]);
            var t := Exec(u, [CleanUp(c), Uncount(c), Return(c)]);
            && u.active == s.active[ErrorKey(n) := e][DataKey(n) := e + 1] && u.owner == s.owner + [c, c]
            && u.closedStreams == s.closedStreams && u.gauge == s.gauge + 1
            && t.active == s.active && t.owner == u.owner && t.closedStreams == s.closedStreams + {e, e + 1}
            && t.gauge == s.gauge && t.calls == s.calls + [Done]
  {
    hide Exec, Step;
    var s := Exec(INITIAL, es);
    ClosedIffClose(es);
    var c, n, e := |s.calls|, s.reqId + 1, |s.owner|;
    var v := Exec(s, Opening(c));
    CallGetsNumber(s);
    NumberNotInMap(es);
    CallIsServed(v, s.calls, n, closer);
    var u := Exec(v, [Create(c, true, true), Count(c), CloseAll(c, closer)]);
    CallIsCleanedUp(u, s.calls, n, e, closer);
    AddThenRemoveTwo(s.active, ErrorKey(n), e, DataKey(n), e + 1);
  }

  lemma AddThenRemoveTwo<K, V>(m: map<K, V>, k: K, v: V, k': K, v': V)
    requires k !in m && k' !in m
    ensures m[k := v][k' := v'] - {k', k} == m
  {
  }

  /** The next number has no name in the map yet. */
  lemma NumberNotInMap(es: seq<Event>)
    ensures var s := Exec(INITIAL, es);
            ErrorKey(s.reqId + 1) !in s.active && DataKey(s.reqId + 1) !in s.active
  {
    hide Exec, IdsUnique, MapExact, StreamsOwned, OpenOnlyWhileLive, GaugeExact, GaugeBalanced, OpenExact;
    RunInv(es);
    var s := Exec(INITIAL, es);
    forall k | k in s.active ensures k.id <= s.reqId { NamesAreOld(s, k); }
  }

  lemma NamesAreOld(s: State, k: StreamName)
    requires IdsUnique(s) && MapExact(s) && k in s.active
    ensures k.id <= s.reqId
  {
    assert Named(s.calls, k);
  }

  /** A call one of whose streams cannot be created leaves the map and the gauge as they were, and
      the stream that was created, if any, closed. */
  lemma FailedForwardLeavesNothing(es: seq<Event>, errorOk: bool, dataOk: bool)
    requires Close !in es && Exec(INITIAL, es).reqId < MAX_UINT64 && !(errorOk && dataOk)
    ensures var s := Exec(INITIAL, es);
            var c, e := |s.calls|, |s.owner|;
            var t := Step(Exec(s, Opening(c)), Create(c, errorOk, dataOk));
            && t.active == s.active && t.gauge == s.gauge && t.calls == s.calls + [Done]
            && t.owner == s.owner + (if errorOk then [c] else [])
            && t.closedStreams == s.closedStreams + (if errorOk then {e} else {})
  {
    hide Exec, Step;
    var s := Exec(INITIAL, es);
    ClosedIffClose(es);
    CallGetsNumber(s);
    NumberNotInMap(es);
    CreateFails(Exec(s, Opening(|s.calls|)), s.calls, s.reqId + 1, errorOk, dataOk);
  }

  lemma CreateFails(s: State, calls: seq<Phase>, n: nat, errorOk: bool, dataOk: bool)
    requires !s.closed && s.calls == calls + [Numbered(n)] && ErrorKey(n) !in s.active && !(errorOk && dataOk)
    ensures var c, t := |calls|, Step(s, Create(|calls|, errorOk, dataOk));
            && t.active == s.active && t.gauge == s.gauge && t.calls == calls + [Done]
            && t.owner == s.owner + (if errorOk then [c] else [])
            && t.closedStreams == s.closedStreams + (if errorOk then {|s.owner|} else {})
  {
    LastCall(calls, Numbered(n), Done);
    AddThenRemove(s.active, ErrorKey(n), |s.owner|);
  }

  /** The gauge equals increments minus decrements, and the number of calls between the two. However
      the two closers of a call race, each call raises the gauge at most once and lowers it at most
      once and only after; when every call has returned the two balance and the gauge is zero. */
  lemma GaugeIsBalanced(es: seq<Event>)
    ensures var s := Exec(INITIAL, es);
            && s.gauge == |s.raised| - |s.lowered| == |GaugeCalls(s.calls)|
            && (forall c: nat :: s.lowered[c] <= s.raised[c] <= 1)
            && (forall c :: 0 <= c < |s.calls| && s.calls[c].Done? ==> s.lowered[c] == s.raised[c])
            && ((forall c :: 0 <= c < |s.calls| ==> s.calls[c].Done?) ==> s.raised == s.lowered && s.gauge == 0)
  {
    hide GaugeCalls;
    RunInv(es);
    var s := Exec(INITIAL, es);
    forall c: nat ensures s.lowered[c] <= s.raised[c] {
      assert c < |s.calls| ==> s.raised[c] == s.lowered[c] + One(InGauge(s.calls[c]));
    }
    if forall c :: 0 <= c < |s.calls| ==> s.calls[c].Done? {
      forall c: nat ensures s.raised[c] == s.lowered[c] {
        assert c < |s.calls| ==> s.raised[c] == s.lowered[c] + One(InGauge(s.calls[c]));
      }
      assert s.raised == s.lowered;
    }
  }
}
