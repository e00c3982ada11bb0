/** The accept loop and the tarpit it feeds (internal/sshd/listen.go, internal/tarpit/tarpit.go):
    a bounded first-in first-out queue, one dispatcher, and a fixed number of worker slots.
    Every goroutine step is one event; a run is any interleaving of events. */
module Tarpit {
  import opened Limiter

  const QUEUE_CAPACITY: nat := 1000

  datatype Job = Job(conn: nat, delay: real)

  /** The dispatcher blocks on a free slot while it holds a job; cancellation makes it leave. */
  datatype Dispatcher = Idle | Holding(job: Job) | Exited

  /** A worker closes its connection before it gives its slot back. */
  datatype Slot = Free | Busy(job: Job, start: real) | Closing

  /** What the limiter and the hasher make of an accepted connection. */
  datatype Route = Unhashed | Admitted | Denied(retryAfter: real)

  datatype Event =
    | Accept
    | Routed(route: Route)
    | Take
    | Acquire(slot: nat)
    | Fire(slot: nat)
    | Release(slot: nat)
    | Cancel
    | Exit
    | Advance(dt: real)

  /** Connections are numbered as they are accepted. `enqueued` and `started` only record history. */
  datatype State = State(
    now: real,
    cancelled: bool,
    accepted: nat,
    routing: Option<nat>,
    queue: seq<Job>,
    dispatcher: Dispatcher,
    slots: seq<Slot>,
    handed: set<nat>,
    closed: set<nat>,
    abandoned: set<nat>,
    enqueued: seq<Job>,
    started: seq<Job>
  )

  function Initial(maxWorkers: nat): State {
    State(0.0, false, 0, None, [], Idle, seq(maxWorkers, _ => Free), {}, {}, {}, [], [])
  }

  /** Hand a connection to the tarpit: queue it, or close it when the queue is full. */
  function Add(s: State, job: Job): State {
    if |s.queue| < QUEUE_CAPACITY then s.(queue := s.queue + [job], enqueued := s.enqueued + [job])
    else s.(closed := s.closed + {job.conn})
  }

  predicate Enabled(s: State, e: Event) {
    match e
    case Accept => s.routing.None?
    case Routed(_) => s.routing.Some?
    case Take => s.dispatcher.Idle? && s.queue != []
    case Acquire(i) => s.dispatcher.Holding? && i < |s.slots| && s.slots[i].Free?
    case Fire(i) => i < |s.slots| && s.slots[i].Busy? && (s.cancelled || s.slots[i].start + s.slots[i].job.delay <= s.now)
    case Release(i) => i < |s.slots| && s.slots[i].Closing?
    case Cancel => true
    case Exit => s.cancelled && !s.dispatcher.Exited?
    case Advance(dt) => 0.0 < dt
  }

  /** One step; an event that is not enabled changes nothing. */
  function Step(s: State, e: Event): State {
    if !Enabled(s, e) then s else
    match e
    case Accept => s.(routing := Some(s.accepted), accepted := s.accepted + 1)
    case Routed(route) =>
      var c, s' := s.routing.value, s.(routing := None);
      (match route
       case Unhashed => s'.(closed := s.closed + {c})
       case Admitted => s'.(handed := s.handed + {c})
       case Denied(retryAfter) =>
         if retryAfter > 0.0 then Add(s', Job(c, retryAfter)) else s'.(closed := s.closed + {c}))
    case Take => s.(queue := s.queue[1..], dispatcher := Holding(s.queue[0]))
    case Acquire(i) =>
      var job := s.dispatcher.job;
      s.(dispatcher := Idle, slots := s.slots[i := Busy(job, s.now)], started := s.started + [job])
    case Fire(i) => s.(slots := s.slots[i := Closing], closed := s.closed + {s.slots[i].job.conn})
    case Release(i) => s.(slots := s.slots[i := Free])
    case Cancel => s.(cancelled := true)
    case Exit =>
      s.(dispatcher := Exited,
         abandoned := s.abandoned + (if s.dispatcher.Holding? then {s.dispatcher.job.conn} else {}))
    case Advance(dt) => s.(now := s.now + dt)
  }

  function Exec(s: State, es: seq<Event>): State {
    if es == [] then s else Step(Exec(s, es[..|es| - 1]), es[|es| - 1])
  }

  /** The server's mutable state; each method is one atomic step of one goroutine. A method whose
      `requires` does not hold is a goroutine that blocks. */
  class Server {
    var now: real
    var cancelled: bool
    var accepted: nat
    var routing: Option<nat>
    var queue: seq<Job>
    var dispatcher: Dispatcher
    var slots: seq<Slot>
    var handed: set<nat>
    var closed: set<nat>
    var abandoned: set<nat>
    const maxWorkers: nat
    ghost var enqueued: seq<Job>
    ghost var started: seq<Job>
    ghost var place: seq<Place>

    ghost function View(): State
      reads this
    {
      State(now, cancelled, accepted, routing, queue, dispatcher, slots, handed, closed, abandoned, enqueued, started)
    }

    /** Every accepted connection is at its one place, jobs are in order, and the queue and the
        workers are within their capacities. */
    ghost predicate Valid()
      reads this
    {
      Inv(View(), maxWorkers, place)
    }

    constructor (maxWorkers: nat)
      ensures Valid() && View() == Initial(maxWorkers)
    {
      this.maxWorkers, place := maxWorkers, [];
      now, cancelled, accepted, routing := 0.0, false, 0, None;
      queue, dispatcher, slots := [], Idle, seq(maxWorkers, _ => Free);
      handed, closed, abandoned := {}, {}, {};
      enqueued, started := [], [];
    }

    method AcceptConnection()
      requires Valid() && routing.None?
      modifies this
      ensures Valid() && View() == Step(old(View()), Accept)
    {
      hide Inv;
      place := InvStep(View(), Accept, maxWorkers, place);
      routing, accepted := Some(accepted), accepted + 1;
    }

    /** The limiter's part of the accept loop: `hashed` tells whether the address gave a key. */
    method RouteConnection(hashed: bool, r: Result)
      requires Valid() && routing.Some?
      modifies this
      ensures Valid()
      ensures View() == Step(old(View()), Routed(
        if !hashed then Unhashed else if r.Allow? then Admitted else Denied(r.retryAfter)))
    {
      hide Inv;
      place := InvStep(View(), Routed(if !hashed then Unhashed else if r.Allow? then Admitted else Denied(r.retryAfter)),
                       maxWorkers, place);
      var c := routing.value;
      routing := None;
      if !hashed {
        closed := closed + {c};
        return;
      }
      if r.Deny? {
        if r.retryAfter > 0.0 {
          AddJob(c, r.retryAfter);
        } else {
          closed := closed + {c};
        }
        return;
      }
      handed := handed + {c};
    }

    /** The connection has just been routed, so `Valid` may have to wait for its place. */
    method AddJob(conn: nat, delay: real)
      modifies this
      ensures View() == Add(old(View()), Job(conn, delay)) && place == old(place)
    {
      if |queue| < QUEUE_CAPACITY {
        queue := queue + [Job(conn, delay)];
        enqueued := enqueued + [Job(conn, delay)];
      } else {
        closed := closed + {conn};
      }
    }

    method TakeJob()
      requires Valid() && dispatcher.Idle? && queue != []
      modifies this
      ensures Valid() && View() == Step(old(View()), Take)
    {
      hide Inv;
      place := InvStep(View(), Take, maxWorkers, place);
      dispatcher := Holding(queue[0]);
      queue := queue[1..];
    }

    method AcquireSlot(i: nat)
      requires Valid() && dispatcher.Holding? && i < |slots| && slots[i].Free?
      modifies this
      ensures Valid() && View() == Step(old(View()), Acquire(i))
    {
      hide Inv;
      place := InvStep(View(), Acquire(i), maxWorkers, place);
      started := started + [dispatcher.job];
      slots := slots[i := Busy(dispatcher.job, now)];
      dispatcher := Idle;
    }

    method FireTimer(i: nat)
      requires Valid() && i < |slots| && slots[i].Busy? && (cancelled || slots[i].start + slots[i].job.delay <= now)
      modifies this
      ensures Valid() && View() == Step(old(View()), Fire(i))
    {
      hide Inv;
      place := InvStep(View(), Fire(i), maxWorkers, place);
      closed := closed + {slots[i].job.conn};
      slots := slots[i := Closing];
    }

    method ReleaseSlot(i: nat)
      requires Valid() && i < |slots| && slots[i].Closing?
      modifies this
      ensures Valid() && View() == Step(old(View()), Release(i))
    {
      hide Inv;
      place := InvStep(View(), Release(i), maxWorkers, place);
      slots := slots[i := Free];
    }

    method LeaveDispatcher()
      requires Valid() && cancelled && !dispatcher.Exited?
      modifies this
      ensures Valid() && View() == Step(old(View()), Exit)
    {
      hide Inv;
      place := InvStep(View(), Exit, maxWorkers, place);
      if dispatcher.Holding? {
        abandoned := abandoned + {dispatcher.job.conn};
      } else {
        assert abandoned == abandoned + {};
      }
      dispatcher := Exited;
    }
  }

  // ---------- where a connection is ----------

  datatype Place = Routing | Handed | Closed | Queued | Held | Working | Abandoned

  predicate InQueue(queue: seq<Job>, c: nat) { exists k :: 0 <= k < |queue| && queue[k].conn == c }

  predicate InSlot(slots: seq<Slot>, c: nat) {
    exists k :: 0 <= k < |slots| && slots[k].Busy? && slots[k].job.conn == c
  }

  /** Connection `c` is at place `p`, read off the structures of the program. */
  predicate At(s: State, c: nat, p: Place) {
    match p
    case Routing => s.routing == Some(c)
    case Handed => c in s.handed
    case Closed => c in s.closed
    case Queued => InQueue(s.queue, c)
    case Held => s.dispatcher.Holding? && s.dispatcher.job.conn == c
    case Working => InSlot(s.slots, c)
    case Abandoned => c in s.abandoned
  }

  ghost predicate NoRepeats(s: State) {
    && (forall j, k :: 0 <= j < k < |s.queue| ==> s.queue[j].conn != s.queue[k].conn)
    && (forall j, k :: 0 <= j < k < |s.slots| && s.slots[j].Busy? && s.slots[k].Busy?
          ==> s.slots[j].job.conn != s.slots[k].job.conn)
  }

  /** `where` gives every accepted connection its one place, and no other connection any. */
  ghost predicate Located(s: State, place: seq<Place>) {
    && |place| == s.accepted
    && (forall c: nat, p: Place :: At(s, c, p) <==> c < |place| && place[c] == p)
  }

  /** Jobs leave the queue in the order they entered it. */
  ghost predicate InOrder(s: State) {
    match s.dispatcher
    case Idle => s.enqueued == s.started + s.queue
    case Holding(job) => s.enqueued == s.started + [job] + s.queue
    case Exited => s.started + s.queue == s.enqueued
                   || exists job: Job :: job.conn in s.abandoned && s.enqueued == s.started + [job] + s.queue
  }

  ghost predicate Inv(s: State, maxWorkers: nat, place: seq<Place>) {
    && |s.queue| <= QUEUE_CAPACITY && |s.slots| == maxWorkers
    && Located(s, place) && NoRepeats(s) && InOrder(s)
  }

  /** The connection that an enabled event moves, and where it takes it. */
  function Mover(s: State, e: Event): Option<nat>
    requires Enabled(s, e)
  {
    match e
    case Accept => Some(s.accepted)
    case Routed(_) => s.routing
    case Take => Some(s.queue[0].conn)
    case Acquire(_) => Some(s.dispatcher.job.conn)
    case Fire(i) => Some(s.slots[i].job.conn)
    case Exit => if s.dispatcher.Holding? then Some(s.dispatcher.job.conn) else None
    case _ => None
  }

  function Target(s: State, e: Event): Place {
    match e
    case Accept => Routing
    case Routed(Admitted) => Handed
    case Routed(Denied(retryAfter)) => if retryAfter > 0.0 && |s.queue| < QUEUE_CAPACITY then Queued else Closed
    case Take => Held
    case Acquire(_) => Working
    case Exit => Abandoned
    case _ => Closed
  }

  lemma QueueGrows(queue: seq<Job>, job: Job, c: nat)
    ensures InQueue(queue + [job], c) <==> InQueue(queue, c) || c == job.conn
  {
    assert (queue + [job])[|queue|] == job;
    if k :| 0 <= k < |queue| && queue[k].conn == c { assert (queue + [job])[k].conn == c; }
  }

  lemma QueueShrinks(queue: seq<Job>, c: nat)
    requires queue != []
    requires forall j, k :: 0 <= j < k < |queue| ==> queue[j].conn != queue[k].conn
    ensures InQueue(queue[1..], c) <==> InQueue(queue, c) && c != queue[0].conn
  {
    if k :| 0 <= k < |queue| && queue[k].conn == c {
      if 0 < k { assert queue[1..][k - 1].conn == c; }
    }
  }

  lemma SlotChanges(slots: seq<Slot>, i: nat, slot: Slot, c: nat)
    requires i < |slots|
    requires forall j, k :: 0 <= j < k < |slots| && slots[j].Busy? && slots[k].Busy? ==> slots[j].job.conn != slots[k].job.conn
    ensures InSlot(slots[i := slot], c) <==>
            || (InSlot(slots, c) && !(slots[i].Busy? && slots[i].job.conn == c))
            || (slot.Busy? && slot.job.conn == c)
  {
    var after := slots[i := slot];
    assert after[i] == slot;
    if k :| 0 <= k < |slots| && slots[k].Busy? && slots[k].job.conn == c {
      if k != i { assert after[k].Busy? && after[k].job.conn == c; }
    }
  }

  lemma OthersStay(s: State, e: Event, c: nat, p: Place)
    requires Enabled(s, e) && NoRepeats(s) && Mover(s, e) != Some(c)
    ensures At(Step(s, e), c, p) <==> At(s, c, p)
  {
    match e {
      case Routed(Denied(retryAfter)) => QueueGrows(s.queue, Job(s.routing.value, retryAfter), c);
      case Take => QueueShrinks(s.queue, c);
      case Acquire(i) => SlotChanges(s.slots, i, Busy(s.dispatcher.job, s.now), c);
      case Fire(i) => SlotChanges(s.slots, i, Closing, c);
      case Release(i) => SlotChanges(s.slots, i, Free, c);
      case _ =>
    }
  }

  lemma MoverArrives(s: State, e: Event, c: nat, p: Place)
    requires Enabled(s, e) && NoRepeats(s) && Mover(s, e) == Some(c)
    requires forall q, q' :: At(s, c, q) && At(s, c, q') ==> q == q'
    requires e.Accept? ==> forall q :: !At(s, c, q)
    ensures At(Step(s, e), c, p) <==> p == Target(s, e)
  {
    match e {
      case Accept => assert !At(s, c, p);
      case Routed(Denied(retryAfter)) =>
        assert At(s, c, Routing);
        assert At(s, c, p) ==> p == Routing;
        QueueGrows(s.queue, Job(c, retryAfter), c);
      case Routed(_) =>
        assert At(s, c, Routing);
        assert At(s, c, p) ==> p == Routing;
      case Take =>
        assert At(s, c, Queued);
        assert At(s, c, p) ==> p == Queued;
        QueueShrinks(s.queue, c);
      case Acquire(i) =>
        assert At(s, c, Held);
        assert At(s, c, p) ==> p == Held;
        SlotChanges(s.slots, i, Busy(s.dispatcher.job, s.now), c);
      case Fire(i) =>
        assert At(s, c, Working);
        assert At(s, c, p) ==> p == Working;
        SlotChanges(s.slots, i, Closing, c);
      case Exit =>
        assert At(s, c, Held);
        assert At(s, c, p) ==> p == Held;
      case _ =>
    }
  }

  lemma MoverIsSomewhere(s: State, e: Event)
    requires Enabled(s, e) && Mover(s, e).Some? && !e.Accept?
    ensures exists p :: At(s, Mover(s, e).value, p)
  {
    var c := Mover(s, e).value;
    match e {
      case Routed(_) => assert At(s, c, Routing);
      case Take => assert At(s, c, Queued);
      case Fire(_) => assert At(s, c, Working);
      case Acquire(_) => assert At(s, c, Held);
      case Exit => assert At(s, c, Held);
      case _ =>
    }
  }

  /** Each step moves at most one connection, from one place to another. */
  lemma LocatedStep(s: State, e: Event, place: seq<Place>) returns (place': seq<Place>)
    requires Located(s, place) && NoRepeats(s)
    ensures Located(Step(s, e), place')
  {
    place' := place;
    if Enabled(s, e) {
      var mover := Mover(s, e);
      if mover.Some? {
        if !e.Accept? { MoverIsSomewhere(s, e); }
        place' := if e.Accept? then place + [Routing] else place[mover.value := Target(s, e)];
      }
      forall c: nat, p: Place ensures At(Step(s, e), c, p) <==> c < |place'| && place'[c] == p {
        if mover == Some(c) {
          MoverArrives(s, e, c, p);
        } else {
          OthersStay(s, e, c, p);
        }
      }
    }
  }

  lemma NoRepeatsStep(s: State, e: Event, place: seq<Place>)
    requires Located(s, place) && NoRepeats(s)
    ensures NoRepeats(Step(s, e))
  {
    if Enabled(s, e) {
      match e {
        case Routed(Denied(_)) =>
          var c := s.routing.value;
          assert At(s, c, Routing);
          forall k | 0 <= k < |s.queue| ensures s.queue[k].conn != c { assert At(s, s.queue[k].conn, Queued); }
        case Acquire(_) =>
          var c := s.dispatcher.job.conn;
          assert At(s, c, Held);
          forall k | 0 <= k < |s.slots| && s.slots[k].Busy? ensures s.slots[k].job.conn != c {
            assert At(s, s.slots[k].job.conn, Working);
          }
        case _ =>
      }
    }
  }

  lemma InOrderStep(s: State, e: Event)
    requires InOrder(s)
    ensures InOrder(Step(s, e))
  {
    if Enabled(s, e) {
      var s' := Step(s, e);
      match e {
        case Routed(Denied(retryAfter)) =>
          if s.dispatcher.Exited? && s.enqueued != s.started + s.queue {
            var job: Job :| job.conn in s.abandoned && s.enqueued == s.started + [job] + s.queue;
            if |s.queue| < QUEUE_CAPACITY && retryAfter > 0.0 {
              var added := Job(s.routing.value, retryAfter);
              assert s'.enqueued == s'.started + [job] + (s.queue + [added]);
            }
          }
        case Take => assert s.queue == [s.queue[0]] + s.queue[1..];
        case Exit =>
          if s.dispatcher.Holding? {
            assert s.dispatcher.job.conn in s'.abandoned;
          }
        case _ =>
      }
    }
  }

  lemma CapacityStep(s: State, e: Event)
    requires |s.queue| <= QUEUE_CAPACITY
    ensures |Step(s, e).queue| <= QUEUE_CAPACITY && |Step(s, e).slots| == |s.slots|
  {
  }

  lemma InvStep(s: State, e: Event, maxWorkers: nat, place: seq<Place>) returns (place': seq<Place>)
    requires Inv(s, maxWorkers, place)
    ensures Inv(Step(s, e), maxWorkers, place')
  {
    hide Step, Located, NoRepeats, InOrder;
    NoRepeatsStep(s, e, place);
    InOrderStep(s, e);
    CapacityStep(s, e);
    place' := LocatedStep(s, e, place);
  }

  /** Conservation, over every interleaving of the accept loop, the dispatcher and the workers. */
  lemma {:induction false} RunInv(maxWorkers: nat, es: seq<Event>) returns (place: seq<Place>)
    ensures Inv(Exec(Initial(maxWorkers), es), maxWorkers, place)
  {
    hide Step;
    place := [];
    if es != [] {
      place := RunInv(maxWorkers, es[..|es| - 1]);
      place := InvStep(Exec(Initial(maxWorkers), es[..|es| - 1]), es[|es| - 1], maxWorkers, place);
    }
  }

  /** In every reachable state each accepted connection is at exactly one place, and the queue
      and the workers stay within their capacities. */
  lemma EveryConnectionHasOnePlace(maxWorkers: nat, es: seq<Event>, c: nat)
    ensures var s := Exec(Initial(maxWorkers), es);
            && |s.queue| <= QUEUE_CAPACITY && |s.slots| == maxWorkers
            && (c < s.accepted <==> exists p :: At(s, c, p))
            && (forall p, q :: At(s, c, p) && At(s, c, q) ==> p == q)
  {
    var s := Exec(Initial(maxWorkers), es);
    var place := RunInv(maxWorkers, es);
    if c < s.accepted { assert At(s, c, place[c]); }
  }

  /** Jobs start in the order in which they were queued, none skipped. */
  lemma JobsStartInOrder(maxWorkers: nat, es: seq<Event>)
    ensures var s := Exec(Initial(maxWorkers), es);
            s.started <= s.enqueued && (s.dispatcher.Idle? ==> s.enqueued == s.started + s.queue)
  {
    var place := RunInv(maxWorkers, es);
  }

  /** A worker that closes its connection before cancellation has served the whole delay. */
  lemma NoEarlyClose(s: State, e: Event, maxWorkers: nat, place: seq<Place>, c: nat)
    requires Inv(s, maxWorkers, place) && !s.cancelled
    requires At(s, c, Working) && c in Step(s, e).closed
    ensures exists k :: 0 <= k < |s.slots| && s.slots[k].Busy? && s.slots[k].job.conn == c
                        && s.slots[k].start + s.slots[k].job.delay <= s.now
  {
    assert !At(s, c, Closed) && !At(s, c, Routing);
    assert e.Fire? ==> s.slots[e.slot].job.conn == c;
  }

  /** Only cancellation abandons a connection. */
  lemma {:induction false} AbandonedOnlyByCancel(maxWorkers: nat, es: seq<Event>)
    requires Cancel !in es
    ensures var s := Exec(Initial(maxWorkers), es);
            !s.cancelled && !s.dispatcher.Exited? && s.abandoned == {}
  {
    if es != [] { AbandonedOnlyByCancel(maxWorkers, es[..|es| - 1]); }
  }

  /** Once the dispatcher has left, whatever is queued stays queued. */
  lemma {:induction false} QueuedForeverAfterExit(s: State, es: seq<Event>, c: nat)
    requires s.dispatcher.Exited? && InQueue(s.queue, c)
    ensures Exec(s, es).dispatcher.Exited? && InQueue(Exec(s, es).queue, c)
  {
    if es != [] {
      QueuedForeverAfterExit(s, es[..|es| - 1], c);
      var t, e := Exec(s, es[..|es| - 1]), es[|es| - 1];
      if Enabled(t, e) && e.Routed? && e.route.Denied? {
        QueueGrows(t.queue, Job(t.routing.value, e.route.retryAfter), c);
      }
    }
  }

  lemma {:induction false} ExecConcat(s: State, es: seq<Event>, fs: seq<Event>)
    ensures Exec(s, es + fs) == Exec(Exec(s, es), fs)
  {
    if fs == [] {
      assert es + fs == es;
    } else {
      ExecConcat(s, es, fs[..|fs| - 1]);
      assert (es + fs)[..|es + fs| - 1] == es + fs[..|fs| - 1];
    }
  }

  lemma ExecOne(s: State, e: Event)
    ensures Exec(s, [e]) == Step(s, e)
  {
    assert [e][..0] == [] && Exec(s, []) == s;
  }

  /** One event more at the end of a run. */
  lemma ExecAppend(s: State, es: seq<Event>, e: Event)
    ensures Exec(s, es + [e]) == Step(Exec(s, es), e)
  {
    assert (es + [e])[..|es|] == es;
  }

  /** A run in which a queued connection is left behind: it is denied, the server is cancelled, and
      the dispatcher leaves before taking it. */
  lemma SomeAreLeftQueued(maxWorkers: nat)
    ensures var s := Exec(Initial(maxWorkers), [Accept, Routed(Denied(1.0)), Cancel, Exit]);
            s.dispatcher.Exited? && InQueue(s.queue, 0)
  {
    var s0 := Initial(maxWorkers);
    ExecOne(s0, Accept);
    ExecAppend(s0, [Accept], Routed(Denied(1.0)));
    ExecAppend(s0, [Accept] + [Routed(Denied(1.0))], Cancel);
    ExecAppend(s0, [Accept] + [Routed(Denied(1.0))] + [Cancel], Exit);
    assert [Accept, Routed(Denied(1.0)), Cancel, Exit] == [Accept] + [Routed(Denied(1.0))] + [Cancel] + [Exit];
    var s := Exec(s0, [Accept, Routed(Denied(1.0)), Cancel, Exit]);
    assert s.queue == [] + [Job(0, 1.0)] && s.queue[0].conn == 0;
  }

  /** What the run of one slot leaves alone. */
  ghost predicate SameJobs(s: State, t: State) {
    && t.dispatcher == s.dispatcher && t.queue == s.queue && |t.slots| == |s.slots| && s.closed <= t.closed
  }

  /** A busy worker can be brought to close its connection by letting time pass. */
  lemma FinishSlot(s: State, i: nat) returns (es: seq<Event>)
    requires i < |s.slots| && s.slots[i].Busy?
    ensures SameJobs(s, Exec(s, es)) && Exec(s, es).slots[i].Closing? && s.slots[i].job.conn in Exec(s, es).closed
  {
    var rest := s.slots[i].start + s.slots[i].job.delay - s.now;
    es := [Advance(rest)] + [Fire(i)];
    ExecOne(s, Advance(rest));
    ExecAppend(s, [Advance(rest)], Fire(i));
  }

  lemma FreeSlot(s: State, i: nat) returns (es: seq<Event>)
    requires i < |s.slots|
    ensures SameJobs(s, Exec(s, es)) && Exec(s, es).slots[i].Free?
  {
    es := [];
    if s.slots[i].Busy? { es := FinishSlot(s, i); }
    if Exec(s, es).slots[i].Closing? {
      ExecAppend(s, es, Release(i));
      es := es + [Release(i)];
    }
  }

  /** The job that the dispatcher holds can be brought to its end. */
  lemma FinishHeld(s: State) returns (es: seq<Event>)
    requires 0 < |s.slots| && s.dispatcher.Holding?
    ensures var t := Exec(s, es);
            && t.dispatcher.Idle? && t.queue == s.queue && |t.slots| == |s.slots|
            && s.dispatcher.job.conn in t.closed
  {
    es := FreeSlot(s, 0);
    ExecAppend(s, es, Acquire(0));
    es := es + [Acquire(0)];
    var fs := FinishSlot(Exec(s, es), 0);
    ExecConcat(s, es, fs);
    es := es + fs;
  }

  /** As long as the dispatcher runs, every job it holds or has yet to take can be brought to its
      end, one after another. */
  lemma {:induction false} FinishQueued(s: State, c: nat) returns (es: seq<Event>)
    requires 0 < |s.slots| && !s.dispatcher.Exited? && Waiting(s, c)
    ensures c in Exec(s, es).closed
    decreases 2 * |s.queue| + (if s.dispatcher.Holding? then 1 else 0)
  {
    hide Step;
    if s.dispatcher.Holding? {
      es := FinishHeld(s);
      if s.dispatcher.job.conn != c {
        var fs := FinishQueued(Exec(s, es), c);
        ExecConcat(s, es, fs);
        es := es + fs;
      }
    } else {
      TakeKeepsWaiting(s, c);
      ExecOne(s, Take);
      var fs := FinishQueued(Exec(s, [Take]), c);
      ExecConcat(s, [Take], fs);
      es := [Take] + fs;
    }
  }

  lemma TakeKeepsWaiting(s: State, c: nat)
    requires s.dispatcher.Idle? && InQueue(s.queue, c)
    ensures var t := Step(s, Take);
            t.dispatcher.Holding? && t.slots == s.slots && |t.queue| == |s.queue| - 1 && Waiting(t, c)
  {
    var k :| 0 <= k < |s.queue| && s.queue[k].conn == c;
    if 0 < k { assert s.queue[1..][k - 1].conn == c; }
  }

  /** Without workers nothing that was routed is ever closed. */
  lemma {:induction false} NoWorkersNoClose(s: State, es: seq<Event>, c: nat)
    requires s.slots == [] && c < s.accepted && s.routing != Some(c) && c !in s.closed
    ensures var t := Exec(s, es);
            t.slots == [] && c < t.accepted && t.routing != Some(c) && c !in t.closed
  {
    if es != [] { NoWorkersNoClose(s, es[..|es| - 1], c); }
  }

  /** A queued connection is never closed, in any continuation, exactly when the dispatcher has left
      (or there are no workers at all). */
  lemma NeverClosedIffDispatcherLeft(maxWorkers: nat, es: seq<Event>, c: nat)
    requires InQueue(Exec(Initial(maxWorkers), es).queue, c)
    ensures var s := Exec(Initial(maxWorkers), es);
            (forall fs :: c !in Exec(s, fs).closed) <==> s.dispatcher.Exited? || maxWorkers == 0
  {
    hide Step, Located, NoRepeats, InOrder;
    var s := Exec(Initial(maxWorkers), es);
    var place := RunInv(maxWorkers, es);
    PlaceOf(s, place, c, Queued);
    if s.dispatcher.Exited? {
      forall fs ensures c !in Exec(s, fs).closed {
        QueuedForeverAfterExit(s, fs, c);
        EveryConnectionHasOnePlace(maxWorkers, es + fs, c);
        ExecConcat(Initial(maxWorkers), es, fs);
        assert At(Exec(s, fs), c, Queued) && !At(Exec(s, fs), c, Closed);
      }
    } else if maxWorkers == 0 {
      forall fs ensures c !in Exec(s, fs).closed { NoWorkersNoClose(s, fs, c); }
    } else {
      var fs := FinishQueued(s, c);
      assert c in Exec(s, fs).closed;
    }
  }

  lemma PlaceOf(s: State, place: seq<Place>, c: nat, p: Place)
    requires Located(s, place) && At(s, c, p)
    ensures c < s.accepted && forall q :: At(s, c, q) ==> q == p
    ensures p != Routing ==> s.routing != Some(c)
    ensures p != Closed ==> c !in s.closed
  {
    assert At(s, c, Routing) <==> c < |place| && place[c] == Routing;
    assert At(s, c, Closed) <==> c < |place| && place[c] == Closed;
  }

  // ---------- what the answer of the limiter does to a connection ----------

  /** Where a connection goes when it has been routed. */
  lemma RouteDecidesPlace(maxWorkers: nat, es: seq<Event>, route: Route, p: Place)
    requires Exec(Initial(maxWorkers), es).routing.Some?
    ensures var s := Exec(Initial(maxWorkers), es);
            At(Step(s, Routed(route)), s.routing.value, p) <==>
            p == match route
                 case Unhashed => Closed
                 case Admitted => Handed
                 case Denied(retryAfter) => if retryAfter > 0.0 && |s.queue| < 1000 then Queued else Closed
  {
    hide InOrder;
    var s := Exec(Initial(maxWorkers), es);
    var place := RunInv(maxWorkers, es);
    assert At(s, s.routing.value, Routing);
    MoverArrives(s, Routed(route), s.routing.value, p);
  }

  /** As long as connection `c` is open it is held for the delay `r`, and not since before `t0`. */
  ghost predicate HeldFor(s: State, c: nat, r: real, t0: real) {
    && !s.cancelled && t0 <= s.now && c < s.accepted && s.routing != Some(c)
    && (forall k :: 0 <= k < |s.queue| && s.queue[k].conn == c ==> s.queue[k].delay == r)
    && (s.dispatcher.Holding? && s.dispatcher.job.conn == c ==> s.dispatcher.job.delay == r)
    && (forall k :: 0 <= k < |s.slots| && s.slots[k].Busy? && s.slots[k].job.conn == c ==>
          s.slots[k].job.delay == r && t0 <= s.slots[k].start)
    && (c in s.closed ==> t0 + r <= s.now)
  }

  lemma HeldStep(s: State, e: Event, c: nat, r: real, t0: real)
    requires HeldFor(s, c, r, t0) && e != Cancel
    ensures HeldFor(Step(s, e), c, r, t0)
  {
  }

  lemma {:induction false} HeldRun(s: State, es: seq<Event>, c: nat, r: real, t0: real)
    requires HeldFor(s, c, r, t0) && Cancel !in es
    ensures HeldFor(Exec(s, es), c, r, t0)
  {
    hide Step, HeldFor;
    if es != [] {
      HeldRun(s, es[..|es| - 1], c, r, t0);
      HeldStep(Exec(s, es[..|es| - 1]), es[|es| - 1], c, r, t0);
    }
  }

  lemma HoldingStarts(s: State, place: seq<Place>, r: real)
    requires Located(s, place) && s.routing.Some? && !s.cancelled && |s.queue| < QUEUE_CAPACITY && 0.0 < r
    ensures HeldFor(Step(s, Routed(Denied(r))), s.routing.value, r, s.now)
  {
    var c := s.routing.value;
    assert At(s, c, Routing);
    PlaceOf(s, place, c, Routing);
    forall k | 0 <= k < |s.queue| ensures s.queue[k].conn != c { assert s.queue[k].conn == c ==> At(s, c, Queued); }
    forall k | 0 <= k < |s.slots| && s.slots[k].Busy? ensures s.slots[k].job.conn != c {
      assert s.slots[k].job.conn == c ==> At(s, c, Working);
    }
    assert !At(s, c, Held) && !At(s, c, Closed);
  }

  /** A denied connection that the queue has room for stays open for at least the announced retry
      time, unless the server is cancelled. */
  lemma HeldForRetryTime(maxWorkers: nat, before: seq<Event>, r: real, after: seq<Event>)
    requires var s := Exec(Initial(maxWorkers), before);
             s.routing.Some? && |s.queue| < QUEUE_CAPACITY && 0.0 < r
    requires Cancel !in before && Cancel !in after
    ensures var s := Exec(Initial(maxWorkers), before);
            var t := Exec(Initial(maxWorkers), before + [Routed(Denied(r))] + after);
            s.routing.value in t.closed ==> s.now + r <= t.now
  {
    hide Step, Located, NoRepeats, InOrder;
    var s := Exec(Initial(maxWorkers), before);
    var place := RunInv(maxWorkers, before);
    AbandonedOnlyByCancel(maxWorkers, before);
    HoldingStarts(s, place, r);
    ExecAppend(Initial(maxWorkers), before, Routed(Denied(r)));
    HeldRun(Step(s, Routed(Denied(r))), after, s.routing.value, r, s.now);
    ExecConcat(Initial(maxWorkers), before + [Routed(Denied(r))], after);
  }

  lemma {:induction false} CancelStays(s: State, es: seq<Event>)
    requires Cancel in es
    ensures Exec(s, es).cancelled
  {
    var before := es[..|es| - 1];
    assert es == before + [es[|es| - 1]];
    if Cancel in before { CancelStays(s, before); }
  }

  /** Once the server is cancelled every worker can close its connection at once, and a dispatcher
      that is still there can leave, abandoning the connection it holds. */
  lemma CancelReleases(maxWorkers: nat, es: seq<Event>, c: nat)
    requires Cancel in es
    ensures var s := Exec(Initial(maxWorkers), es);
            && (At(s, c, Working) ==> exists i :: c in Step(s, Fire(i)).closed)
            && (At(s, c, Held) ==> At(Step(s, Exit), c, Abandoned))
            && Step(s, Exit).dispatcher.Exited?
  {
    var s := Exec(Initial(maxWorkers), es);
    CancelStays(Initial(maxWorkers), es);
    if At(s, c, Working) {
      var k: nat :| k < |s.slots| && s.slots[k].Busy? && s.slots[k].job.conn == c;
      assert c in Step(s, Fire(k)).closed;
    }
  }

  // ---------- how long a queued connection waits ----------

  function Residual(slot: Slot, now: real): real {
    if slot.Busy? then slot.start + slot.job.delay - now else 0.0
  }

  /** The delay still to be served by the busy workers. */
  function Owed(slots: seq<Slot>, now: real): real {
    if slots == [] then 0.0 else Residual(slots[0], now) + Owed(slots[1..], now)
  }

  function BusyCount(slots: seq<Slot>): nat {
    if slots == [] then 0 else (if slots[0].Busy? then 1 else 0) + BusyCount(slots[1..])
  }

  /** The jobs queued before connection `c`. */
  function Before(queue: seq<Job>, c: nat): seq<Job> {
    if queue == [] || queue[0].conn == c then [] else [queue[0]] + Before(queue[1..], c)
  }

  function Delays(jobs: seq<Job>): real {
    if jobs == [] then 0.0 else jobs[0].delay + Delays(jobs[1..])
  }

  /** The jobs that the dispatcher will start before connection `c`. */
  function Pending(s: State, c: nat): seq<Job> {
    if !s.dispatcher.Holding? then Before(s.queue, c)
    else if s.dispatcher.job.conn == c then []
    else [s.dispatcher.job] + Before(s.queue, c)
  }

  /** Unfinished jobs ahead of `c`, and the delay they have yet to serve. */
  function JobsAhead(s: State, c: nat): nat { BusyCount(s.slots) + |Pending(s, c)| }

  function WorkAhead(s: State, c: nat): real { Owed(s.slots, s.now) + Delays(Pending(s, c)) }

  predicate Waiting(s: State, c: nat) {
    InQueue(s.queue, c) || (s.dispatcher.Holding? && s.dispatcher.job.conn == c)
  }

  /** Immediate dispatch: time passes only when no goroutine can run, and never past the end of a
      delay. */
  ghost predicate Immediate(s: State, e: Event) {
    e.Advance? ==>
      && !(s.dispatcher.Idle? && s.queue != [])
      && (forall k :: 0 <= k < |s.slots| ==> !s.slots[k].Closing?)
      && (s.dispatcher.Holding? ==> forall k :: 0 <= k < |s.slots| ==> !s.slots[k].Free?)
      && (forall k :: 0 <= k < |s.slots| && s.slots[k].Busy? ==> s.now + e.dt <= s.slots[k].start + s.slots[k].job.delay)
  }

  ghost predicate DelayWithin(job: Job, d: real) { 0.0 <= job.delay <= d }

  /** No delay is above `d`, and no delay that has ended is still being served. */
  ghost predicate Timely(s: State, d: real) {
    && !s.cancelled && !s.dispatcher.Exited?
    && (s.dispatcher.Holding? ==> DelayWithin(s.dispatcher.job, d))
    && (forall k :: 0 <= k < |s.queue| ==> DelayWithin(s.queue[k], d))
    && (forall k :: 0 <= k < |s.slots| && s.slots[k].Busy? ==>
          DelayWithin(s.slots[k].job, d) && s.slots[k].start <= s.now <= s.slots[k].start + s.slots[k].job.delay)
  }

  ghost predicate CalmEvent(e: Event, d: real) {
    !e.Cancel? && (e.Routed? && e.route.Denied? ==> e.route.retryAfter <= d)
  }

  /** A run with immediate dispatch, no cancellation, and no retry time above `d`. */
  ghost predicate CalmRun(s: State, es: seq<Event>, d: real) {
    es != [] ==>
      var before := es[..|es| - 1];
      CalmRun(s, before, d) && CalmEvent(es[|es| - 1], d) && Immediate(Exec(s, before), es[|es| - 1])
  }

  lemma TimelyStep(s: State, e: Event, d: real)
    requires Timely(s, d) && CalmEvent(e, d) && Immediate(s, e)
    ensures Timely(Step(s, e), d)
  {
  }

  lemma {:induction false} OwedChanges(slots: seq<Slot>, i: nat, slot: Slot, now: real)
    requires i < |slots|
    ensures Owed(slots[i := slot], now) == Owed(slots, now) - Residual(slots[i], now) + Residual(slot, now)
    decreases i
  {
    if i == 0 {
      assert slots[0 := slot][1..] == slots[1..];
    } else {
      assert slots[i := slot][1..] == slots[1..][i - 1 := slot];
      OwedChanges(slots[1..], i - 1, slot, now);
    }
  }

  function Scale(n: nat, x: real): real { if n == 0 then 0.0 else Scale(n - 1, x) + x }

  lemma {:induction false} ScaleIsProduct(n: nat, x: real)
    ensures Scale(n, x) == n as real * x
  {
    if n > 0 { ScaleIsProduct(n - 1, x); }
  }

  lemma {:induction false} ScaleAdds(n: nat, x: real, y: real)
    ensures Scale(n, x + y) == Scale(n, x) + Scale(n, y)
  {
    if n > 0 { ScaleAdds(n - 1, x, y); }
  }

  /** While every worker is busy, the work shrinks by one second a worker a second. */
  lemma {:induction false} OwedShrinks(slots: seq<Slot>, now: real, dt: real)
    requires forall k :: 0 <= k < |slots| ==> slots[k].Busy?
    ensures Owed(slots, now + dt) == Owed(slots, now) - Scale(|slots|, dt)
  {
    if slots != [] { OwedShrinks(slots[1..], now, dt); }
  }

  lemma {:induction false} OwedBounds(slots: seq<Slot>, now: real, d: real)
    requires forall k :: 0 <= k < |slots| && slots[k].Busy? ==>
               DelayWithin(slots[k].job, d) && slots[k].start <= now <= slots[k].start + slots[k].job.delay
    ensures 0.0 <= Owed(slots, now) <= Scale(BusyCount(slots), d)
  {
    if slots != [] { OwedBounds(slots[1..], now, d); }
  }

  lemma {:induction false} DelaysBounds(jobs: seq<Job>, d: real)
    requires forall k :: 0 <= k < |jobs| ==> DelayWithin(jobs[k], d)
    ensures 0.0 <= Delays(jobs) <= Scale(|jobs|, d)
  {
    if jobs != [] { DelaysBounds(jobs[1..], d); }
  }

  lemma {:induction false} BeforeIsStable(queue: seq<Job>, c: nat, job: Job)
    requires InQueue(queue, c)
    ensures Before(queue + [job], c) == Before(queue, c)
  {
    if queue[0].conn != c {
      assert InQueue(queue[1..], c) by {
        var k :| 0 <= k < |queue| && queue[k].conn == c;
        assert queue[1..][k - 1].conn == c;
      }
      BeforeIsStable(queue[1..], c, job);
      assert (queue + [job])[1..] == queue[1..] + [job];
    }
  }

  lemma {:induction false} BeforeIsPart(queue: seq<Job>, c: nat, d: real)
    requires forall k :: 0 <= k < |queue| ==> DelayWithin(queue[k], d)
    ensures forall k :: 0 <= k < |Before(queue, c)| ==> DelayWithin(Before(queue, c)[k], d)
  {
    if queue != [] { BeforeIsPart(queue[1..], c, d); }
  }

  /** Work ahead of `c` when it starts to wait bounds all its waiting: as long as it waits, time
      elapsed on `m` workers and work still ahead never exceed it. */
  ghost predicate OnTime(s: State, c: nat, m: nat, t0: real, w0: real) {
    || c in s.closed
    || (Waiting(s, c) && Scale(m, s.now - t0) + WorkAhead(s, c) <= w0)
    || (exists k :: 0 <= k < |s.slots| && s.slots[k].Busy? && s.slots[k].job.conn == c
                    && Scale(m, s.slots[k].start - t0) <= w0)
  }

  lemma TakeKeepsWork(s: State, c: nat)
    requires NoRepeats(s) && Enabled(s, Take) && Waiting(s, c)
    ensures Waiting(Step(s, Take), c) && WorkAhead(Step(s, Take), c) == WorkAhead(s, c)
  {
    if s.queue[0].conn != c {
      QueueShrinks(s.queue, c);
      var later := Before(s.queue[1..], c);
      assert ([s.queue[0]] + later)[1..] == later;
    }
  }

  lemma AddKeepsWork(s: State, retryAfter: real, c: nat)
    requires Enabled(s, Routed(Denied(retryAfter))) && Waiting(s, c)
    ensures Waiting(Step(s, Routed(Denied(retryAfter))), c)
    ensures WorkAhead(Step(s, Routed(Denied(retryAfter))), c) == WorkAhead(s, c)
  {
    hide Before, Delays, Owed;
    var job := Job(s.routing.value, retryAfter);
    QueueGrows(s.queue, job, c);
    if InQueue(s.queue, c) {
      BeforeIsStable(s.queue, c, job);
    }
  }

  /** Starting a job ahead of `c` moves its delay from the dispatcher to a worker; starting `c`
      itself ends the wait. */
  lemma AcquireKeepsWork(s: State, i: nat, c: nat)
    requires Enabled(s, Acquire(i)) && Waiting(s, c) && s.dispatcher.job.conn != c
    ensures Waiting(Step(s, Acquire(i)), c) && WorkAhead(Step(s, Acquire(i)), c) == WorkAhead(s, c)
  {
    var job := s.dispatcher.job;
    OwedChanges(s.slots, i, Busy(job, s.now), s.now);
    assert ([job] + Before(s.queue, c))[1..] == Before(s.queue, c);
  }

  lemma AcquireStarts(s: State, i: nat, m: nat, d: real, c: nat, t0: real, w0: real)
    requires Timely(s, d) && Enabled(s, Acquire(i)) && s.dispatcher.job.conn == c
    requires Scale(m, s.now - t0) + WorkAhead(s, c) <= w0
    ensures OnTime(Step(s, Acquire(i)), c, m, t0, w0)
  {
    OwedBounds(s.slots, s.now, d);
    assert Step(s, Acquire(i)).slots[i] == Busy(s.dispatcher.job, s.now);
  }

  lemma SlotKeepsWork(s: State, e: Event, d: real, c: nat)
    requires Timely(s, d) && Enabled(s, e) && (e.Fire? || e.Release?) && Waiting(s, c)
    ensures Waiting(Step(s, e), c) && WorkAhead(Step(s, e), c) == WorkAhead(s, c)
  {
    OwedChanges(s.slots, e.slot, if e.Fire? then Closing else Free, s.now);
  }

  lemma TimeServesWork(s: State, dt: real, m: nat, d: real, c: nat, t0: real)
    requires |s.slots| == m && Timely(s, d) && Enabled(s, Advance(dt)) && Immediate(s, Advance(dt)) && Waiting(s, c)
    ensures var s' := Step(s, Advance(dt));
            && Waiting(s', c)
            && Scale(m, s'.now - t0) + WorkAhead(s', c) == Scale(m, s.now - t0) + WorkAhead(s, c)
  {
    assert forall k :: 0 <= k < |s.slots| ==> s.slots[k].Busy?;
    OwedShrinks(s.slots, s.now, dt);
    ScaleAdds(m, s.now - t0, dt);
    assert s.now + dt - t0 == s.now - t0 + dt;
  }

  lemma WaitingStep(s: State, e: Event, m: nat, d: real, c: nat, t0: real, w0: real)
    requires |s.slots| == m && NoRepeats(s) && Timely(s, d) && CalmEvent(e, d) && Immediate(s, e) && Enabled(s, e)
    requires Waiting(s, c) && Scale(m, s.now - t0) + WorkAhead(s, c) <= w0
    ensures OnTime(Step(s, e), c, m, t0, w0)
  {
    hide Owed, Before, Delays, Scale, BusyCount;
    match e {
      case Routed(Denied(retryAfter)) => AddKeepsWork(s, retryAfter, c);
      case Take => TakeKeepsWork(s, c);
      case Acquire(i) =>
        if s.dispatcher.job.conn == c {
          AcquireStarts(s, i, m, d, c, t0, w0);
        } else {
          AcquireKeepsWork(s, i, c);
        }
      case Fire(_) => SlotKeepsWork(s, e, d, c);
      case Release(_) => SlotKeepsWork(s, e, d, c);
      case Advance(dt) => TimeServesWork(s, dt, m, d, c, t0);
      case _ =>
    }
  }

  /** A worker that serves `c` goes on serving it, or closes it. */
  lemma ServingStep(s: State, e: Event, k: nat)
    requires Enabled(s, e) && k < |s.slots| && s.slots[k].Busy?
    ensures k < |Step(s, e).slots|
    ensures Step(s, e).slots[k] == s.slots[k] || s.slots[k].job.conn in Step(s, e).closed
  {
  }

  lemma ClosedStays(s: State, e: Event, c: nat)
    requires c in s.closed
    ensures c in Step(s, e).closed
  {
  }

  lemma OnTimeStep(s: State, e: Event, m: nat, d: real, c: nat, t0: real, w0: real)
    requires |s.slots| == m && NoRepeats(s) && Timely(s, d) && CalmEvent(e, d) && Immediate(s, e)
    requires OnTime(s, c, m, t0, w0)
    ensures OnTime(Step(s, e), c, m, t0, w0)
  {
    hide Step, Waiting, WorkAhead, Scale, Immediate, Timely, NoRepeats;
    if !Enabled(s, e) {
      NothingHappens(s, e);
    } else if c in s.closed {
      ClosedStays(s, e, c);
    } else if Waiting(s, c) && Scale(m, s.now - t0) + WorkAhead(s, c) <= w0 {
      WaitingStep(s, e, m, d, c, t0, w0);
    } else {
      var k :| 0 <= k < |s.slots| && s.slots[k].Busy? && s.slots[k].job.conn == c
               && Scale(m, s.slots[k].start - t0) <= w0;
      ServingStep(s, e, k);
    }
  }

  lemma NothingHappens(s: State, e: Event)
    requires !Enabled(s, e)
    ensures Step(s, e) == s
  {
  }

  lemma {:induction false} OnTimeRun(s: State, es: seq<Event>, m: nat, place: seq<Place>, d: real, c: nat)
      returns (place': seq<Place>)
    requires Inv(s, m, place) && Timely(s, d) && CalmRun(s, es, d) && Waiting(s, c)
    ensures Inv(Exec(s, es), m, place') && Timely(Exec(s, es), d)
    ensures OnTime(Exec(s, es), c, m, s.now, WorkAhead(s, c))
  {
    hide Step, Waiting, WorkAhead, Scale, Immediate, Timely, CalmEvent, NoRepeats, Located, InOrder;
    place' := place;
    if es == [] {
      ZeroTime(m);
    } else {
      var before, e := es[..|es| - 1], es[|es| - 1];
      place' := OnTimeRun(s, before, m, place, d, c);
      var t := Exec(s, before);
      TimelyStep(t, e, d);
      OnTimeStep(t, e, m, d, c, s.now, WorkAhead(s, c));
      place' := InvStep(t, e, m, place');
    }
  }

  lemma ZeroTime(m: nat)
    ensures Scale(m, 0.0) == 0.0
  {
    ScaleIsProduct(m, 0.0);
  }

  lemma {:induction false} ScaleSums(m: nat, n: nat, x: real)
    ensures Scale(m + n, x) == Scale(m, x) + Scale(n, x)
  {
    if n > 0 { ScaleSums(m, n - 1, x); }
  }

  lemma AheadBounds(s: State, c: nat, d: real)
    requires Timely(s, d)
    ensures 0.0 <= WorkAhead(s, c) <= Scale(JobsAhead(s, c), d)
  {
    OwedBounds(s.slots, s.now, d);
    BeforeIsPart(s.queue, c, d);
    DelaysBounds(Pending(s, c), d);
    ScaleSums(BusyCount(s.slots), |Pending(s, c)|, d);
  }

  /** An open connection either still waits, or started within the work that was ahead of it. */
  lemma OpenMeansRecent(s: State, c: nat, m: nat, d: real, t0: real, w0: real) returns (wait: real)
    requires Timely(s, d) && OnTime(s, c, m, t0, w0) && c !in s.closed
    ensures Scale(m, wait) <= w0 && s.now <= t0 + wait + d
  {
    AheadBounds(s, c, d);
    if Waiting(s, c) && Scale(m, s.now - t0) + WorkAhead(s, c) <= w0 {
      wait := s.now - t0;
      assert 0.0 <= d;
    } else {
      var k :| 0 <= k < |s.slots| && s.slots[k].Busy? && s.slots[k].job.conn == c
               && Scale(m, s.slots[k].start - t0) <= w0;
      wait := s.slots[k].start - t0;
    }
  }

  /** The longest wait behind `q` unfinished connections, with `m` workers and delays up to `d`. */
  function LongestWait(q: nat, m: nat, d: real): real
    requires 0 < m
  {
    q as real * d / m as real + d
  }

  lemma WaitBound(m: nat, wait: real, q: nat, d: real)
    requires 0 < m && Scale(m, wait) <= Scale(q, d)
    ensures wait + d <= LongestWait(q, m, d)
  {
    ScaleIsProduct(m, wait);
    ScaleIsProduct(q, d);
    QuotientBound(wait, m as real, q as real * d);
  }

  lemma QuotientBound(x: real, y: real, p: real)
    requires 0.0 < y && y * x <= p
    ensures x <= p / y
  {
    var q := p / y;
    assert q * y == p;
    if q < x { assert 0.0 < (x - q) * y; }
  }

  /** The tarpit is work-conserving. Under immediate dispatch with `m` workers and no delay above
      `d`, a connection behind q unfinished ones is closed within q * d / m + d. */
  lemma QueuedConnectionIsClosedInTime(s: State, es: seq<Event>, m: nat, place: seq<Place>, d: real, c: nat)
    requires 0 < m && Inv(s, m, place) && Timely(s, d) && CalmRun(s, es, d) && Waiting(s, c)
    ensures c in Exec(s, es).closed || Exec(s, es).now <= s.now + LongestWait(JobsAhead(s, c), m, d)
  {
    var place' := OnTimeRun(s, es, m, place, d, c);
    if c !in Exec(s, es).closed {
      var wait := OpenMeansRecent(Exec(s, es), c, m, d, s.now, WorkAhead(s, c));
      assert Scale(m, wait) <= Scale(JobsAhead(s, c), d) by { AheadBounds(s, c, d); }
      WaitBound(m, wait, JobsAhead(s, c), d);
    }
  }

  /** A calm run stays timely. */
  lemma {:induction false} CalmRunIsTimely(s: State, es: seq<Event>, d: real)
    requires Timely(s, d) && CalmRun(s, es, d)
    ensures Timely(Exec(s, es), d)
  {
    hide Step, Timely, CalmEvent, Immediate;
    if es != [] {
      CalmRunIsTimely(s, es[..|es| - 1], d);
      TimelyStep(Exec(s, es[..|es| - 1]), es[|es| - 1], d);
    }
  }

  /** Some goroutine can run. */
  ghost predicate Runnable(s: State) {
    || (s.dispatcher.Idle? && s.queue != [])
    || (exists k :: 0 <= k < |s.slots| && s.slots[k].Closing?)
    || (s.dispatcher.Holding? && exists k :: 0 <= k < |s.slots| && s.slots[k].Free?)
    || (exists k :: 0 <= k < |s.slots| && s.slots[k].Busy? && s.slots[k].start + s.slots[k].job.delay <= s.now)
  }

  /** The goroutine steps that the jobs at hand still need. */
  function StepsLeft(s: State): nat {
    4 * |s.queue| + (if s.dispatcher.Holding? then 3 else 0) + SlotSteps(s.slots)
  }

  function SlotSteps(slots: seq<Slot>): nat {
    if slots == [] then 0 else (if slots[0].Busy? then 2 else if slots[0].Closing? then 1 else 0) + SlotSteps(slots[1..])
  }

  lemma {:induction false} SlotStepsChange(slots: seq<Slot>, i: nat, slot: Slot)
    requires i < |slots|
    ensures SlotSteps(slots[i := slot]) == SlotSteps(slots) - SlotSteps([slots[i]]) + SlotSteps([slot])
    decreases i
  {
    assert [slots[i]][1..] == [] && [slot][1..] == [];
    if i == 0 {
      assert slots[0 := slot][1..] == slots[1..];
    } else {
      assert slots[i := slot][1..] == slots[1..][i - 1 := slot];
      SlotStepsChange(slots[1..], i - 1, slot);
    }
  }

  /** When some goroutine can run, one step of it leaves fewer steps to do, and takes no time. */
  lemma GoroutineRuns(s: State) returns (e: Event)
    requires Runnable(s)
    ensures Enabled(s, e) && (e.Take? || e.Acquire? || e.Fire? || e.Release?)
    ensures StepsLeft(Step(s, e)) < StepsLeft(s) && Step(s, e).now == s.now
  {
    hide SlotSteps;
    if s.dispatcher.Idle? && s.queue != [] {
      e := Take;
    } else if k: nat :| k < |s.slots| && s.slots[k].Closing? {
      e := Release(k);
      SlotStepsChange(s.slots, k, Free);
      SlotStepsOfOne(s.slots[k], Free);
    } else if k: nat :| k < |s.slots| && s.slots[k].Free? && s.dispatcher.Holding? {
      e := Acquire(k);
      SlotStepsChange(s.slots, k, Busy(s.dispatcher.job, s.now));
      SlotStepsOfOne(s.slots[k], Busy(s.dispatcher.job, s.now));
    } else {
      var k: nat :| k < |s.slots| && s.slots[k].Busy? && s.slots[k].start + s.slots[k].job.delay <= s.now;
      e := Fire(k);
      SlotStepsChange(s.slots, k, Closing);
      SlotStepsOfOne(s.slots[k], Closing);
    }
  }

  lemma SlotStepsOfOne(a: Slot, b: Slot)
    ensures SlotSteps([a]) == if a.Busy? then 2 else if a.Closing? then 1 else 0
    ensures SlotSteps([b]) == if b.Busy? then 2 else if b.Closing? then 1 else 0
  {
    assert [a][1..] == [] && [b][1..] == [];
  }

  /** Time until the next delay ends, or `limit` if that is sooner. */
  lemma {:induction false} TimeToNext(slots: seq<Slot>, now: real, limit: real) returns (dt: real)
    requires 0.0 < limit
    requires forall k :: 0 <= k < |slots| && slots[k].Busy? ==> now < slots[k].start + slots[k].job.delay
    ensures 0.0 < dt <= limit
    ensures forall k :: 0 <= k < |slots| && slots[k].Busy? ==> now + dt <= slots[k].start + slots[k].job.delay
    ensures dt == limit || exists k :: 0 <= k < |slots| && slots[k].Busy? && slots[k].start + slots[k].job.delay == now + dt
  {
    dt := limit;
    if slots != [] {
      dt := TimeToNext(slots[1..], now, limit);
      if dt != limit {
        var k :| 0 <= k < |slots[1..]| && slots[1..][k].Busy? && slots[1..][k].start + slots[1..][k].job.delay == now + dt;
        assert slots[k + 1] == slots[1..][k];
      }
      if slots[0].Busy? && slots[0].start + slots[0].job.delay - now < dt {
        dt := slots[0].start + slots[0].job.delay - now;
      }
      forall k | 0 <= k < |slots| && slots[k].Busy? ensures now + dt <= slots[k].start + slots[k].job.delay {
        if 0 < k { assert slots[k] == slots[1..][k - 1]; }
      }
    }
  }

  /** When no goroutine can run, time can pass until one can, or until `t`. */
  lemma TimePasses(s: State, t: real) returns (e: Event)
    requires !Runnable(s) && s.now < t
    ensures Enabled(s, e) && Immediate(s, e) && e.Advance? && StepsLeft(Step(s, e)) == StepsLeft(s)
    ensures Step(s, e).now <= t && (Step(s, e).now == t || Runnable(Step(s, e)))
  {
    var dt := TimeToNext(s.slots, s.now, t - s.now);
    e := Advance(dt);
    var next := Step(s, e);
    if next.now != t {
      var k :| 0 <= k < |s.slots| && s.slots[k].Busy? && s.slots[k].start + s.slots[k].job.delay == s.now + e.dt;
      assert next.slots[k].Busy? && next.slots[k].start + next.slots[k].job.delay <= next.now;
    }
  }

  lemma CalmAppend(s: State, es: seq<Event>, e: Event, d: real)
    requires CalmRun(s, es, d) && CalmEvent(e, d) && Immediate(Exec(s, es), e)
    ensures CalmRun(s, es + [e], d)
  {
    assert (es + [e])[..|es|] == es;
  }

  lemma {:induction false} ReachTime(s: State, es: seq<Event>, d: real, t: real) returns (es': seq<Event>)
    requires CalmRun(s, es, d) && Exec(s, es).now <= t
    ensures CalmRun(s, es', d) && Exec(s, es').now == t
    decreases StepsLeft(Exec(s, es)), if Runnable(Exec(s, es)) then 0 else 1
  {
    hide Step, Enabled, Immediate, Runnable, StepsLeft, Exec, CalmRun, CalmEvent;
    es' := es;
    var u := Exec(s, es);
    if u.now < t {
      var e;
      if Runnable(u) {
        e := GoroutineRuns(u);
        OnlyTimeWaits(u, e, d);
      } else {
        e := TimePasses(u, t);
        assert CalmEvent(e, d) by { TimeIsCalm(e.dt, d); }
      }
      CalmAppend(s, es, e, d);
      ExecAppend(s, es, e);
      es' := es + [e];
      if Exec(s, es').now < t { es' := ReachTime(s, es', d, t); }
    }
  }

  lemma OnlyTimeWaits(s: State, e: Event, d: real)
    requires !e.Advance? && !e.Cancel? && !e.Routed?
    ensures Immediate(s, e) && CalmEvent(e, d)
  {
  }

  lemma TimeIsCalm(dt: real, d: real)
    ensures CalmEvent(Advance(dt), d)
  {
  }

  /** Immediate dispatch never holds time up: from every state some calm run reaches any later
      time. */
  lemma TimeCanAlwaysPass(s: State, d: real, t: real)
    requires s.now <= t
    ensures exists es :: CalmRun(s, es, d) && Exec(s, es).now == t
  {
    var es := ReachTime(s, [], d, t);
  }

  lemma {:induction false} CalmConcat(s: State, es: seq<Event>, fs: seq<Event>, d: real)
    ensures CalmRun(s, es + fs, d) <==> CalmRun(s, es, d) && CalmRun(Exec(s, es), fs, d)
  {
    hide Step, CalmEvent, Immediate;
    if fs == [] {
      assert es + fs == es;
    } else {
      var before := fs[..|fs| - 1];
      assert (es + fs)[..|es + fs| - 1] == es + before;
      CalmConcat(s, es, before, d);
      ExecConcat(s, es, before);
    }
  }

  /** Hence a waiting connection is closed in some calm run, and in every one that goes on for
      longer than the bound. */
  lemma SomeCalmRunCloses(s: State, m: nat, place: seq<Place>, d: real, c: nat)
    requires 0 < m && Inv(s, m, place) && Timely(s, d) && Waiting(s, c)
    ensures exists es :: CalmRun(s, es, d) && c in Exec(s, es).closed
  {
    AheadBounds(s, c, d);
    WaitIsPositive(s, m, d, c);
    var t := s.now + LongestWait(JobsAhead(s, c), m, d) + 1.0;
    TimeCanAlwaysPass(s, d, t);
    var es :| CalmRun(s, es, d) && Exec(s, es).now == t;
    QueuedConnectionIsClosedInTime(s, es, m, place, d, c);
  }

  lemma WaitIsPositive(s: State, m: nat, d: real, c: nat)
    requires 0 < m && Timely(s, d) && Waiting(s, c)
    ensures 0.0 <= LongestWait(JobsAhead(s, c), m, d)
  {
    assert 0.0 <= d;
    ScaleIsProduct(m, 0.0);
    var q := JobsAhead(s, c);
    assert 0.0 <= q as real * d;
    QuotientBound(0.0, m as real, q as real * d);
  }
}
