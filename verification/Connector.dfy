/** One SSH connection (internal/sshd/connector.go, ConnectorImpl.Handle): the channel loop, its
    cache of tunnels, and a group of at most ten tasks that run beside it. */
module Connector {
  import opened Limiter
  import opened Decimal

  const GOROUTINE_CAP: nat := 10

  /** What a new channel asks for; `BadDirect` is a direct-tcpip request that does not parse. */
  datatype Kind = Session | Direct(addr: string, port: nat) | BadDirect | Other

  /** Where the channel loop is; it holds at most one channel at a time. */
  datatype Stage =
    | Looping
    | Got(chan: nat)
    | Piping(chan: nat, tunnel: nat)
    | Accepted(chan: nat, target: Option<nat>)
    | Stopped
    | Draining
    | Returned

  /** A tunnel that was opened, for which pair, and how often it has been closed. */
  datatype Tunnel = Tunnel(addr: string, port: nat, closes: nat)

  datatype Event =
    | Receive(kind: Kind)
    | Reject
    | Lookup(opens: bool)
    | Accept(ok: bool)
    | Spawn
    | TaskDone(chan: nat)
    | GlobalDone
    | Stop
    | CloseTunnels
    | Return

  /** `kinds` lists the received channels; `piped` gives the tunnel a task copies to and from. */
  datatype State = State(
    kinds: seq<Kind>,
    stage: Stage,
    globalRunning: bool,
    running: set<nat>,
    rejected: set<nat>,
    failed: set<nat>,
    closed: set<nat>,
    forwarded: map<string, nat>,
    tunnels: seq<Tunnel>,
    piped: map<nat, nat>
  )

  /** The global-request task has just been started. */
  const INITIAL: State := State([], Looping, true, {}, {}, {}, {}, map[], [], map[])

  function Key(kind: Kind): string
    requires kind.Direct?
  {
    TunnelKey(kind.addr, kind.port)
  }

  function Tasks(s: State): nat { |s.running| + (if s.globalRunning then 1 else 0) }

  predicate HasGot(s: State, kind: Kind) {
    s.stage.Got? && s.stage.chan < |s.kinds| && s.kinds[s.stage.chan] == kind
  }

  predicate Enabled(s: State, e: Event) {
    match e
    case Receive(_) => s.stage.Looping?
    case Reject => HasGot(s, BadDirect) || HasGot(s, Other)
    case Lookup(_) => s.stage.Got? && s.stage.chan < |s.kinds| && s.kinds[s.stage.chan].Direct?
    case Accept(_) => HasGot(s, Session) || s.stage.Piping?
    case Spawn => s.stage.Accepted?
    case TaskDone(c) => c in s.running
    case GlobalDone => s.globalRunning
    case Stop => s.stage.Looping?
    case CloseTunnels => s.stage.Stopped?
    case Return => s.stage.Draining? && Tasks(s) == 0
  }

  /** How many entries of the cache name tunnel `t`. */
  function Entries(forwarded: map<string, nat>, keys: set<string>, t: nat): nat
    requires keys <= forwarded.Keys
  {
    |set k | k in keys && forwarded[k] == t|
  }

  /** Closing the value of every entry. */
  function ClosedAll(forwarded: map<string, nat>, keys: set<string>, tunnels: seq<Tunnel>): seq<Tunnel>
    requires keys <= forwarded.Keys
  {
    seq(|tunnels|, t requires 0 <= t < |tunnels| =>
      tunnels[t].(closes := tunnels[t].closes + Entries(forwarded, keys, t)))
  }

  function Step(s: State, e: Event): State {
    if !Enabled(s, e) then s else
    match e
    case Receive(kind) => s.(kinds := s.kinds + [kind], stage := Got(|s.kinds|))
    case Reject => s.(stage := Looping, rejected := s.rejected + {s.stage.chan})
    case Lookup(opens) =>
      var c := s.stage.chan;
      var kind := s.kinds[c];
      if Key(kind) in s.forwarded then s.(stage := Piping(c, s.forwarded[Key(kind)]))
      else if opens then
        s.(stage := Piping(c, |s.tunnels|),
           tunnels := s.tunnels + [Tunnel(kind.addr, kind.port, 0)],
           forwarded := s.forwarded[Key(kind) := |s.tunnels|])
      else s.(stage := Looping, rejected := s.rejected + {c})
    case Accept(ok) =>
      if ok then s.(stage := Accepted(s.stage.chan, if s.stage.Piping? then Some(s.stage.tunnel) else None))
      else s.(stage := Looping, failed := s.failed + {s.stage.chan})
    case Spawn =>
      var c := s.stage.chan;
      if Tasks(s) < GOROUTINE_CAP then
        s.(stage := Looping, running := s.running + {c},
           piped := if s.stage.target.Some? then s.piped[c := s.stage.target.value] else s.piped)
      else s.(stage := Looping, closed := s.closed + {c})
    case TaskDone(c) => s.(running := s.running - {c}, closed := s.closed + {c})
    case GlobalDone => s.(globalRunning := false)
    case Stop => s.(stage := Stopped)
    case CloseTunnels => s.(stage := Draining, tunnels := ClosedAll(s.forwarded, s.forwarded.Keys, s.tunnels))
    case Return => s.(stage := Returned)
  }

  function Exec(s: State, es: seq<Event>): State {
    if es == [] then s else Step(Exec(s, es[..|es| - 1]), es[|es| - 1])
  }

  /** The variables of one connection's handler, with its atomic steps that branch or loop. */
  class Handler {
    var kinds: seq<Kind>
    var stage: Stage
    var globalRunning: bool
    var running: set<nat>
    var rejected: set<nat>
    var failed: set<nat>
    var closed: set<nat>
    var forwarded: map<string, nat>
    var tunnels: seq<Tunnel>
    var piped: map<nat, nat>
    ghost var place: seq<Place>

    ghost function View(): State
      reads this
    {
      State(kinds, stage, globalRunning, running, rejected, failed, closed, forwarded, tunnels, piped)
    }

    /** Every received channel is at its one place, the cache is exact, tasks are within the cap. */
    ghost predicate Valid()
      reads this
    {
      Inv(View(), place)
    }

    constructor ()
      ensures Valid() && View() == INITIAL
    {
      place := [];
      kinds, stage, globalRunning := [], Looping, true;
      running, rejected, failed, closed := {}, {}, {}, {};
      forwarded, tunnels, piped := map[], [], map[];
    }

    /** A direct-tcpip channel finds its tunnel in the cache, or opens one; `opens` is the outcome
        of opening. */
    method FindTunnel(opens: bool)
      requires Valid() && Enabled(View(), Lookup(opens))
      modifies this
      ensures Valid() && View() == Step(old(View()), Lookup(opens))
    {
      hide Inv;
      place := InvStep(View(), Lookup(opens), place);
      var c := stage.chan;
      var key := TunnelKey(kinds[c].addr, kinds[c].port);
      if key !in forwarded {
        if !opens {
          rejected := rejected + {c};
          stage := Looping;
          return;
        }
        forwarded := forwarded[key := |tunnels|];
        tunnels := tunnels + [Tunnel(kinds[c].addr, kinds[c].port, 0)];
      }
      stage := Piping(c, forwarded[key]);
    }

    /** The accepted channel becomes a task, unless the group is full. */
    method StartTask()
      requires Valid() && Enabled(View(), Spawn)
      modifies this
      ensures Valid() && View() == Step(old(View()), Spawn)
    {
      hide Inv;
      place := InvStep(View(), Spawn, place);
      var c := stage.chan;
      if |running| + (if globalRunning then 1 else 0) < GOROUTINE_CAP {
        running := running + {c};
        if stage.target.Some? {
          piped := piped[c := stage.target.value];
        }
      } else {
        closed := closed + {c};
      }
      stage := Looping;
    }

    /** After the loop every cached tunnel is closed. */
    method CloseForwarded()
      requires Valid() && Enabled(View(), CloseTunnels)
      modifies this
      ensures Valid() && View() == Step(old(View()), CloseTunnels)
    {
      ghost var before := View();
      assert forall k :: k in forwarded ==> forwarded[k] < |tunnels|;
      hide Inv;
      place := InvStep(before, CloseTunnels, place);
      CloseEach();
      stage := Draining;
    }

    method CloseEach()
      requires forall k :: k in forwarded ==> forwarded[k] < |tunnels|
      modifies this`tunnels
      ensures tunnels == ClosedAll(forwarded, forwarded.Keys, old(tunnels))
    {
      var todo := forwarded.Keys;
      assert tunnels == ClosedAll(forwarded, {}, tunnels);
      while todo != {}
        invariant todo <= forwarded.Keys
        invariant tunnels == ClosedAll(forwarded, forwarded.Keys - todo, old(tunnels))
      {
        var k :| k in todo;
        var t := forwarded[k];
        ghost var done := forwarded.Keys - todo;
        EntriesGrow(forwarded, done, k);
        tunnels := tunnels[t := tunnels[t].(closes := tunnels[t].closes + 1)];
        todo := todo - {k};
        assert forwarded.Keys - todo == done + {k};
      }
      assert forwarded.Keys - todo == forwarded.Keys;
    }
  }

  lemma EntriesGrow(forwarded: map<string, nat>, keys: set<string>, k: string)
    requires keys <= forwarded.Keys && k in forwarded && k !in keys
    ensures forall t :: Entries(forwarded, keys + {k}, t)
                        == Entries(forwarded, keys, t) + (if forwarded[k] == t then 1 else 0)
  {
    forall t: nat
      ensures Entries(forwarded, keys + {k}, t) == Entries(forwarded, keys, t) + (if forwarded[k] == t then 1 else 0)
    {
      var small := set x | x in keys && forwarded[x] == t;
      var big := set x | x in keys + {k} && forwarded[x] == t;
      assert big == if forwarded[k] == t then small + {k} else small;
    }
  }

  // ---------- where a channel is ----------

  datatype Place = Dispatching | Rejected | AcceptFailed | Running | Closed

  predicate At(s: State, c: nat, p: Place) {
    match p
    case Dispatching => (s.stage.Got? || s.stage.Piping? || s.stage.Accepted?) && s.stage.chan == c
    case Rejected => c in s.rejected
    case AcceptFailed => c in s.failed
    case Running => c in s.running
    case Closed => c in s.closed
  }

  /** `place` gives every received channel its one place, and no other channel any. */
  ghost predicate Located(s: State, place: seq<Place>) {
    && |place| == |s.kinds|
    && (forall c: nat, p: Place :: At(s, c, p) <==> c < |place| && place[c] == p)
  }

  function KeyOf(t: Tunnel): string { TunnelKey(t.addr, t.port) }

  /** The cache is exactly the map from pairs to the tunnels opened for them. */
  ghost predicate CacheExact(forwarded: map<string, nat>, tunnels: seq<Tunnel>) {
    && (forall k :: k in forwarded ==> forwarded[k] < |tunnels| && KeyOf(tunnels[forwarded[k]]) == k)
    && (forall t :: 0 <= t < |tunnels| ==> KeyOf(tunnels[t]) in forwarded && forwarded[KeyOf(tunnels[t])] == t)
  }

  /** Tunnel `t` was opened for the pair that channel `c` asks for. */
  ghost predicate Serves(kinds: seq<Kind>, tunnels: seq<Tunnel>, c: nat, t: nat) {
    && c < |kinds| && t < |tunnels| && kinds[c].Direct?
    && tunnels[t].addr == kinds[c].addr && tunnels[t].port == kinds[c].port
  }

  ghost predicate StageServed(s: State) {
    match s.stage
    case Piping(c, t) => Serves(s.kinds, s.tunnels, c, t)
    case Accepted(c, Some(t)) => Serves(s.kinds, s.tunnels, c, t)
    case Accepted(c, None) => c < |s.kinds| && s.kinds[c].Session?
    case _ => true
  }

  ghost predicate PipesExact(s: State) {
    && StageServed(s)
    && (forall c :: c in s.piped ==> Serves(s.kinds, s.tunnels, c, s.piped[c]))
    && (forall c :: c in s.running && c < |s.kinds| && s.kinds[c].Direct? ==> c in s.piped)
  }

  ghost predicate ClosesExact(s: State) {
    forall t :: 0 <= t < |s.tunnels| ==> s.tunnels[t].closes == if s.stage.Draining? || s.stage.Returned? then 1 else 0
  }

  ghost predicate Capped(s: State) {
    Tasks(s) <= GOROUTINE_CAP && (s.stage.Returned? ==> Tasks(s) == 0)
  }

  ghost predicate Inv(s: State, place: seq<Place>) {
    Located(s, place) && CacheExact(s.forwarded, s.tunnels) && PipesExact(s) && ClosesExact(s) && Capped(s)
  }

  function Mover(s: State, e: Event): Option<nat>
    requires Enabled(s, e)
  {
    match e
    case Receive(_) => Some(|s.kinds|)
    case Reject => Some(s.stage.chan)
    case Lookup(opens) => if !opens && Key(s.kinds[s.stage.chan]) !in s.forwarded then Some(s.stage.chan) else None
    case Accept(ok) => if ok then None else Some(s.stage.chan)
    case Spawn => Some(s.stage.chan)
    case TaskDone(c) => Some(c)
    case _ => None
  }

  function Target(s: State, e: Event): Place {
    match e
    case Receive(_) => Dispatching
    case Reject => Rejected
    case Lookup(_) => Rejected
    case Accept(_) => AcceptFailed
    case Spawn => if Tasks(s) < GOROUTINE_CAP then Running else Closed
    case _ => Closed
  }

  /** Each step moves at most one channel, from one place to another. */
  lemma LocatedStep(s: State, e: Event, place: seq<Place>) returns (place': seq<Place>)
    requires Located(s, place)
    ensures Located(Step(s, e), place')
  {
    place' := place;
    if Enabled(s, e) {
      var mover := Mover(s, e);
      if mover.Some? {
        assert !e.Receive? ==> At(s, mover.value, if e.TaskDone? then Running else Dispatching);
        place' := if e.Receive? then place + [Dispatching] else place[mover.value := Target(s, e)];
      }
      forall c: nat, p: Place ensures At(Step(s, e), c, p) <==> c < |place'| && place'[c] == p {
        MoveAt(s, e, place, c, p);
      }
    }
  }

  lemma MoveAt(s: State, e: Event, place: seq<Place>, c: nat, p: Place)
    requires Located(s, place) && Enabled(s, e)
    ensures At(Step(s, e), c, p) <==>
            if Mover(s, e) == Some(c) then p == Target(s, e) else c < |place| && place[c] == p
  {
    assert At(s, c, p) <==> c < |place| && place[c] == p;
    assert At(s, c, Dispatching) <==> c < |place| && place[c] == Dispatching;
    assert At(s, c, Running) <==> c < |place| && place[c] == Running;
  }

  lemma CacheGrows(forwarded: map<string, nat>, tunnels: seq<Tunnel>, tunnel: Tunnel)
    requires CacheExact(forwarded, tunnels) && KeyOf(tunnel) !in forwarded
    ensures CacheExact(forwarded[KeyOf(tunnel) := |tunnels|], tunnels + [tunnel])
  {
    var grown := tunnels + [tunnel];
    forall t | 0 <= t < |grown|
      ensures KeyOf(grown[t]) in forwarded[KeyOf(tunnel) := |tunnels|]
              && forwarded[KeyOf(tunnel) := |tunnels|][KeyOf(grown[t])] == t
    {
      assert t < |tunnels| ==> grown[t] == tunnels[t] && KeyOf(tunnels[t]) in forwarded;
    }
  }

  lemma CacheSurvivesClosing(forwarded: map<string, nat>, tunnels: seq<Tunnel>)
    requires CacheExact(forwarded, tunnels)
    ensures CacheExact(forwarded, ClosedAll(forwarded, forwarded.Keys, tunnels))
  {
    var after := ClosedAll(forwarded, forwarded.Keys, tunnels);
    assert forall t :: 0 <= t < |tunnels| ==> KeyOf(after[t]) == KeyOf(tunnels[t]);
  }

  lemma CacheStep(s: State, e: Event)
    requires CacheExact(s.forwarded, s.tunnels)
    ensures CacheExact(Step(s, e).forwarded, Step(s, e).tunnels)
  {
    if Enabled(s, e) {
      match e {
        case Lookup(opens) =>
          var kind := s.kinds[s.stage.chan];
          if Key(kind) !in s.forwarded {
            CacheGrows(s.forwarded, s.tunnels, Tunnel(kind.addr, kind.port, 0));
          }
        case CloseTunnels => CacheSurvivesClosing(s.forwarded, s.tunnels);
        case _ =>
      }
    }
  }

  /** More channels and more tunnels leave what is served served. */
  lemma ServesGrows(kinds: seq<Kind>, tunnels: seq<Tunnel>, kinds': seq<Kind>, tunnels': seq<Tunnel>, c: nat, t: nat)
    requires Serves(kinds, tunnels, c, t) && kinds <= kinds' && |tunnels| <= |tunnels'|
    requires tunnels'[t].addr == tunnels[t].addr && tunnels'[t].port == tunnels[t].port
    ensures Serves(kinds', tunnels', c, t)
  {
  }

  lemma StageServedStep(s: State, e: Event)
    requires CacheExact(s.forwarded, s.tunnels) && StageServed(s)
    ensures StageServed(Step(s, e))
  {
    if Enabled(s, e) && e.Lookup? {
      var kind := s.kinds[s.stage.chan];
      if Key(kind) in s.forwarded {
        var t := s.tunnels[s.forwarded[Key(kind)]];
        TunnelKeyIsInjective(t.addr, t.port, kind.addr, kind.port);
      }
    }
  }

  lemma TunnelsKeepPairs(s: State, e: Event)
    ensures s.kinds <= Step(s, e).kinds && |s.tunnels| <= |Step(s, e).tunnels|
    ensures forall t :: 0 <= t < |s.tunnels| ==>
              Step(s, e).tunnels[t].addr == s.tunnels[t].addr && Step(s, e).tunnels[t].port == s.tunnels[t].port
  {
  }

  lemma PipedStep(s: State, e: Event, c: nat)
    requires PipesExact(s) && c in Step(s, e).piped
    ensures Serves(Step(s, e).kinds, Step(s, e).tunnels, c, Step(s, e).piped[c])
  {
    TunnelsKeepPairs(s, e);
    if c in s.piped && Step(s, e).piped[c] == s.piped[c] {
      ServesGrows(s.kinds, s.tunnels, Step(s, e).kinds, Step(s, e).tunnels, c, s.piped[c]);
    }
  }

  lemma RunningIsPiped(s: State, e: Event, place: seq<Place>, c: nat)
    requires Located(s, place) && PipesExact(s) && c in Step(s, e).running
    requires c < |Step(s, e).kinds| && Step(s, e).kinds[c].Direct?
    ensures c in Step(s, e).piped
  {
    hide ClosedAll, Entries, Serves;
    assert c in s.running ==> At(s, c, Running);
    TunnelsKeepPairs(s, e);
  }

  lemma PipesStep(s: State, e: Event, place: seq<Place>)
    requires Located(s, place) && CacheExact(s.forwarded, s.tunnels) && PipesExact(s)
    ensures PipesExact(Step(s, e))
  {
    StageServedStep(s, e);
    forall c | c in Step(s, e).piped
      ensures Serves(Step(s, e).kinds, Step(s, e).tunnels, c, Step(s, e).piped[c])
    {
      PipedStep(s, e, c);
    }
    forall c | c in Step(s, e).running && c < |Step(s, e).kinds| && Step(s, e).kinds[c].Direct?
      ensures c in Step(s, e).piped
    {
      RunningIsPiped(s, e, place, c);
    }
  }

  lemma EntryOfTunnel(s: State, t: nat)
    requires CacheExact(s.forwarded, s.tunnels) && t < |s.tunnels|
    ensures Entries(s.forwarded, s.forwarded.Keys, t) == 1
  {
    var key := KeyOf(s.tunnels[t]);
    assert (set k | k in s.forwarded.Keys && s.forwarded[k] == t) == {key};
  }

  lemma ClosingClosesEach(s: State)
    requires CacheExact(s.forwarded, s.tunnels) && ClosesExact(s) && Enabled(s, CloseTunnels)
    ensures ClosesExact(Step(s, CloseTunnels))
  {
    hide Entries;
    var after := ClosedAll(s.forwarded, s.forwarded.Keys, s.tunnels);
    forall t: nat | t < |after| ensures after[t].closes == 1 {
      EntryOfTunnel(s, t);
    }
  }

  lemma ClosesStep(s: State, e: Event)
    requires CacheExact(s.forwarded, s.tunnels) && ClosesExact(s)
    ensures ClosesExact(Step(s, e))
  {
    hide ClosedAll, CacheExact;
    if Enabled(s, e) && e.CloseTunnels? {
      ClosingClosesEach(s);
    }
  }

  lemma SpawnIsCapped(s: State)
    requires Capped(s) && Enabled(s, Spawn)
    ensures Capped(Step(s, Spawn))
  {
    if Tasks(s) < GOROUTINE_CAP { assert |Step(s, Spawn).running| <= |s.running| + 1; }
  }

  lemma TaskDoneIsCapped(s: State, c: nat)
    requires Capped(s) && Enabled(s, TaskDone(c))
    ensures Capped(Step(s, TaskDone(c)))
  {
    assert |Step(s, TaskDone(c)).running| == |s.running| - 1;
  }

  /** No other event adds a task, and only Return goes to the last stage. */
  lemma OthersAddNoTask(s: State, e: Event)
    requires !e.Spawn? && !e.TaskDone?
    ensures Step(s, e).running == s.running && (Step(s, e).globalRunning ==> s.globalRunning)
    ensures Step(s, e).stage.Returned? ==> Tasks(s) == 0 || s.stage.Returned?
  {
  }

  lemma CappedStep(s: State, e: Event)
    requires Capped(s)
    ensures Capped(Step(s, e))
  {
    hide Step, Enabled;
    match e
    case Spawn => if Enabled(s, e) { SpawnIsCapped(s); } else { Disabled(s, e); }
    case TaskDone(c) => if Enabled(s, e) { TaskDoneIsCapped(s, c); } else { Disabled(s, e); }
    case _ => OthersAddNoTask(s, e);
  }

  lemma Disabled(s: State, e: Event)
    requires !Enabled(s, e)
    ensures Step(s, e) == s
  {
  }

  lemma InvStep(s: State, e: Event, place: seq<Place>) returns (place': seq<Place>)
    requires Inv(s, place)
    ensures Inv(Step(s, e), place')
  {
    hide Step, Located, CacheExact, PipesExact, ClosesExact, Capped;
    CacheStep(s, e);
    PipesStep(s, e, place);
    ClosesStep(s, e);
    CappedStep(s, e);
    place' := LocatedStep(s, e, place);
  }

  lemma {:induction false} RunInv(es: seq<Event>) returns (place: seq<Place>)
    ensures Inv(Exec(INITIAL, es), place)
  {
    hide Step;
    place := [];
    if es != [] {
      place := RunInv(es[..|es| - 1]);
      place := InvStep(Exec(INITIAL, es[..|es| - 1]), es[|es| - 1], place);
    }
  }

  // ---------- what holds of every connection ----------

  /** Each received channel is at exactly one place; no more than ten tasks run, the global-request
      task among them; and when the connection is done, nothing runs and nothing is in between. */
  lemma EveryChannelHasOnePlace(es: seq<Event>, c: nat)
    ensures var s := Exec(INITIAL, es);
            && (c < |s.kinds| <==> exists p :: At(s, c, p))
            && (forall p, q :: At(s, c, p) && At(s, c, q) ==> p == q)
            && Tasks(s) <= GOROUTINE_CAP && (s.globalRunning ==> |s.running| <= GOROUTINE_CAP - 1)
            && (s.stage.Returned? ==> !At(s, c, Running) && !At(s, c, Dispatching))
  {
    var s := Exec(INITIAL, es);
    var place := RunInv(es);
    if c < |s.kinds| { assert At(s, c, place[c]); }
  }

  /** The tunnel cache agrees with direct lookup: each task copies to a tunnel opened for its own
      pair, no pair has two tunnels, and each tunnel is closed exactly once before the return. */
  lemma TunnelsServeTheirPairs(es: seq<Event>)
    ensures var s := Exec(INITIAL, es);
            && (forall c :: c in s.running ==> c < |s.kinds|)
            && (forall c :: c in s.running && s.kinds[c].Direct? ==>
                  c in s.piped && Serves(s.kinds, s.tunnels, c, s.piped[c]))
            && (forall t, u :: 0 <= t < u < |s.tunnels| ==>
                  s.tunnels[t].addr != s.tunnels[u].addr || s.tunnels[t].port != s.tunnels[u].port)
            && (forall t :: 0 <= t < |s.tunnels| ==> s.tunnels[t].closes <= 1)
            && (s.stage.Returned? ==> forall t :: 0 <= t < |s.tunnels| ==> s.tunnels[t].closes == 1)
  {
    var s := Exec(INITIAL, es);
    var place := RunInv(es);
    forall c | c in s.running ensures c < |s.kinds| { assert At(s, c, Running); }
    forall t, u | 0 <= t < u < |s.tunnels|
      ensures s.tunnels[t].addr != s.tunnels[u].addr || s.tunnels[t].port != s.tunnels[u].port
    {
      assert s.forwarded[KeyOf(s.tunnels[t])] == t && s.forwarded[KeyOf(s.tunnels[u])] == u;
    }
  }

  /** A pair that has a tunnel is never opened again, whether or not an open would succeed. */
  lemma SecondLookupReuses(es: seq<Event>, t: nat, opens: bool)
    requires var s := Exec(INITIAL, es);
             Enabled(s, Lookup(opens)) && t < |s.tunnels|
             && s.tunnels[t].addr == s.kinds[s.stage.chan].addr && s.tunnels[t].port == s.kinds[s.stage.chan].port
    ensures var s := Exec(INITIAL, es);
            Step(s, Lookup(opens)).stage == Piping(s.stage.chan, t) && Step(s, Lookup(opens)).tunnels == s.tunnels
  {
    var place := RunInv(es);
  }

  /** Once the global-request task has ended, sessions fill all ten places. */
  function Sessions(n: nat): seq<Event> {
    if n == 0 then [GlobalDone] else Sessions(n - 1) + [Receive(Session), Accept(true), Spawn]
  }

  lemma ExecAppend(s: State, es: seq<Event>, e: Event)
    ensures Exec(s, es + [e]) == Step(Exec(s, es), e)
  {
    assert (es + [e])[..|es|] == es;
  }

  ghost predicate OnlySessions(s: State, n: nat) {
    && s.stage == Looping && !s.globalRunning && |s.kinds| == n
    && |s.running| == n && forall c :: c in s.running ==> c < n
  }

  lemma OneMoreSession(s: State, n: nat)
    requires OnlySessions(s, n) && n < GOROUTINE_CAP
    ensures OnlySessions(Step(Step(Step(s, Receive(Session)), Accept(true)), Spawn), n + 1)
  {
    var s1 := Step(s, Receive(Session));
    assert s1.stage == Got(n) && s1.kinds[n] == Session;
    var s2 := Step(s1, Accept(true));
    assert s2.stage == Accepted(n, None) && s2.running == s.running;
  }

  lemma NoSessionYet()
    ensures OnlySessions(Step(INITIAL, GlobalDone), 0)
  {
  }

  lemma {:induction false} TenChannelsCanRun(n: nat)
    requires n <= GOROUTINE_CAP
    ensures OnlySessions(Exec(INITIAL, Sessions(n)), n)
  {
    hide Step, OnlySessions;
    if n == 0 {
      NoSessionYet();
      ExecAppend(INITIAL, [], GlobalDone);
      assert [] + [GlobalDone] == [GlobalDone];
    } else {
      TenChannelsCanRun(n - 1);
      var es := Sessions(n - 1);
      OneMoreSession(Exec(INITIAL, es), n - 1);
      ExecAppend(INITIAL, es, Receive(Session));
      ExecAppend(INITIAL, es + [Receive(Session)], Accept(true));
      ExecAppend(INITIAL, es + [Receive(Session)] + [Accept(true)], Spawn);
      assert Sessions(n) == es + [Receive(Session)] + [Accept(true)] + [Spawn];
    }
  }

  // ---------- what becomes of a channel ----------

  lemma {:induction false} ExecConcat(s: State, es: seq<Event>, fs: seq<Event>)
    ensures Exec(s, es + fs) == Exec(Exec(s, es), fs)
  {
    if fs == [] {
      assert es + fs == es;
    } else {
      ExecConcat(s, es, fs[..|fs| - 1]);
      assert (es + fs)[..|es + fs| - 1] == es + fs[..|fs| - 1];
    }
  }

  /** One turn of the loop; what does not apply to the channel is not enabled. */
  function Dispatch(kind: Kind, opens: bool, accepts: bool): seq<Event> {
    [Receive(kind), Reject, Lookup(opens), Accept(accepts), Spawn]
  }

  lemma ExecDispatch(s: State, kind: Kind, opens: bool, accepts: bool)
    ensures Exec(s, Dispatch(kind, opens, accepts))
            == Step(Step(Step(Step(Step(s, Receive(kind)), Reject), Lookup(opens)), Accept(accepts)), Spawn)
  {
    ExecAppend(s, [], Receive(kind));
    ExecAppend(s, [Receive(kind)], Reject);
    ExecAppend(s, [Receive(kind), Reject], Lookup(opens));
    ExecAppend(s, [Receive(kind), Reject, Lookup(opens)], Accept(accepts));
    ExecAppend(s, [Receive(kind), Reject, Lookup(opens), Accept(accepts)], Spawn);
    assert [] + [Receive(kind)] == [Receive(kind)];
    assert [Receive(kind)] + [Reject] == [Receive(kind), Reject];
    assert [Receive(kind), Reject] + [Lookup(opens)] == [Receive(kind), Reject, Lookup(opens)];
    assert [Receive(kind), Reject, Lookup(opens)] + [Accept(accepts)]
        == [Receive(kind), Reject, Lookup(opens), Accept(accepts)];
    assert [Receive(kind), Reject, Lookup(opens), Accept(accepts)] + [Spawn] == Dispatch(kind, opens, accepts);
  }

  /** Some tunnel was opened for the pair. */
  ghost predicate HasTunnel(s: State, kind: Kind)
    requires kind.Direct?
  {
    exists t :: 0 <= t < |s.tunnels| && s.tunnels[t].addr == kind.addr && s.tunnels[t].port == kind.port
  }

  lemma CachedIffHasTunnel(s: State, kind: Kind)
    requires CacheExact(s.forwarded, s.tunnels) && kind.Direct?
    ensures Key(kind) in s.forwarded <==> HasTunnel(s, kind)
  {
    if Key(kind) in s.forwarded {
      var t := s.tunnels[s.forwarded[Key(kind)]];
      TunnelKeyIsInjective(t.addr, t.port, kind.addr, kind.port);
    }
  }

  /** The place a channel ends up at, given what the outside world answers. */
  ghost function Outcome(s: State, kind: Kind, opens: bool, accepts: bool): Place {
    if kind.BadDirect? || kind.Other? || (kind.Direct? && !HasTunnel(s, kind) && !opens) then Rejected
    else if !accepts then AcceptFailed
    else if Tasks(s) < 10 then Running
    else Closed
  }

  lemma RejectedAtOnce(s: State, kind: Kind, opens: bool, accepts: bool)
    requires s.stage.Looping? && (kind.BadDirect? || kind.Other?)
    ensures var t := Step(Step(Step(Step(Step(s, Receive(kind)), Reject), Lookup(opens)), Accept(accepts)), Spawn);
            t == s.(kinds := s.kinds + [kind], rejected := s.rejected + {|s.kinds|})
  {
    hide Key, ClosedAll;
    var c, s1 := |s.kinds|, Step(s, Receive(kind));
    assert s1.stage == Got(c) && s1.kinds[c] == kind;
  }

  /** Once it has been received a direct-tcpip channel has a tunnel, or is rejected. */
  lemma LookedUp(s: State, kind: Kind, opens: bool)
    requires s.stage.Looping? && kind.Direct?
    ensures var c, s3 := |s.kinds|, Step(Step(Step(s, Receive(kind)), Reject), Lookup(opens));
            && s3.kinds == s.kinds + [kind] && s3.running == s.running && s3.globalRunning == s.globalRunning
            && (if Key(kind) in s.forwarded then s3.stage == Piping(c, s.forwarded[Key(kind)]) && s3.tunnels == s.tunnels
                else if opens then
                  s3.stage == Piping(c, |s.tunnels|) && s3.tunnels == s.tunnels + [Tunnel(kind.addr, kind.port, 0)]
                else s3.stage == Looping && s3.tunnels == s.tunnels && s3.rejected == s.rejected + {c})
  {
    hide ClosedAll, TunnelKey;
    var c, s1 := |s.kinds|, Step(s, Receive(kind));
    assert s1.stage == Got(c) && s1.kinds[c] == kind;
    assert Step(s1, Reject) == s1;
  }

  /** From there on the channel is accepted or not, and finds room in the group or not. */
  lemma AcceptedOrNot(s: State, c: nat, accepts: bool)
    requires s.stage.Piping? || HasGot(s, Session)
    requires c == s.stage.chan
    ensures var t := Step(Step(s, Accept(accepts)), Spawn);
            && t.stage == Looping && t.kinds == s.kinds && t.tunnels == s.tunnels
            && At(t, c, if !accepts then AcceptFailed else if Tasks(s) < GOROUTINE_CAP then Running else Closed)
  {
    hide ClosedAll, Key;
  }

  lemma RejectedStays(s: State, accepts: bool)
    requires s.stage.Looping?
    ensures Step(Step(s, Accept(accepts)), Spawn) == s
  {
  }

  lemma SessionGot(s: State, opens: bool)
    requires s.stage.Looping?
    ensures var s3 := Step(Step(Step(s, Receive(Session)), Reject), Lookup(opens));
            && HasGot(s3, Session) && s3.stage.chan == |s.kinds| && s3.kinds == s.kinds + [Session]
            && Tasks(s3) == Tasks(s) && s3.tunnels == s.tunnels
  {
    hide ClosedAll;
    var c, s1 := |s.kinds|, Step(s, Receive(Session));
    assert s1.stage == Got(c) && s1.kinds[c] == Session;
    assert Step(s1, Reject) == s1;
  }

  lemma DispatchArrives(s: State, kind: Kind, opens: bool, accepts: bool)
    requires s.stage.Looping? && CacheExact(s.forwarded, s.tunnels)
    ensures var t := Exec(s, Dispatch(kind, opens, accepts));
            && t.stage == Looping && t.kinds == s.kinds + [kind]
            && At(t, |s.kinds|, Outcome(s, kind, opens, accepts))
            && t.tunnels == s.tunnels + (if kind.Direct? && !HasTunnel(s, kind) && opens
                                         then [Tunnel(kind.addr, kind.port, 0)] else [])
  {
    hide Exec, Step, CacheExact, HasTunnel, Key, HasGot;
    ExecDispatch(s, kind, opens, accepts);
    assert s.tunnels + [] == s.tunnels;
    var s3 := Step(Step(Step(s, Receive(kind)), Reject), Lookup(opens));
    match kind
    case Session =>
      SessionGot(s, opens);
      AcceptedOrNot(s3, |s.kinds|, accepts);
    case Direct(_, _) =>
      LookedUp(s, kind, opens);
      CachedIffHasTunnel(s, kind);
      if s3.stage.Looping? {
        RejectedStays(s3, accepts);
      } else {
        AcceptedOrNot(s3, |s.kinds|, accepts);
      }
    case _ => RejectedAtOnce(s, kind, opens, accepts);
  }

  /** What becomes of a channel, in every reachable state of the loop: it is rejected when it asks for
      something else or a tunnel for it cannot be opened, otherwise accepted or not, and runs unless
      ten tasks do already; a tunnel is opened exactly for a pair that has none. A direct-tcpip
      channel that runs copies to a tunnel of its own pair. */
  lemma DispatchDecides(es: seq<Event>, kind: Kind, opens: bool, accepts: bool, p: Place)
    requires Exec(INITIAL, es).stage.Looping?
    ensures var s := Exec(INITIAL, es);
            var t := Exec(INITIAL, es + Dispatch(kind, opens, accepts));
            && t.stage == Looping && t.kinds == s.kinds + [kind]
            && (At(t, |s.kinds|, p) <==> p == Outcome(s, kind, opens, accepts))
            && t.tunnels == s.tunnels + (if kind.Direct? && !HasTunnel(s, kind) && opens
                                         then [Tunnel(kind.addr, kind.port, 0)] else [])
            && (kind.Direct? && Outcome(s, kind, opens, accepts).Running? ==>
                  |s.kinds| in t.piped && Serves(t.kinds, t.tunnels, |s.kinds|, t.piped[|s.kinds|]))
  {
    hide Exec, At, Outcome, Located, PipesExact, ClosesExact, Capped;
    var s := Exec(INITIAL, es);
    var place := RunInv(es);
    DispatchArrives(s, kind, opens, accepts);
    ExecConcat(INITIAL, es, Dispatch(kind, opens, accepts));
    EveryChannelHasOnePlace(es + Dispatch(kind, opens, accepts), |s.kinds|);
    if Outcome(s, kind, opens, accepts).Running? {
      TunnelsServeTheirPairs(es + Dispatch(kind, opens, accepts));
      RunningAt(Exec(s, Dispatch(kind, opens, accepts)), |s.kinds|);
    }
  }

  lemma RunningAt(s: State, c: nat)
    requires At(s, c, Running)
    ensures c in s.running
  {
  }

  /** A task that ends closes its own channel, and nothing else moves. */
  lemma TaskClosesItsChannel(es: seq<Event>, c: nat, b: nat, p: Place)
    requires c in Exec(INITIAL, es).running
    ensures At(Step(Exec(INITIAL, es), TaskDone(c)), b, p)
            <==> if b == c then p.Closed? else At(Exec(INITIAL, es), b, p)
  {
    hide Exec;
    var place := RunInv(es);
    MoveAt(Exec(INITIAL, es), TaskDone(c), place, b, p);
    assert At(Exec(INITIAL, es), b, p) <==> b < |place| && place[b] == p;
  }

  // ---------- the handler can always return ----------

  lemma {:induction false} TasksEnd(s: State) returns (fs: seq<Event>)
    requires s.stage.Draining?
    ensures Exec(s, fs).stage.Returned?
    decreases |s.running|
  {
    if c: nat :| c in s.running {
      var t := Step(s, TaskDone(c));
      assert t.running == s.running - {c};
      var gs := TasksEnd(t);
      fs := [TaskDone(c)] + gs;
      ExecOne(s, TaskDone(c));
      ExecConcat(s, [TaskDone(c)], gs);
    } else {
      assert s.running == {};
      fs := [GlobalDone] + [Return];
      ExecOne(s, GlobalDone);
      ExecAppend(s, [GlobalDone], Return);
    }
  }

  lemma ExecOne(s: State, e: Event)
    ensures Exec(s, [e]) == Step(s, e)
  {
    assert [e][..0] == [] && Exec(s, []) == s;
  }

  lemma TurnEnds(s: State, place: seq<Place>)
    requires Located(s, place)
    ensures var t := Step(Step(Step(Step(s, Reject), Lookup(false)), Accept(false)), Spawn);
            !t.stage.Got? && !t.stage.Piping? && !t.stage.Accepted?
  {
    hide ClosedAll, Key;
    assert s.stage.Got? ==> At(s, s.stage.chan, Dispatching);
  }

  lemma LoopEnds(s: State)
    requires !s.stage.Got? && !s.stage.Piping? && !s.stage.Accepted?
    ensures var t := Step(Step(s, Stop), CloseTunnels);
            t.stage.Draining? || t.stage.Returned?
  {
    hide ClosedAll;
  }

  /** From every reachable state some continuation ends the handler. */
  lemma HandlerCanReturn(es: seq<Event>)
    ensures exists fs :: Exec(Exec(INITIAL, es), fs).stage.Returned?
  {
    hide Exec, Step, Located;
    var s := Exec(INITIAL, es);
    var place := RunInv(es);
    TurnEnds(s, place);
    ExecOne(s, Reject);
    ExecAppend(s, [Reject], Lookup(false));
    ExecAppend(s, [Reject] + [Lookup(false)], Accept(false));
    ExecAppend(s, [Reject] + [Lookup(false)] + [Accept(false)], Spawn);
    var turn := [Reject] + [Lookup(false)] + [Accept(false)] + [Spawn];
    LoopEnds(Exec(s, turn));
    ExecAppend(s, turn, Stop);
    ExecAppend(s, turn + [Stop], CloseTunnels);
    var fs := turn + [Stop] + [CloseTunnels];
    if Exec(s, fs).stage.Draining? {
      var gs := TasksEnd(Exec(s, fs));
      ExecConcat(s, fs, gs);
      fs := fs + gs;
    }
    assert Exec(s, fs).stage.Returned?;
  }
}
