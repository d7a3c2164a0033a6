/**
 * The connection monitor: a name-to-session map that a background loop
 * sweeps, disconnecting and evicting every session the connection manager no
 * longer reports connected, and telling a single observer about it.
 */
module Monitors {

  import opened Optional
  import opened Sessions
  import opened Connections
  import opened Transports
  import opened Tunnels

  /** The user interface that is told about evictions; it counts what was posted to it. */
  class StatusObserver {
    var disconnectedShown: seq<Session>
    var statusChangedPosts: nat

    constructor ()
      ensures disconnectedShown == [] && statusChangedPosts == 0
    {
      disconnectedShown := [];
      statusChangedPosts := 0;
    }

    /** Posts the "session disconnected" message for `s`. */
    method ShowDisconnectedMessage(s: Session)
      modifies this
      ensures disconnectedShown == old(disconnectedShown) + [s]
      ensures statusChangedPosts == old(statusChangedPosts)
    {
      disconnectedShown := disconnectedShown + [s];
    }

    /** Posts the batched "connection status changed" signal. */
    method ConnectionStatusChanged()
      modifies this
      ensures statusChangedPosts == old(statusChangedPosts) + 1
      ensures disconnectedShown == old(disconnectedShown)
    {
      statusChangedPosts := statusChangedPosts + 1;
    }
  }

  /** The background thread that runs sweeps; only its identity matters here. */
  class MonitorThread {
    constructor ()
    {
    }
  }

  // ------------------------------------------------ the outcome of one sweep

  /** The entries of `m` whose name is in `alive`. */
  ghost function Survivors(m: map<string, Session>, alive: set<string>): map<string, Session>
  {
    map n | n in m && n in alive :: m[n]
  }

  /** The sessions of the entries of `m` whose name is not in `alive`. */
  ghost function EvictedSessions(m: map<string, Session>, alive: set<string>): set<Session>
  {
    set n | n in m && n !in alive :: m[n]
  }

  /** Every tunnel of every session in `m`: what disconnecting them may write. */
  ghost function TunnelsOf(m: map<string, Session>): set<Tunnel>
  {
    set n, t | n in m && t in m[n].tunnels :: t
  }

  /** The sessions under the names `names`. */
  ghost function SessionsOf(m: map<string, Session>, names: set<string>): set<Session>
  {
    set n | n in names && n in m :: m[n]
  }

  /** The listening sockets of the local tunnels of the sessions under `names`. */
  ghost function SocketsOfNames(m: map<string, Session>, names: set<string>): set<Endpoint>
  {
    set n, e | n in names && n in m && e in LocalSockets(m[n].tunnels) :: e
  }

  lemma SocketsOfNamesAdd(m: map<string, Session>, names: set<string>, n: string)
    requires n in m
    ensures SocketsOfNames(m, names + {n}) == SocketsOfNames(m, names) + LocalSockets(m[n].tunnels)
  {
  }

  /** The tunnels of the sessions under `names`. */
  ghost function TunnelsOfNames(m: map<string, Session>, names: set<string>): set<Tunnel>
  {
    set n, t | n in names && n in m && t in m[n].tunnels :: t
  }

  lemma TunnelsOfNamesAdd(m: map<string, Session>, names: set<string>, n: string)
    requires n in m
    ensures forall t :: t in TunnelsOfNames(m, names + {n}) <==> t in TunnelsOfNames(m, names) || t in m[n].tunnels
  {
  }

  /**
   * A sweep part-way through: it started from the sessions `m0`, with the
   * names `alive0` reported connected, the registry `conn0` (whose transports
   * were connected as in `up0` and held the forwards `fw0`), the tracked
   * sockets `open0`, the tunnel errors `ex0` and the observer messages
   * `shown0`; it has visited `visited` and evicted `evicted`, and `pending`
   * is still to visit.
   */
  datatype Sweeping = Sweeping(m0: map<string, Session>, alive0: set<string>, conn0: map<Session, Transport>,
                               up0: map<Session, bool>, fw0: map<Session, set<Forward>>, open0: set<Endpoint>,
                               ex0: map<Tunnel, Option<TunnelFault>>,
                               shown0: seq<Session>, pending: set<string>, visited: seq<string>, evicted: set<string>)

  /** One visit of the sweep `before`: the name visited and whether its entry was evicted. */
  datatype Step = Step(before: Sweeping, name: string, removed: bool)
  {
    /** The sweep once the visit is over. */
    function After(): Sweeping
    {
      before.(pending := before.pending - {name}, visited := before.visited + [name],
              evicted := if removed then before.evicted + {name} else before.evicted)
    }
  }

  /**
   * What the sweep `w` has done to tunnel errors so far: the tunnels of
   * evicted sessions have theirs cleared, and every other tunnel keeps the
   * error it had at the start.
   */
  ghost predicate ErrorsKept(w: Sweeping)
    reads w.ex0.Keys
  {
    forall t :: t in w.ex0 ==>
      if t in TunnelsOfNames(w.m0, w.evicted) then t.exception.None? else t.exception == w.ex0[t]
  }

  /** What one call of `EvictIfDisconnected` on the name of a step does to the tunnel errors of a sweep. */
  twostate lemma ErrorsKeptStep(step: Step)
    requires old(ErrorsKept(step.before))
    requires step.name in step.before.m0
    requires forall t: Tunnel :: old(allocated(t)) && t !in step.before.m0[step.name].tunnels ==> t.exception == old(t.exception)
    requires step.removed ==> forall t :: t in step.before.m0[step.name].tunnels ==> t.exception.None?
    requires !step.removed ==> forall t :: t in step.before.m0[step.name].tunnels ==> t.exception == old(t.exception)
    ensures ErrorsKept(step.After())
  {
    if step.removed {
      TunnelsOfNamesAdd(step.before.m0, step.before.evicted, step.name);
    }
  }

  /** Whether each transport of the registry `c` is connected now. */
  ghost function ConnectedNow(c: map<Session, Transport>): (u: map<Session, bool>)
    reads c.Values
    ensures u.Keys == c.Keys && forall s :: s in c ==> u[s] == c[s].connected
  {
    map s | s in c :: c[s].connected
  }

  /** The forwards each transport of the registry `c` holds now. */
  ghost function ForwardsNow(c: map<Session, Transport>): (f: map<Session, set<Forward>>)
    reads c.Values
    ensures f.Keys == c.Keys && forall s :: s in c ==> f[s] == c[s].forwards
  {
    map s | s in c :: c[s].forwards
  }

  /** The current error of every tunnel in `ts`. */
  ghost function ErrorsNow(ts: set<Tunnel>): (e: map<Tunnel, Option<TunnelFault>>)
    reads ts
    ensures e.Keys == ts && forall t :: t in ts ==> e[t] == t.exception
  {
    map t | t in ts :: t.exception
  }

  /** A whole sweep: the state it started from and the state it finished in. */
  datatype Run = Run(start: Sweeping, end: Sweeping)

  /** The bookkeeping of a sweep part-way through: which names are visited, pending and evicted. */
  ghost predicate Tally(m0: map<string, Session>, alive0: set<string>, pending: set<string>, visited: seq<string>, evicted: set<string>)
  {
    && pending <= m0.Keys && evicted <= m0.Keys - alive0
    && (forall n :: n in visited <==> n in m0 && n !in pending)
    && (forall i, j :: 0 <= i < j < |visited| ==> visited[i] != visited[j])
    && (forall n :: n in evicted <==> n in visited && n !in alive0)
  }

  lemma TallyStep(m0: map<string, Session>, alive0: set<string>, pending: set<string>, visited: seq<string>, evicted: set<string>,
                  name: string, removed: bool)
    requires Tally(m0, alive0, pending, visited, evicted) && name in pending
    requires removed <==> name !in alive0
    ensures Tally(m0, alive0, pending - {name}, visited + [name], if removed then evicted + {name} else evicted)
    ensures m0 - evicted - (if removed then {name} else {}) == m0 - (if removed then evicted + {name} else evicted)
    ensures EvictedInOrder(visited + [name], m0, alive0) == EvictedInOrder(visited, m0, alive0) + (if removed then [m0[name]] else [])
  {
    assert (visited + [name])[..|visited|] == visited;
  }

  lemma SweepEnd(m: map<string, Session>, alive: set<string>, visited: seq<string>, evicted: set<string>)
    requires Tally(m, alive, {}, visited, evicted)
    ensures evicted == m.Keys - alive
    ensures Enumerates(visited, m.Keys)
    ensures m - evicted == Survivors(m, alive)
    ensures SessionsOf(m, evicted) == EvictedSessions(m, alive)
  {
  }

  lemma SessionsOfAdd(m: map<string, Session>, names: set<string>, n: string)
    requires n in m
    ensures SessionsOf(m, names + {n}) == SessionsOf(m, names) + {m[n]}
  {
  }

  /** The sessions evicted, in the order the sweep visited their names. */
  ghost function EvictedInOrder(visited: seq<string>, m: map<string, Session>, alive: set<string>): seq<Session>
  {
    if visited == [] then []
    else
      var n := visited[|visited| - 1];
      EvictedInOrder(visited[..|visited| - 1], m, alive) + (if n in m && n !in alive then [m[n]] else [])
  }

  /** `visited` lists every element of `names` exactly once. */
  ghost predicate Enumerates(visited: seq<string>, names: set<string>)
  {
    && (forall i, j :: 0 <= i < j < |visited| ==> visited[i] != visited[j])
    && (forall i :: 0 <= i < |visited| ==> visited[i] in names)
    && (forall n :: n in names ==> n in visited)
  }

  /** The names among `visited` whose entries a sweep evicts. */
  ghost function EvictedNames(visited: seq<string>, m: map<string, Session>, alive: set<string>): set<string>
  {
    set n | n in visited && n in m && n !in alive
  }

  lemma EvictedNamesSnoc(front: seq<string>, last: string, m: map<string, Session>, alive: set<string>)
    ensures EvictedNames(front + [last], m, alive)
         == EvictedNames(front, m, alive) + (if last in m && last !in alive then {last} else {})
  {
    assert forall n :: n in front + [last] <==> n in front || n == last;
  }

  lemma {:induction false} EvictedCountPrefix(visited: seq<string>, m: map<string, Session>, alive: set<string>)
    requires forall i, j :: 0 <= i < j < |visited| ==> visited[i] != visited[j]
    ensures |EvictedInOrder(visited, m, alive)| == |EvictedNames(visited, m, alive)|
  {
    if visited != [] {
      var k := |visited| - 1;
      var front, last := visited[..k], visited[k];
      assert visited == front + [last];
      EvictedCountPrefix(front, m, alive);
      EvictedNamesSnoc(front, last, m, alive);
      assert last !in front by {
        forall i | 0 <= i < k ensures front[i] != last {
          assert front[i] == visited[i];
        }
      }
      assert last !in EvictedNames(front, m, alive);
    }
  }

  /** One sweep posts exactly one "disconnected" message per evicted entry. */
  lemma EvictedCount(visited: seq<string>, m: map<string, Session>, alive: set<string>)
    requires Enumerates(visited, m.Keys)
    ensures |EvictedInOrder(visited, m, alive)| == |m.Keys - alive|
  {
    EvictedCountPrefix(visited, m, alive);
    assert EvictedNames(visited, m, alive) == m.Keys - alive;
  }

  /** The entries that survive a sweep and the ones evicted split the map. */
  lemma SweepPartitions(m: map<string, Session>, alive: set<string>)
    ensures Survivors(m, alive).Keys == m.Keys * alive
    ensures Survivors(m, alive) == m <==> m.Keys - alive == {}
    ensures Survivors(Survivors(m, alive), alive) == Survivors(m, alive)
  {
    if Survivors(m, alive) == m {
      forall n | n in m ensures n in alive {
        assert n in Survivors(m, alive);
      }
    }
    if m.Keys - alive == {} {
      forall n | n in m ensures n in alive {
        assert n !in m.Keys - alive;
      }
      assert Survivors(m, alive).Keys == m.Keys;
    }
  }

  class SessionConnectionMonitor {
    const manager: ConnectionManager
    const monitorInterval: int
    var thread: MonitorThread?
    var threadStopped: bool
    var sessions: map<string, Session>
    var composite: StatusObserver?

    static const DefaultMonitorInterval: int := 10000

    ghost predicate Valid()
      reads this, manager
    {
      manager.Valid()
    }

    /** The names whose session the manager reports connected. */
    ghost function Alive(): set<string>
      reads this, manager, manager.connections.Values
    {
      set n | n in sessions && manager.IsConnected(sessions[n])
    }

    ghost function ObserverFrame(): set<object>
      reads this
    {
      if composite == null then {} else {composite}
    }

    constructor (manager: ConnectionManager)
      requires manager.Valid()
      ensures Valid() && this.manager == manager && monitorInterval == DefaultMonitorInterval
      ensures sessions == map[] && thread == null && !threadStopped && composite == null
    {
      this.manager := manager;
      monitorInterval := DefaultMonitorInterval;
      sessions := map[];
      thread := null;
      threadStopped := false;
      composite := null;
    }

    constructor WithInterval(manager: ConnectionManager, monitorInterval: int)
      requires manager.Valid()
      ensures Valid() && this.manager == manager && this.monitorInterval == monitorInterval
      ensures sessions == map[] && thread == null && !threadStopped && composite == null
    {
      this.manager := manager;
      this.monitorInterval := monitorInterval;
      sessions := map[];
      thread := null;
      threadStopped := false;
      composite := null;
    }

    /** Monitors `session` under `name`, replacing any session already under that name. */
    method AddSession(name: string, session: Session)
      modifies this
      ensures sessions == old(sessions)[name := session]
      ensures thread == old(thread) && threadStopped == old(threadStopped) && composite == old(composite)
    {
      sessions := sessions[name := session];
    }

    /** Stops monitoring `name`; an absent name leaves the map as it was. */
    method RemoveSession(name: string)
      modifies this
      ensures sessions == old(sessions) - {name}
      ensures name !in old(sessions) ==> sessions == old(sessions)
      ensures thread == old(thread) && threadStopped == old(threadStopped) && composite == old(composite)
    {
      sessions := sessions - {name};
    }

    /** Registers the observer; a later registration replaces an earlier one. */
    method SetSshTunnelComposite(observer: StatusObserver?)
      modifies this
      ensures composite == observer
      ensures sessions == old(sessions) && thread == old(thread) && threadStopped == old(threadStopped)
    {
      composite := observer;
    }

    /** Starts the monitor thread unless one exists; a second start is a no-op. */
    method StartMonitor()
      modifies this
      ensures old(thread) == null ==> thread != null && fresh(thread) && !threadStopped
      ensures old(thread) != null ==> thread == old(thread) && threadStopped == old(threadStopped)
      ensures sessions == old(sessions) && composite == old(composite)
    {
      if thread == null {
        thread := new MonitorThread();
        threadStopped := false;
      }
    }

    /** Flags the running thread to stop and forgets it; without a thread this is a no-op. */
    method StopMonitor()
      modifies this
      ensures thread == null
      ensures old(thread) != null ==> threadStopped
      ensures old(thread) == null ==> threadStopped == old(threadStopped)
      ensures sessions == old(sessions) && composite == old(composite)
    {
      if thread != null {
        threadStopped := true;
        thread := null;
      }
    }

    /**
     * Disconnects, announces and evicts the entry under `name`, which the
     * manager does not report connected.
     */
    method Evict(name: string) returns (ghost stopped: seq<bool>)
      requires Valid() && name in sessions && !manager.IsConnected(sessions[name])
      modifies this, manager, manager.factory, manager.TransportOf(sessions[name]), sessions[name].tunnels, ObserverFrame()
      ensures Valid()
      ensures sessions == old(sessions) - {name}
      ensures manager.connections == old(manager.connections) - {old(sessions[name])}
      ensures forall s :: s in manager.connections ==> unchanged(manager.connections[s])
      ensures old(sessions[name]) in old(manager.connections) ==>
        var t := old(manager.connections[sessions[name]]);
        && !t.connected && t.forwards == {}
        && |stopped| == |old(sessions[name]).tunnels|
        && manager.factory.open == old(manager.factory.open) - SocketsWhere(old(sessions[name]).tunnels, stopped)
      ensures old(sessions[name]) !in old(manager.connections) ==> manager.factory.open == old(manager.factory.open)
      ensures old(manager.factory.open) - LocalSockets(old(sessions[name]).tunnels) <= manager.factory.open <= old(manager.factory.open)
      ensures forall t :: t in old(sessions[name]).tunnels ==> t.exception.None?
      ensures composite == old(composite) && thread == old(thread) && threadStopped == old(threadStopped)
      ensures composite != null ==>
        && composite.disconnectedShown == old(composite.disconnectedShown) + [old(sessions[name])]
        && composite.statusChangedPosts == old(composite.statusChangedPosts)
    {
      var session := sessions[name];
      stopped := manager.Disconnect(session);
      if old(manager.connections) != manager.connections {
        SocketsWhereLocal(session.tunnels, stopped);
      }
      if composite != null {
        composite.ShowDisconnectedMessage(session);
      }
      sessions := sessions - {name};
    }

    /**
     * The body of the sweep for one entry: when the manager does not report
     * the session under `name` connected, disconnect it, announce it and
     * evict it. A connected entry, its transport and the tracked sockets are
     * left as they are.
     */
    method EvictIfDisconnected(name: string) returns (removed: bool, ghost stopped: seq<bool>)
      requires Valid() && name in sessions
      modifies this, manager, manager.factory, manager.TransportOf(sessions[name]), sessions[name].tunnels, ObserverFrame()
      ensures Valid()
      ensures removed <==> !old(manager.IsConnected(sessions[name]))
      ensures sessions == if removed then old(sessions) - {name} else old(sessions)
      ensures manager.connections == if removed then old(manager.connections) - {old(sessions[name])} else old(manager.connections)
      ensures forall n :: n in old(sessions) && (removed ==> old(sessions[n]) != old(sessions[name])) ==>
        (manager.IsConnected(old(sessions[n])) <==> old(manager.IsConnected(sessions[n])))
      ensures forall s :: s in manager.connections ==> unchanged(manager.connections[s])
      ensures !removed ==> manager.factory.open == old(manager.factory.open) && unchanged(manager.TransportOf(old(sessions[name])))
      ensures removed && old(sessions[name]) in old(manager.connections) ==>
        var t := old(manager.connections[sessions[name]]);
        && !t.connected && t.forwards == {}
        && |stopped| == |old(sessions[name]).tunnels|
        && manager.factory.open == old(manager.factory.open) - SocketsWhere(old(sessions[name]).tunnels, stopped)
      ensures removed && old(sessions[name]) !in old(manager.connections) ==> manager.factory.open == old(manager.factory.open)
      ensures removed ==>
        old(manager.factory.open) - LocalSockets(old(sessions[name]).tunnels) <= manager.factory.open <= old(manager.factory.open)
      ensures removed ==> forall t :: t in old(sessions[name]).tunnels ==> t.exception.None?
      ensures !removed ==> forall t :: t in old(sessions[name]).tunnels ==> t.exception == old(t.exception)
      ensures forall t: Tunnel :: old(allocated(t)) && t !in old(sessions[name]).tunnels ==> t.exception == old(t.exception)
      ensures composite == old(composite) && thread == old(thread) && threadStopped == old(threadStopped)
      ensures composite != null ==>
        && composite.disconnectedShown == old(composite.disconnectedShown) + (if removed then [old(sessions[name])] else [])
        && composite.statusChangedPosts == old(composite.statusChangedPosts)
    {
      removed := !manager.IsConnected(sessions[name]);
      stopped := [];
      if removed {
        stopped := Evict(name);
      }
    }

    /** What the sweep `w` has achieved so far in the map and the registry. */
    ghost predicate Registered(w: Sweeping)
      reads this, manager, manager.connections.Values
    {
      && Valid()
      && Tally(w.m0, w.alive0, w.pending, w.visited, w.evicted)
      && sessions == w.m0 - w.evicted
      && manager.connections == w.conn0 - SessionsOf(w.m0, w.evicted)
      && (forall n :: n in w.pending ==> (w.m0[n] in manager.connections && manager.connections[w.m0[n]].connected <==> n in w.alive0))
    }

    /** What the sweep `w` has achieved so far, in terms of this monitor's state. */
    ghost predicate Progress(w: Sweeping)
      reads this, manager, manager.connections.Values, ObserverFrame()
    {
      && Registered(w)
      && (composite != null ==> composite.disconnectedShown == w.shown0 + EvictedInOrder(w.visited, w.m0, w.alive0))
    }

    /**
     * What the sweep `w` has left alone so far: every transport still
     * registered is as it was, and the only tracked sockets closed belong to
     * the local tunnels of evicted sessions.
     */
    ghost predicate Kept(w: Sweeping)
      reads this, manager, manager.connections.Values, manager.factory
    {
      && (forall s :: s in manager.connections ==>
            s in w.up0 && s in w.fw0 && manager.connections[s].connected == w.up0[s] && manager.connections[s].forwards == w.fw0[s])
      && w.open0 - SocketsOfNames(w.m0, w.evicted) <= manager.factory.open <= w.open0
      && (w.evicted == {} ==> manager.factory.open == w.open0)
    }

    /** What one call of `EvictIfDisconnected` on a pending name does to the progress of a sweep. */
    twostate lemma ProgressStep(step: Step)
      requires step.name in step.before.pending
      requires old(Progress(step.before))
      requires Valid()
      requires step.removed <==> !old(manager.IsConnected(sessions[step.name]))
      requires sessions == if step.removed then old(sessions) - {step.name} else old(sessions)
      requires manager.connections ==
        if step.removed then old(manager.connections) - {old(sessions[step.name])} else old(manager.connections)
      requires forall n :: n in old(sessions) && (step.removed ==> old(sessions[n]) != old(sessions[step.name])) ==>
        (manager.IsConnected(old(sessions[n])) <==> old(manager.IsConnected(sessions[n])))
      requires composite == old(composite)
      requires composite != null ==>
        composite.disconnectedShown == old(composite.disconnectedShown) + (if step.removed then [old(sessions[step.name])] else [])
      ensures step.removed <==> step.name !in step.before.alive0
      ensures Progress(step.After())
    {
      var w, name, removed := step.before, step.name, step.removed;
      var w' := step.After();
      assert old(sessions[name]) == w.m0[name];
      TallyStep(w.m0, w.alive0, w.pending, w.visited, w.evicted, name, removed);
      if removed {
        SessionsOfAdd(w.m0, w.evicted, name);
      }
      forall n | n in w'.pending
        ensures w.m0[n] in manager.connections && manager.connections[w.m0[n]].connected <==> n in w.alive0
      {
        assert n in old(sessions) && old(sessions)[n] == w.m0[n];
        if removed && w.m0[n] == w.m0[name] {
          assert w.m0[n] !in manager.connections;
        }
      }
      assert Tally(w.m0, w.alive0, w'.pending, w'.visited, w'.evicted);
      assert sessions == w.m0 - w'.evicted;
      assert manager.connections == w.conn0 - SessionsOf(w.m0, w'.evicted);
      assert composite != null ==> composite.disconnectedShown == w.shown0 + EvictedInOrder(w'.visited, w.m0, w.alive0);
    }

    /** What one call of `EvictIfDisconnected` on a pending name does to what the sweep has left alone. */
    twostate lemma KeptStep(step: Step)
      requires old(Kept(step.before))
      requires step.name in old(sessions) && step.name in step.before.m0 && old(sessions[step.name]) == step.before.m0[step.name]
      requires manager.connections ==
        if step.removed then old(manager.connections) - {old(sessions[step.name])} else old(manager.connections)
      requires forall s :: s in manager.connections ==> unchanged(manager.connections[s])
      requires !step.removed ==> manager.factory.open == old(manager.factory.open)
      requires step.removed ==>
        old(manager.factory.open) - LocalSockets(old(sessions[step.name]).tunnels) <= manager.factory.open <= old(manager.factory.open)
      ensures Kept(step.After())
    {
      var w, name := step.before, step.name;
      if step.removed {
        SocketsOfNamesAdd(w.m0, w.evicted, name);
      }
    }

    /** One iteration of the sweep `w`: visit `name`, evicting it if it is not reported connected. */
    method SweepStep(name: string, ghost w: Sweeping) returns (removed: bool, ghost next: Sweeping)
      requires name in w.pending
      requires Progress(w) && Kept(w) && ErrorsKept(w)
      modifies this, manager, manager.factory, w.conn0.Values, TunnelsOf(w.m0), ObserverFrame()
      ensures removed <==> name !in w.alive0
      ensures Progress(Step(w, name, removed).After())
      ensures composite == old(composite) && thread == old(thread) && threadStopped == old(threadStopped)
      ensures composite != null ==> composite.statusChangedPosts == old(composite.statusChangedPosts)
      ensures Kept(Step(w, name, removed).After())
      ensures ErrorsKept(Step(w, name, removed).After())
      ensures next == Step(w, name, removed).After()
      ensures next.pending == w.pending - {name} && (next.evicted != {} <==> w.evicted != {} || removed)
      ensures next.m0 == w.m0 && next.alive0 == w.alive0 && next.conn0 == w.conn0 && next.shown0 == w.shown0
      ensures next.up0 == w.up0 && next.fw0 == w.fw0 && next.open0 == w.open0 && next.ex0 == w.ex0
    {
      assert sessions[name] == w.m0[name];
      assert forall t :: t in sessions[name].tunnels ==> t in TunnelsOf(w.m0);
      ghost var stopped;
      removed, stopped := EvictIfDisconnected(name);
      ProgressStep(Step(w, name, removed));
      KeptStep(Step(w, name, removed));
      ErrorsKeptStep(Step(w, name, removed));
      next := Step(w, name, removed).After();
    }

    /**
     * What a finished sweep `w` leaves, in terms of its snapshots: exactly the
     * alive entries, still connected; the registry without the evicted
     * sessions, its transports as they were; only sockets and tunnel errors
     * of evicted sessions touched.
     */
    ghost predicate Swept(w: Sweeping)
      reads this, manager, manager.connections.Values, manager.factory, w.ex0.Keys
    {
      && sessions == Survivors(w.m0, w.alive0)
      && manager.connections == w.conn0 - EvictedSessions(w.m0, w.alive0)
      && (forall n :: n in w.alive0 ==> n in w.m0 && manager.IsConnected(w.m0[n]))
      && (forall s :: s in manager.connections ==>
            && s in w.conn0 && manager.connections[s] == w.conn0[s] && s in w.up0 && s in w.fw0
            && manager.connections[s].connected == w.up0[s] && manager.connections[s].forwards == w.fw0[s])
      && w.open0 - SocketsOfNames(w.m0, w.m0.Keys - w.alive0) <= manager.factory.open <= w.open0
      && (w.m0.Keys - w.alive0 == {} ==> manager.factory.open == w.open0)
      && (forall t :: t in w.ex0 ==>
            if t in TunnelsOfNames(w.m0, w.m0.Keys - w.alive0) then t.exception.None? else t.exception == w.ex0[t])
    }

    /** A finished sweep: everything the monitor and the manager hold, in terms of the sweep's snapshots. */
    lemma Finished(w: Sweeping)
      requires Registered(w) && Kept(w) && ErrorsKept(w) && w.pending == {}
      requires w.alive0 <= w.m0.Keys
      requires forall n :: n in w.m0 ==> (n in w.alive0 <==> w.m0[n] in w.conn0 && w.m0[n] in w.up0 && w.up0[w.m0[n]])
      ensures Enumerates(w.visited, w.m0.Keys)
      ensures w.evicted == w.m0.Keys - w.alive0
      ensures Swept(w)
    {
      SweepEnd(w.m0, w.alive0, w.visited, w.evicted);
      forall n | n in w.alive0 ensures manager.IsConnected(w.m0[n]) {
        assert w.m0[n] !in SessionsOf(w.m0, w.evicted);
      }
    }

    /** A finished sweep, stated against the monitor's state when it started. */
    twostate lemma SweepOutcome(r: Run)
      requires old(Valid()) && r.start == old(Begin())
      requires Swept(r.end)
      requires r.end.m0 == r.start.m0 && r.end.alive0 == r.start.alive0 && r.end.conn0 == r.start.conn0
      requires r.end.up0 == r.start.up0 && r.end.fw0 == r.start.fw0 && r.end.open0 == r.start.open0 && r.end.ex0 == r.start.ex0
      ensures sessions == Survivors(old(sessions), old(Alive()))
      ensures manager.connections == old(manager.connections) - EvictedSessions(old(sessions), old(Alive()))
      ensures forall n :: n in old(sessions) && n in old(Alive()) ==> manager.IsConnected(old(sessions[n]))
      ensures forall s :: s in manager.connections ==>
        && s in old(manager.connections) && manager.connections[s] == old(manager.connections[s])
        && manager.connections[s].connected == old(manager.connections[s].connected)
        && manager.connections[s].forwards == old(manager.connections[s].forwards)
      ensures old(manager.factory.open) - SocketsOfNames(old(sessions), old(sessions).Keys - old(Alive()))
              <= manager.factory.open <= old(manager.factory.open)
      ensures old(sessions).Keys - old(Alive()) == {} ==> manager.factory.open == old(manager.factory.open)
      ensures forall t :: t in TunnelsOf(old(sessions)) ==>
        if t in TunnelsOfNames(old(sessions), old(sessions).Keys - old(Alive())) then t.exception.None?
        else t.exception == old(t.exception)
    {
    }

    /** The sweep about to start from the current state: nothing visited, every name pending. */
    ghost function Begin(): (w: Sweeping)
      requires Valid()
      reads this, manager, manager.connections.Values, manager.factory, TunnelsOf(sessions), ObserverFrame()
      ensures w.pending == w.m0.Keys && w.visited == [] && w.evicted == {}
      ensures w.m0 == sessions && w.alive0 == Alive() && w.conn0 == manager.connections && w.open0 == manager.factory.open
      ensures composite != null ==> w.shown0 == composite.disconnectedShown
      ensures forall s :: s in manager.connections ==>
        && s in w.up0 && w.up0[s] == manager.connections[s].connected
        && s in w.fw0 && w.fw0[s] == manager.connections[s].forwards
      ensures w.alive0 <= w.m0.Keys
      ensures forall n :: n in w.m0 ==> (n in w.alive0 <==> w.m0[n] in w.conn0 && w.m0[n] in w.up0 && w.up0[w.m0[n]])
      ensures forall t :: t in TunnelsOf(sessions) ==> t in w.ex0 && w.ex0[t] == t.exception
    {
      Sweeping(sessions, Alive(), manager.connections,
               ConnectedNow(manager.connections), ForwardsNow(manager.connections),
               manager.factory.open, ErrorsNow(TunnelsOf(sessions)),
               if composite == null then [] else composite.disconnectedShown,
               sessions.Keys, [], {})
    }

    /** The sweep about to start has achieved nothing and left everything alone. */
    lemma Started()
      requires Valid()
      ensures Progress(Begin()) && Kept(Begin()) && ErrorsKept(Begin())
    {
      assert SessionsOf(sessions, {}) == {} && TunnelsOfNames(sessions, {}) == {};
    }

    /**
     * The loop of one pass: visits every name pending in `w0` once, evicting
     * the ones the manager does not report connected. `w` is the finished sweep.
     */
    method VisitAll(ghost w0: Sweeping) returns (anyRemoved: bool, ghost w: Sweeping)
      requires Progress(w0) && Kept(w0) && ErrorsKept(w0) && w0.visited == [] && w0.evicted == {} && w0.pending == sessions.Keys
      modifies this, manager, manager.factory, w0.conn0.Values, TunnelsOf(w0.m0), ObserverFrame()
      ensures Progress(w) && Kept(w) && ErrorsKept(w) && w.pending == {}
      ensures anyRemoved <==> w.evicted != {}
      ensures w.m0 == w0.m0 && w.alive0 == w0.alive0 && w.conn0 == w0.conn0 && w.shown0 == w0.shown0
      ensures w.up0 == w0.up0 && w.fw0 == w0.fw0 && w.open0 == w0.open0 && w.ex0 == w0.ex0
      ensures composite == old(composite) && thread == old(thread) && threadStopped == old(threadStopped)
      ensures composite != null ==> composite.statusChangedPosts == old(composite.statusChangedPosts)
    {
      w := w0;
      var pending := sessions.Keys;
      anyRemoved := false;
      while pending != {}
        invariant Progress(w)
        invariant Kept(w)
        invariant ErrorsKept(w)
        invariant pending == w.pending
        invariant anyRemoved <==> w.evicted != {}
        invariant w.m0 == w0.m0 && w.alive0 == w0.alive0 && w.conn0 == w0.conn0 && w.shown0 == w0.shown0
        invariant w.up0 == w0.up0 && w.fw0 == w0.fw0 && w.open0 == w0.open0 && w.ex0 == w0.ex0
        invariant composite == old(composite) && thread == old(thread) && threadStopped == old(threadStopped)
        invariant composite != null ==> composite.statusChangedPosts == old(composite.statusChangedPosts)
        decreases pending
      {
        var name :| name in pending;
        var removed;
        ghost var next;
        removed, next := SweepStep(name, w);
        w := next;
        if removed {
          anyRemoved := true;
        }
        pending := pending - {name};
      }
    }

    /**
     * One pass of the monitor loop: every monitored session the manager does
     * not report connected is disconnected, evicted and announced to the
     * observer; a single status-changed signal follows when anything was
     * evicted. Sessions reported connected stay connected, their transports
     * are untouched, and the only tracked sockets closed belong to evicted
     * sessions. `visited` is the order in which the names were visited.
     */
    method Sweep() returns (anyRemoved: bool, ghost visited: seq<string>)
      requires Valid()
      modifies this, manager, manager.factory, manager.connections.Values, TunnelsOf(sessions), ObserverFrame()
      ensures Valid()
      ensures Enumerates(visited, old(sessions).Keys)
      ensures sessions == Survivors(old(sessions), old(Alive()))
      ensures manager.connections == old(manager.connections) - EvictedSessions(old(sessions), old(Alive()))
      ensures anyRemoved <==> old(sessions).Keys - old(Alive()) != {}
      ensures composite == old(composite) && thread == old(thread) && threadStopped == old(threadStopped)
      ensures composite != null ==>
        && composite.disconnectedShown == old(composite.disconnectedShown) + EvictedInOrder(visited, old(sessions), old(Alive()))
        && composite.statusChangedPosts == old(composite.statusChangedPosts) + (if anyRemoved then 1 else 0)
      ensures forall n :: n in old(sessions) && n in old(Alive()) ==> manager.IsConnected(old(sessions[n]))
      ensures forall s :: s in manager.connections ==>
        && s in old(manager.connections) && manager.connections[s] == old(manager.connections[s])
        && manager.connections[s].connected == old(manager.connections[s].connected)
        && manager.connections[s].forwards == old(manager.connections[s].forwards)
      ensures old(manager.factory.open) - SocketsOfNames(old(sessions), old(sessions).Keys - old(Alive()))
              <= manager.factory.open <= old(manager.factory.open)
      ensures !anyRemoved ==> manager.factory.open == old(manager.factory.open)
      ensures forall t :: t in TunnelsOf(old(sessions)) ==>
        if t in TunnelsOfNames(old(sessions), old(sessions).Keys - old(Alive())) then t.exception.None?
        else t.exception == old(t.exception)
    {
      ghost var w0 := Begin();
      Started();
      ghost var w;
      anyRemoved, w := VisitAll(w0);
      visited := w.visited;
      Finished(w);
      if composite != null && anyRemoved {
        composite.ConnectionStatusChanged();
      }
      SweepOutcome(Run(w0, w));
    }
  }
}
