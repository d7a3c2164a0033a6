/**
 * The connection registry: which sessions have a live SSH transport, and the
 * start, stop and change of their tunnels. Transport set-up details (key
 * files, known hosts, credentials, keep-alive, cipher and compression
 * settings) are folded into one set-up step that may fail at the points
 * where the library may throw.
 */
module Connections {

  import opened Optional
  import opened Tunnels
  import opened Sessions
  import opened Transports

  /** How `connect` ends: it returns normally, throws a connection error, or throws a null-pointer error. */
  datatype ConnectOutcome = Connected | ConnectionFailed | NullPointer

  /** The three tunnel edits dispatched by `updateTunnelIfSessionConnected`. */
  datatype TunnelUpdateState = Start | Stop | Change

  /** How a tunnel edit ends: a status code (0 success, -1 a library error), or a null-pointer error. */
  datatype UpdateOutcome = Returned(status: int) | NullPointerThrown

  /**
   * How the set-up of a new transport ends: a transport ready to connect; a
   * failure before the transport variable is assigned (known-hosts file or
   * session creation); a rejected identity file, wrapped at once into a
   * connection error; or a failure to open the debug log after the
   * transport exists.
   */
  datatype Setup =
    | Created(transport: Transport)
    | Unassigned
    | IdentityRejected
    | LoggerFailed(transport: Transport)

  /** `s` without its leading characters at or below the space character. */
  function TrimStart(s: string): (r: string)
    ensures |r| <= |s| && r == s[|s| - |r|..]
    ensures r == [] || r[0] > ' '
    ensures forall i :: 0 <= i < |s| - |r| ==> s[i] <= ' '
  {
    if s != [] && s[0] <= ' ' then TrimStart(s[1..]) else s
  }

  /** `s` without its trailing characters at or below the space character. */
  function TrimEnd(s: string): (r: string)
    ensures |r| <= |s| && r == s[..|r|]
    ensures r == [] || r[|r| - 1] > ' '
    ensures forall i :: |r| <= i < |s| ==> s[i] <= ' '
  {
    if s != [] && s[|s| - 1] <= ' ' then TrimEnd(s[..|s| - 1]) else s
  }

  /** String trimming: leading and trailing control characters and spaces removed. */
  function Trim(s: string): string
  {
    TrimEnd(TrimStart(s))
  }

  /** A string trims to nothing exactly when every character of it is a control character or a space. */
  lemma TrimEmptyIffBlank(s: string)
    ensures Trim(s) == [] <==> forall i :: 0 <= i < |s| ==> s[i] <= ' '
  {
  }

  /** A non-null string that is not blank once trimmed: some character of it is above the space character. */
  predicate HasText(o: Option<string>)
  {
    o.Some? && exists i :: 0 <= i < |o.value| && o.value[i] > ' '
  }

  /** `HasText` is the null check and the trimmed-emptiness check of the source. */
  lemma HasTextIffTrimmed(o: Option<string>)
    ensures HasText(o) <==> o.Some? && Trim(o.value) != []
  {
    if o.Some? {
      TrimEmptyIffBlank(o.value);
    }
  }

  // ------------------------------------------------ per-tunnel outcome bookkeeping

  /** The forwards of the tunnels whose attempt succeeded, among the first |outcomes| tunnels. */
  ghost function ForwardsWhere(ts: seq<Tunnel>, outcomes: seq<bool>): set<Forward>
    requires |outcomes| <= |ts|
  {
    if outcomes == [] then {}
    else
      var n := |outcomes| - 1;
      ForwardsWhere(ts, outcomes[..n]) + (if outcomes[n] then {ForwardOf(ts[n])} else {})
  }

  /** The listening sockets of the tunnels whose attempt succeeded, among the first |outcomes| tunnels. */
  ghost function SocketsWhere(ts: seq<Tunnel>, outcomes: seq<bool>): set<Endpoint>
    requires |outcomes| <= |ts|
  {
    if outcomes == [] then {}
    else
      var n := |outcomes| - 1;
      SocketsWhere(ts, outcomes[..n]) + (if outcomes[n] then SocketOf(ts[n]) else {})
  }

  /** Every listening socket the local tunnels of `ts` can hold open. */
  ghost function LocalSockets(ts: seq<Tunnel>): set<Endpoint>
  {
    set t | t in ts && t.local :: Endpoint(t.localAddress, t.localPort)
  }

  /** Whatever the outcomes, the sockets opened or closed for `ts` are sockets of its local tunnels. */
  lemma {:induction false} SocketsWhereLocal(ts: seq<Tunnel>, outcomes: seq<bool>)
    requires |outcomes| <= |ts|
    ensures SocketsWhere(ts, outcomes) <= LocalSockets(ts)
  {
    if outcomes != [] {
      var n := |outcomes| - 1;
      SocketsWhereLocal(ts, outcomes[..n]);
      assert ts[n] in ts;
    }
  }

  lemma WhereSnoc(ts: seq<Tunnel>, outcomes: seq<bool>, ok: bool)
    requires |outcomes| < |ts|
    ensures ForwardsWhere(ts, outcomes + [ok]) == ForwardsWhere(ts, outcomes) + (if ok then {ForwardOf(ts[|outcomes|])} else {})
    ensures SocketsWhere(ts, outcomes + [ok]) == SocketsWhere(ts, outcomes) + (if ok then SocketOf(ts[|outcomes|]) else {})
  {
    assert (outcomes + [ok])[..|outcomes|] == outcomes;
  }

  /** The forwards left after stopping, in order, the tunnels whose stop succeeded. */
  ghost function AfterStops(fs: set<Forward>, ts: seq<Tunnel>, outcomes: seq<bool>): set<Forward>
    requires |outcomes| <= |ts|
  {
    if outcomes == [] then fs
    else
      var n := |outcomes| - 1;
      var before := AfterStops(fs, ts, outcomes[..n]);
      if outcomes[n] then Stopped(before, ts[n]) else before
  }

  /** Some attempt on tunnel `t` among the first |outcomes| entries failed. */
  ghost predicate FailedAt(ts: seq<Tunnel>, outcomes: seq<bool>, t: Tunnel)
  {
    exists k :: 0 <= k < |outcomes| && k < |ts| && ts[k] == t && !outcomes[k]
  }

  /** The error field a tunnel holds after the start attempts `outcomes`, given the value `before` it had. */
  ghost function FaultAfter(ts: seq<Tunnel>, outcomes: seq<bool>, t: Tunnel, before: Option<TunnelFault>): Option<TunnelFault>
  {
    if FailedAt(ts, outcomes, t) then Some(ForwardRejected(ForwardOf(t))) else before
  }

  lemma FailedAtSnoc(ts: seq<Tunnel>, outcomes: seq<bool>, ok: bool, t: Tunnel)
    requires |outcomes| < |ts|
    ensures FailedAt(ts, outcomes + [ok], t) <==> FailedAt(ts, outcomes, t) || (ts[|outcomes|] == t && !ok)
  {
    var o := outcomes + [ok];
    if FailedAt(ts, o, t) && !FailedAt(ts, outcomes, t) {
      var k :| 0 <= k < |o| && k < |ts| && ts[k] == t && !o[k];
      assert k == |outcomes|;
    }
    if ts[|outcomes|] == t && !ok {
      assert o[|outcomes|] == ok;
    }
    if FailedAt(ts, outcomes, t) {
      var k :| 0 <= k < |outcomes| && k < |ts| && ts[k] == t && !outcomes[k];
      assert o[k] == outcomes[k];
    }
  }

  /**
   * When a session's tunnels are distinct objects, a connect that started
   * them with outcomes `outcomes` leaves an error on exactly the tunnels whose
   * start failed, and none on the others.
   */
  lemma OnlyFailedTunnelFaulted(ts: seq<Tunnel>, outcomes: seq<bool>)
    requires |outcomes| == |ts|
    requires forall i, j :: 0 <= i < j < |ts| ==> ts[i] != ts[j]
    ensures forall k :: 0 <= k < |ts| ==>
      FaultAfter(ts, outcomes, ts[k], None) == if outcomes[k] then None else Some(ForwardRejected(ForwardOf(ts[k])))
  {
    forall k | 0 <= k < |ts|
      ensures FailedAt(ts, outcomes, ts[k]) <==> !outcomes[k]
    {
      if !outcomes[k] {
        assert k < |outcomes| && ts[k] == ts[k];
      }
    }
  }

  class ConnectionManager {
    const factory: TrackedServerSocketFactory
    var connections: map<Session, Transport>

    /** No transport serves two sessions. */
    ghost predicate Valid()
      reads this
    {
      forall s, u :: s in connections && u in connections && s != u ==> connections[s] != connections[u]
    }

    /** The transport registered for `session`, if any, as a frame. */
    ghost function TransportOf(session: Session): set<Transport>
      reads this
    {
      if session in connections then {connections[session]} else {}
    }

    constructor ()
      ensures Valid() && connections == map[] && fresh(factory) && factory.open == {}
    {
      factory := new TrackedServerSocketFactory();
      connections := map[];
    }

    /** A session is connected when it has a registry entry whose transport reports connected. */
    function IsConnected(session: Session): (b: bool)
      reads this, connections.Values
      ensures b <==> session in connections && connections[session].connected
    {
      session in connections && connections[session].connected
    }

    /** Resets the error field of every tunnel of `session`. */
    static method ClearTunnelExceptions(session: Session)
      modifies session.tunnels
      ensures forall t :: t in session.tunnels ==> t.exception == None
    {
      for i := 0 to |session.tunnels|
        invariant forall j :: 0 <= j < i ==> session.tunnels[j].exception == None
      {
        session.tunnels[i].exception := None;
      }
    }

    /** Builds a new, unconnected transport for `session`, failing where the library may throw. */
    method SetUpTransport(session: Session) returns (r: Setup)
      ensures r.Created? || r.LoggerFailed? ==> fresh(r.transport) && !r.transport.connected && r.transport.forwards == {}
      ensures r.IdentityRejected? ==> HasText(session.identityPath)
      ensures r.LoggerFailed? ==> HasText(session.debugLogPath)
    {
      var knownHostsLoaded: bool := *;
      if !knownHostsLoaded {
        return Unassigned;
      }
      if HasText(session.identityPath) {
        var identityLoaded: bool := *;
        if !identityLoaded {
          return IdentityRejected;
        }
      }
      var sessionCreated: bool := *;
      if !sessionCreated {
        return Unassigned;
      }
      var transport := new Transport();
      if HasText(session.debugLogPath) {
        var loggerOpened: bool := *;
        if !loggerOpened {
          return LoggerFailed(transport);
        }
      }
      return Created(transport);
    }

    /** Requests the forward of `tunnel`, a local one through the tracked socket factory. */
    method StartTunnel(transport: Transport, tunnel: Tunnel) returns (ok: bool)
      modifies transport, factory
      ensures transport.connected == old(transport.connected)
      ensures ok ==> transport.forwards == old(transport.forwards) + {ForwardOf(tunnel)}
      ensures ok ==> factory.open == old(factory.open) + SocketOf(tunnel)
      ensures !ok ==> transport.forwards == old(transport.forwards) && factory.open == old(factory.open)
    {
      if tunnel.local {
        ok := transport.SetPortForwardingL(tunnel.localAddress, tunnel.localPort,
                                           tunnel.remoteAddress, tunnel.remotePort, factory);
      } else {
        ok := transport.SetPortForwardingR(tunnel.remoteAddress, tunnel.remotePort,
                                           tunnel.localAddress, tunnel.localPort);
      }
    }

    /**
     * Deletes the forward of `tunnel`: a local one by bind address and port,
     * after which its tracked socket is closed; a remote one by server port
     * alone. A failed delete closes nothing.
     */
    method StopTunnel(transport: Transport, tunnel: Tunnel) returns (ok: bool)
      modifies transport, factory
      ensures transport.connected == old(transport.connected)
      ensures ok ==> transport.forwards == Stopped(old(transport.forwards), tunnel)
      ensures ok ==> factory.open == old(factory.open) - SocketOf(tunnel)
      ensures !ok ==> transport.forwards == old(transport.forwards) && factory.open == old(factory.open)
    {
      if tunnel.local {
        ok := transport.DelPortForwardingL(tunnel.localAddress, tunnel.localPort);
        if ok {
          factory.CloseSocket(tunnel.localAddress, tunnel.localPort);
        }
      } else {
        ok := transport.DelPortForwardingR(tunnel.remotePort);
      }
    }

    /**
     * One attempt of `StartTunnels`: the tunnel at `i`, after the attempts
     * `started` on the tunnels before it; a failure is recorded on the tunnel.
     * `initial` holds the error every tunnel had before the first attempt.
     */
    method StartAt(ts: seq<Tunnel>, i: nat, transport: Transport, ghost started: seq<bool>,
                   ghost initial: map<Tunnel, Option<TunnelFault>>) returns (ok: bool)
      requires i == |started| < |ts|
      requires forall j :: 0 <= j < |ts| ==> ts[j] in initial && ts[j].exception == FaultAfter(ts, started, ts[j], initial[ts[j]])
      modifies transport, factory, ts[i]
      ensures transport.connected == old(transport.connected)
      ensures transport.forwards == old(transport.forwards) + (if ok then {ForwardOf(ts[i])} else {})
      ensures factory.open == old(factory.open) + (if ok then SocketOf(ts[i]) else {})
      ensures forall j :: 0 <= j < |ts| ==> ts[j].exception == FaultAfter(ts, started + [ok], ts[j], initial[ts[j]])
    {
      var tunnel := ts[i];
      ok := StartTunnel(transport, tunnel);
      if !ok {
        tunnel.exception := Some(ForwardRejected(ForwardOf(tunnel)));
      }
      forall j | 0 <= j < |ts|
        ensures ts[j].exception == FaultAfter(ts, started + [ok], ts[j], initial[ts[j]])
      {
        FailedAtSnoc(ts, started, ok, ts[j]);
      }
    }

    /**
     * Attempts every tunnel of `session` in list order; a failure is recorded
     * on that tunnel and does not stop the others. `started` says which
     * attempts succeeded.
     */
    method StartTunnels(session: Session, transport: Transport) returns (ghost started: seq<bool>)
      modifies transport, factory, set t | t in session.tunnels
      ensures |started| == |session.tunnels|
      ensures transport.connected == old(transport.connected)
      ensures transport.forwards == old(transport.forwards) + ForwardsWhere(session.tunnels, started)
      ensures factory.open == old(factory.open) + SocketsWhere(session.tunnels, started)
      ensures forall i :: 0 <= i < |session.tunnels| ==>
        session.tunnels[i].exception == FaultAfter(session.tunnels, started, session.tunnels[i], old(session.tunnels[i].exception))
    {
      var ts := session.tunnels;
      ghost var initial := map t | t in ts :: t.exception;
      started := [];
      for i := 0 to |ts|
        invariant |started| == i
        invariant transport.connected == old(transport.connected)
        invariant transport.forwards == old(transport.forwards) + ForwardsWhere(ts, started)
        invariant factory.open == old(factory.open) + SocketsWhere(ts, started)
        invariant forall j :: 0 <= j < |ts| ==> ts[j] in initial && ts[j].exception == FaultAfter(ts, started, ts[j], initial[ts[j]])
      {
        var ok := StartAt(ts, i, transport, started, initial);
        WhereSnoc(ts, started, ok);
        started := started + [ok];
      }
      assert forall j :: 0 <= j < |ts| ==> initial[ts[j]] == old(ts[j].exception);
    }

    /** Attempts to stop every tunnel of `session`; a failure is only logged. */
    method StopTunnels(session: Session, transport: Transport) returns (ghost stopped: seq<bool>)
      modifies transport, factory
      ensures |stopped| == |session.tunnels|
      ensures transport.connected == old(transport.connected)
      ensures transport.forwards == AfterStops(old(transport.forwards), session.tunnels, stopped)
      ensures factory.open == old(factory.open) - SocketsWhere(session.tunnels, stopped)
    {
      var ts := session.tunnels;
      stopped := [];
      for i := 0 to |ts|
        invariant |stopped| == i
        invariant transport.connected == old(transport.connected)
        invariant transport.forwards == AfterStops(old(transport.forwards), ts, stopped)
        invariant factory.open == old(factory.open) - SocketsWhere(ts, stopped)
      {
        var ok := StopTunnel(transport, ts[i]);
        assert (stopped + [ok])[..i] == stopped;
        stopped := stopped + [ok];
      }
    }

    /**
     * Connects `session`: clears its tunnel errors, reuses the registered
     * transport or sets up a new one, connects it, starts every tunnel on a
     * best-effort basis and registers the transport. On a connection error
     * the transport is disconnected and the registry is left as it was.
     */
    method Connect(session: Session) returns (r: ConnectOutcome, ghost started: seq<bool>)
      requires Valid()
      modifies this, factory, session.tunnels, TransportOf(session)
      ensures Valid()
      ensures r != Connected ==> connections == old(connections) && factory.open == old(factory.open)
      ensures r != Connected ==> forall t :: t in session.tunnels ==> t.exception == None
      ensures r == NullPointer ==> session !in old(connections)
      ensures r == ConnectionFailed && session in old(connections) ==>
        !connections[session].connected && connections[session].forwards == {}
      ensures r == Connected ==> session in connections && connections == old(connections)[session := connections[session]]
      ensures r == Connected ==> IsConnected(session)
      ensures r == Connected && session in old(connections) ==> connections[session] == old(connections[session])
      ensures r == Connected && session !in old(connections) ==> fresh(connections[session])
      ensures r == Connected ==> |started| == |session.tunnels|
      ensures r == Connected ==> (connections[session].forwards ==
        (if session in old(connections) then old(connections[session].forwards) else {}) + ForwardsWhere(session.tunnels, started))
      ensures r == Connected ==> factory.open == old(factory.open) + SocketsWhere(session.tunnels, started)
      ensures r == Connected ==> forall i :: 0 <= i < |session.tunnels| ==>
        session.tunnels[i].exception == FaultAfter(session.tunnels, started, session.tunnels[i], None)
    {
      ClearTunnelExceptions(session);
      started := [];
      var transport: Transport;
      if session in connections {
        transport := connections[session];
      } else {
        var setup := SetUpTransport(session);
        match setup
        case Unassigned =>
          // the catch block dereferences the still-null transport variable
          r := NullPointer;
          return;
        case IdentityRejected =>
          r := ConnectionFailed;
          return;
        case LoggerFailed(t) =>
          t.Disconnect();
          r := ConnectionFailed;
          return;
        case Created(t) =>
          transport := t;
      }
      var ok := transport.Connect();
      if !ok {
        transport.Disconnect();
        r := ConnectionFailed;
        return;
      }
      started := StartTunnels(session, transport);
      connections := connections[session := transport];
      r := Connected;
    }

    /**
     * Disconnects `session`: clears its tunnel errors and, when it has an
     * entry, stops every tunnel (best effort) and disconnects the transport.
     * The entry is removed in every case.
     */
    method Disconnect(session: Session) returns (ghost stopped: seq<bool>)
      requires Valid()
      modifies this, factory, session.tunnels, TransportOf(session)
      ensures Valid()
      ensures connections == old(connections) - {session}
      ensures forall other :: other in connections ==> connections[other].connected == old(connections[other].connected)
      ensures forall t :: t in session.tunnels ==> t.exception == None
      ensures session in old(connections) ==> |stopped| == |session.tunnels|
      ensures session in old(connections) ==> !old(connections[session]).connected && old(connections[session]).forwards == {}
      ensures session in old(connections) ==> factory.open == old(factory.open) - SocketsWhere(session.tunnels, stopped)
      ensures session !in old(connections) ==> factory.open == old(factory.open)
    {
      ClearTunnelExceptions(session);
      stopped := [];
      if session in connections {
        var transport := connections[session];
        stopped := StopTunnels(session, transport);
        transport.Disconnect();
      }
      connections := connections - {session};
    }

    /**
     * Applies one tunnel edit when `session` has a connected transport, and
     * does nothing otherwise. A change stops `prevTunnel` and then starts
     * `tunnel` in one protected block, so a failed stop skips the start
     * (`stopFailed`). A change without a previous tunnel fails with a
     * null-pointer error, which the block does not catch.
     */
    method UpdateTunnelIfSessionConnected(session: Session, state: TunnelUpdateState, tunnel: Tunnel, prevTunnel: Tunnel?)
      returns (r: UpdateOutcome, ghost stopFailed: bool)
      requires Valid()
      modifies factory, TransportOf(session)
      ensures connections == old(connections)
      ensures stopFailed ==> state == Change
      ensures !old(IsConnected(session)) ==>
        r == Returned(0) && !stopFailed && unchanged(factory) && unchanged(TransportOf(session))
      ensures old(IsConnected(session)) ==> connections[session].connected
      ensures old(IsConnected(session)) && state == Start ==> var t := connections[session];
        || (r == Returned(0) && t.forwards == old(t.forwards) + {ForwardOf(tunnel)} && factory.open == old(factory.open) + SocketOf(tunnel))
        || (r == Returned(-1) && (t.forwards == old(t.forwards) && factory.open == old(factory.open)))
      ensures old(IsConnected(session)) && state == Stop ==> var t := connections[session];
        || (r == Returned(0) && t.forwards == Stopped(old(t.forwards), tunnel) && factory.open == old(factory.open) - SocketOf(tunnel))
        || (r == Returned(-1) && (t.forwards == old(t.forwards) && factory.open == old(factory.open)))
      ensures old(IsConnected(session)) && state == Change && prevTunnel == null ==>
        r == NullPointerThrown && connections[session].forwards == old(connections[session].forwards) && factory.open == old(factory.open)
      ensures old(IsConnected(session)) && state == Change && prevTunnel != null ==> var t := connections[session];
        || (stopFailed && r == Returned(-1) && (t.forwards == old(t.forwards) && factory.open == old(factory.open)))
        || (!stopFailed && r == Returned(-1) && t.forwards == Stopped(old(t.forwards), prevTunnel)
            && factory.open == old(factory.open) - SocketOf(prevTunnel))
        || (!stopFailed && r == Returned(0) && t.forwards == Stopped(old(t.forwards), prevTunnel) + {ForwardOf(tunnel)}
            && factory.open == (old(factory.open) - SocketOf(prevTunnel)) + SocketOf(tunnel))
    {
      r := Returned(0);
      stopFailed := false;
      if session in connections && connections[session].connected {
        var transport := connections[session];
        var ok: bool;
        match state {
        case Start =>
          ok := StartTunnel(transport, tunnel);
        case Stop =>
          ok := StopTunnel(transport, tunnel);
        case Change =>
          if prevTunnel == null {
            r := NullPointerThrown;
            return;
          }
          ok := StopTunnel(transport, prevTunnel);
          if !ok {
            stopFailed := true;
          } else {
            ok := StartTunnel(transport, tunnel);
          }
        }
        if !ok {
          r := Returned(-1);
        }
      }
    }

    /** Starts `tunnel` on the session's connected transport, if there is one; the status is discarded. */
    method StartTunnelIfSessionConnected(session: Session, tunnel: Tunnel)
      requires Valid()
      modifies factory, TransportOf(session)
      ensures connections == old(connections)
      ensures !old(IsConnected(session)) ==> unchanged(factory) && unchanged(TransportOf(session))
      ensures old(IsConnected(session)) ==> var t := connections[session];
        && t.connected
        && (|| (t.forwards == old(t.forwards) + {ForwardOf(tunnel)} && factory.open == old(factory.open) + SocketOf(tunnel))
            || (t.forwards == old(t.forwards) && factory.open == old(factory.open)))
    {
      var r, stopFailed := UpdateTunnelIfSessionConnected(session, Start, tunnel, null);
    }

    /** Stops `tunnel` on the session's connected transport, if there is one; the status is discarded. */
    method StopTunnelIfSessionConnected(session: Session, tunnel: Tunnel)
      requires Valid()
      modifies factory, TransportOf(session)
      ensures connections == old(connections)
      ensures !old(IsConnected(session)) ==> unchanged(factory) && unchanged(TransportOf(session))
      ensures old(IsConnected(session)) ==> var t := connections[session];
        && t.connected
        && (|| (t.forwards == Stopped(old(t.forwards), tunnel) && factory.open == old(factory.open) - SocketOf(tunnel))
            || (t.forwards == old(t.forwards) && factory.open == old(factory.open)))
    {
      var r, stopFailed := UpdateTunnelIfSessionConnected(session, Stop, tunnel, null);
    }

    /** Replaces `prevTunnel` by `tunnel` on the session's connected transport, if there is one. */
    method ChangeTunnelIfSessionConnected(session: Session, tunnel: Tunnel, prevTunnel: Tunnel?)
      returns (r: UpdateOutcome, ghost stopFailed: bool)
      requires Valid()
      modifies factory, TransportOf(session)
      ensures connections == old(connections)
      ensures !old(IsConnected(session)) ==>
        r == Returned(0) && !stopFailed && unchanged(factory) && unchanged(TransportOf(session))
      ensures old(IsConnected(session)) && prevTunnel == null ==>
        r == NullPointerThrown && connections[session].forwards == old(connections[session].forwards) && factory.open == old(factory.open)
      ensures old(IsConnected(session)) && prevTunnel != null ==> var t := connections[session];
        || (stopFailed && r == Returned(-1) && (t.forwards == old(t.forwards) && factory.open == old(factory.open)))
        || (!stopFailed && r == Returned(-1) && t.forwards == Stopped(old(t.forwards), prevTunnel)
            && factory.open == old(factory.open) - SocketOf(prevTunnel))
        || (!stopFailed && r == Returned(0) && t.forwards == Stopped(old(t.forwards), prevTunnel) + {ForwardOf(tunnel)}
            && factory.open == (old(factory.open) - SocketOf(prevTunnel)) + SocketOf(tunnel))
    {
      r, stopFailed := UpdateTunnelIfSessionConnected(session, Change, tunnel, prevTunnel);
    }
  }
}
