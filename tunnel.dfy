/**
 * The tunnel record handed to the connection manager, and the port forwards
 * that starting a tunnel asks the SSH transport for.
 */
module Tunnels {

  import opened Optional

  /** A forward the transport holds open: a local one listens on this side, a remote one on the server. */
  datatype Forward =
    | LocalForward(bindAddress: string, bindPort: int, targetHost: string, targetPort: int)
    | RemoteForward(bindAddress: string, bindPort: int, targetHost: string, targetPort: int)

  /** A listening socket of the tracked socket factory, keyed by bind address and port. */
  datatype Endpoint = Endpoint(address: string, port: int)

  /** The error a failed start leaves on a tunnel: the forward the transport refused. */
  datatype TunnelFault = ForwardRejected(forward: Forward)

  /**
   * One configured port forward of a session. Only `exception` is written by
   * the connection manager; the addresses and ports are read-only to it.
   */
  class Tunnel {
    const local: bool
    const localAddress: string
    const localPort: int
    const remoteAddress: string
    const remotePort: int
    var exception: Option<TunnelFault>

    constructor (local: bool, localAddress: string, localPort: int, remoteAddress: string, remotePort: int)
      ensures this.local == local && this.localAddress == localAddress && this.localPort == localPort
      ensures this.remoteAddress == remoteAddress && this.remotePort == remotePort
      ensures exception == None
    {
      this.local := local;
      this.localAddress := localAddress;
      this.localPort := localPort;
      this.remoteAddress := remoteAddress;
      this.remotePort := remotePort;
      exception := None;
    }
  }

  /** The forward that starting `t` requests: local tunnels listen locally, remote tunnels on the server. */
  function ForwardOf(t: Tunnel): (f: Forward)
    ensures f.LocalForward? <==> t.local
    ensures t.local ==> f.bindAddress == t.localAddress && f.bindPort == t.localPort
    ensures !t.local ==> f.bindAddress == t.remoteAddress && f.bindPort == t.remotePort
  {
    if t.local then LocalForward(t.localAddress, t.localPort, t.remoteAddress, t.remotePort)
    else RemoteForward(t.remoteAddress, t.remotePort, t.localAddress, t.localPort)
  }

  /** The listening socket the tracked factory opens for `t`: one for a local tunnel, none for a remote one. */
  function SocketOf(t: Tunnel): (e: set<Endpoint>)
    ensures t.local <==> Endpoint(t.localAddress, t.localPort) in e
    ensures |e| <= 1
  {
    if t.local then {Endpoint(t.localAddress, t.localPort)} else {}
  }

  /** The forwards left after deleting the local forward bound at `address:port`. */
  function WithoutLocal(fs: set<Forward>, address: string, port: int): (r: set<Forward>)
    ensures forall f :: f in r <==> f in fs && !(f.LocalForward? && f.bindAddress == address && f.bindPort == port)
  {
    set f | f in fs && !(f.LocalForward? && f.bindAddress == address && f.bindPort == port)
  }

  /** The forwards left after deleting the remote forward on server port `port`, whatever its address. */
  function WithoutRemote(fs: set<Forward>, port: int): (r: set<Forward>)
    ensures forall f :: f in r <==> f in fs && !(f.RemoteForward? && f.bindPort == port)
  {
    set f | f in fs && !(f.RemoteForward? && f.bindPort == port)
  }

  /** The forwards left after a successful stop of `t`: local tunnels by address and port, remote ones by port alone. */
  function Stopped(fs: set<Forward>, t: Tunnel): (r: set<Forward>)
    ensures r <= fs && ForwardOf(t) !in r
    ensures forall f :: f in fs && f !in r ==> f.LocalForward? == t.local && f.bindPort == ForwardOf(t).bindPort
  {
    if t.local then WithoutLocal(fs, t.localAddress, t.localPort) else WithoutRemote(fs, t.remotePort)
  }

  /** No forward in `fs` is removed by stopping `t`. */
  ghost predicate KeyFree(fs: set<Forward>, t: Tunnel)
  {
    Stopped(fs, t) == fs
  }

  /** Stopping a tunnel removes the forward its start added. */
  lemma StopRemovesStarted(fs: set<Forward>, t: Tunnel)
    ensures ForwardOf(t) !in Stopped(fs + {ForwardOf(t)}, t)
    ensures Stopped(fs + {ForwardOf(t)}, t) <= fs
  {
  }

  /** Start then stop gives back the forwards there were, when nothing else held the tunnel's key. */
  lemma StopAfterStartRestores(fs: set<Forward>, t: Tunnel)
    requires KeyFree(fs, t)
    ensures Stopped(fs + {ForwardOf(t)}, t) == fs
  {
    var after := Stopped(fs + {ForwardOf(t)}, t);
    forall f | f in fs ensures f in after {
      assert f in Stopped(fs, t);
    }
  }

  /**
   * A remote tunnel is removed by server port alone: two remote tunnels on the
   * same server port remove the same forwards, whatever their addresses.
   */
  lemma RemoteStopByPortOnly(fs: set<Forward>, t: Tunnel, u: Tunnel)
    requires !t.local && !u.local && t.remotePort == u.remotePort
    ensures Stopped(fs, t) == Stopped(fs, u)
    ensures ForwardOf(u) !in Stopped(fs + {ForwardOf(u)}, t)
  {
  }
}
