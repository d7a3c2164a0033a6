/**
 * Stand-ins for the SSH client library the connection manager drives: an SSH
 * transport with its port forwards, and the tracked server-socket factory
 * that local forwards listen through. Every library call that can throw is
 * modelled as a call that may succeed or fail, with no way for the caller to
 * know in advance which.
 */
module Transports {

  import opened Tunnels

  /** Listening sockets opened for local forwards, kept so that they can be force-closed. */
  class TrackedServerSocketFactory {
    var open: set<Endpoint>

    constructor ()
      ensures open == {}
    {
      open := {};
    }

    /** Closes the tracked socket at `address:port`; a socket that is not open is ignored. */
    method CloseSocket(address: string, port: int)
      modifies this
      ensures open == old(open) - {Endpoint(address, port)}
    {
      open := open - {Endpoint(address, port)};
    }
  }

  /** One SSH transport: whether it is connected, and the forwards it holds. */
  class Transport {
    var connected: bool
    var forwards: set<Forward>

    constructor ()
      ensures !connected && forwards == {}
    {
      connected := false;
      forwards := {};
    }

    /** Establishes the transport; on failure nothing changes. */
    method Connect() returns (ok: bool)
      modifies this
      ensures forwards == old(forwards)
      ensures connected == (old(connected) || ok)
    {
      ok := *;
      if ok {
        connected := true;
      }
    }

    /** Closes the transport, dropping every forward it held. */
    method Disconnect()
      modifies this
      ensures !connected && forwards == {}
    {
      connected := false;
      forwards := {};
    }

    /**
     * The connection dropping on its own (a network failure or the server
     * closing it): from then on the transport reports itself disconnected,
     * which is what the connection monitor watches for. It stands for the
     * environment: no operation of the connection manager or the monitor
     * calls it, and the monitor's sweep treats a dropped transport like any
     * other one that does not report itself connected.
     */
    method Drop()
      modifies this
      ensures !connected && forwards == old(forwards)
    {
      connected := false;
    }

    /** Asks for a local forward listening at `bindAddress:bindPort` through `factory`. */
    method SetPortForwardingL(bindAddress: string, bindPort: int, host: string, hostPort: int,
                              factory: TrackedServerSocketFactory) returns (ok: bool)
      modifies this, factory
      ensures connected == old(connected)
      ensures ok ==> forwards == old(forwards) + {LocalForward(bindAddress, bindPort, host, hostPort)}
      ensures ok ==> factory.open == old(factory.open) + {Endpoint(bindAddress, bindPort)}
      ensures !ok ==> forwards == old(forwards) && factory.open == old(factory.open)
    {
      ok := *;
      if ok {
        forwards := forwards + {LocalForward(bindAddress, bindPort, host, hostPort)};
        factory.open := factory.open + {Endpoint(bindAddress, bindPort)};
      }
    }

    /** Asks the server to listen at `bindAddress:bindPort` and forward back to `host:hostPort`. */
    method SetPortForwardingR(bindAddress: string, bindPort: int, host: string, hostPort: int) returns (ok: bool)
      modifies this
      ensures connected == old(connected)
      ensures ok ==> forwards == old(forwards) + {RemoteForward(bindAddress, bindPort, host, hostPort)}
      ensures !ok ==> forwards == old(forwards)
    {
      ok := *;
      if ok {
        forwards := forwards + {RemoteForward(bindAddress, bindPort, host, hostPort)};
      }
    }

    /** Deletes the local forward bound at `bindAddress:bindPort`; its listening socket is not closed here. */
    method DelPortForwardingL(bindAddress: string, bindPort: int) returns (ok: bool)
      modifies this
      ensures connected == old(connected)
      ensures ok ==> forwards == WithoutLocal(old(forwards), bindAddress, bindPort)
      ensures !ok ==> forwards == old(forwards)
    {
      ok := *;
      if ok {
        forwards := WithoutLocal(forwards, bindAddress, bindPort);
      }
    }

    /** Deletes the remote forward on server port `bindPort`. */
    method DelPortForwardingR(bindPort: int) returns (ok: bool)
      modifies this
      ensures connected == old(connected)
      ensures ok ==> forwards == WithoutRemote(old(forwards), bindPort)
      ensures !ok ==> forwards == old(forwards)
    {
      ok := *;
      if ok {
        forwards := WithoutRemote(forwards, bindPort);
      }
    }
  }
}
