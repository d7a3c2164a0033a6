# sshtunnel-ng connection core in Dafny

This project models the part of sshtunnel-ng that keeps SSH sessions and
their port-forwarding tunnels alive:

- the **connection manager** (`ConnectionManager`), a registry from session
  to live SSH transport. It connects a session, starting every tunnel on a
  best-effort basis and recording a failed tunnel's error on the tunnel.
  It disconnects a session, stopping its tunnels and dropping the registry
  entry. It starts, stops or changes one tunnel of a connected session and
  reports whether a session is connected;
- one **sweep** of the connection monitor (`SessionConnectionMonitor`): a
  pass over a name-to-session map that disconnects and evicts every session
  the manager does not report connected. It posts one "disconnected" message
  per evicted session and one batched "status changed" signal when anything
  was evicted. The monitor's start/stop flags and its add/remove/observer
  setters are modelled too;
- the **session** value (`Session.kt`): its defaults, its text form, its
  ordering by name, and its field-by-field equality, which is what the
  registry uses as its key.

The JSch library and the tracked socket factory the manager drives are
represented by two small classes (`Transports.Transport`,
`Transports.TrackedServerSocketFactory`). Every call that can throw a
`JSchException` returns a success flag chosen nondeterministically. The
manager's methods expose the flags they saw as ghost out-parameters
(`started`, `stopped`), so their contracts can state the exact resulting
state for every combination of failures.

Files:

- `optional.dfy`: an `Option` type standing for nullable references.
- `tunnel.dfy`: the tunnel record, the forward a tunnel requests, and which
  forwards a stop removes.
- `session.dfy`: the `Session` value, `toString`, `compareTo`.
- `transport.dfy`: the transport and socket-factory stand-ins.
- `connection_manager.dfy`: the connection manager.
- `session_connection_monitor.dfy`: the monitor, its observer and its thread
  flags.

Three behaviours of the source are modelled as written, although a reader
might expect otherwise:

- The sweep body (`SessionConnectionMonitor.java:56-76`) has no `try`: only
  the sleep at `:77-81` is guarded, so an exception from `isConnected` or
  `disconnect` would end the monitor thread. In the model `disconnect`
  cannot fail, so no sweep aborts.
- When the known-hosts file or `getSession` fails before the SSH session is
  assigned, the `catch` block at `ConnectionManager.java:128-131` passes a
  null reference to `Objects.requireNonNull`, so the caller gets a
  `NullPointerException` instead of a `ConnectionException`. The model gives
  that path its own outcome, `NullPointer`.
- A failed reconnect through an already registered transport disconnects
  that transport but leaves its registry entry in place
  (`ConnectionManager.java:72`, `:128-132`). `Connect` states exactly that.

## Model

| member | source | states |
|---|---|---|
| Sessions.NewSession | src/main/kotlin/org/programmerplanet/sshtunnel/model/Session.kt:24-36 | a session built from a name alone has port 22, no compression, no tunnels and every optional field null |
| Sessions.Text | src/main/kotlin/org/programmerplanet/sshtunnel/model/Session.kt:39 | a null user or host is rendered as the text `null`, any other value as itself |
| Sessions.ToString | src/main/kotlin/org/programmerplanet/sshtunnel/model/Session.kt:38-42 | the text starts with `Session (name: user@host` and ends with `)` |
| Sessions.PortShownIffNotDefault | src/main/kotlin/org/programmerplanet/sshtunnel/model/Session.kt:40 | the text is the header plus `)` exactly when the port is 22; otherwise `:` and the port's decimal text sit between the header and `)` |
| Sessions.ToStringDistinguishesPorts | src/main/kotlin/org/programmerplanet/sshtunnel/model/Session.kt:38-42 | two sessions that differ only in the port have different texts |
| Sessions.NullRendersAsText | src/main/kotlin/org/programmerplanet/sshtunnel/model/Session.kt:39 | a null user (or host) and the literal name `null` give the same text |
| Sessions.IntText | src/main/kotlin/org/programmerplanet/sshtunnel/model/Session.kt:40 | the text of the port in the `$port` template: a leading `-` exactly for a negative port, then the digits; it reads back as the port |
| Sessions.NatText | src/main/kotlin/org/programmerplanet/sshtunnel/model/Session.kt:40 | the decimal text of a natural number is a non-empty string of digits with no leading zero (only 0 itself starts with `0`) |
| Sessions.ParseNatText | src/main/kotlin/org/programmerplanet/sshtunnel/model/Session.kt:40 | the decimal digits of a natural number read back as that number |
| Sessions.NegativeTextRoundTrip | src/main/kotlin/org/programmerplanet/sshtunnel/model/Session.kt:40 | the text of a negative port, `-` and its digits, reads back as that port |
| Sessions.NonNegativeTextRoundTrip | src/main/kotlin/org/programmerplanet/sshtunnel/model/Session.kt:40 | the text of a non-negative port reads back as that port |
| Sessions.IntTextRoundTrip | src/main/kotlin/org/programmerplanet/sshtunnel/model/Session.kt:40 | the text of every 32-bit port reads back as that port |
| Sessions.IntTextInjective | src/main/kotlin/org/programmerplanet/sshtunnel/model/Session.kt:40 | different ports have different texts |
| Sessions.CompareStrings | src/main/kotlin/org/programmerplanet/sshtunnel/model/Session.kt:44 | `String.compareTo` on the names: when one name is a prefix of the other, the result is the difference of their lengths |
| Sessions.CompareStringsFirstDifference | src/main/kotlin/org/programmerplanet/sshtunnel/model/Session.kt:44 | when neither name is a prefix of the other, the result is the difference of the characters at the first position where they differ |
| Sessions.CompareStringsAntisymmetric | src/main/kotlin/org/programmerplanet/sshtunnel/model/Session.kt:44 | swapping two names negates their string comparison |
| Sessions.CompareStringsZeroIffEqual | src/main/kotlin/org/programmerplanet/sshtunnel/model/Session.kt:44 | the string comparison is 0 exactly for equal names |
| Sessions.CompareStringsTransitive | src/main/kotlin/org/programmerplanet/sshtunnel/model/Session.kt:44 | the string comparison is transitive on "less than" |
| Sessions.CompareTo | src/main/kotlin/org/programmerplanet/sshtunnel/model/Session.kt:44 | sessions are ordered by name alone: they compare as 0 exactly when their names are equal, whatever their other fields |
| Sessions.CompareToAntisymmetric | src/main/kotlin/org/programmerplanet/sshtunnel/model/Session.kt:44 | swapping the sessions negates the comparison |
| Sessions.CompareToTransitive | src/main/kotlin/org/programmerplanet/sshtunnel/model/Session.kt:44 | the session order is transitive |
| Sessions.EqualityFinerThanOrder | src/main/kotlin/org/programmerplanet/sshtunnel/model/Session.kt:24-44 | equal sessions compare as 0, but two sessions with the same name and different ports compare as 0 and are still different registry keys |
| Tunnels.ForwardOf | src/main/java/org/programmerplanet/sshtunnel/model/ConnectionManager.java:154-163 | a local tunnel requests a local forward bound at its local address and port; a remote tunnel requests a remote forward bound at its remote address and port |
| Tunnels.SocketOf | src/main/java/org/programmerplanet/sshtunnel/model/ConnectionManager.java:157-159 | the tracked factory opens one socket, at the local address and port, exactly for a local tunnel |
| Tunnels.WithoutLocal | src/main/java/org/programmerplanet/sshtunnel/model/ConnectionManager.java:225 | deleting a local forward removes exactly the local forwards bound at that address and port |
| Tunnels.Stopped | src/main/java/org/programmerplanet/sshtunnel/model/ConnectionManager.java:223-230 | a successful stop dispatches on `local`: it never adds a forward, always removes the tunnel's own forward, and removes only forwards of the same kind on the same bind port |
| Tunnels.WithoutRemote | src/main/java/org/programmerplanet/sshtunnel/model/ConnectionManager.java:228 | deleting a remote forward removes exactly the remote forwards on that server port, whatever their address |
| Tunnels.StopRemovesStarted | src/main/java/org/programmerplanet/sshtunnel/model/ConnectionManager.java:223-230 | stopping a tunnel removes the forward its start added and adds nothing |
| Tunnels.StopAfterStartRestores | src/main/java/org/programmerplanet/sshtunnel/model/ConnectionManager.java:223-230 | start followed by stop restores the forwards, when no other forward held the tunnel's bind key |
| Tunnels.RemoteStopByPortOnly | src/main/java/org/programmerplanet/sshtunnel/model/ConnectionManager.java:228 | two remote tunnels on the same server port remove the same forwards, so stopping one also removes the other's |
| Transports.TrackedServerSocketFactory.CloseSocket | src/main/java/org/programmerplanet/sshtunnel/model/ConnectionManager.java:226 | closing removes exactly the socket at that address and port |
| Transports.Transport.Connect | src/main/java/org/programmerplanet/sshtunnel/model/ConnectionManager.java:125 | the transport is connected afterwards iff it was before or the attempt succeeded; forwards are unchanged |
| Transports.Transport.Drop | src/main/java/org/programmerplanet/sshtunnel/model/ConnectionManager.java:238-241 | the connection dropping on its own: the transport then reports disconnected, which is what `isConnected` observes; its forwards are not touched |
| Transports.Transport.Disconnect | src/main/java/org/programmerplanet/sshtunnel/model/ConnectionManager.java:208 | the transport is disconnected and carries no forwards |
| Transports.Transport.SetPortForwardingL | src/main/java/org/programmerplanet/sshtunnel/model/ConnectionManager.java:157-159 | on success the local forward is added and its socket opened in the factory; on failure nothing changes |
| Transports.Transport.SetPortForwardingR | src/main/java/org/programmerplanet/sshtunnel/model/ConnectionManager.java:161 | on success the remote forward is added; on failure nothing changes |
| Transports.Transport.DelPortForwardingL | src/main/java/org/programmerplanet/sshtunnel/model/ConnectionManager.java:225 | on success exactly the local forwards at that address and port are gone; on failure nothing changes |
| Transports.Transport.DelPortForwardingR | src/main/java/org/programmerplanet/sshtunnel/model/ConnectionManager.java:228 | on success exactly the remote forwards on that port are gone; on failure nothing changes |
| Connections.TrimStart | src/main/java/org/programmerplanet/sshtunnel/model/ConnectionManager.java:79 | the leading characters `trim()` removes are exactly those at or below the space character, and what is left starts with a character above it |
| Connections.TrimEnd | src/main/java/org/programmerplanet/sshtunnel/model/ConnectionManager.java:79 | the trailing characters `trim()` removes are exactly those at or below the space character, and what is left ends with a character above it |
| Connections.TrimEmptyIffBlank | src/main/java/org/programmerplanet/sshtunnel/model/ConnectionManager.java:79 | a string trims to nothing exactly when every character is a control character or a space |
| Connections.HasText | src/main/java/org/programmerplanet/sshtunnel/model/ConnectionManager.java:79 | the test for a usable identity path, passphrase (`:81`) or log path (`:96`): not null, and some character above the space character |
| Connections.HasTextIffTrimmed | src/main/java/org/programmerplanet/sshtunnel/model/ConnectionManager.java:79 | `HasText` holds exactly when the string is not null and does not trim to empty, as `!= null && !trim().isEmpty()` |
| Connections.SocketsWhereLocal | src/main/java/org/programmerplanet/sshtunnel/model/ConnectionManager.java:143-152 | whatever the outcomes, the sockets a run of starts or stops touches are sockets of the session's local tunnels |
| Connections.WhereSnoc | src/main/java/org/programmerplanet/sshtunnel/model/ConnectionManager.java:143-152 | one more start attempt adds that tunnel's forward and socket exactly when it succeeded |
| Connections.FailedAtSnoc | src/main/java/org/programmerplanet/sshtunnel/model/ConnectionManager.java:143-151 | after one more start attempt, a tunnel has a failed attempt iff it had one before or this attempt was on it and failed |
| Connections.OnlyFailedTunnelFaulted | src/main/java/org/programmerplanet/sshtunnel/model/ConnectionManager.java:143-151 | with distinct tunnels whose errors were cleared first, exactly the tunnels whose start failed hold an error afterwards |
| Connections.ConnectionManager.constructor | src/main/java/org/programmerplanet/sshtunnel/model/ConnectionManager.java:65-67 | the registry is empty and the socket factory tracks no socket |
| Connections.ConnectionManager.IsConnected | src/main/java/org/programmerplanet/sshtunnel/model/ConnectionManager.java:238-241 | true iff the session has a registry entry and that transport is connected |
| Connections.ConnectionManager.ClearTunnelExceptions | src/main/java/org/programmerplanet/sshtunnel/model/ConnectionManager.java:232-236 | every tunnel of the session has no error afterwards |
| Connections.ConnectionManager.SetUpTransport | src/main/java/org/programmerplanet/sshtunnel/model/ConnectionManager.java:74-100 | a known-hosts or `getSession` failure leaves no transport; a rejected identity (only when an identity path with text is set) fails before a transport exists; a logger failure (only when a debug path with text is set) leaves a fresh, unconnected transport; success yields a fresh, unconnected transport |
| Connections.ConnectionManager.StartTunnel | src/main/java/org/programmerplanet/sshtunnel/model/ConnectionManager.java:154-163 | on success the tunnel's forward is added and, for a local tunnel, its socket opened; on failure nothing changes |
| Connections.ConnectionManager.StopTunnel | src/main/java/org/programmerplanet/sshtunnel/model/ConnectionManager.java:223-230 | on success the tunnel's forwards are removed (local by address and port, remote by port) and a local tunnel's socket is closed; on failure nothing changes |
| Connections.ConnectionManager.StartAt | src/main/java/org/programmerplanet/sshtunnel/model/ConnectionManager.java:144-150 | one loop step: the tunnel's forward and socket are added on success, and its error is set on failure |
| Connections.ConnectionManager.StartTunnels | src/main/java/org/programmerplanet/sshtunnel/model/ConnectionManager.java:143-152 | every tunnel is attempted in order: the forwards and sockets of exactly the successful ones are added, and each tunnel with a failed attempt holds that error while the others keep theirs |
| Connections.ConnectionManager.StopTunnels | src/main/java/org/programmerplanet/sshtunnel/model/ConnectionManager.java:213-221 | every tunnel is attempted in order: the successful stops remove their forwards in sequence and close their sockets; failures change nothing |
| Connections.ConnectionManager.Connect | src/main/java/org/programmerplanet/sshtunnel/model/ConnectionManager.java:69-133 | on success the session maps to its reused or fresh transport, which is connected and gains exactly the forwards and sockets of the started tunnels, with errors only on the failed tunnels; on any failure the registry and sockets are unchanged and every tunnel error is cleared; the null-reference path arises only for an unregistered session; a failed reconnect leaves the registered transport disconnected with no forwards |
| Connections.ConnectionManager.Disconnect | src/main/java/org/programmerplanet/sshtunnel/model/ConnectionManager.java:202-211 | the entry is removed whether or not it existed; every tunnel error is cleared; a registered transport ends disconnected with no forwards, and the sockets of the successfully stopped tunnels are closed; other sessions' connectivity is unchanged |
| Connections.ConnectionManager.UpdateTunnelIfSessionConnected | src/main/java/org/programmerplanet/sshtunnel/model/ConnectionManager.java:165-188 | nothing happens and 0 is returned unless the session is connected; START and STOP run one attempt; CHANGE stops the previous tunnel and starts the new one only if that stop succeeded; a failed attempt returns -1; CHANGE with no previous tunnel escapes as a null-reference error |
| Connections.ConnectionManager.StartTunnelIfSessionConnected | src/main/java/org/programmerplanet/sshtunnel/model/ConnectionManager.java:190-192 | a connected session gets the tunnel's forward on success; otherwise nothing changes |
| Connections.ConnectionManager.StopTunnelIfSessionConnected | src/main/java/org/programmerplanet/sshtunnel/model/ConnectionManager.java:194-196 | a connected session loses the tunnel's forwards on success; otherwise nothing changes |
| Connections.ConnectionManager.ChangeTunnelIfSessionConnected | src/main/java/org/programmerplanet/sshtunnel/model/ConnectionManager.java:198-200 | returns the status of the stop-then-start replacement: 0 when not connected or when both attempts succeed, -1 when either fails (the start is skipped after a failed stop); no previous tunnel escapes as a null-reference error |
| Monitors.StatusObserver.ShowDisconnectedMessage | src/main/java/org/programmerplanet/sshtunnel/ui/SessionConnectionMonitor.java:67 | the session is appended to the messages shown |
| Monitors.StatusObserver.ConnectionStatusChanged | src/main/java/org/programmerplanet/sshtunnel/ui/SessionConnectionMonitor.java:75 | one more status-changed signal is counted |
| Monitors.SessionConnectionMonitor.constructor | src/main/java/org/programmerplanet/sshtunnel/ui/SessionConnectionMonitor.java:33-35 | the default interval is 10000 ms, the map is empty, there is no thread, the stop flag is clear and no observer is set |
| Monitors.SessionConnectionMonitor.WithInterval | src/main/java/org/programmerplanet/sshtunnel/ui/SessionConnectionMonitor.java:37-41 | the given interval is kept, with the same initial state |
| Monitors.SessionConnectionMonitor.AddSession | src/main/java/org/programmerplanet/sshtunnel/ui/SessionConnectionMonitor.java:43-45 | the name maps to the session, replacing any earlier entry; nothing else changes |
| Monitors.SessionConnectionMonitor.RemoveSession | src/main/java/org/programmerplanet/sshtunnel/ui/SessionConnectionMonitor.java:47-49 | the name is gone, and an absent name leaves the map as it was |
| Monitors.SessionConnectionMonitor.SetSshTunnelComposite | src/main/java/org/programmerplanet/sshtunnel/ui/SessionConnectionMonitor.java:85-87 | the last registered observer wins |
| Monitors.SessionConnectionMonitor.StartMonitor | src/main/java/org/programmerplanet/sshtunnel/ui/SessionConnectionMonitor.java:89-97 | without a thread, a fresh thread is created and the stop flag cleared; with one, it is a no-op |
| Monitors.SessionConnectionMonitor.StopMonitor | src/main/java/org/programmerplanet/sshtunnel/ui/SessionConnectionMonitor.java:99-110 | with a thread, the stop flag is set and the thread dropped; without one, it is a no-op, so a second stop changes nothing and a later start is allowed |
| Monitors.SessionConnectionMonitor.Evict | src/main/java/org/programmerplanet/sshtunnel/ui/SessionConnectionMonitor.java:61-71 | the entry is removed from the map and the registry; a registered transport ends disconnected with no forwards, and exactly the sockets of its successfully stopped tunnels are closed; its tunnel errors are cleared; one message is posted; every other registered transport is unchanged |
| Monitors.SessionConnectionMonitor.EvictIfDisconnected | src/main/java/org/programmerplanet/sshtunnel/ui/SessionConnectionMonitor.java:59-72 | an entry not reported connected is disconnected, announced once and removed, closing only sockets of its own local tunnels; a connected entry, its transport, its tunnel errors and the tracked sockets are left as they were and nothing is announced; every transport still registered is unchanged, and so is the error of every tunnel outside that entry |
| Monitors.SessionConnectionMonitor.ProgressStep | src/main/java/org/programmerplanet/sshtunnel/ui/SessionConnectionMonitor.java:58-73 | visiting one more name keeps the sweep's progress: map, registry and messages match the names visited so far |
| Monitors.SessionConnectionMonitor.KeptStep | src/main/java/org/programmerplanet/sshtunnel/ui/SessionConnectionMonitor.java:58-73 | visiting one more name keeps what the sweep leaves alone: transports still registered are as at the start, and the only sockets closed belong to evicted sessions |
| Monitors.SessionConnectionMonitor.SweepStep | src/main/java/org/programmerplanet/sshtunnel/ui/SessionConnectionMonitor.java:58-73 | one iteration evicts the name exactly when it was not connected at the start of the sweep; it keeps the sweep's progress, leaves the registered transports and the other sockets alone, and touches only the tunnel errors of the evicted session; the next sweep state it returns differs from the old one only in the visit bookkeeping |
| Monitors.SessionConnectionMonitor.Begin | src/main/java/org/programmerplanet/sshtunnel/ui/SessionConnectionMonitor.java:56-57 | the sweep about to start: every name pending, nothing visited or evicted, and snapshots of the map, the registry, its transports, the sockets, the tunnel errors and the messages as they are now; the names alive are exactly those whose session is registered and connected |
| Monitors.SessionConnectionMonitor.Started | src/main/java/org/programmerplanet/sshtunnel/ui/SessionConnectionMonitor.java:56-57 | the sweep about to start has achieved nothing and left everything alone: no entry evicted, no socket closed, every tunnel error as it is |
| Monitors.SessionConnectionMonitor.VisitAll | src/main/java/org/programmerplanet/sshtunnel/ui/SessionConnectionMonitor.java:57-73 | the loop visits every pending name, ends with nothing pending, keeps progress, what it left alone and the tunnel errors it may touch, and `anyRemoved` holds iff some name was evicted |
| Monitors.SessionConnectionMonitor.Finished | src/main/java/org/programmerplanet/sshtunnel/ui/SessionConnectionMonitor.java:56-73 | a finished sweep has visited every name once and evicted exactly the names not alive, and it leaves what `Swept` states: exactly the alive entries, still connected; every registered transport as at the start; only sockets and tunnel errors of evicted sessions touched |
| Monitors.SessionConnectionMonitor.SweepOutcome | src/main/java/org/programmerplanet/sshtunnel/ui/SessionConnectionMonitor.java:56-76 | what a finished sweep leaves, restated against the monitor's state when the sweep began: survivors, registry, connectivity, transports, sockets and tunnel errors as in `Sweep` |
| Monitors.SessionConnectionMonitor.Sweep | src/main/java/org/programmerplanet/sshtunnel/ui/SessionConnectionMonitor.java:56-76 | every name is visited once; the map keeps exactly the entries connected at the start; exactly the others leave the registry; one message per evicted session in visit order; `anyRemoved` iff something was evicted; one status-changed signal iff an observer is set and something was evicted; every session connected at the start is still connected, every transport still registered keeps its connection flag and forwards, the only tracked sockets closed belong to local tunnels of evicted sessions, and none is closed when nothing was evicted; the tunnels of evicted sessions end with no error, and every other tunnel of a monitored session keeps the error it had |
| Monitors.TallyStep | src/main/java/org/programmerplanet/sshtunnel/ui/SessionConnectionMonitor.java:58-73 | visiting a pending name moves it to the visited names, and to the evicted ones exactly when it was not alive, extending the message order by its session |
| Monitors.SweepEnd | src/main/java/org/programmerplanet/sshtunnel/ui/SessionConnectionMonitor.java:57-73 | when nothing is pending, the evicted names are exactly the names not alive, and the visit order enumerates the map |
| Monitors.ErrorsKeptStep | src/main/java/org/programmerplanet/sshtunnel/ui/SessionConnectionMonitor.java:59-72 | one more visit keeps the tunnel errors in line with the sweep: the tunnels of an evicted session end with no error, and every other tunnel keeps the error it had at the start |
| Monitors.TunnelsOfNamesAdd | src/main/java/org/programmerplanet/sshtunnel/ui/SessionConnectionMonitor.java:61 | evicting one more name adds exactly its session's tunnels to those whose errors the sweep clears |
| Monitors.SocketsOfNamesAdd | src/main/java/org/programmerplanet/sshtunnel/ui/SessionConnectionMonitor.java:61 | evicting one more name adds exactly its session's local-tunnel sockets to those the sweep may close |
| Monitors.SessionsOfAdd | src/main/java/org/programmerplanet/sshtunnel/ui/SessionConnectionMonitor.java:61 | evicting one more name removes exactly its session from the registry's key set |
| Monitors.EvictedNamesSnoc | src/main/java/org/programmerplanet/sshtunnel/ui/SessionConnectionMonitor.java:58-72 | visiting one more name adds it to the evicted names exactly when it is a monitored name not alive |
| Monitors.EvictedCountPrefix | src/main/java/org/programmerplanet/sshtunnel/ui/SessionConnectionMonitor.java:65-69 | over distinct visited names, the messages posted number exactly the visited names evicted |
| Monitors.EvictedCount | src/main/java/org/programmerplanet/sshtunnel/ui/SessionConnectionMonitor.java:65-69 | a whole sweep posts exactly one message per evicted entry |
| Monitors.SweepPartitions | src/main/java/org/programmerplanet/sshtunnel/ui/SessionConnectionMonitor.java:57-73 | the surviving map holds exactly the alive names; it equals the old map iff nothing was evicted; a second sweep with the same liveness evicts nothing more |

## Left out

- JSch internals: key loading, known-hosts checks, ciphers, compression,
  keep-alive and the user-info prompt (`ConnectionManager.java:76-123`).
  They are configuration of a foreign library with no effect on the
  registry. Only their success or failure is modelled.
- `getSessionException` (`ConnectionManager.java:243-258`): it opens a
  remote exec channel as a liveness probe, which is network I/O.
- The `SshLogger` file handler and all logging: I/O with no effect on state.
- The monitor's thread, `Thread.sleep`, the `while (!threadStopped)` outer
  loop, `Display.asyncExec` and the start/stop lock. Concurrency and timing
  are not modelled: a sweep is one sequential method, and the two
  notifications are recorded on the observer immediately.
- The process-wide singletons (`getInstance`). The monitor is given its
  manager explicitly.
- Transports.Transport.Disconnect: it never fails. JSch's `disconnect`
  declares no checked exception and is called outside any `try`.
- Sessions.CompareStrings: it compares Unicode scalar values, not the UTF-16
  code units that `String.compareTo` compares. The two orders differ only on
  characters outside the Basic Multilingual Plane.
- Tunnels: a tunnel's identity is its object reference. `Tunnel`'s own
  equality is not part of this model.
- The session as a registry key is an immutable value. The source's
  `Session` has mutable fields, and a session mutated while registered
  would no longer be found in the hash map. The model does not capture that.
- Connections.ConnectionManager.Disconnect: when the transport disconnects,
  sockets of tunnels whose stop failed stay tracked in the factory, as in the
  source. The model states this, but does not model the OS releasing them.
- Monitors.SessionConnectionMonitor.Sweep: over the whole sweep it states
  only bounds on the sockets closed (a subset of the evicted sessions' local
  sockets), not which ones exactly. It also leaves out the final state of
  evicted transports. `Evict` and `EvictIfDisconnected` state both exactly
  for each single eviction.
- The listener interfaces `TunnelChangeListener` and `SessionChangeListener`:
  callers of the core, not part of it.
