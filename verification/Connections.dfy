/**
 * The socket table of a connection manager, on values, and what one manager that holds
 * every socket answers. This is the single-process meaning of presence.
 */
module Connections {
  import opened Basics

  // A WebSocket lives in exactly one backend process.
  datatype Socket = Socket(host: InstanceId, serial: nat)

  // A user without sockets has no entry.
  type SocketTable = map<UserId, set<Socket>>

  function SocketsOf(t: SocketTable, u: UserId): set<Socket> {
    if u in t then t[u] else {}
  }

  function Added(t: SocketTable, u: UserId, s: Socket): SocketTable {
    t[u := SocketsOf(t, u) + {s}]
  }

  function Removed(t: SocketTable, u: UserId, s: Socket): SocketTable {
    if SocketsOf(t, u) - {s} == {} then t - {u} else t[u := t[u] - {s}]
  }

  // What a lone manager returns: was the user offline before, is the user offline now.
  predicate FirstSocket(t: SocketTable, u: UserId) {
    u !in t
  }

  predicate LastSocket(t: SocketTable, u: UserId, s: Socket) {
    u in t && u !in Removed(t, u, s)
  }

  ghost predicate NoEmptyEntry(t: SocketTable) {
    forall u :: u in t ==> t[u] != {}
  }
}
