/** The connection registry with its connection objects, and the sweep, proved against ConnModel. */
module ConnManager {
  import opened ConnModel
  import Model = ConnModel

  /** A connection; the registry and its readers share the object. */
  class AgentConn {
    const stream: nat
    var lastSeen: int

    constructor (stream: nat, now: int)
      ensures this.stream == stream && lastSeen == now
    {
      this.stream, lastSeen := stream, now;
    }
  }

  class ConnManager {
    var streams: map<string, AgentConn>

    ghost predicate Valid()
      reads this
    {
      forall s, t :: s in streams && t in streams && s != t ==> streams[s] != streams[t]
    }

    ghost function View(): Registry
      reads this, streams.Values
    {
      map s | s in streams :: Conn(streams[s].stream, streams[s].lastSeen)
    }

    constructor ()
      ensures Valid() && View() == map[]
    {
      streams := map[];
    }

    method Register(server: string, stream: nat, now: int)
      requires Valid()
      modifies this
      ensures Valid() && View() == old(View())[server := Conn(stream, now)]
    {
      var c := new AgentConn(stream, now);
      streams := streams[server := c];
    }

    method Unregister(server: string)
      requires Valid()
      modifies this
      ensures Valid() && View() == old(View()) - {server}
    {
      streams := streams - {server};
    }

    method UnregisterIfCurrent(server: string, stream: nat) returns (removed: bool)
      requires Valid()
      modifies this
      ensures Valid() && removed == IsCurrent(old(View()), server, stream)
      ensures View() == if removed then old(View()) - {server} else old(View())
    {
      if server !in streams || streams[server].stream != stream {
        return false;
      }
      streams := streams - {server};
      removed := true;
    }

    method UpdateHeartbeat(server: string, now: int)
      requires Valid()
      modifies streams.Values
      ensures Valid() && streams == old(streams) && View() == Beat(old(View()), server, now)
    {
      if server in streams {
        streams[server].lastSeen := now;
      }
    }

    method StaleConnections(now: int) returns (stale: set<string>)
      requires Valid()
      ensures stale == Model.StaleConnections(View(), now)
    {
      stale := {};
      var left := streams.Keys;
      while left != {}
        invariant left <= streams.Keys
        invariant forall s :: s in stale <==> s in streams && s !in left && Stale(View()[s], now)
      {
        var s :| s in left;
        if streams[s].lastSeen < now - MAX_AGE {
          stale := stale + {s};
        }
        left := left - {s};
      }
    }
  }

  /** The part of the hub server that owns the registry and the stored statuses. */
  class Monitor {
    const conns: ConnManager
    var status: map<string, Status>

    constructor (conns: ConnManager)
      ensures this.conns == conns && status == map[]
    {
      this.conns, status := conns, map[];
    }

    method MarkOffline(server: string)
      modifies this`status
      ensures status == if server in old(status) then old(status)[server := Offline] else old(status)
    {
      if server in status {
        status := status[server := Offline];
      }
    }

    method DropOne(server: string)
      requires conns.Valid()
      modifies this`status, conns
      ensures conns.Valid() && conns.View() == old(conns.View()) - {server}
      ensures status == SetOffline(old(status), {server})
    {
      conns.Unregister(server);
      MarkOffline(server);
    }

    method DropStale(stale: set<string>)
      requires conns.Valid()
      modifies this`status, conns
      ensures conns.Valid()
      ensures conns.View() == old(conns.View()) - stale && status == SetOffline(old(status), stale)
    {
      var left := stale;
      ghost var gone: set<string> := {};
      while left != {}
        invariant gone + left == stale && conns.Valid()
        invariant conns.View() == old(conns.View()) - gone
        invariant status == SetOffline(old(status), gone)
      {
        var s :| s in left;
        SetOfflineMore(old(status), gone, s);
        DropOne(s);
        left := left - {s};
        gone := gone + {s};
      }
      assert gone == stale;
    }

    method MarkAllOffline(servers: set<string>)
      modifies this`status
      ensures status == SetOffline(old(status), servers)
    {
      var left := servers;
      while left != {}
        invariant left <= servers
        invariant status == SetOffline(old(status), servers - left)
      {
        var s :| s in left;
        MarkOffline(s);
        left := left - {s};
      }
      assert servers - left == servers;
    }

    /** Unregisters the stale connections, then marks every online server without a connection offline. */
    method Sweep(now: int)
      requires conns.Valid()
      modifies this`status, conns
      ensures conns.Valid()
      ensures conns.View() == Swept(old(conns.View()), old(status), now).0
      ensures status == Swept(old(conns.View()), old(status), now).1
    {
      var stale := conns.StaleConnections(now);
      DropStale(stale);
      assert conns.View().Keys == conns.streams.Keys;
      var orphans := Orphans(status, conns.streams.Keys);
      MarkAllOffline(orphans);
    }
  }

  lemma SetOfflineMore(status: map<string, Status>, servers: set<string>, s: string)
    ensures SetOffline(SetOffline(status, servers), {s}) == SetOffline(status, servers + {s})
  {
  }
}
