/** The heartbeat coalescer with its map and the column it writes, proved against CoalescerModel. */
module HeartbeatCoalescer {
  import opened CoalescerModel
  import opened Units

  class HeartbeatCoalescer {
    const interval: nat
    var lastWritten: map<string, int>
    var lastSeen: map<string, int>  // the last_seen_at column, in seconds

    ghost function View(): State
      reads this
    {
      State(lastWritten, lastSeen)
    }

    constructor (interval: nat)
      ensures this.interval == interval && View() == State(map[], map[])
    {
      this.interval := interval;
      lastWritten, lastSeen := map[], map[];
    }

    method UpdateServerLastSeen(server: string, now: int)
      modifies this`lastSeen
      ensures lastSeen == Written(old(lastSeen), server, now)
    {
      lastSeen := lastSeen[server := now / SECOND];
    }

    /** True exactly when the heartbeat was written. */
    method RecordHeartbeat(server: string, now: int) returns (written: bool)
      modifies this
      ensures written == Due(interval, old(lastWritten), server, now)
      ensures View() == Step(interval, old(View()), Heartbeat(server), now)
    {
      if server in lastWritten && now - lastWritten[server] < interval {
        return false;
      }
      lastWritten := lastWritten[server := now];
      UpdateServerLastSeen(server, now);
      written := true;
    }

    method ForceWrite(server: string, now: int)
      modifies this
      ensures View() == Step(interval, old(View()), Force(server), now)
    {
      lastWritten := lastWritten[server := now];
      UpdateServerLastSeen(server, now);
    }

    method FlushOne(server: string, now: int)
      modifies this
      ensures View() == Step(interval, old(View()), Flush(server), now)
    {
      lastWritten := lastWritten - {server};
      UpdateServerLastSeen(server, now);
    }

    /** Writes every tracked server and forgets them all. */
    method FlushEverything(now: int)
      modifies this
      ensures View() == Step(interval, old(View()), FlushAll, now)
    {
      ghost var tracked, before := lastWritten.Keys, lastSeen;
      var ids := lastWritten.Keys;
      lastWritten := map[];
      while ids != {}
        invariant ids <= tracked && lastWritten == map[]
        invariant lastSeen.Keys == before.Keys + (tracked - ids)
        invariant forall x :: x in lastSeen ==> lastSeen[x] == if x in tracked - ids then now / SECOND else before[x]
      {
        var id :| id in ids;
        UpdateServerLastSeen(id, now);
        ids := ids - {id};
      }
    }
  }
}
