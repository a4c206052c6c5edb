/** The slot table of the log streams, proved against the holders it stands for. */
module LogSlots {
  import opened Keys
  import opened LogSlotModel
  import Model = LogSlotModel

  class LogTailSlots {
    var sessions: map<string, nat>
    ghost var holders: seq<Holder>

    ghost predicate Valid()
      reads this
    {
      Represents(sessions, holders) && Servers(holders)
    }

    constructor ()
      ensures Valid() && holders == []
    {
      sessions, holders := map[], [];
    }

    /** The streams on one server, by a scan over all keys. */
    method TotalFor(server: string) returns (total: nat)
      requires Valid() && ColonFree(server)
      ensures total == OnServer(holders, server)
    {
      total := 0;
      var prefix := server + ":";
      var left := sessions.Keys;
      ScanOfNothing(holders, prefix);
      assert sessions.Keys - left == {};
      while left != {}
        invariant left <= sessions.Keys
        invariant total == Scanned(holders, sessions.Keys - left, prefix)
      {
        var k :| k in left;
        ScanOneMore(holders, sessions.Keys - left, prefix, k);
        assert sessions.Keys - (left - {k}) == sessions.Keys - left + {k};
        if HasPrefix(k, prefix) {
          total := total + sessions[k];
        }
        left := left - {k};
      }
      FullScan(holders, sessions, server);
      assert sessions.Keys - {} == sessions.Keys;
    }

    method TryAcquire(server: string, user: string, admin: bool) returns (ok: bool)
      requires Valid() && ColonFree(server)
      modifies this
      ensures Valid()
      ensures ok == MayAcquire(old(holders), Holder(server, user, admin))
      ensures holders == Acquire(old(holders), Holder(server, user, admin))
    {
      ghost var h := Holder(server, user, admin);
      var limit := if admin then MAX_ADMIN else MAX_VIEWER;
      var key := MakeKey(server, user);
      EntryIsOfUser(holders, server, user);
      var total := TotalFor(server);
      if admin {
        if total >= MAX_AGENT {
          return false;
        }
      } else if total >= MAX_AGENT - MAX_ADMIN {
        return false;
      }
      var held := if key in sessions then sessions[key] else 0;
      if held >= limit {
        return false;
      }
      forall k ensures ByKey(holders + [h], k) == ByKey(holders, k) + if k == key then 1 else 0 {
        CountAppend(holders, h, KeyIs(k));
      }
      sessions := sessions[key := held + 1];
      holders := holders + [h];
      ok := true;
    }

    /** Called once by a handler that holds a slot, here the i-th. */
    method Release(server: string, user: string, ghost i: nat)
      requires Valid() && i < |holders| && holders[i].server == server && holders[i].user == user
      modifies this
      ensures Valid() && holders == Model.Release(old(holders), i)
    {
      var key := MakeKey(server, user);
      HeldIsCounted(holders, i);
      forall k ensures ByKey(Model.Release(holders, i), k) == ByKey(holders, k) - if k == key then 1 else 0 {
        CountRelease(holders, i, KeyIs(k));
      }
      if sessions[key] <= 1 {
        sessions := sessions - {key};
      } else {
        sessions := sessions[key := sessions[key] - 1];
      }
      holders := Model.Release(holders, i);
    }
  }
}
