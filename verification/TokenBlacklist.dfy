/** The revoked-token list with its map and its table, proved against BlacklistModel. */
module TokenBlacklist {
  import opened BlacklistModel
  import Model = BlacklistModel
  import opened Units

  class TokenBlacklist {
    var entries: map<string, int>
    var db: map<string, int>  // the token_blacklist table

    ghost function State(): List
      reads this
    {
      List(entries, db)
    }

    /** A process that starts on an existing table. */
    constructor (table: map<string, int>, now: int)
      ensures State() == Restart(List(map[], table), now)
    {
      db := table;
      entries := map j | j in table && Live(table[j], now) :: table[j] * SECOND;
    }

    /** The loop that Add and cleanup share: it deletes exactly the entries that expired before now. */
    method DropExpired(now: int)
      modifies this`entries
      ensures entries == Unexpired(old(entries), now)
    {
      ghost var before := entries;
      var left := entries.Keys;
      while left != {}
        invariant left <= entries.Keys <= before.Keys
        invariant forall j :: j in entries ==> entries[j] == before[j]
        invariant forall j :: j in before && j !in left ==> (j in entries <==> !(now > before[j]))
      {
        var k :| k in left;
        if now > entries[k] {
          entries := entries - {k};
        }
        left := left - {k};
      }
    }

    method Add(jti: string, expiry: int, now: int)
      modifies this
      ensures State() == Model.Add(old(State()), jti, expiry, now)
    {
      entries := entries[jti := expiry];
      DropExpired(now);
      db := db[jti := Seconds(expiry)];
    }

    method Cleanup(now: int)
      modifies this
      ensures State() == Model.Cleanup(old(State()), now)
    {
      DropExpired(now);
      db := map j | j in db && db[j] > Seconds(now) :: db[j];
    }

    /** The answer, and a memory that remembers what the table knew. */
    method IsBlacklisted(jti: string, now: int) returns (revoked: bool)
      modifies this`entries
      ensures revoked == Model.IsBlacklisted(old(State()), jti, now)
      ensures State() == Looked(old(State()), jti, now)
    {
      if jti in entries {
        return true;
      }
      if jti in db && db[jti] > Seconds(now) {
        entries := entries[jti := db[jti] * SECOND];
        return true;
      }
      revoked := false;
    }
  }
}
