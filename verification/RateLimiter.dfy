/** The login rate limiter with its attempts table, proved against LimiterModel. */
module RateLimiter {
  import opened Options
  import opened LimiterModel
  import Model = LimiterModel

  /** Compacts a list in the array it lives in: the times after the cutoff move to the front, in order. */
  method CompactInPlace(a: array<int>, cutoff: int) returns (n: nat)
    modifies a
    ensures n <= a.Length
    ensures a[..n] == Unexpired(old(a[..]), cutoff)
  {
    n := 0;
    var i := 0;
    while i < a.Length
      invariant 0 <= n <= i <= a.Length
      invariant a[i..] == old(a[i..])
      invariant a[..n] == Unexpired(old(a[..i]), cutoff)
    {
      assert old(a[..i + 1])[..i] == old(a[..i]);
      assert a[i] == old(a[i]);
      if a[i] > cutoff {
        a[n] := a[i];
        n := n + 1;
      }
      i := i + 1;
    }
    assert old(a[..i]) == old(a[..]);
  }

  class Limiter {
    var attempts: map<string, seq<int>>
    const limit: nat
    const window: nat
    const maxTracked: nat := MAX_TRACKED

    ghost function Cfg(): Config {
      Config(limit, window, maxTracked)
    }

    ghost predicate Valid()
      reads this
    {
      forall ip :: ip in attempts ==> attempts[ip] != []
    }

    constructor (limit: nat, window: nat)
      ensures Valid() && attempts == map[] && Cfg() == Config(limit, window, 100000)
    {
      this.limit, this.window := limit, window;
      attempts := map[];
    }

    /** Deletes the other address with the oldest last attempt, unless that address is the empty string. */
    method EvictOldest(skip: string) returns (ghost victim: Option<string>)
      requires Valid()
      modifies this`attempts
      ensures Valid() && MayEvict(old(attempts), skip, victim)
      ensures attempts == Without(old(attempts), victim)
    {
      var oldestKey := "";
      var oldestTime := 0;
      var first := true;
      var keys := attempts.Keys;
      while keys != {}
        invariant keys <= attempts.Keys && attempts == old(attempts)
        invariant first ==> forall j :: j in attempts && j !in keys ==> j == skip
        invariant !first ==>
          && oldestKey in attempts && oldestKey != skip
          && oldestTime == attempts[oldestKey][|attempts[oldestKey]| - 1]
          && forall j :: j in attempts && j !in keys && j != skip ==> oldestTime <= attempts[j][|attempts[j]| - 1]
        invariant first ==> oldestKey == ""
      {
        var k :| k in keys;
        keys := keys - {k};
        if k != skip {
          var last := attempts[k][|attempts[k]| - 1];
          if first || last < oldestTime {
            oldestKey, oldestTime, first := k, last, false;
          }
        }
      }
      if oldestKey != "" {
        attempts := attempts - {oldestKey};
        victim := Some(oldestKey);
      } else {
        victim := None;
      }
    }

    /** Drops the address's expired times, and its entry when none is left. */
    method DropExpired(ip: string, cutoff: int) returns (valid: seq<int>)
      requires Valid()
      modifies this`attempts
      ensures Valid() && valid == Unexpired(Get(old(attempts), ip), cutoff)
      ensures attempts == Compacted(old(attempts), ip, valid)
    {
      var slice := if ip in attempts then attempts[ip] else [];
      var backing := new int[|slice|](i requires 0 <= i < |slice| => slice[i]);
      assert backing[..] == slice;
      var n := CompactInPlace(backing, cutoff);
      valid := backing[..n];
      if |valid| == 0 {
        attempts := attempts - {ip};
      } else {
        attempts := attempts[ip := valid];
      }
    }

    /** Records one more allowed call, making room first when the table is full. */
    method Admit(ip: string, valid: seq<int>, now: int) returns (ghost victim: Option<string>)
      requires Valid()
      modifies this`attempts
      ensures Valid()
      ensures var m := old(attempts);
              && (|m| >= maxTracked ==> MayEvict(m, ip, victim))
              && attempts == (if |m| >= maxTracked then Without(m, victim) else m)[ip := valid + [now]]
    {
      victim := None;
      if |attempts| >= maxTracked {
        victim := EvictOldest(ip);
      }
      attempts := attempts[ip := valid + [now]];
    }

    method Allow(ip: string, now: int) returns (ok: bool, ghost victim: Option<string>)
      requires Valid()
      modifies this`attempts
      ensures Valid()
      ensures (attempts, ok) == Model.Allow(Cfg(), old(attempts), ip, now, victim)
      ensures MayCall(Cfg(), old(attempts), ip, Model.Valid(Cfg(), old(attempts), ip, now), victim)
    {
      var valid := DropExpired(ip, now - window);
      if |valid| >= limit {
        return false, None;
      }
      victim := Admit(ip, valid, now);
      ok := true;
    }
  }
}
