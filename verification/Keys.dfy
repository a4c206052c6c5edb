/**
 The composite keys "serverID:requestID" that scope pending requests, log sessions,
 terminal sessions and log-tail slots to one server.
 */
module Keys {

  predicate HasPrefix(s: string, prefix: string) {
    |prefix| <= |s| && s[..|prefix|] == prefix
  }

  predicate ColonFree(s: string) {
    ':' !in s
  }

  function MakeKey(serverID: string, requestID: string): string {
    serverID + ":" + requestID
  }

  /** A scan for "a:" finds a key of server b only when a and b are the same server. */
  lemma PrefixIffSameServer(a: string, b: string, r: string)
    requires ColonFree(a) && ColonFree(b)
    ensures HasPrefix(MakeKey(b, r), a + ":") <==> a == b
  {
    var key := MakeKey(b, r);
    var p := a + ":";
    assert key[|b|] == ':' && key[..|b|] == b && p[|a|] == ':' && p[..|a|] == a;
    if HasPrefix(key, p) {
      assert forall i :: 0 <= i < |p| ==> key[i] == p[i];
      assert |a| == |b|;
      assert a == key[..|a|] == b;
    }
  }

  /** Two (server, request) pairs share a key only when they are the same pair. */
  lemma MakeKeyInjective(a: string, r: string, b: string, q: string)
    requires ColonFree(a) && ColonFree(b)
    ensures MakeKey(a, r) == MakeKey(b, q) <==> a == b && r == q
  {
    if MakeKey(a, r) == MakeKey(b, q) {
      PrefixIffSameServer(a, b, q);
      PrefixIffSameServer(a, a, r);
      assert MakeKey(a, r)[|a| + 1..] == r && MakeKey(b, q)[|b| + 1..] == q;
    }
  }

  /**
   Without the colon-free condition the scopes of two servers can overlap. They overlap
   exactly when one server's prefix extends the other's.
   */
  lemma ScopesOverlapIff(a: string, b: string)
    ensures (exists r :: HasPrefix(MakeKey(b, r), a + ":")) <==>
            HasPrefix(a + ":", b + ":") || HasPrefix(b + ":", a + ":")
  {
    var pa, pb := a + ":", b + ":";
    if HasPrefix(pa, pb) {
      var r := pa[|pb|..];
      assert MakeKey(b, r) == pb + r == pa;
      assert HasPrefix(MakeKey(b, r), pa);
    }
    if HasPrefix(pb, pa) {
      assert MakeKey(b, "") == pb;
      assert HasPrefix(MakeKey(b, ""), pa);
    }
    forall r | HasPrefix(MakeKey(b, r), pa)
      ensures HasPrefix(pa, pb) || HasPrefix(pb, pa)
    {
      var key := MakeKey(b, r);
      assert key[..|pb|] == pb;
      if |pa| <= |pb| {
        assert pb[..|pa|] == key[..|pa|];
      } else {
        assert pa[..|pb|] == key[..|pb|];
      }
    }
  }
}
