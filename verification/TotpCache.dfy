/** The cache of used one-time codes, proved against TotpModel. */
module TotpCache {
  import opened Keys
  import opened TotpModel
  import Model = TotpModel

  class TotpUsedCodes {
    var codes: map<string, int>

    constructor ()
      ensures codes == map[]
    {
      codes := map[];
    }

    /** True exactly for a code that is not in the cache; it is then marked and the stale entries are dropped. */
    method CheckAndMark(user: string, code: string, now: int) returns (unused: bool)
      modifies this
      ensures (codes, unused) == Model.CheckAndMark(RETENTION, old(codes), user, code, now)
    {
      var key := MakeKey(user, code);
      if key in codes {
        return false;
      }
      codes := codes[key := now];
      ghost var marked := codes;
      var left := codes.Keys;
      while left != {}
        invariant left <= codes.Keys <= marked.Keys
        invariant forall k :: k in codes ==> codes[k] == marked[k]
        invariant forall k :: k in marked && k !in left ==> (k in codes <==> !(now - marked[k] > RETENTION))
      {
        var k :| k in left;
        if now - codes[k] > RETENTION {
          codes := codes - {k};
        }
        left := left - {k};
      }
      assert codes == Kept(RETENTION, marked, now);
      unused := true;
    }
  }
}
