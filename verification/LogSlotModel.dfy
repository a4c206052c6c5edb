/**
 How many log streams may be open (tryAcquireLogTailSlot and releaseLogTailSlot in
 hub/internal/server/handlers_logs.go), stated over the handlers that currently hold a slot.
 */
module LogSlotModel {
  import opened Keys

  const MAX_AGENT := 50
  const MAX_ADMIN := 10
  const MAX_VIEWER := 5

  /** A handler that holds a slot: its server, its user, and whether it asked as an administrator. */
  datatype Holder = Holder(server: string, user: string, admin: bool)

  function Count(hs: seq<Holder>, p: Holder -> bool): nat {
    if hs == [] then 0 else Count(hs[..|hs| - 1], p) + if p(hs[|hs| - 1]) then 1 else 0
  }

  function Of(server: string): Holder -> bool { (h: Holder) => h.server == server }
  function OfTheUser(server: string, user: string): Holder -> bool { (h: Holder) => h.server == server && h.user == user }
  function ViewerOf(server: string): Holder -> bool { (h: Holder) => h.server == server && !h.admin }
  function AdminOf(server: string): Holder -> bool { (h: Holder) => h.server == server && h.admin }
  function ViewerIs(server: string, user: string): Holder -> bool {
    (h: Holder) => h.server == server && h.user == user && !h.admin
  }

  function OnServer(hs: seq<Holder>, server: string): nat { Count(hs, Of(server)) }
  function OfUser(hs: seq<Holder>, server: string, user: string): nat { Count(hs, OfTheUser(server, user)) }
  function Viewers(hs: seq<Holder>, server: string): nat { Count(hs, ViewerOf(server)) }
  function AsViewer(hs: seq<Holder>, server: string, user: string): nat { Count(hs, ViewerIs(server, user)) }
  function Admins(hs: seq<Holder>, server: string): nat { Count(hs, AdminOf(server)) }

  predicate MayAcquire(hs: seq<Holder>, h: Holder) {
    && OnServer(hs, h.server) < (if h.admin then MAX_AGENT else MAX_AGENT - MAX_ADMIN)
    && OfUser(hs, h.server, h.user) < (if h.admin then MAX_ADMIN else MAX_VIEWER)
  }

  function Acquire(hs: seq<Holder>, h: Holder): seq<Holder> {
    if MayAcquire(hs, h) then hs + [h] else hs
  }

  function Release(hs: seq<Holder>, i: nat): seq<Holder> {
    if i < |hs| then hs[..i] + hs[i + 1..] else hs
  }

  datatype Action = DoAcquire(h: Holder) | DoRelease(i: nat)

  datatype Run = Start | Then(before: Run, a: Action)

  function After(run: Run): seq<Holder> {
    match run
    case Start => []
    case Then(before, DoAcquire(h)) => Acquire(After(before), h)
    case Then(before, DoRelease(i)) => Release(After(before), i)
  }

  // ---- counting ----

  lemma CountAppend(hs: seq<Holder>, h: Holder, p: Holder -> bool)
    ensures Count(hs + [h], p) == Count(hs, p) + if p(h) then 1 else 0
  {
    assert (hs + [h])[..|hs|] == hs;
  }

  lemma {:induction false} CountSum(a: seq<Holder>, b: seq<Holder>, p: Holder -> bool)
    ensures Count(a + b, p) == Count(a, p) + Count(b, p)
  {
    if b == [] {
      assert a + b == a;
    } else {
      CountSum(a, b[..|b| - 1], p);
      assert a + b == (a + b[..|b| - 1]) + [b[|b| - 1]];
      CountAppend(a + b[..|b| - 1], b[|b| - 1], p);
    }
  }

  lemma CountRelease(hs: seq<Holder>, i: nat, p: Holder -> bool)
    requires i < |hs|
    ensures Count(Release(hs, i), p) == Count(hs, p) - if p(hs[i]) then 1 else 0
  {
    var front, h, back := hs[..i], hs[i], hs[i + 1..];
    CountAppend(front, h, p);
    CountSum(front + [h], back, p);
    CountSum(front, back, p);
    assert hs == front + [h] + back;
  }

  lemma {:induction false} CountImplies(hs: seq<Holder>, p: Holder -> bool, q: Holder -> bool)
    requires forall h :: p(h) ==> q(h)
    ensures Count(hs, p) <= Count(hs, q)
  {
    if hs != [] {
      CountImplies(hs[..|hs| - 1], p, q);
    }
  }

  lemma {:induction false} CountSplits(hs: seq<Holder>, p: Holder -> bool, q: Holder -> bool, r: Holder -> bool)
    requires forall h :: r(h) <==> (p(h) || q(h))
    requires forall h :: !(p(h) && q(h))
    ensures Count(hs, r) == Count(hs, p) + Count(hs, q)
  {
    if hs != [] {
      CountSplits(hs[..|hs| - 1], p, q, r);
    }
  }

  lemma {:induction false} CountExtensional(hs: seq<Holder>, p: Holder -> bool, q: Holder -> bool)
    requires forall h :: p(h) <==> q(h)
    ensures Count(hs, p) == Count(hs, q)
  {
    if hs != [] {
      CountExtensional(hs[..|hs| - 1], p, q);
    }
  }

  // ---- the limits ----

  predicate Within(hs: seq<Holder>, server: string, user: string) {
    && OnServer(hs, server) <= MAX_AGENT
    && Viewers(hs, server) <= MAX_AGENT - MAX_ADMIN
    && OfUser(hs, server, user) <= MAX_ADMIN
    && AsViewer(hs, server, user) <= MAX_VIEWER
  }

  lemma ViewersAreHolders(hs: seq<Holder>, server: string, user: string)
    ensures Viewers(hs, server) <= OnServer(hs, server)
    ensures AsViewer(hs, server, user) <= OfUser(hs, server, user)
  {
    CountImplies(hs, ViewerOf(server), Of(server));
    CountImplies(hs, ViewerIs(server, user), OfTheUser(server, user));
  }

  lemma OneMore(hs: seq<Holder>, h: Holder, server: string, user: string)
    ensures OnServer(hs + [h], server) == OnServer(hs, server) + if h.server == server then 1 else 0
    ensures OfUser(hs + [h], server, user) == OfUser(hs, server, user) + if h.server == server && h.user == user then 1 else 0
    ensures Viewers(hs + [h], server) == Viewers(hs, server) + if h.server == server && !h.admin then 1 else 0
    ensures AsViewer(hs + [h], server, user) ==
            AsViewer(hs, server, user) + if h.server == server && h.user == user && !h.admin then 1 else 0
  {
    CountAppend(hs, h, Of(server));
    CountAppend(hs, h, OfTheUser(server, user));
    CountAppend(hs, h, ViewerOf(server));
    CountAppend(hs, h, ViewerIs(server, user));
  }

  lemma AcquireKeepsLimits(hs: seq<Holder>, h: Holder, server: string, user: string)
    requires Within(hs, server, user)
    ensures Within(Acquire(hs, h), server, user)
  {
    OneMore(hs, h, server, user);
    ViewersAreHolders(hs, server, user);
  }

  lemma ReleaseKeepsLimits(hs: seq<Holder>, i: nat, server: string, user: string)
    requires Within(hs, server, user)
    ensures Within(Release(hs, i), server, user)
  {
    if i < |hs| {
      CountRelease(hs, i, Of(server));
      CountRelease(hs, i, OfTheUser(server, user));
      CountRelease(hs, i, ViewerOf(server));
      CountRelease(hs, i, ViewerIs(server, user));
    }
  }

  /**
   In every run: at most 50 streams per server, at most 40 of them taken by non-administrators, at most
   10 per user and at most 5 of a user's taken as a non-administrator.
   */
  lemma {:induction false} LimitsAlwaysHold(run: Run, server: string, user: string)
    ensures Within(After(run), server, user)
    ensures var hs := After(run);
            && OnServer(hs, server) <= 50 && Viewers(hs, server) <= 40
            && OfUser(hs, server, user) <= 10 && AsViewer(hs, server, user) <= 5
  {
    if run.Then? {
      LimitsAlwaysHold(run.before, server, user);
      match run.a
      case DoAcquire(h) => AcquireKeepsLimits(After(run.before), h, server, user);
      case DoRelease(i) => ReleaseKeepsLimits(After(run.before), i, server, user);
    }
  }

  /** The same handler's first k requests, one after the other. */
  function Requests(hs: seq<Holder>, h: Holder, k: nat): seq<Holder> {
    if k == 0 then hs else Acquire(Requests(hs, h, k - 1), h)
  }

  lemma AcquireCounts(hs: seq<Holder>, h: Holder)
    requires MayAcquire(hs, h)
    ensures OfUser(Acquire(hs, h), h.server, h.user) == OfUser(hs, h.server, h.user) + 1
    ensures OnServer(Acquire(hs, h), h.server) == OnServer(hs, h.server) + 1
  {
    CountAppend(hs, h, OfTheUser(h.server, h.user));
    CountAppend(hs, h, Of(h.server));
  }

  lemma {:induction false} RequestsSucceed(hs: seq<Holder>, h: Holder, k: nat)
    requires OfUser(hs, h.server, h.user) == 0 && k <= (if h.admin then MAX_ADMIN else MAX_VIEWER)
    requires OnServer(hs, h.server) + k <= (if h.admin then MAX_AGENT else MAX_AGENT - MAX_ADMIN)
    ensures var got := Requests(hs, h, k);
            && OfUser(got, h.server, h.user) == k && OnServer(got, h.server) == OnServer(hs, h.server) + k
  {
    if k > 0 {
      var before := Requests(hs, h, k - 1);
      RequestsSucceed(hs, h, k - 1);
      AcquireCounts(before, h);
    }
  }

  /**
   However the run went, while no administrator holds a slot on the server, one that holds none gets
   ten in a row and is refused the eleventh: viewers cannot use up what is kept for administrators.
   */
  lemma AdministratorGetsTen(run: Run, h: Holder)
    requires h.admin && Admins(After(run), h.server) == 0 && OfUser(After(run), h.server, h.user) == 0
    ensures forall k :: 0 <= k <= 10 ==> (MayAcquire(Requests(After(run), h, k), h) <==> k < 10)
  {
    var hs := After(run);
    LimitsAlwaysHold(run, h.server, h.user);
    CountSplits(hs, AdminOf(h.server), ViewerOf(h.server), Of(h.server));
    forall k | 0 <= k <= 10 ensures MayAcquire(Requests(hs, h, k), h) <==> k < 10 {
      RequestsSucceed(hs, h, k);
    }
  }

  /**
   A viewer who holds none gets five in a row and not a sixth, as long as the server has room: its next
   request is granted exactly while fewer than 40 streams are open there.
   */
  lemma ViewerGetsFive(run: Run, h: Holder)
    requires !h.admin && OfUser(After(run), h.server, h.user) == 0
    ensures var open := OnServer(After(run), h.server);
            && (forall k :: 0 <= k <= 5 && open + k <= 40 ==>
                 (MayAcquire(Requests(After(run), h, k), h) <==> k < 5 && open + k < 40))
            && (open < 36 ==> |Requests(After(run), h, 5)| == |After(run)| + 5)
  {
    var hs := After(run);
    forall k | 0 <= k <= 5 && OnServer(hs, h.server) + k <= 40
      ensures MayAcquire(Requests(hs, h, k), h) <==> k < 5 && OnServer(hs, h.server) + k < 40
    {
      RequestsSucceed(hs, h, k);
    }
    if OnServer(hs, h.server) < 36 {
      RequestsGrow(hs, h, 5);
    }
  }

  lemma {:induction false} RequestsGrow(hs: seq<Holder>, h: Holder, k: nat)
    requires forall j {:trigger Requests(hs, h, j)} :: 0 <= j < k ==> MayAcquire(Requests(hs, h, j), h)
    ensures |Requests(hs, h, k)| == |hs| + k
  {
    if k > 0 {
      RequestsGrow(hs, h, k - 1);
      assert MayAcquire(Requests(hs, h, k - 1), h);
    }
  }

  // ---- the table ----

  function KeyOf(h: Holder): string { MakeKey(h.server, h.user) }

  function KeyIs(key: string): Holder -> bool { (h: Holder) => KeyOf(h) == key }

  function ByKey(hs: seq<Holder>, key: string): nat { Count(hs, KeyIs(key)) }

  /** The table holds exactly the holders: no entry for anyone who holds nothing. */
  ghost predicate Represents(table: map<string, nat>, hs: seq<Holder>) {
    forall k :: (k in table <==> ByKey(hs, k) > 0) && (k in table ==> table[k] == ByKey(hs, k))
  }

  ghost predicate Servers(hs: seq<Holder>) {
    forall i :: 0 <= i < |hs| ==> ColonFree(hs[i].server)
  }

  function KeyAmong(keys: set<string>, prefix: string): Holder -> bool {
    (h: Holder) => KeyOf(h) in keys && HasPrefix(KeyOf(h), prefix)
  }

  /** The holders whose key is in this set and starts with the prefix. */
  function Scanned(hs: seq<Holder>, keys: set<string>, prefix: string): nat {
    Count(hs, KeyAmong(keys, prefix))
  }

  lemma {:induction false} ScanOfNothing(hs: seq<Holder>, prefix: string)
    ensures Scanned(hs, {}, prefix) == 0
  {
    if hs != [] {
      ScanOfNothing(hs[..|hs| - 1], prefix);
    }
  }

  lemma ScanOneMore(hs: seq<Holder>, keys: set<string>, prefix: string, k: string)
    requires k !in keys
    ensures Scanned(hs, keys + {k}, prefix) == Scanned(hs, keys, prefix) + if HasPrefix(k, prefix) then ByKey(hs, k) else 0
  {
    if HasPrefix(k, prefix) {
      CountSplits(hs, KeyAmong(keys, prefix), KeyIs(k), KeyAmong(keys + {k}, prefix));
    } else {
      CountExtensional(hs, KeyAmong(keys, prefix), KeyAmong(keys + {k}, prefix));
    }
  }

  lemma {:induction false} CountAgreesOn(hs: seq<Holder>, p: Holder -> bool, q: Holder -> bool)
    requires forall i :: 0 <= i < |hs| ==> (p(hs[i]) <==> q(hs[i]))
    ensures Count(hs, p) == Count(hs, q)
  {
    if hs != [] {
      CountAgreesOn(hs[..|hs| - 1], p, q);
    }
  }

  /** The scan over the whole table counts exactly the server's streams. */
  lemma FullScan(hs: seq<Holder>, table: map<string, nat>, server: string)
    requires Represents(table, hs) && Servers(hs) && ColonFree(server)
    ensures Scanned(hs, table.Keys, server + ":") == OnServer(hs, server)
  {
    forall i | 0 <= i < |hs|
      ensures (KeyOf(hs[i]) in table.Keys && HasPrefix(KeyOf(hs[i]), server + ":")) <==> hs[i].server == server
    {
      PrefixIffSameServer(server, hs[i].server, hs[i].user);
      HeldIsCounted(hs, i);
    }
    CountAgreesOn(hs, KeyAmong(table.Keys, server + ":"), Of(server));
  }

  lemma HeldIsCounted(hs: seq<Holder>, i: nat)
    requires i < |hs|
    ensures ByKey(hs, KeyOf(hs[i])) > 0
  {
    CountRelease(hs, i, KeyIs(KeyOf(hs[i])));
  }

  /** A user's entry counts the user's streams on that server and nobody else's. */
  lemma EntryIsOfUser(hs: seq<Holder>, server: string, user: string)
    requires Servers(hs) && ColonFree(server)
    ensures ByKey(hs, MakeKey(server, user)) == OfUser(hs, server, user)
  {
    forall i | 0 <= i < |hs|
      ensures KeyOf(hs[i]) == MakeKey(server, user) <==> hs[i].server == server && hs[i].user == user
    {
      MakeKeyInjective(hs[i].server, hs[i].user, server, user);
    }
    CountAgreesOn(hs, KeyIs(MakeKey(server, user)), OfTheUser(server, user));
  }
}
