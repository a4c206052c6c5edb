/**
 The login rate limiter (hub/internal/server/middleware.go) compared with a limiter that remembers
 every call it ever allowed. Times are ticks of a clock that does not run backwards.
 */
module LimiterModel {
  import opened Options

  datatype Config = Config(limit: nat, window: nat, maxTracked: nat)

  /** maxTrackedIPs in the source. */
  const MAX_TRACKED := 100000

  type Attempts = map<string, seq<int>>

  function Get(m: Attempts, ip: string): seq<int> {
    if ip in m then m[ip] else []
  }

  /** The times after the cutoff, in order. */
  function Unexpired(ts: seq<int>, cutoff: int): seq<int> {
    if ts == [] then [] else
    var earlier := Unexpired(ts[..|ts| - 1], cutoff);
    if ts[|ts| - 1] > cutoff then earlier + [ts[|ts| - 1]] else earlier
  }

  /** Among the other addresses, k has the oldest last attempt. */
  ghost predicate Oldest(m: Attempts, skip: string, k: string) {
    && k in m && k != skip && m[k] != []
    && forall j :: j in m && j != skip && m[j] != [] ==> m[k][|m[k]| - 1] <= m[j][|m[j]| - 1]
  }

  /**
   What evictOldest may delete. Ties depend on the map's iteration order. An empty key that is
   oldest is not deleted: the code takes "" to mean that nothing was found.
   */
  ghost predicate MayEvict(m: Attempts, skip: string, victim: Option<string>) {
    match victim
    case Some(k) => k != "" && Oldest(m, skip, k)
    case None => m.Keys <= {skip} || Oldest(m, skip, "")
  }

  function Without(m: Attempts, victim: Option<string>): Attempts {
    if victim.Some? then m - {victim.value} else m
  }

  /** The table after the expired times of one address are dropped. */
  function Compacted(m: Attempts, ip: string, valid: seq<int>): Attempts {
    if valid == [] then m - {ip} else m[ip := valid]
  }

  /** allow after the compaction: `valid` are the address's unexpired times. */
  function Decide(cfg: Config, m: Attempts, ip: string, valid: seq<int>, now: int, victim: Option<string>): (Attempts, bool) {
    var m1 := Compacted(m, ip, valid);
    if |valid| >= cfg.limit then (m1, false)
    else
      var m2 := if |m1| >= cfg.maxTracked then Without(m1, victim) else m1;
      (m2[ip := valid + [now]], true)
  }

  predicate Evicts(cfg: Config, m: Attempts, ip: string, valid: seq<int>) {
    |valid| < cfg.limit && |Compacted(m, ip, valid)| >= cfg.maxTracked
  }

  function Valid(cfg: Config, m: Attempts, ip: string, now: int): seq<int> {
    Unexpired(Get(m, ip), now - cfg.window)
  }

  /** One call of allow; the victim matters only when the table is full. */
  function Allow(cfg: Config, m: Attempts, ip: string, now: int, victim: Option<string>): (Attempts, bool) {
    Decide(cfg, m, ip, Valid(cfg, m, ip, now), now, victim)
  }

  /** A decision about one address leaves every other stored list alone, except the victim's. */
  lemma DecideEffect(cfg: Config, m: Attempts, ip: string, valid: seq<int>, now: int, victim: Option<string>, other: string)
    requires Evicts(cfg, m, ip, valid) ==> MayEvict(Compacted(m, ip, valid), ip, victim)
    ensures var (m', ok) := Decide(cfg, m, ip, valid, now, victim);
            && (ok <==> |valid| < cfg.limit)
            && Get(m', ip) == (if ok then valid + [now] else valid)
            && (other != ip && !(Evicts(cfg, m, ip, valid) && victim == Some(other)) ==> Get(m', other) == Get(m, other))
  {
  }

  // ---- runs ----

  datatype Call = Call(ip: string, now: int, victim: Option<string>)

  /** A run from the limiter's creation, latest call last. */
  datatype Run = Start(epoch: int) | Then(before: Run, c: Call)

  function Clock(run: Run): int {
    match run
    case Start(epoch) => epoch
    case Then(_, c) => c.now
  }

  /** The limiter's table, every time each address was ever allowed, and the addresses evicted so far. */
  datatype State = State(m: Attempts, full: Attempts, evicted: set<string>)

  function Next(cfg: Config, t: State, c: Call): State {
    var (m', ok) := Allow(cfg, t.m, c.ip, c.now, c.victim);
    State(m',
      if ok then t.full[c.ip := Get(t.full, c.ip) + [c.now]] else t.full,
      if Evicts(cfg, t.m, c.ip, Valid(cfg, t.m, c.ip, c.now)) && c.victim.Some? then t.evicted + {c.victim.value} else t.evicted)
  }

  function After(cfg: Config, run: Run): State {
    match run
    case Start(_) => State(map[], map[], {})
    case Then(before, c) => Next(cfg, After(cfg, before), c)
  }

  ghost predicate MayCall(cfg: Config, m: Attempts, ip: string, valid: seq<int>, victim: Option<string>) {
    Evicts(cfg, m, ip, valid) ==> MayEvict(Compacted(m, ip, valid), ip, victim)
  }

  /** The clock is monotone and an eviction is one evictOldest could have made. */
  ghost predicate LegalCall(cfg: Config, t: State, clock: int, c: Call) {
    && clock <= c.now
    && MayCall(cfg, t.m, c.ip, Valid(cfg, t.m, c.ip, c.now), c.victim)
  }

  ghost predicate Legal(cfg: Config, run: Run) {
    run.Then? ==> Legal(cfg, run.before) && LegalCall(cfg, After(cfg, run.before), Clock(run.before), run.c)
  }

  /** The allowed times in the interval (lo, hi]. */
  function Within(ts: seq<int>, lo: int, hi: int): seq<int> {
    if ts == [] then [] else
    var earlier := Within(ts[..|ts| - 1], lo, hi);
    if lo < ts[|ts| - 1] <= hi then earlier + [ts[|ts| - 1]] else earlier
  }

  lemma {:induction false} UnexpiredAppend(ts: seq<int>, x: int, cutoff: int)
    ensures Unexpired(ts + [x], cutoff) == if x > cutoff then Unexpired(ts, cutoff) + [x] else Unexpired(ts, cutoff)
  {
    assert (ts + [x])[..|ts|] == ts;
  }

  lemma {:induction false} UnexpiredTwice(ts: seq<int>, a: int, c: int)
    requires a <= c
    ensures Unexpired(Unexpired(ts, a), c) == Unexpired(ts, c)
  {
    if ts != [] {
      var front, x := ts[..|ts| - 1], ts[|ts| - 1];
      UnexpiredTwice(front, a, c);
      if x > a {
        UnexpiredAppend(Unexpired(front, a), x, c);
      } else {
        assert Unexpired(ts, a) == Unexpired(front, a);
      }
    }
  }

  lemma {:induction false} WithinIsUnexpired(ts: seq<int>, lo: int, hi: int, c: int)
    requires c <= lo
    ensures |Within(ts, lo, hi)| <= |Unexpired(ts, c)|
  {
    if ts != [] {
      WithinIsUnexpired(ts[..|ts| - 1], lo, hi, c);
    }
  }

  lemma WithinAppend(ts: seq<int>, x: int, lo: int, hi: int)
    ensures Within(ts + [x], lo, hi) == if lo < x <= hi then Within(ts, lo, hi) + [x] else Within(ts, lo, hi)
  {
    assert (ts + [x])[..|ts|] == ts;
  }

  // ---- refinement of the full history ----

  /** From `floor` on, the stored list and the full history show the same times. */
  ghost predicate Agrees(stored: seq<int>, full: seq<int>, floor: int) {
    forall c {:trigger SameAfter(stored, full, c)} :: c >= floor ==> SameAfter(stored, full, c)
  }

  predicate SameAfter(stored: seq<int>, full: seq<int>, c: int) {
    Unexpired(stored, c) == Unexpired(full, c)
  }

  /** How many times lie in the window that ends at hi. */
  function InWindow(ts: seq<int>, window: nat, hi: int): nat {
    |Within(ts, hi - window, hi)|
  }

  predicate WindowHolds(ts: seq<int>, window: nat, limit: nat, hi: int) {
    InWindow(ts, window, hi) <= limit
  }

  ghost predicate Windowed(ts: seq<int>, window: nat, limit: nat) {
    forall hi :: WindowHolds(ts, window, limit, hi)
  }

  lemma AgreesAt(stored: seq<int>, full: seq<int>, cutoff: int, now: int, c: int)
    requires cutoff <= c && Unexpired(stored, c) == Unexpired(full, c)
    ensures var valid := Unexpired(stored, cutoff);
            && Unexpired(valid, c) == Unexpired(full, c)
            && Unexpired(valid + [now], c) == Unexpired(full + [now], c)
  {
    UnexpiredTwice(stored, cutoff, c);
    UnexpiredAppend(Unexpired(stored, cutoff), now, c);
    UnexpiredAppend(full, now, c);
  }

  lemma AgreesAfter(stored: seq<int>, full: seq<int>, floor: int, cutoff: int, now: int)
    requires Agrees(stored, full, floor) && floor <= cutoff
    ensures var valid := Unexpired(stored, cutoff);
            && valid == Unexpired(full, cutoff)
            && Agrees(valid, full, cutoff)
            && Agrees(valid + [now], full + [now], cutoff)
  {
    var valid := Unexpired(stored, cutoff);
    assert SameAfter(stored, full, cutoff);
    forall c | c >= cutoff
      ensures SameAfter(valid, full, c)
      ensures SameAfter(valid + [now], full + [now], c)
    {
      assert SameAfter(stored, full, c);
      AgreesAt(stored, full, cutoff, now, c);
    }
  }

  lemma WindowHoldsAfter(ts: seq<int>, window: nat, limit: nat, now: int, hi: int)
    requires WindowHolds(ts, window, limit, hi) && |Unexpired(ts, now - window)| < limit
    ensures WindowHolds(ts + [now], window, limit, hi)
  {
    WithinAppend(ts, now, hi - window, hi);
    if hi >= now {
      WithinIsUnexpired(ts, hi - window, hi, now - window);
    }
  }

  lemma WindowedAfter(ts: seq<int>, window: nat, limit: nat, now: int)
    requires Windowed(ts, window, limit) && |Unexpired(ts, now - window)| < limit
    ensures Windowed(ts + [now], window, limit)
  {
    forall hi ensures WindowHolds(ts + [now], window, limit, hi) {
      assert WindowHolds(ts, window, limit, hi);
      WindowHoldsAfter(ts, window, limit, now, hi);
    }
  }

  predicate AllUpTo(ts: seq<int>, now: int) {
    forall i :: 0 <= i < |ts| ==> ts[i] <= now
  }

  ghost predicate Refined(cfg: Config, stored: seq<int>, full: seq<int>, clock: int) {
    Agrees(stored, full, clock - cfg.window) && Windowed(full, cfg.window, cfg.limit) && AllUpTo(full, clock)
  }

  lemma OwnCallKeepsRefined(cfg: Config, stored: seq<int>, full: seq<int>, clock: int, now: int)
    requires Refined(cfg, stored, full, clock) && clock <= now
    ensures var valid := Unexpired(stored, now - cfg.window);
            && valid == Unexpired(full, now - cfg.window)
            && Refined(cfg, valid, full, now)
            && (|valid| < cfg.limit ==> Refined(cfg, valid + [now], full + [now], now))
  {
    var cutoff := now - cfg.window;
    AgreesAfter(stored, full, clock - cfg.window, cutoff, now);
    StaysUpTo(full, clock, now);
    if |Unexpired(stored, cutoff)| < cfg.limit {
      WindowedAfter(full, cfg.window, cfg.limit, now);
    }
  }

  lemma StaysUpTo(ts: seq<int>, clock: int, now: int)
    requires AllUpTo(ts, clock) && clock <= now
    ensures AllUpTo(ts, now) && AllUpTo(ts + [now], now)
  {
  }

  lemma OtherCallKeepsRefined(cfg: Config, stored: seq<int>, full: seq<int>, clock: int, now: int)
    requires Refined(cfg, stored, full, clock) && clock <= now
    ensures Refined(cfg, stored, full, now)
  {
  }

  lemma NextKeepsRefined(cfg: Config, t: State, clock: int, c: Call, ip: string)
    requires Refined(cfg, Get(t.m, ip), Get(t.full, ip), clock) && LegalCall(cfg, t, clock, c)
    requires ip !in Next(cfg, t, c).evicted
    ensures var t' := Next(cfg, t, c); Refined(cfg, Get(t'.m, ip), Get(t'.full, ip), c.now)
  {
    DecideEffect(cfg, t.m, c.ip, Valid(cfg, t.m, c.ip, c.now), c.now, c.victim, ip);
    if ip == c.ip {
      OwnCallKeepsRefined(cfg, Get(t.m, ip), Get(t.full, ip), clock, c.now);
    } else {
      OtherCallKeepsRefined(cfg, Get(t.m, ip), Get(t.full, ip), clock, c.now);
    }
  }

  lemma {:induction false} RunIsRefined(cfg: Config, run: Run, ip: string)
    requires Legal(cfg, run) && ip !in After(cfg, run).evicted
    ensures Refined(cfg, Get(After(cfg, run).m, ip), Get(After(cfg, run).full, ip), Clock(run))
  {
    if run.Then? {
      RunIsRefined(cfg, run.before, ip);
      NextKeepsRefined(cfg, After(cfg, run.before), Clock(run.before), run.c, ip);
    }
  }

  lemma {:induction false} RecentIsAWindow(ts: seq<int>, now: int, window: nat)
    requires AllUpTo(ts, now)
    ensures Within(ts, now - window, now) == Unexpired(ts, now - window)
  {
    if ts != [] {
      RecentIsAWindow(ts[..|ts| - 1], now, window);
    }
  }

  lemma RecentIsWithinLimit(ts: seq<int>, window: nat, limit: nat, now: int)
    requires Windowed(ts, window, limit) && AllUpTo(ts, now)
    ensures |Unexpired(ts, now - window)| <= limit
  {
    RecentIsAWindow(ts, now, window);
    assert WindowHolds(ts, window, limit, now);
  }

  /**
   As long as an address has not been evicted, its call is refused exactly when `limit` of its calls
   were allowed in the window before it: the pruned table answers as the full history would.
   */
  lemma RefinesFullHistory(cfg: Config, run: Run, c: Call)
    requires Legal(cfg, run) && LegalCall(cfg, After(cfg, run), Clock(run), c)
    requires c.ip !in After(cfg, run).evicted
    ensures var t := After(cfg, run);
            var recent := Unexpired(Get(t.full, c.ip), c.now - cfg.window);
            && |recent| <= cfg.limit
            && (!Allow(cfg, t.m, c.ip, c.now, c.victim).1 <==> |recent| == cfg.limit)
  {
    var t := After(cfg, run);
    RunIsRefined(cfg, run, c.ip);
    AnswersAsHistory(cfg, t, Clock(run), c);
  }

  lemma AnswersAsHistory(cfg: Config, t: State, clock: int, c: Call)
    requires Refined(cfg, Get(t.m, c.ip), Get(t.full, c.ip), clock) && clock <= c.now
    ensures var recent := Unexpired(Get(t.full, c.ip), c.now - cfg.window);
            && |recent| <= cfg.limit
            && (!Allow(cfg, t.m, c.ip, c.now, c.victim).1 <==> |recent| == cfg.limit)
  {
    var full := Get(t.full, c.ip);
    OwnCallKeepsRefined(cfg, Get(t.m, c.ip), full, clock, c.now);
    StaysUpTo(full, clock, c.now);
    RecentIsWithinLimit(full, cfg.window, cfg.limit, c.now);
    AnswerIsSize(cfg, t.m, c);
  }

  lemma AnswerIsSize(cfg: Config, m: Attempts, c: Call)
    ensures Allow(cfg, m, c.ip, c.now, c.victim).1 <==> |Valid(cfg, m, c.ip, c.now)| < cfg.limit
  {
  }

  /** No window of the configured length, wherever it ends, contains more than `limit` allowed calls. */
  lemma NoWindowExceedsLimit(cfg: Config, run: Run, ip: string, hi: int)
    requires Legal(cfg, run) && ip !in After(cfg, run).evicted
    ensures InWindow(Get(After(cfg, run).full, ip), cfg.window, hi) <= cfg.limit
  {
    RunIsRefined(cfg, run, ip);
    assert WindowHolds(Get(After(cfg, run).full, ip), cfg.window, cfg.limit, hi);
  }

  // ---- the size of the table ----

  ghost predicate Tidy(cfg: Config, m: Attempts) {
    && (forall ip :: ip in m ==> 0 < |m[ip]| <= cfg.limit)
    && "" !in m
    && |m| <= cfg.maxTracked
  }

  lemma MapSizes(m: Attempts, k: string, v: seq<int>)
    ensures |m - {k}| == if k in m then |m| - 1 else |m|
    ensures |m[k := v]| == if k in m then |m| else |m| + 1
  {
    var rest := m - {k};
    assert rest[k := v] == m[k := v];
    if k in m {
      assert rest[k := m[k]] == m;
    } else {
      assert rest == m;
    }
  }

  lemma {:induction false} UnexpiredShorter(ts: seq<int>, cutoff: int)
    ensures |Unexpired(ts, cutoff)| <= |ts|
  {
    if ts != [] {
      UnexpiredShorter(ts[..|ts| - 1], cutoff);
    }
  }

  lemma CompactedIsTidy(cfg: Config, m: Attempts, ip: string, valid: seq<int>)
    requires Tidy(cfg, m) && |valid| <= |Get(m, ip)|
    ensures Tidy(cfg, Compacted(m, ip, valid))
  {
    MapSizes(m, ip, valid);
  }

  lemma EvictionMakesRoom(cfg: Config, m: Attempts, ip: string, victim: Option<string>)
    requires Tidy(cfg, m) && cfg.maxTracked > 0 && |m| >= cfg.maxTracked && MayEvict(m, ip, victim)
    ensures Tidy(cfg, Without(m, victim)) && (ip !in m ==> |Without(m, victim)| < cfg.maxTracked)
  {
    if victim.Some? {
      MapSizes(m, victim.value, []);
    } else {
      assert m.Keys <= {ip};
    }
  }

  lemma AddIsTidy(cfg: Config, m: Attempts, ip: string, list: seq<int>)
    requires Tidy(cfg, m) && ip != "" && 0 < |list| <= cfg.limit && (ip !in m ==> |m| < cfg.maxTracked)
    ensures Tidy(cfg, m[ip := list])
  {
    MapSizes(m, ip, list);
  }

  lemma DecideKeepsTidy(cfg: Config, m: Attempts, ip: string, valid: seq<int>, now: int, victim: Option<string>)
    requires Tidy(cfg, m) && ip != "" && cfg.maxTracked > 0 && |valid| <= |Get(m, ip)|
    requires MayCall(cfg, m, ip, valid, victim)
    ensures Tidy(cfg, Decide(cfg, m, ip, valid, now, victim).0)
  {
    CompactedIsTidy(cfg, m, ip, valid);
    if |valid| < cfg.limit {
      var m1 := Compacted(m, ip, valid);
      if |m1| >= cfg.maxTracked {
        EvictionMakesRoom(cfg, m1, ip, victim);
        AddIsTidy(cfg, Without(m1, victim), ip, valid + [now]);
      } else {
        AddIsTidy(cfg, m1, ip, valid + [now]);
      }
    }
  }

  ghost predicate NoEmptyKey(run: Run) {
    run.Then? ==> run.c.ip != "" && NoEmptyKey(run.before)
  }

  lemma AllowKeepsTidy(cfg: Config, m: Attempts, c: Call)
    requires Tidy(cfg, m) && c.ip != "" && cfg.maxTracked > 0
    requires MayCall(cfg, m, c.ip, Valid(cfg, m, c.ip, c.now), c.victim)
    ensures Tidy(cfg, Allow(cfg, m, c.ip, c.now, c.victim).0)
  {
    UnexpiredShorter(Get(m, c.ip), c.now - cfg.window);
    DecideKeepsTidy(cfg, m, c.ip, Valid(cfg, m, c.ip, c.now), c.now, c.victim);
  }

  /** Without empty keys the table never holds an empty list or more than maxTracked addresses. */
  lemma {:induction false} TableStaysTidy(cfg: Config, run: Run)
    requires Legal(cfg, run) && cfg.maxTracked > 0 && NoEmptyKey(run)
    ensures Tidy(cfg, After(cfg, run).m)
  {
    if run.Then? {
      TableStaysTidy(cfg, run.before);
      AllowKeepsTidy(cfg, After(cfg, run.before).m, run.c);
    }
  }

  // ---- when the table outgrows its bound ----

  ghost predicate NoEmptyList(m: Attempts) {
    forall k :: k in m ==> m[k] != []
  }

  /** In a table without empty lists evictOldest always has an answer, whoever calls. */
  lemma {:induction false} SomethingMayBeEvicted(m: Attempts, skip: string, ks: set<string>)
    requires NoEmptyList(m) && ks <= m.Keys - {skip} && ks != {}
    ensures exists k :: k in ks && OldestAmong(m, ks, k)
    decreases |ks|
  {
    var x :| x in ks;
    var rest := ks - {x};
    if rest == {} {
      assert OldestAmong(m, ks, x);
    } else {
      SomethingMayBeEvicted(m, skip, rest);
      var k :| k in rest && OldestAmong(m, rest, k);
      var best := if m[x][|m[x]| - 1] <= m[k][|m[k]| - 1] then x else k;
      assert OldestAmong(m, ks, best);
    }
  }

  ghost predicate OldestAmong(m: Attempts, ks: set<string>, k: string)
    requires NoEmptyList(m) && ks <= m.Keys && k in ks
  {
    forall j :: j in ks ==> m[k][|m[k]| - 1] <= m[j][|m[j]| - 1]
  }

  lemma EvictionHasAnAnswer(m: Attempts, skip: string)
    requires NoEmptyList(m)
    ensures exists v :: MayEvict(m, skip, v)
  {
    var ks := m.Keys - {skip};
    if ks == {} {
      assert m.Keys <= {skip};
      assert MayEvict(m, skip, None);
    } else {
      SomethingMayBeEvicted(m, skip, ks);
      var k :| k in ks && OldestAmong(m, ks, k);
      assert Oldest(m, skip, k);
      assert MayEvict(m, skip, if k == "" then None else Some(k));
    }
  }

  /** After every run every address can make its call: a full table never leaves evictOldest without an answer. */
  lemma EveryCallCanBeMade(cfg: Config, run: Run, ip: string, now: int)
    requires Legal(cfg, run) && Clock(run) <= now
    ensures exists v :: Legal(cfg, Then(run, Call(ip, now, v)))
  {
    var m := After(cfg, run).m;
    NoListIsEverEmpty(cfg, run);
    var m1 := Compacted(m, ip, Valid(cfg, m, ip, now));
    EvictionHasAnAnswer(m1, ip);
    var v :| MayEvict(m1, ip, v);
    assert Legal(cfg, Then(run, Call(ip, now, v)));
  }

  /** An address counts as evicted only when a call took its entry away. */
  lemma EvictedWasThere(cfg: Config, run: Run, c: Call, x: string)
    requires Legal(cfg, Then(run, c)) && x !in After(cfg, run).evicted && x in After(cfg, Then(run, c)).evicted
    ensures x in After(cfg, run).m && x !in After(cfg, Then(run, c)).m && x != c.ip
  {
  }

  /** For a new address and a non-empty table, evictOldest may delete nothing exactly when the empty key is (one of) the oldest. */
  lemma NothingEvictedIff(m: Attempts, ip: string)
    requires m != map[] && ip !in m
    ensures MayEvict(m, ip, None) <==> Oldest(m, ip, "")
  {
    var k :| k in m;
    assert !(m.Keys <= {ip});
  }

  /** A new address fits a full table exactly when evictOldest deletes something, which it must unless the empty key is oldest. */
  lemma FullTableStaysBoundedIff(cfg: Config, m: Attempts, ip: string, now: int, victim: Option<string>)
    requires NoEmptyList(m) && |m| == cfg.maxTracked > 0 && ip !in m && cfg.limit > 0 && MayEvict(m, ip, victim)
    ensures |Allow(cfg, m, ip, now, victim).0| <= cfg.maxTracked <==> victim.Some?
    ensures victim.None? ==> Oldest(m, ip, "")
  {
    assert Compacted(m, ip, []) == m && Valid(cfg, m, ip, now) == [];
    NothingEvictedIff(m, ip);
    if victim.Some? {
      MapSizes(m, victim.value, []);
      MapSizes(m - {victim.value}, ip, [now]);
    } else {
      MapSizes(m, ip, [now]);
    }
  }

  /** An admitted call of an address without unexpired times finds the table full, and nothing is evicted. */
  predicate Blocked(cfg: Config, m: Attempts, c: Call) {
    var valid := Valid(cfg, m, c.ip, c.now);
    Evicts(cfg, m, c.ip, valid) && c.ip !in Compacted(m, c.ip, valid) && c.victim.None?
  }

  predicate NeverBlocked(cfg: Config, run: Run) {
    run.Then? ==> NeverBlocked(cfg, run.before) && !Blocked(cfg, After(cfg, run.before).m, run.c)
  }

  predicate AlwaysBounded(cfg: Config, run: Run) {
    |After(cfg, run).m| <= cfg.maxTracked && (run.Then? ==> AlwaysBounded(cfg, run.before))
  }

  lemma DecideGrowsIff(cfg: Config, m: Attempts, ip: string, valid: seq<int>, now: int, victim: Option<string>)
    requires |m| <= cfg.maxTracked && (valid != [] ==> ip in m) && MayCall(cfg, m, ip, valid, victim)
    ensures |Decide(cfg, m, ip, valid, now, victim).0| > cfg.maxTracked <==>
              Evicts(cfg, m, ip, valid) && ip !in Compacted(m, ip, valid) && victim.None?
  {
    MapSizes(m, ip, valid);
    var m1 := Compacted(m, ip, valid);
    MapSizes(m1, ip, valid + [now]);
    if Evicts(cfg, m, ip, valid) && victim.Some? {
      MapSizes(m1, victim.value, []);
      MapSizes(m1 - {victim.value}, ip, valid + [now]);
    }
  }

  lemma CallGrowsIff(cfg: Config, m: Attempts, c: Call)
    requires |m| <= cfg.maxTracked && MayCall(cfg, m, c.ip, Valid(cfg, m, c.ip, c.now), c.victim)
    ensures |Allow(cfg, m, c.ip, c.now, c.victim).0| <= cfg.maxTracked <==> !Blocked(cfg, m, c)
  {
    UnexpiredShorter(Get(m, c.ip), c.now - cfg.window);
    DecideGrowsIff(cfg, m, c.ip, Valid(cfg, m, c.ip, c.now), c.now, c.victim);
  }

  /**
   Throughout a run, whatever keys occur, the table is within its bound exactly when no call was blocked:
   admitted for a new address while the table was full and nothing was evicted.
   */
  lemma {:induction false} BoundedIffNeverBlocked(cfg: Config, run: Run)
    requires Legal(cfg, run)
    ensures AlwaysBounded(cfg, run) <==> NeverBlocked(cfg, run)
  {
    if run.Then? {
      BoundedIffNeverBlocked(cfg, run.before);
      if AlwaysBounded(cfg, run.before) {
        CallGrowsIff(cfg, After(cfg, run.before).m, run.c);
      }
    }
  }

  lemma DecideKeepsNoEmptyList(cfg: Config, m: Attempts, ip: string, valid: seq<int>, now: int, victim: Option<string>)
    requires NoEmptyList(m)
    ensures NoEmptyList(Decide(cfg, m, ip, valid, now, victim).0)
  {
    var m' := Decide(cfg, m, ip, valid, now, victim).0;
    forall k | k in m' ensures m'[k] != [] {
      if k == ip {
        assert |valid + [now]| > 0;
      } else {
        assert k in m && m'[k] == m[k];
      }
    }
  }

  lemma {:induction false} NoListIsEverEmpty(cfg: Config, run: Run)
    requires Legal(cfg, run)
    ensures NoEmptyList(After(cfg, run).m)
  {
    if run.Then? {
      NoListIsEverEmpty(cfg, run.before);
      var m, c := After(cfg, run.before).m, run.c;
      DecideKeepsNoEmptyList(cfg, m, c.ip, Valid(cfg, m, c.ip, c.now), c.now, c.victim);
    }
  }

  /** A call is blocked only while the empty key is an oldest entry, so only after the empty key was used. */
  lemma BlockedOnlyByTheEmptyKey(cfg: Config, run: Run, c: Call)
    requires Legal(cfg, run) && LegalCall(cfg, After(cfg, run), Clock(run), c) && cfg.maxTracked > 0
    requires Blocked(cfg, After(cfg, run).m, c)
    ensures Oldest(Compacted(After(cfg, run).m, c.ip, Valid(cfg, After(cfg, run).m, c.ip, c.now)), c.ip, "")
  {
    var m := After(cfg, run).m;
    var m1 := Compacted(m, c.ip, Valid(cfg, m, c.ip, c.now));
    assert |m1| > 0 && m1 != map[];
    NothingEvictedIff(m1, c.ip);
  }

  /** A full table may outgrow its bound with a new address exactly when the empty key is one of its oldest entries. */
  lemma MayOutgrowIff(cfg: Config, m: Attempts, ip: string, now: int)
    requires NoEmptyList(m) && |m| == cfg.maxTracked > 0 && ip !in m && cfg.limit > 0
    ensures (exists v :: MayEvict(m, ip, v) && |Allow(cfg, m, ip, now, v).0| > cfg.maxTracked) <==> Oldest(m, ip, "")
  {
    NothingEvictedIff(m, ip);
    if Oldest(m, ip, "") {
      FullTableStaysBoundedIff(cfg, m, ip, now, None);
    }
    forall v | MayEvict(m, ip, v) && |Allow(cfg, m, ip, now, v).0| > cfg.maxTracked ensures Oldest(m, ip, "") {
      FullTableStaysBoundedIff(cfg, m, ip, now, v);
    }
  }

  // ---- the condition on the keys ----

  /** Only these addresses call. */
  predicate Uses(run: Run, keys: set<string>) {
    run.Then? ==> run.c.ip in keys && Uses(run.before, keys)
  }

  lemma {:induction false} TableUsesOnly(cfg: Config, run: Run, keys: set<string>)
    requires Uses(run, keys)
    ensures After(cfg, run).m.Keys <= keys
  {
    if run.Then? {
      TableUsesOnly(cfg, run.before, keys);
    }
  }

  lemma {:induction false} NoKeyNoEmptyKey(run: Run, keys: set<string>)
    requires Uses(run, keys) && "" !in keys
    ensures NoEmptyKey(run)
  {
    if run.Then? {
      NoKeyNoEmptyKey(run.before, keys);
    }
  }

  lemma {:induction false} NothingAllowedNothingStored(cfg: Config, run: Run)
    requires cfg.limit == 0
    ensures After(cfg, run).m == map[]
  {
    if run.Then? {
      NothingAllowedNothingStored(cfg, run.before);
    }
  }

  lemma SubsetIsSmaller(a: set<string>, b: set<string>)
    requires a <= b
    ensures |a| <= |b|
  {
    assert b == a + (b - a);
  }

  lemma {:induction false} FewOrProperKeysStayBounded(cfg: Config, run: Run, keys: set<string>)
    requires Legal(cfg, run) && Uses(run, keys) && cfg.maxTracked > 0
    requires cfg.limit == 0 || "" !in keys || |keys| <= cfg.maxTracked
    ensures AlwaysBounded(cfg, run)
  {
    if cfg.limit == 0 {
      NothingAllowedNothingStored(cfg, run);
    } else if "" !in keys {
      NoKeyNoEmptyKey(run, keys);
      TableStaysTidy(cfg, run);
    } else {
      TableUsesOnly(cfg, run, keys);
      SubsetIsSmaller(After(cfg, run).m.Keys, keys);
    }
    if run.Then? {
      FewOrProperKeysStayBounded(cfg, run.before, keys);
    }
  }

  /** Each key once, all at the same time, the empty one first. */
  function Once(keys: set<string>): Attempts {
    map k | k in keys :: [0]
  }

  lemma OneMoreKey(cfg: Config, keys: set<string>, k: string)
    requires cfg.limit > 0 && k !in keys && |keys| <= cfg.maxTracked && cfg.maxTracked > 0
    requires keys == {} ==> k == ""
    requires keys != {} ==> "" in keys
    ensures MayCall(cfg, Once(keys), k, Valid(cfg, Once(keys), k, 0), None)
    ensures Allow(cfg, Once(keys), k, 0, None).0 == Once(keys + {k})
  {
    var m := Once(keys);
    assert m.Keys == keys && |m| == |keys| && k !in m;
    assert Get(m, k) == [] && Valid(cfg, m, k, 0) == [] && Compacted(m, k, []) == m;
    if keys != {} {
      assert Oldest(m, k, "");
    }
    assert [] + [0] == [0];
    assert Allow(cfg, m, k, 0, None).0 == m[k := [0]];
    assert m[k := [0]] == Once(keys + {k});
  }

  /** The run in which each of the keys has called once. */
  ghost predicate IsOnceRun(cfg: Config, run: Run, keys: set<string>) {
    Legal(cfg, run) && Uses(run, keys) && Clock(run) == 0 && After(cfg, run).m == Once(keys)
  }

  lemma OnceMore(cfg: Config, before: Run, keys: set<string>, k: string, more: set<string>)
    requires IsOnceRun(cfg, before, keys) && "" in keys && k !in keys && more == keys + {k}
    requires cfg.limit > 0 && cfg.maxTracked > 0 && |keys| <= cfg.maxTracked
    ensures IsOnceRun(cfg, Then(before, Call(k, 0, None)), more)
  {
    UsesMore(before, keys, more);
    OneMoreKey(cfg, keys, k);
  }

  lemma OnceFirst(cfg: Config)
    requires cfg.limit > 0 && cfg.maxTracked > 0
    ensures IsOnceRun(cfg, Then(Start(0), Call("", 0, None)), {""})
  {
    OneMoreKey(cfg, {}, "");
    assert {} + {""} == {""} && After(cfg, Start(0)).m == Once({});
  }

  lemma {:induction false} EachCallsOnce(cfg: Config, keys: set<string>) returns (run: Run)
    requires cfg.limit > 0 && cfg.maxTracked > 0 && "" in keys && |keys| <= cfg.maxTracked + 1
    ensures IsOnceRun(cfg, run, keys)
    decreases |keys|
  {
    if keys == {""} {
      OnceFirst(cfg);
      run := Then(Start(0), Call("", 0, None));
    } else {
      assert keys - {""} != {};
      var k :| k in keys - {""};
      var before := EachCallsOnce(cfg, keys - {k});
      OnceMore(cfg, before, keys - {k}, k, keys);
      run := Then(before, Call(k, 0, None));
    }
  }

  lemma {:induction false} UsesMore(run: Run, keys: set<string>, more: set<string>)
    requires Uses(run, keys) && keys <= more
    ensures Uses(run, more)
  {
    if run.Then? {
      UsesMore(run.before, keys, more);
    }
  }

  lemma SubsetOfSize(keys: set<string>, k: string, n: nat) returns (sub: set<string>)
    requires k in keys && 0 < n <= |keys|
    ensures k in sub && sub <= keys && |sub| == n
    decreases |keys|
  {
    if |keys| == n {
      sub := keys;
    } else {
      assert |keys - {k}| == |keys| - 1 > 0;
      var j :| j in keys - {k};
      sub := SubsetOfSize(keys - {j}, k, n);
    }
  }

  ghost predicate BoundedFor(cfg: Config, keys: set<string>) {
    forall run :: Legal(cfg, run) && Uses(run, keys) ==> AlwaysBounded(cfg, run)
  }

  /**
   The table stays within its bound in every run of calls from these addresses exactly when the empty one
   is not among them or they are no more than the bound (or nothing is ever allowed).
   */
  lemma BoundedForIff(cfg: Config, keys: set<string>)
    requires cfg.maxTracked > 0
    ensures BoundedFor(cfg, keys) <==> cfg.limit == 0 || "" !in keys || |keys| <= cfg.maxTracked
  {
    if cfg.limit == 0 || "" !in keys || |keys| <= cfg.maxTracked {
      forall run | Legal(cfg, run) && Uses(run, keys) ensures AlwaysBounded(cfg, run) {
        FewOrProperKeysStayBounded(cfg, run, keys);
      }
    } else {
      var some := SubsetOfSize(keys, "", cfg.maxTracked + 1);
      var run := EachCallsOnce(cfg, some);
      UsesMore(run, some, keys);
      assert After(cfg, run).m.Keys == some;
      assert !AlwaysBounded(cfg, run);
    }
  }

  /**
   The empty key is the exception: while it is strictly the oldest entry of a full table, every new
   address makes the table grow past its bound, whatever evictOldest meets first.
   */
  lemma EmptyKeyBlocksEviction(cfg: Config, m: Attempts, ip: string, now: int, victim: Option<string>)
    requires NoEmptyList(m)
    requires "" in m && |m| >= cfg.maxTracked && ip !in m && cfg.limit > 0
    requires forall k :: k in m && k != "" ==> m[""][|m[""]| - 1] < m[k][|m[k]| - 1]
    requires MayEvict(m, ip, victim)
    ensures |Allow(cfg, m, ip, now, victim).0| == |m| + 1
  {
    assert Oldest(m, ip, "");
    assert Compacted(m, ip, []) == m;
    MapSizes(m, ip, [now]);
  }
}
