/**
 The heartbeat coalescer (hub/internal/grpcserver/heartbeat_coalescer.go): heartbeats are written to the
 database at most once per interval and server. The database keeps whole seconds.
 */
module CoalescerModel {
  import opened Options
  import opened Units

  type Times = map<string, int>

  /** When each server was last recorded as written, and the last_seen_at column, in seconds. */
  datatype State = State(lastWritten: Times, db: Times)

  function Written(db: Times, server: string, now: int): Times {
    db[server := now / SECOND]
  }

  predicate Due(interval: nat, last: Times, server: string, now: int) {
    server in last ==> now - last[server] >= interval
  }

  datatype Action = Heartbeat(server: string) | Force(server: string) | Flush(server: string) | FlushAll

  function Step(interval: nat, s: State, a: Action, now: int): State {
    match a
    case Heartbeat(x) =>
      if Due(interval, s.lastWritten, x, now) then State(s.lastWritten[x := now], Written(s.db, x, now)) else s
    case Force(x) => State(s.lastWritten[x := now], Written(s.db, x, now))
    case Flush(x) => State(s.lastWritten - {x}, Written(s.db, x, now))
    case FlushAll => State(map[], map x | x in s.db.Keys + s.lastWritten.Keys :: if x in s.lastWritten then now / SECOND else s.db[x])
  }

  datatype Run = Start(epoch: int) | Then(before: Run, a: Action, now: int)

  function Clock(run: Run): int {
    match run
    case Start(epoch) => epoch
    case Then(_, _, now) => now
  }

  function After(interval: nat, run: Run): State {
    match run
    case Start(_) => State(map[], map[])
    case Then(before, a, now) => Step(interval, After(interval, before), a, now)
  }

  predicate Monotone(run: Run) {
    run.Then? ==> Monotone(run.before) && Clock(run.before) <= run.now
  }

  // ---- spacing ----

  predicate About(a: Action, x: string) {
    a.FlushAll? || a.server == x
  }

  /** The last recorded write of this server, if it was not flushed since. */
  function LastWrite(interval: nat, run: Run, x: string): Option<int> {
    match run
    case Start(_) => None
    case Then(before, a, now) =>
      if !About(a, x) then LastWrite(interval, before, x)
      else if a.Flush? || a.FlushAll? then None
      else if a.Force? || WritesNow(interval, before, x, now) then Some(now)
      else LastWrite(interval, before, x)
  }

  /** A heartbeat that would be written. */
  predicate WritesNow(interval: nat, run: Run, x: string, now: int) {
    Due(interval, After(interval, run).lastWritten, x, now)
  }

  lemma {:induction false} LastWrittenIsLastWrite(interval: nat, run: Run, x: string)
    ensures var last := After(interval, run).lastWritten;
            LastWrite(interval, run, x) == if x in last then Some(last[x]) else None
  {
    if run.Then? {
      LastWrittenIsLastWrite(interval, run.before, x);
    }
  }

  /** A heartbeat is written exactly when the previous recorded write is at least an interval ago or was flushed. */
  lemma WrittenIff(interval: nat, run: Run, x: string, now: int)
    ensures WritesNow(interval, run, x, now) <==>
              match LastWrite(interval, run, x) case Some(t) => now - t >= interval case None => true
  {
    LastWrittenIsLastWrite(interval, run, x);
  }

  /** When last_seen_at of this server was written last: by a heartbeat that was due, a forced write, a flush, or FlushAll while it was tracked. */
  function LastStored(interval: nat, run: Run, x: string): Option<int> {
    match run
    case Start(_) => None
    case Then(before, a, now) =>
      var writes := match a
        case Heartbeat(y) =>
          y == x && (match LastWrite(interval, before, x) case Some(t) => now - t >= interval case None => true)
        case Force(y) => y == x
        case Flush(y) => y == x
        case FlushAll => LastWrite(interval, before, x).Some?;
      if writes then Some(now) else LastStored(interval, before, x)
  }

  /** The column holds the second of exactly that write. */
  lemma {:induction false} StoredIsHistory(interval: nat, run: Run, x: string)
    ensures var db := After(interval, run).db;
            LastStored(interval, run, x).Some? == (x in db) && (x in db ==> db[x] == LastStored(interval, run, x).value / SECOND)
  {
    if run.Then? {
      StoredIsHistory(interval, run.before, x);
      LastWrittenIsLastWrite(interval, run.before, x);
    }
  }

  /** The times of the heartbeats of x that were written since its last flush, oldest first. */
  function Writes(interval: nat, run: Run, x: string): seq<int> {
    match run
    case Start(_) => []
    case Then(before, a, now) =>
      if !About(a, x) || a.Force? then Writes(interval, before, x)
      else if !a.Heartbeat? then []
      else if WritesNow(interval, before, x, now) then Writes(interval, before, x) + [now]
      else Writes(interval, before, x)
  }

  predicate Spaced(ts: seq<int>, interval: nat) {
    forall i :: 0 < i < |ts| ==> ts[i] - ts[i - 1] >= interval
  }

  /** The last written heartbeat is not newer than the last recorded write, which may be a forced one. */
  predicate NotNewer(ts: seq<int>, last: Option<int>, clock: int) {
    && (last.Some? ==> last.value <= clock)
    && (ts != [] ==> last.Some? && ts[|ts| - 1] <= last.value)
  }

  /** Forced writes in between push heartbeat writes further apart, never closer. */
  lemma {:induction false} WritesAreSpaced(interval: nat, run: Run, x: string)
    requires Monotone(run)
    ensures Spaced(Writes(interval, run, x), interval)
    ensures NotNewer(Writes(interval, run, x), LastWrite(interval, run, x), Clock(run))
  {
    if run.Then? {
      WritesAreSpaced(interval, run.before, x);
      WrittenIff(interval, run.before, x, run.now);
    }
  }

  lemma {:induction false} SpacedSpans(ts: seq<int>, interval: nat)
    requires Spaced(ts, interval) && ts != []
    ensures ts[|ts| - 1] - ts[0] >= (|ts| - 1) * interval
  {
    var n := |ts| - 1;
    if n > 0 {
      SpacedSpans(ts[..n], interval);
      assert ts[n] - ts[n - 1] >= interval;
      assert n * interval == (n - 1) * interval + interval;
    }
  }

  /** n heartbeats written without a flush in between, forced writes or not, take at least n - 1 intervals. */
  lemma WritesSpan(interval: nat, run: Run, x: string)
    requires Monotone(run) && Writes(interval, run, x) != []
    ensures var ts := Writes(interval, run, x); ts[|ts| - 1] - ts[0] >= (|ts| - 1) * interval
  {
    WritesAreSpaced(interval, run, x);
    SpacedSpans(Writes(interval, run, x), interval);
  }

  // ---- the stored time ----

  /** The newest heartbeat, handshake or flush of this server. */
  function Newest(run: Run, x: string): Option<int> {
    match run
    case Start(_) => None
    case Then(before, a, now) => if !a.FlushAll? && a.server == x then Some(now) else Newest(before, x)
  }

  /** The stored time is the recorded write's, or, after a flush, no older than the newest sign of life. */
  predicate Fresh(interval: nat, s: State, newest: Option<int>, clock: int, x: string) {
    && (newest.Some? ==> newest.value <= clock && x in s.db)
    && (x in s.lastWritten ==>
          newest.Some? && s.lastWritten[x] <= newest.value && x in s.db && s.db[x] == s.lastWritten[x] / SECOND
          && (newest.value - s.lastWritten[x] < interval || newest.value == s.lastWritten[x]))
    && (newest.Some? && x !in s.lastWritten ==> s.db[x] >= newest.value / SECOND)
  }

  lemma FloorIsMonotone(a: int, b: int)
    requires a <= b
    ensures a / SECOND <= b / SECOND
  {
  }

  lemma StepKeepsFresh(interval: nat, s: State, newest: Option<int>, clock: int, a: Action, now: int, x: string)
    requires Fresh(interval, s, newest, clock, x) && clock <= now
    ensures Fresh(interval, Step(interval, s, a, now), if !a.FlushAll? && a.server == x then Some(now) else newest, now, x)
  {
    if newest.Some? { FloorIsMonotone(newest.value, now); }
  }

  lemma {:induction false} RunIsFresh(interval: nat, run: Run, x: string)
    requires Monotone(run)
    ensures Fresh(interval, After(interval, run), Newest(run, x), Clock(run), x)
  {
    if run.Then? {
      RunIsFresh(interval, run.before, x);
      StepKeepsFresh(interval, After(interval, run.before), Newest(run.before, x), Clock(run.before), run.a, run.now, x);
    }
  }

  /**
   However many heartbeats were skipped, the stored last_seen_at lags the newest one by less than the
   interval plus the second that the database cuts off.
   */
  lemma StoredTimeLagsLittle(interval: nat, run: Run, x: string)
    requires Monotone(run) && Newest(run, x).Some?
    ensures var s := After(interval, run);
            x in s.db && Newest(run, x).value - s.db[x] * SECOND < interval + SECOND
  {
    RunIsFresh(interval, run, x);
  }

  /** One server's writes do not depend on the other servers' heartbeats. */
  lemma ServersAreIndependent(interval: nat, s: State, a: Action, now: int, x: string)
    requires !About(a, x)
    ensures var s' := Step(interval, s, a, now);
            && (x in s'.lastWritten <==> x in s.lastWritten) && (x in s.lastWritten ==> s'.lastWritten[x] == s.lastWritten[x])
            && (x in s'.db <==> x in s.db) && (x in s.db ==> s'.db[x] == s.db[x])
  {
  }
}
