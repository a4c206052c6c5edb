/**
 Each log session as a queue of its own: what the shared tables of LogSessionModel do for one registration
 is what a private bounded queue would do, fed by the actions of the run that concern it.
 */
module LogSessionHistory {
  import opened Options
  import opened Units
  import opened LogSessionModel

  /** How many sessions were registered so far. */
  function Channels(run: Run): nat {
    if run.Start? then 0 else Channels(run.before) + if run.a.DoRegister? then 1 else 0
  }

  /** The key's registration, by number: the latest one, until it is removed. */
  function Current(run: Run, key: string): Option<nat> {
    match run
    case Start => None
    case Then(before, DoRegister(k)) => if k == key then Some(Channels(before)) else Current(before, key)
    case Then(before, DoRemove(k)) => if k == key then None else Current(before, key)
    case Then(before, _) => Current(before, key)
  }

  /** One session: what waits, what its reader got, the drops not yet reported and those reported, and whether it was closed. */
  datatype Queue = Queue(waiting: seq<Bytes>, received: seq<Bytes>, counted: nat, reported: nat, closed: bool)

  const FRESH := Queue([], [], 0, 0, false)

  function Offer(q: Queue, data: Bytes): Queue {
    if |q.waiting| < 64 then q.(waiting := q.waiting + [data]) else q.(counted := q.counted + 1)
  }

  function Take(q: Queue): Queue {
    if q.waiting == [] then q else q.(waiting := q.waiting[1..], received := q.received + [q.waiting[0]])
  }

  /** The n-th registration by its own history; nothing here looks at the tables. */
  function Session(run: Run, n: nat): Queue {
    match run
    case Start => FRESH
    case Then(before, DoRegister(_)) => if n == Channels(before) then FRESH else Session(before, n)
    case Then(before, DoDeliver(k, data)) => if Current(before, k) == Some(n) then Offer(Session(before, n), data) else Session(before, n)
    case Then(before, DoReceive(m)) => if m == n then Take(Session(before, n)) else Session(before, n)
    case Then(before, DoDrain(k)) =>
      var q := Session(before, n);
      if Current(before, k) == Some(n) then q.(counted := 0, reported := q.reported + q.counted) else q
    case Then(before, DoRemove(k)) => if Current(before, k) == Some(n) then Session(before, n).(closed := true) else Session(before, n)
  }

  lemma {:induction false} ChannelsAreRegistrations(run: Run)
    ensures |After(run).lives| == Channels(run)
  {
    if run.Then? {
      ChannelsAreRegistrations(run.before);
    }
  }

  /** A key is registered exactly when its latest registration was not removed, and the table leads to that one. */
  lemma {:induction false} CurrentIsHistory(run: Run, key: string)
    ensures key in After(run).channels <==> Current(run, key).Some?
    ensures key in After(run).channels ==> After(run).channels[key] == Current(run, key).value
  {
    if run.Then? {
      CurrentIsHistory(run.before, key);
      ChannelsAreRegistrations(run.before);
      RunKeepsInv(run.before);
    }
  }

  predicate Counts(run: Run, key: string) {
    key in After(run).channels ==> Count(After(run).overflow, key) == Session(run, After(run).channels[key]).counted
  }

  predicate Stands(l: Life, q: Queue) {
    l.buf == q.waiting && l.received == q.received && l.drained == q.reported && l.open == !q.closed
  }

  ghost predicate Histories(run: Run) {
    && (forall n :: 0 <= n < |After(run).lives| ==> Stands(After(run).lives[n], Session(run, n)))
    && (forall key :: Counts(run, key))
  }

  lemma RegisterFollows(run: Run, k: string)
    requires Histories(run)
    ensures Histories(Then(run, DoRegister(k)))
  {
    var after := Then(run, DoRegister(k));
    ChannelsAreRegistrations(run);
    RunKeepsInv(run);
    forall n | 0 <= n < |After(after).lives| ensures Stands(After(after).lives[n], Session(after, n)) {}
    forall key ensures Counts(after, key) {
      assert Counts(run, key);
    }
  }

  lemma DeliverFollows(run: Run, k: string, data: Bytes)
    requires Histories(run)
    ensures Histories(Then(run, DoDeliver(k, data)))
  {
    var after := Then(run, DoDeliver(k, data));
    CurrentIsHistory(run, k);
    RunKeepsInv(run);
    if k in After(run).channels {
      RegisteredIsOpen(After(run), k);
      assert Stands(After(run).lives[After(run).channels[k]], Session(run, After(run).channels[k]));
    }
    forall n | 0 <= n < |After(after).lives| ensures Stands(After(after).lives[n], Session(after, n)) {
      assert Stands(After(run).lives[n], Session(run, n));
    }
    forall key ensures Counts(after, key) {
      assert Counts(run, key);
    }
  }

  lemma ReceiveFollows(run: Run, m: nat)
    requires Histories(run)
    ensures Histories(Then(run, DoReceive(m)))
  {
    var after := Then(run, DoReceive(m));
    forall n | 0 <= n < |After(after).lives| ensures Stands(After(after).lives[n], Session(after, n)) {
      assert Stands(After(run).lives[n], Session(run, n));
    }
    forall key ensures Counts(after, key) {
      assert Counts(run, key);
    }
  }

  lemma DrainFollows(run: Run, k: string)
    requires Histories(run)
    ensures Histories(Then(run, DoDrain(k)))
  {
    var after := Then(run, DoDrain(k));
    CurrentIsHistory(run, k);
    RunKeepsInv(run);
    assert Counts(run, k);
    forall n | 0 <= n < |After(after).lives| ensures Stands(After(after).lives[n], Session(after, n)) {
      assert Stands(After(run).lives[n], Session(run, n));
    }
    forall key ensures Counts(after, key) {
      assert Counts(run, key);
    }
  }

  lemma RemoveFollows(run: Run, k: string)
    requires Histories(run)
    ensures Histories(Then(run, DoRemove(k)))
  {
    var after := Then(run, DoRemove(k));
    CurrentIsHistory(run, k);
    RunKeepsInv(run);
    forall n | 0 <= n < |After(after).lives| ensures Stands(After(after).lives[n], Session(after, n)) {
      assert Stands(After(run).lives[n], Session(run, n));
    }
    forall key ensures Counts(after, key) {
      assert Counts(run, key);
    }
  }

  lemma {:induction false} RunFollows(run: Run)
    ensures Histories(run)
  {
    if run.Then? {
      RunFollows(run.before);
      match run.a
      case DoRegister(key) => RegisterFollows(run.before, key);
      case DoDeliver(key, data) => DeliverFollows(run.before, key, data);
      case DoReceive(n) => ReceiveFollows(run.before, n);
      case DoDrain(key) => DrainFollows(run.before, key);
      case DoRemove(key) => RemoveFollows(run.before, key);
    }
  }

  /**
   In every run each registration is a queue of its own: what waits, what was received and what was reported
   is what its own deliveries, receives and reports make of it, whatever the other sessions do.
   */
  lemma SessionIsItsHistory(run: Run, n: nat)
    requires n < |After(run).lives|
    ensures Stands(After(run).lives[n], Session(run, n))
  {
    RunFollows(run);
  }

  /** A report hands out exactly the drops since the last one. */
  lemma DrainReportsTheDrops(run: Run, key: string)
    requires Current(run, key).Some?
    ensures var n := Current(run, key).value;
            && n < |After(run).lives|
            && After(Then(run, DoDrain(key))).lives[n].drained == Session(run, n).reported + Session(run, n).counted
            && After(Then(run, DoDrain(key))).lives[n].drained == Dropped(After(run).lives[n].offered)
  {
    CurrentIsHistory(run, key);
    RunFollows(run);
    RunKeepsInv(run);
    var n := Current(run, key).value;
    assert Accounted(After(run).lives[n], n, After(run).channels, After(run).overflow);
    assert Counts(run, key);
  }

  /** What a removal or a later registration of the key leaves of a session: what waits may still be read, nothing new comes. */
  lemma ClosedIsFinal(run: Run, key: string, n: nat, data: Bytes)
    requires n < |After(run).lives| && Current(run, key) == Some(n)
    ensures var gone := Then(run, DoRemove(key));
            && key !in After(gone).channels && !After(gone).lives[n].open
            && After(Then(gone, DoDeliver(key, data))) == After(gone)
            && (forall m :: 0 <= m < |After(run).lives| && m != n ==> After(gone).lives[m] == After(run).lives[m])
  {
    CurrentIsHistory(run, key);
    RunKeepsInv(run);
  }
}
