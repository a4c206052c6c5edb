/**
 Agent connections on the hub: the registry (hub/internal/connmgr/connmgr.go), the teardown of a stream
 (hub/internal/grpcserver/handler.go) and the sweep of stale ones (hub/internal/grpcserver/server.go).
 Times are in seconds.
 */
module ConnModel {
  import opened Options

  const MAX_AGE := 30

  datatype Conn = Conn(stream: nat, lastSeen: int)

  datatype Status = Pending | Online | Offline

  type Registry = map<string, Conn>

  /** The registry, the stored statuses, the open terminal sessions, and the streams between the two halves of their teardown. */
  datatype World = World(streams: Registry, status: map<string, Status>, terminals: set<(string, nat)>, leaving: set<(string, nat)>)

  function Beat(r: Registry, server: string, now: int): Registry {
    if server in r then r[server := r[server].(lastSeen := now)] else r
  }

  predicate IsCurrent(r: Registry, server: string, stream: nat) {
    server in r && r[server].stream == stream
  }

  predicate Stale(c: Conn, now: int) {
    c.lastSeen < now - MAX_AGE
  }

  function StaleConnections(r: Registry, now: int): set<string> {
    set s | s in r && Stale(r[s], now)
  }

  function SetOffline(status: map<string, Status>, servers: set<string>): map<string, Status> {
    map s | s in status :: if s in servers then Offline else status[s]
  }

  /** The servers stored as online that are not among the active ones. */
  function Orphans(status: map<string, Status>, active: set<string>): set<string> {
    set s | s in status && status[s].Online? && s !in active
  }

  function Swept(r: Registry, status: map<string, Status>, now: int): (Registry, map<string, Status>) {
    var stale := StaleConnections(r, now);
    var r1, status1 := r - stale, SetOffline(status, stale);
    (r1, SetOffline(status1, Orphans(status1, r1.Keys)))
  }

  datatype Action =
    | CreateServer(server: string)              // an administrator adds the server
    | Handshake(server: string)                 // stores the status "online" of a known server
    | Register(server: string, stream: nat)
    | Heartbeat(server: string)
    | Unregister(server: string, stream: nat)   // first half of a teardown
    | Finish(server: string, stream: nat)       // second half: status and terminal sessions
    | Sweep
    | OpenTerminal(server: string, session: nat)

  function WithoutServer(terminals: set<(string, nat)>, server: string): set<(string, nat)> {
    set t | t in terminals && t.0 != server
  }

  function Step(w: World, a: Action, now: int): World {
    match a
    case CreateServer(s) => if s in w.status then w else w.(status := w.status[s := Pending])
    case Handshake(s) => if s in w.status then w.(status := w.status[s := Online]) else w
    case Register(s, stream) => w.(streams := w.streams[s := Conn(stream, now)])
    case Heartbeat(s) => w.(streams := Beat(w.streams, s, now))
    case Unregister(s, stream) =>
      if IsCurrent(w.streams, s, stream) then w.(streams := w.streams - {s}, leaving := w.leaving + {(s, stream)}) else w
    case Finish(s, stream) =>
      if (s, stream) in w.leaving
      then World(w.streams, SetOffline(w.status, {s}), WithoutServer(w.terminals, s), w.leaving - {(s, stream)})
      else w
    case Sweep => var (r, status) := Swept(w.streams, w.status, now); w.(streams := r, status := status)
    case OpenTerminal(s, n) => w.(terminals := w.terminals + {(s, n)})
  }

  datatype Run = Start | Then(before: Run, a: Action, now: int)

  function After(run: Run): World {
    match run
    case Start => World(map[], map[], {}, {})
    case Then(before, a, now) => Step(After(before), a, now)
  }

  // ---- the registry against the history ----

  /** The stream that registered last for this server. */
  function LastRegistered(run: Run, s: string): Option<nat> {
    if run.Start? then None
    else if run.a.Register? && run.a.server == s then Some(run.a.stream)
    else LastRegistered(run.before, s)
  }

  /** When a connected server was heard of last: its registration or a later heartbeat. */
  function LastHeard(run: Run, s: string): int {
    if run.Start? then 0
    else if (run.a.Register? || run.a.Heartbeat?) && run.a.server == s then run.now
    else LastHeard(run.before, s)
  }

  /**
   Connected: since its last registration neither was that very stream torn down nor did a sweep find it
   silent for more than MAX_AGE. Nothing in this definition looks at the registry.
   */
  predicate Connected(run: Run, s: string) {
    run.Then? &&
    match run.a
    case Register(x, _) => x == s || Connected(run.before, s)
    case Unregister(x, stream) => Connected(run.before, s) && !(x == s && LastRegistered(run.before, s) == Some(stream))
    case Sweep => Connected(run.before, s) && LastHeard(run.before, s) >= run.now - MAX_AGE
    case _ => Connected(run.before, s)
  }

  predicate Agrees(r: Registry, s: string, connected: bool, last: Option<nat>, heard: int) {
    if connected then s in r && last == Some(r[s].stream) && heard == r[s].lastSeen else s !in r
  }

  /** In every run the registry holds, for each connected server and no other, the stream that registered last. */
  lemma {:induction false} RegistryIsTheLatest(run: Run, s: string)
    ensures Agrees(After(run).streams, s, Connected(run, s), LastRegistered(run, s), LastHeard(run, s))
  {
    if run.Then? {
      RegistryIsTheLatest(run.before, s);
    }
  }

  // ---- teardown ----

  /**
   The stream was found to be the connected one when its teardown began, and the teardown has not reached
   its second half yet. Like Connected, this looks at the history only.
   */
  predicate Leaving(run: Run, s: string, stream: nat) {
    run.Then? &&
    if run.a == Unregister(s, stream)
    then Leaving(run.before, s, stream) || (Connected(run.before, s) && LastRegistered(run.before, s) == Some(stream))
    else run.a != Finish(s, stream) && Leaving(run.before, s, stream)
  }

  lemma {:induction false} LeavingIsHistory(run: Run, s: string, stream: nat)
    ensures (s, stream) in After(run).leaving <==> Leaving(run, s, stream)
  {
    if run.Then? {
      LeavingIsHistory(run.before, s, stream);
      RegistryIsTheLatest(run.before, s);
    }
  }

  /** The action is the second half of a teardown of this server whose first half found its stream connected. */
  predicate TakesDown(run: Run, a: Action, server: string) {
    a.Finish? && a.server == server && Leaving(run, server, a.stream)
  }

  /**
   Whatever happens between the two halves of a teardown: an open terminal session is ended exactly by a
   second half for its own server whose first half found its stream connected.
   */
  lemma SessionEndsIff(run: Run, a: Action, now: int, server: string, session: nat)
    requires (server, session) in After(run).terminals
    ensures (server, session) !in After(Then(run, a, now)).terminals <==> TakesDown(run, a, server)
  {
    if a.Finish? {
      LeavingIsHistory(run, a.server, a.stream);
    }
  }

  /**
   What a second half does: nothing unless its first half found the stream connected; then it stores the
   server as offline and ends all its sessions, and leaves the registry as it is, whoever has
   registered in the meantime.
   */
  lemma FinishEffect(run: Run, s: string, stream: nat, now: int)
    ensures var w, w' := After(run), After(Then(run, Finish(s, stream), now));
            if Leaving(run, s, stream) then
              && w'.streams == w.streams && w'.status == SetOffline(w.status, {s})
              && (forall t :: t in w'.terminals <==> t in w.terminals && t.0 != s)
            else w' == w
  {
    LeavingIsHistory(run, s, stream);
  }

  /** A connected server loses what it has: its sessions, and its status. */
  predicate HitsConnected(run: Run, s: string, stream: nat, now: int) {
    var w' := After(Then(run, Finish(s, stream), now));
    && s in w'.streams
    && (forall t :: t in w'.terminals ==> t.0 != s)
    && (s in w'.status ==> w'.status[s].Offline?)
  }

  /** A teardown's second half hits a server that has reconnected exactly when it is still due while the server is connected. */
  lemma LateFinishHitsIff(run: Run, s: string, stream: nat, session: nat, now: int)
    requires (s, session) in After(run).terminals
    ensures HitsConnected(run, s, stream, now) <==> Leaving(run, s, stream) && Connected(run, s)
  {
    FinishEffect(run, s, stream, now);
    RegistryIsTheLatest(run, s);
  }

  /** Stream 2 connects and opens a session between the two halves of stream 1's teardown. */
  function ReconnectedInBetween(s: string): Run {
    Then(Then(Then(Then(Then(Then(Start, CreateServer(s), 0), Register(s, 1), 0), Unregister(s, 1), 0), Handshake(s), 0),
      Register(s, 2), 0), OpenTerminal(s, 7), 0)
  }

  /** Then the end of the old stream ends the new stream's session and stores the connected server as offline. */
  lemma LateFinishHitsTheNewStream(s: string)
    ensures var w := After(ReconnectedInBetween(s));
            var w' := After(Then(ReconnectedInBetween(s), Finish(s, 1), 0));
            && IsCurrent(w.streams, s, 2) && (s, 7) in w.terminals && w.status == map[s := Online]
            && IsCurrent(w'.streams, s, 2) && (s, 7) !in w'.terminals && w'.status == map[s := Offline]
  {
    var r1 := Then(Start, CreateServer(s), 0);
    assert After(Start) == World(map[], map[], {}, {});
    assert After(r1) == World(map[], map[s := Pending], {}, {});
    var r2 := Then(r1, Register(s, 1), 0);
    assert After(r2) == World(map[s := Conn(1, 0)], map[s := Pending], {}, {});
    var r3 := Then(r2, Unregister(s, 1), 0);
    assert After(r3) == World(map[], map[s := Pending], {}, {(s, 1)});
    var r4 := Then(r3, Handshake(s), 0);
    assert After(r4) == World(map[], map[s := Online], {}, {(s, 1)});
    var r6 := Then(Then(r4, Register(s, 2), 0), OpenTerminal(s, 7), 0);
    assert After(r6) == World(map[s := Conn(2, 0)], map[s := Online], {(s, 7)}, {(s, 1)});
    assert SetOffline(map[s := Online], {s}) == map[s := Offline];
  }

  // ---- teardown in one go ----

  /** The whole teardown of one stream, when nothing else happens in between. */
  function TornDown(w: World, s: string, stream: nat, now: int): World {
    Step(Step(w, Unregister(s, stream), now), Finish(s, stream), now)
  }

  /**
   The end of a stream that another one had replaced before its teardown began changes nothing: no
   registry entry, no status, no terminal session.
   */
  lemma SupersededTeardownChangesNothing(run: Run, s: string, stream: nat, now: int)
    requires LastRegistered(run, s) != Some(stream) && !Leaving(run, s, stream)
    ensures TornDown(After(run), s, stream, now) == After(run)
  {
    RegistryIsTheLatest(run, s);
    LeavingIsHistory(run, s, stream);
  }

  /**
   A teardown that nothing interrupts disconnects the server and ends its terminal sessions, and only its
   own, exactly when its stream is still the connected one. After a sweep has removed the stream its own
   teardown does neither.
   */
  lemma TeardownEndsIff(run: Run, s: string, stream: nat, now: int, server: string, session: nat)
    requires !Leaving(run, s, stream) && (server, session) in After(run).terminals
    ensures var w' := TornDown(After(run), s, stream, now);
            (server, session) !in w'.terminals <==>
              server == s && Connected(run, s) && LastRegistered(run, s) == Some(stream)
  {
    RegistryIsTheLatest(run, s);
    LeavingIsHistory(run, s, stream);
  }

  lemma CurrentTeardown(run: Run, s: string, stream: nat, now: int)
    requires Connected(run, s) && LastRegistered(run, s) == Some(stream)
    ensures var w := After(run); var w' := TornDown(w, s, stream, now);
            && w'.streams == w.streams - {s} && w'.status == SetOffline(w.status, {s})
            && (forall t :: t in w'.terminals <==> t in w.terminals && t.0 != s)
  {
    RegistryIsTheLatest(run, s);
  }

  // ---- the sweep ----

  /**
   After a sweep every server stored as online has a connection that was heard of within MAX_AGE, and
   no connection that was is dropped, nor any status changed without a reason.
   */
  lemma SweepLeavesOnlyTheLive(r: Registry, status: map<string, Status>, now: int, s: string)
    ensures var (r', status') := Swept(r, status, now);
            && (s in r' <==> s in r && !Stale(r[s], now)) && (s in r' ==> r'[s] == r[s])
            && (s in status' <==> s in status)
            && (s in status && status'[s].Online? <==> s in status && status[s].Online? && s in r && !Stale(r[s], now))
            && (s in status && status'[s] != status[s] ==> status'[s].Offline? && (s !in r || Stale(r[s], now)))
  {
  }

  // ---- the stored status against the history ----

  predicate Known(run: Run, s: string) {
    run.Then? && (run.a == CreateServer(s) || Known(run.before, s))
  }

  predicate HeardWithin(run: Run, now: int, s: string) {
    Connected(run, s) && LastHeard(run, s) >= now - 30
  }

  /** The last handshake of the known server came after every teardown of it and after every sweep that found it stale or unconnected. */
  predicate HandshakeHolds(run: Run, s: string) {
    run.Then? &&
    if run.a == Handshake(s) then Known(run.before, s)
    else HandshakeHolds(run.before, s) && !TakesDown(run.before, run.a, s) && (run.a.Sweep? ==> HeardWithin(run.before, run.now, s))
  }

  /** Since the server was added no handshake came, no teardown took it down, and no sweep found a stale connection of it. */
  predicate Untouched(run: Run, s: string) {
    run.Then? &&
    if Known(run.before, s) then
      && Untouched(run.before, s) && run.a != Handshake(s) && !TakesDown(run.before, run.a, s)
      && (run.a.Sweep? && Connected(run.before, s) ==> HeardWithin(run.before, run.now, s))
    else run.a == CreateServer(s)
  }

  predicate StatusIs(status: map<string, Status>, s: string, known: bool, online: bool, pending: bool) {
    && (s in status <==> known)
    && (s in status && status[s].Online? <==> online)
    && (s in status && status[s].Pending? <==> pending)
  }

  lemma SweepStatus(w: World, now: int, s: string)
    ensures s in Step(w, Sweep, now).status <==> s in w.status
    ensures s in w.status && s in w.streams ==>
              Step(w, Sweep, now).status[s] == if Stale(w.streams[s], now) then Offline else w.status[s]
    ensures s in w.status && s !in w.streams ==>
              Step(w, Sweep, now).status[s] == if w.status[s].Online? then Offline else w.status[s]
  {
  }

  /**
   In every run: a server is stored exactly when it was added; as online exactly when its last handshake
   still holds, and as pending exactly when nothing has happened to it since it was added.
   */
  lemma {:induction false} StatusIsHistory(run: Run, s: string)
    ensures StatusIs(After(run).status, s, Known(run, s), HandshakeHolds(run, s), Untouched(run, s))
  {
    if run.Then? {
      var w := After(run.before);
      StatusIsHistory(run.before, s);
      RegistryIsTheLatest(run.before, s);
      if run.a.Finish? {
        LeavingIsHistory(run.before, run.a.server, run.a.stream);
      }
      SweepStatus(w, run.now, s);
    }
  }

  /** A handshake stores any known server as online, whatever its status was. */
  lemma HandshakeStoresOnline(run: Run, s: string, now: int)
    requires Known(run, s)
    ensures var w' := After(Then(run, Handshake(s), now)); s in w'.status && w'.status[s].Online?
  {
    StatusIsHistory(Then(run, Handshake(s), now), s);
  }

  /** The session was opened, and no teardown has ended its server's sessions since. */
  predicate SessionOpen(run: Run, s: string, n: nat) {
    run.Then? && (run.a == OpenTerminal(s, n) || (SessionOpen(run.before, s, n) && !TakesDown(run.before, run.a, s)))
  }

  lemma {:induction false} SessionsAreHistory(run: Run, s: string, n: nat)
    ensures (s, n) in After(run).terminals <==> SessionOpen(run, s, n)
  {
    if run.Then? {
      SessionsAreHistory(run.before, s, n);
      if run.a.Finish? {
        LeavingIsHistory(run.before, run.a.server, run.a.stream);
      }
    }
  }

  /** After a sweep "online" means that the last handshake holds and the connected stream was heard of within 30 seconds. */
  lemma OnlineMeansHeardOf(run: Run, now: int, s: string)
    ensures var w := After(Then(run, Sweep, now));
            && (s in w.status && w.status[s].Online? <==> HandshakeHolds(run, s) && HeardWithin(run, now, s))
            && (HeardWithin(run, now, s) ==> LastRegistered(run, s).Some? && IsCurrent(w.streams, s, LastRegistered(run, s).value))
  {
    RegistryIsTheLatest(run, s);
    StatusIsHistory(Then(run, Sweep, now), s);
  }
}
