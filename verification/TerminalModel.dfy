/**
 The hub's terminal session registry (hub/internal/grpcserver/terminalsessions.go) and the
 parties that compete to close a session (hub/internal/server/handlers_terminal.go).

 Each operation of the registry is one locked region, so a run is a sequence of atomic actions.
 A channel outlives its registry entry: an attached stream keeps receiving from it after the
 entry is gone. Channels therefore live in a heap of their own (`pipes`), and a session holds
 an index into it. Sending on a closed channel, or closing one twice, panics in Go; here it
 sets `panicked`, and the theorems show that no run ever does.
 */
module TerminalModel {
  import opened Keys
  import opened Options

  const CAP := 256

  datatype Event = Data(data: seq<bv8>) | Exit(code: int, err: string)

  /** A channel, labelled with the key it was registered under. */
  datatype Pipe = Pipe(key: string, buf: seq<Event>, closed: bool)

  datatype Session = Session(userID: string, executionUser: string, ch: nat, streaming: bool, closed: bool)

  datatype Registry = Registry(sessions: map<string, Session>, pipes: seq<Pipe>, panicked: bool)

  const EMPTY := Registry(map[], [], false)

  // ---- channel operations ----

  /** What the exit delivery leaves in a buffer: when it is full the oldest event makes room. */
  function WithExit(buf: seq<Event>, e: Event): seq<Event> {
    if |buf| >= CAP then buf[|buf| - CAP + 1..] + [e] else buf + [e]
  }

  function SendOn(r: Registry, c: nat, e: Event): Registry {
    if c >= |r.pipes| || r.pipes[c].closed then r.(panicked := true)
    else r.(pipes := r.pipes[c := r.pipes[c].(buf := r.pipes[c].buf + [e])])
  }

  function CloseOn(r: Registry, c: nat): Registry {
    if c >= |r.pipes| || r.pipes[c].closed then r.(panicked := true)
    else r.(pipes := r.pipes[c := r.pipes[c].(closed := true)])
  }

  function ExitOn(r: Registry, c: nat, e: Event): Registry {
    if c >= |r.pipes| || r.pipes[c].closed then r.(panicked := true)
    else r.(pipes := r.pipes[c := Pipe(r.pipes[c].key, WithExit(r.pipes[c].buf, e), true)])
  }

  /** What counts as misuse: anything done to a channel that is closed, or that was never made. */
  lemma MisuseIsNoticed(r: Registry, c: nat, e: Event)
    ensures var misuse := c >= |r.pipes| || r.pipes[c].closed;
            && SendOn(r, c, e).panicked == (r.panicked || misuse)
            && CloseOn(r, c).panicked == (r.panicked || misuse)
            && ExitOn(r, c, e).panicked == (r.panicked || misuse)
  {
  }

  // ---- registry operations ----

  function Register(r: Registry, key: string, userID: string, executionUser: string): (Registry, bool) {
    if key in r.sessions then (r, false)
    else
      var s := Session(userID, executionUser, |r.pipes|, false, false);
      (r.(sessions := r.sessions[key := s], pipes := r.pipes + [Pipe(key, [], false)]), true)
  }

  datatype Attached = NoSession | AlreadyStreaming | Stream(ch: nat)

  function AttachStream(r: Registry, key: string, userID: string): (Registry, Attached) {
    if key !in r.sessions || r.sessions[key].userID != userID then (r, NoSession)
    else if r.sessions[key].streaming then (r, AlreadyStreaming)
    else (r.(sessions := r.sessions[key := r.sessions[key].(streaming := true)]), Stream(r.sessions[key].ch))
  }

  function DeliverData(r: Registry, key: string, data: seq<bv8>): (Registry, bool) {
    if key !in r.sessions || r.sessions[key].closed then (r, false)
    else
      var c := r.sessions[key].ch;
      if c < |r.pipes| && |r.pipes[c].buf| < CAP then (SendOn(r, c, Data(data)), true) else (r, false)
  }

  function End(r: Registry, key: string, e: Event): (Registry, bool) {
    if key !in r.sessions || r.sessions[key].closed then (r, false)
    else
      var s := r.sessions[key];
      (ExitOn(r, s.ch, e).(sessions := r.sessions[key := s.(closed := true)]), true)
  }

  predicate Ends(r: Registry, serverID: string, key: string) {
    key in r.sessions && HasPrefix(key, serverID + ":") && !r.sessions[key].closed
  }

  predicate EndsPipe(r: Registry, serverID: string, c: nat) {
    c < |r.pipes| && Ends(r, serverID, r.pipes[c].key) && r.sessions[r.pipes[c].key].ch == c
  }

  ghost predicate EndAllPanics(r: Registry, serverID: string) {
    exists k :: k in r.sessions && Ends(r, serverID, k) &&
      (r.sessions[k].ch >= |r.pipes| || r.pipes[r.sessions[k].ch].closed)
  }

  ghost function EndAll(r: Registry, serverID: string, e: Event): Registry {
    Registry(
      map k | k in r.sessions :: if Ends(r, serverID, k) then r.sessions[k].(closed := true) else r.sessions[k],
      seq(|r.pipes|, c requires 0 <= c < |r.pipes| =>
        if EndsPipe(r, serverID, c) then Pipe(r.pipes[c].key, WithExit(r.pipes[c].buf, e), true) else r.pipes[c]),
      r.panicked || EndAllPanics(r, serverID))
  }

  /** Ending every session of a server misuses a channel exactly like ending one. */
  lemma MisuseByEndAll(r: Registry, serverID: string, e: Event)
    ensures EndAll(r, serverID, e).panicked <==>
              r.panicked || exists k :: k in r.sessions && Ends(r, serverID, k) && ExitOn(r.(panicked := false), r.sessions[k].ch, e).panicked
  {
    if k :| k in r.sessions && Ends(r, serverID, k) && ExitOn(r.(panicked := false), r.sessions[k].ch, e).panicked {
      assert EndAllPanics(r, serverID);
    }
    if EndAllPanics(r, serverID) {
      var k :| k in r.sessions && Ends(r, serverID, k) && (r.sessions[k].ch >= |r.pipes| || r.pipes[r.sessions[k].ch].closed);
      assert ExitOn(r.(panicked := false), r.sessions[k].ch, e).panicked;
    }
  }

  /** Deletes an entry, closing its channel unless its exit already did. */
  function Drop(r: Registry, key: string): Registry
    requires key in r.sessions
  {
    var s := r.sessions[key];
    (if s.closed then r else CloseOn(r, s.ch)).(sessions := r.sessions - {key})
  }

  /** (alreadyClosed, removed) */
  function RemoveIfHubInitiated(r: Registry, key: string): (Registry, (bool, bool)) {
    if key !in r.sessions then (r, (false, false)) else (Drop(r, key), (r.sessions[key].closed, true))
  }

  function RemoveUnattached(r: Registry, key: string): (Registry, bool) {
    if key !in r.sessions || r.sessions[key].streaming then (r, false) else (Drop(r, key), true)
  }

  function Remove(r: Registry, key: string): (Registry, bool) {
    if key !in r.sessions then (r, false) else (Drop(r, key), true)
  }

  /** The stream handler takes the next event from the channel it attached to. */
  function Receive(r: Registry, c: nat): (Registry, Option<Event>) {
    if c < |r.pipes| && r.pipes[c].buf != [] then
      (r.(pipes := r.pipes[c := r.pipes[c].(buf := r.pipes[c].buf[1..])]), Some(r.pipes[c].buf[0]))
    else (r, None)
  }

  // ---- runs, with the history of each registration ----

  /**
   What happened to one registration: the data accepted for it, what its stream received, the
   exit event, and how often each closer removed it, audited it or told the agent to close it.
   */
  datatype Life = Life(
    accepted: seq<Event>, received: seq<Event>, exit: Option<Event>, evicted: bool,
    attaches: nat, expiries: nat, hubCloses: nat, abandons: nat, audits: nat, closeSends: nat)

  const NEWBORN := Life([], [], None, false, 0, 0, 0, 0, 0, 0)

  datatype World = World(reg: Registry, lives: seq<Life>)

  const INITIAL := World(EMPTY, [])

  datatype Action =
    | DoRegister(key: string, userID: string, executionUser: string)
    | DoAttach(key: string, userID: string)
    | DoData(key: string, data: seq<bv8>)
    | DoEnd(key: string, code: int, err: string)
    | DoEndAll(serverID: string, code: int, err: string)
    | DoClose(key: string)    // closeTerminalSession: end of the stream, or the DELETE handler
    | DoExpire(key: string)   // the attach timer
    | DoAbandon(key: string)  // the open request failed
    | DoReceive(ch: nat)

  /** Moves to registry r and records l as the history of channel c. */
  function Note(w: World, r: Registry, c: nat, l: Life -> Life): World {
    World(r, if c < |w.lives| then w.lives[c := l(w.lives[c])] else w.lives)
  }

  function StepRegister(w: World, key: string, userID: string, executionUser: string): World {
    var (r, ok) := Register(w.reg, key, userID, executionUser);
    World(r, if ok then w.lives + [NEWBORN] else w.lives)
  }

  function StepAttach(w: World, key: string, userID: string): World {
    var (r, res) := AttachStream(w.reg, key, userID);
    if res.Stream? then Note(w, r, res.ch, (l: Life) => l.(attaches := l.attaches + 1)) else w
  }

  function StepData(w: World, key: string, data: seq<bv8>): World {
    var (r, ok) := DeliverData(w.reg, key, data);
    if ok then Note(w, r, w.reg.sessions[key].ch, (l: Life) => l.(accepted := l.accepted + [Data(data)])) else w
  }

  function Ending(l: Life, p: Pipe, e: Event): Life {
    l.(exit := Some(e), evicted := |p.buf| >= CAP)
  }

  function StepEnd(w: World, key: string, e: Event): World {
    var (r, ok) := End(w.reg, key, e);
    if ok && w.reg.sessions[key].ch < |w.reg.pipes| then
      var c := w.reg.sessions[key].ch;
      Note(w, r, c, (l: Life) => Ending(l, w.reg.pipes[c], e))
    else World(r, w.lives)
  }

  ghost function StepEndAll(w: World, serverID: string, e: Event): World {
    World(EndAll(w.reg, serverID, e),
      seq(|w.lives|, c requires 0 <= c < |w.lives| =>
        if EndsPipe(w.reg, serverID, c) then Ending(w.lives[c], w.reg.pipes[c], e) else w.lives[c]))
  }

  function StepClose(w: World, key: string): World {
    var (r, (alreadyClosed, removed)) := RemoveIfHubInitiated(w.reg, key);
    if removed then
      Note(w, r, w.reg.sessions[key].ch, (l: Life) =>
        l.(hubCloses := l.hubCloses + 1, audits := l.audits + 1,
           closeSends := l.closeSends + if alreadyClosed then 0 else 1))
    else w
  }

  function StepExpire(w: World, key: string): World {
    var (r, removed) := RemoveUnattached(w.reg, key);
    if removed then
      Note(w, r, w.reg.sessions[key].ch, (l: Life) =>
        l.(expiries := l.expiries + 1, audits := l.audits + 1, closeSends := l.closeSends + 1))
    else w
  }

  function StepAbandon(w: World, key: string): World {
    var (r, removed) := Remove(w.reg, key);
    if removed then Note(w, r, w.reg.sessions[key].ch, (l: Life) => l.(abandons := l.abandons + 1)) else w
  }

  function StepReceive(w: World, c: nat): World {
    var (r, e) := Receive(w.reg, c);
    if e.Some? then Note(w, r, c, (l: Life) => l.(received := l.received + [e.value])) else w
  }

  ghost function Step(w: World, a: Action): World {
    match a
    case DoRegister(key, userID, executionUser) => StepRegister(w, key, userID, executionUser)
    case DoAttach(key, userID) => StepAttach(w, key, userID)
    case DoData(key, data) => StepData(w, key, data)
    case DoEnd(key, code, err) => StepEnd(w, key, Exit(code, err))
    case DoEndAll(serverID, code, err) => StepEndAll(w, serverID, Exit(code, err))
    case DoClose(key) => StepClose(w, key)
    case DoExpire(key) => StepExpire(w, key)
    case DoAbandon(key) => StepAbandon(w, key)
    case DoReceive(c) => StepReceive(w, c)
  }

  ghost function Run(w: World, actions: seq<Action>): World {
    if actions == [] then w else Step(Run(w, actions[..|actions| - 1]), actions[|actions| - 1])
  }

  // ---- the invariant ----

  predicate AllData(es: seq<Event>) {
    forall i :: 0 <= i < |es| ==> es[i].Data?
  }

  /** The accepted data without the event an exit on a full buffer pushed out. */
  function Survivors(l: Life): seq<Event> {
    var k := |l.accepted| - CAP;
    if l.evicted && k >= 0 then l.accepted[..k] + l.accepted[k + 1..] else l.accepted
  }

  /** Everything the stream has received or can still receive, in order. */
  function Delivered(w: World, c: nat): seq<Event>
    requires c < |w.lives| && c < |w.reg.pipes|
  {
    w.lives[c].received + w.reg.pipes[c].buf
  }

  ghost predicate Flow(p: Pipe, l: Life) {
    && |p.buf| <= CAP
    && AllData(l.accepted)
    && match l.exit
       case None => !l.evicted && l.received + p.buf == l.accepted
       case Some(e) => e.Exit? && p.closed && (l.evicted ==> |l.accepted| >= CAP)
                       && l.received + p.buf == Survivors(l) + [e]
  }

  predicate Listed(r: Registry, c: nat) {
    c < |r.pipes| && r.pipes[c].key in r.sessions && r.sessions[r.pipes[c].key].ch == c
  }

  ghost predicate Closers(r: Registry, c: nat, l: Life) {
    && l.hubCloses + l.expiries + l.abandons == (if Listed(r, c) then 0 else 1)
    && l.audits == l.hubCloses + l.expiries
    && l.attaches <= 1
    && l.closeSends <= l.audits
    && l.expiries <= l.closeSends
    && (l.expiries == 1 ==> l.attaches == 0)
    && (l.hubCloses == 1 ==> (l.closeSends == 0 <==> l.exit.Some?))
    && (Listed(r, c) ==>
         && (r.sessions[r.pipes[c].key].streaming <==> l.attaches == 1)
         && (r.sessions[r.pipes[c].key].closed <==> l.exit.Some?))
  }

  ghost predicate Good(w: World, c: nat)
    requires c < |w.lives| == |w.reg.pipes|
  {
    && Flow(w.reg.pipes[c], w.lives[c])
    && Closers(w.reg, c, w.lives[c])
    && Linked(w.reg, c)
  }

  /** A listed channel is closed exactly when its entry says so; an unlisted one is closed. */
  predicate Linked(r: Registry, c: nat)
    requires c < |r.pipes|
  {
    r.pipes[c].closed <==> (Listed(r, c) ==> r.sessions[r.pipes[c].key].closed)
  }

  /** Every entry owns the channel that carries its key. */
  ghost predicate Owns(r: Registry) {
    forall k :: k in r.sessions ==> r.sessions[k].ch < |r.pipes| && r.pipes[r.sessions[k].ch].key == k
  }

  ghost predicate Inv(w: World) {
    && !w.reg.panicked
    && |w.lives| == |w.reg.pipes|
    && Owns(w.reg)
    && forall c :: 0 <= c < |w.lives| ==> Good(w, c)
  }

  /** The entry of an open session and its channel, spelled out. */
  lemma EntryFacts(w: World, key: string)
    requires Inv(w) && key in w.reg.sessions
    ensures var c := w.reg.sessions[key].ch; Listed(w.reg, c) && Good(w, c)
  {
    assert Listed(w.reg, w.reg.sessions[key].ch);
  }

  /** A step that changes channel c only, leaving the other entries alone, keeps the invariant if c stays good. */
  lemma OneChannel(w: World, w': World, c: nat)
    requires Inv(w) && c < |w.lives| == |w'.lives| == |w'.reg.pipes|
    requires !w'.reg.panicked && w'.reg.pipes[c].key == w.reg.pipes[c].key
    requires forall d :: 0 <= d < |w.lives| && d != c ==> w'.lives[d] == w.lives[d] && w'.reg.pipes[d] == w.reg.pipes[d]
    requires forall k :: k != w.reg.pipes[c].key ==> (k in w.reg.sessions <==> k in w'.reg.sessions)
    requires forall k :: k != w.reg.pipes[c].key && k in w.reg.sessions ==> w'.reg.sessions[k] == w.reg.sessions[k]
    requires w.reg.pipes[c].key in w'.reg.sessions ==>
               w.reg.pipes[c].key in w.reg.sessions && w'.reg.sessions[w.reg.pipes[c].key].ch == w.reg.sessions[w.reg.pipes[c].key].ch
    requires Listed(w.reg, c) || w'.reg.sessions == w.reg.sessions
    requires Good(w', c)
    ensures Inv(w')
  {
    forall d | 0 <= d < |w'.lives| ensures Good(w', d) {
      assert Good(w, d);
      if d != c {
        assert Listed(w'.reg, d) <==> Listed(w.reg, d);
      }
    }
  }

  lemma RegisterKeepsInv(w: World, key: string, userID: string, executionUser: string)
    requires Inv(w)
    ensures Inv(StepRegister(w, key, userID, executionUser))
  {
    var w' := StepRegister(w, key, userID, executionUser);
    forall c | 0 <= c < |w'.lives| ensures Good(w', c) {
      if c < |w.lives| { assert Good(w, c); }
    }
  }

  lemma AttachKeepsInv(w: World, key: string, userID: string)
    requires Inv(w)
    ensures Inv(StepAttach(w, key, userID))
  {
    if AttachStream(w.reg, key, userID).1.Stream? {
      EntryFacts(w, key);
      OneChannel(w, StepAttach(w, key, userID), w.reg.sessions[key].ch);
    }
  }

  lemma DataKeepsInv(w: World, key: string, data: seq<bv8>)
    requires Inv(w)
    ensures Inv(StepData(w, key, data))
  {
    if DeliverData(w.reg, key, data).1 {
      EntryFacts(w, key);
      OneChannel(w, StepData(w, key, data), w.reg.sessions[key].ch);
    }
  }

  lemma ExitKeepsFlow(p: Pipe, l: Life, e: Event)
    requires Flow(p, l) && l.exit.None? && e.Exit?
    ensures Flow(Pipe(p.key, WithExit(p.buf, e), true), Ending(l, p, e))
  {
    var k := |l.accepted| - CAP;
    if |p.buf| == CAP {
      assert l.accepted == l.received + p.buf;
      assert l.accepted[..k] == l.received && l.accepted[k + 1..] == p.buf[1..];
    }
  }

  lemma EndKeepsInv(w: World, key: string, e: Event)
    requires Inv(w) && e.Exit?
    ensures Inv(StepEnd(w, key, e))
  {
    if End(w.reg, key, e).1 {
      EntryFacts(w, key);
      var c := w.reg.sessions[key].ch;
      ExitKeepsFlow(w.reg.pipes[c], w.lives[c], e);
      OneChannel(w, StepEnd(w, key, e), c);
    }
  }

  lemma EndAllKeepsInv(w: World, serverID: string, e: Event)
    requires Inv(w) && e.Exit?
    ensures Inv(StepEndAll(w, serverID, e))
  {
    var w' := StepEndAll(w, serverID, e);
    assert !EndAllPanics(w.reg, serverID) by {
      forall k | k in w.reg.sessions { EntryFacts(w, k); }
    }
    forall c | 0 <= c < |w'.lives| ensures Good(w', c) {
      assert Good(w, c) && (Listed(w'.reg, c) <==> Listed(w.reg, c));
      if EndsPipe(w.reg, serverID, c) {
        ExitKeepsFlow(w.reg.pipes[c], w.lives[c], e);
      }
    }
  }

  /** Nothing was accepted, received or ended in between. */
  predicate SameStream(before: Life, l: Life) {
    l.accepted == before.accepted && l.received == before.received && l.exit == before.exit && l.evicted == before.evicted
  }

  lemma DropKeepsInv(w: World, key: string, l: Life)
    requires Inv(w) && key in w.reg.sessions
    requires var c := w.reg.sessions[key].ch; c < |w.lives| && SameStream(w.lives[c], l) && Closers(Drop(w.reg, key), c, l)
    ensures Inv(World(Drop(w.reg, key), w.lives[w.reg.sessions[key].ch := l]))
  {
    EntryFacts(w, key);
    var c := w.reg.sessions[key].ch;
    var w' := World(Drop(w.reg, key), w.lives[c := l]);
    assert Flow(w'.reg.pipes[c], w'.lives[c]);
    OneChannel(w, w', c);
  }

  lemma RemovalsKeepInv(w: World, key: string)
    requires Inv(w)
    ensures Inv(StepClose(w, key)) && Inv(StepExpire(w, key)) && Inv(StepAbandon(w, key))
  {
    if key in w.reg.sessions {
      EntryFacts(w, key);
      var c := w.reg.sessions[key].ch;
      DropKeepsInv(w, key, StepClose(w, key).lives[c]);
      DropKeepsInv(w, key, StepAbandon(w, key).lives[c]);
      if !w.reg.sessions[key].streaming {
        DropKeepsInv(w, key, StepExpire(w, key).lives[c]);
      }
    }
  }

  lemma ReceiveKeepsInv(w: World, c: nat)
    requires Inv(w)
    ensures Inv(StepReceive(w, c))
  {
    if Receive(w.reg, c).1.Some? {
      var w' := StepReceive(w, c);
      assert Good(w, c);
      assert Delivered(w', c) == Delivered(w, c);
      OneChannel(w, w', c);
    }
  }

  lemma StepKeepsInv(w: World, a: Action)
    requires Inv(w)
    ensures Inv(Step(w, a))
  {
    match a
    case DoRegister(key, userID, executionUser) => RegisterKeepsInv(w, key, userID, executionUser);
    case DoAttach(key, userID) => AttachKeepsInv(w, key, userID);
    case DoData(key, data) => DataKeepsInv(w, key, data);
    case DoEnd(key, code, err) => EndKeepsInv(w, key, Exit(code, err));
    case DoEndAll(serverID, code, err) => EndAllKeepsInv(w, serverID, Exit(code, err));
    case DoClose(key) => RemovalsKeepInv(w, key);
    case DoExpire(key) => RemovalsKeepInv(w, key);
    case DoAbandon(key) => RemovalsKeepInv(w, key);
    case DoReceive(c) => ReceiveKeepsInv(w, c);
  }

  lemma {:induction false} RunKeepsInv(actions: seq<Action>)
    ensures Inv(Run(INITIAL, actions))
  {
    if actions != [] {
      var n := |actions| - 1;
      RunKeepsInv(actions[..n]);
      StepKeepsInv(Run(INITIAL, actions[..n]), actions[n]);
    }
  }

  // ---- what every run guarantees ----

  /** No closed channel is ever sent to or closed again. */
  lemma NoChannelMisuse(actions: seq<Action>)
    ensures !Run(INITIAL, actions).reg.panicked
  {
    RunKeepsInv(actions);
  }

  /**
   What a stream has received, followed by what is still buffered for it, is the accepted data in
   order, then the exit if there was one. At most one accepted event is missing: the oldest of a
   full buffer, and only when the exit found it full. No buffer ever exceeds its capacity.
   */
  lemma StreamIsFifo(actions: seq<Action>, c: nat)
    requires c < |Run(INITIAL, actions).lives|
    ensures var w := Run(INITIAL, actions); var l := w.lives[c];
            && |w.lives| == |w.reg.pipes|
            && Delivered(w, c) == Survivors(l) + (if l.exit.Some? then [l.exit.value] else [])
            && l.received <= Delivered(w, c)
            && |w.reg.pipes[c].buf| <= 256
            && (Survivors(l) == l.accepted ||
                (l.evicted && l.exit.Some? && |Survivors(l)| == |l.accepted| - 1))
  {
    RunKeepsInv(actions);
    assert Good(Run(INITIAL, actions), c);
  }

  /** An eviction means that the buffer held CAP events, and it loses exactly the oldest of them. */
  lemma ExitEvictsOnlyTheOldest(w: World, key: string, code: int, err: string)
    requires Inv(w) && key in w.reg.sessions && !w.reg.sessions[key].closed
    ensures var c := w.reg.sessions[key].ch; var before := w.reg.pipes[c].buf;
            var w' := Step(w, DoEnd(key, code, err));
            && (w'.lives[c].evicted <==> |before| == 256)
            && w'.reg.pipes[c].buf == (if |before| == 256 then before[1..] else before) + [Exit(code, err)]
            && (|before| == 256 ==> |w.lives[c].accepted| >= 256 && before[0] == w.lives[c].accepted[|w.lives[c].accepted| - 256])
  {
    var c := w.reg.sessions[key].ch;
    assert Good(w, c);
    var l, before := w.lives[c], w.reg.pipes[c].buf;
    assert l.accepted == l.received + before;
  }

  /**
   While a session whose exit was reported stays registered, the exit is in its stream exactly once
   and as the last event.
   */
  lemma ExitIsOnceAndLast(actions: seq<Action>, key: string)
    requires var r := Run(INITIAL, actions).reg; key in r.sessions && r.sessions[key].closed
    ensures var w := Run(INITIAL, actions); var c := w.reg.sessions[key].ch;
            && c < |w.lives| && c < |w.reg.pipes|
            && w.lives[c].exit.Some?
            && var all := Delivered(w, c);
               && |all| > 0 && all[|all| - 1] == w.lives[c].exit.value
               && forall i :: 0 <= i < |all| ==> (all[i].Exit? <==> i == |all| - 1)
  {
    RunKeepsInv(actions);
    var w := Run(INITIAL, actions);
    var c := w.reg.sessions[key].ch;
    assert Good(w, c);
    assert AllData(Survivors(w.lives[c]));
  }

  /**
   Whatever the interleaving of stream end, DELETE handler, attach timer and failed open, a
   registration that is gone was removed by exactly one of them. It has one closed-audit unless the
   open failed, at most one stream ever attached, a session that had a stream never expires, and the
   agent is told to close it at most once, never by a hub close after the agent reported its exit.
   */
  lemma OneCloser(actions: seq<Action>, c: nat)
    requires c < |Run(INITIAL, actions).lives|
    ensures var w := Run(INITIAL, actions); var l := w.lives[c];
            && l.hubCloses + l.expiries + l.abandons == (if Listed(w.reg, c) then 0 else 1)
            && l.audits == (if Listed(w.reg, c) || l.abandons == 1 then 0 else 1)
            && l.attaches <= 1
            && !(l.attaches == 1 && l.expiries == 1)
            && l.closeSends <= 1
            && (l.expiries == 0 && l.exit.Some? ==> l.closeSends == 0)
  {
    RunKeepsInv(actions);
    assert Good(Run(INITIAL, actions), c);
  }

  /** A disconnect ends the open sessions of its own server and touches no other session. */
  lemma EndAllIsScoped(w: World, serverID: string, other: string, sessionID: string, e: Event)
    requires Inv(w) && ColonFree(serverID) && ColonFree(other)
    requires MakeKey(other, sessionID) in w.reg.sessions
    ensures var key := MakeKey(other, sessionID); var r' := EndAll(w.reg, serverID, e);
            var s := w.reg.sessions[key];
            && key in r'.sessions
            && r'.sessions[key] == (if other == serverID then s.(closed := true) else s)
            && r'.pipes[s.ch] == (if other == serverID && !s.closed
                 then Pipe(key, WithExit(w.reg.pipes[s.ch].buf, e), true) else w.reg.pipes[s.ch])
  {
    PrefixIffSameServer(serverID, other, sessionID);
  }

  // ---- what the registry itself relies on ----

  ghost predicate Sound(r: Registry) {
    && !r.panicked
    && Owns(r)
    && (forall k :: k in r.sessions ==> (r.sessions[k].closed <==> r.pipes[r.sessions[k].ch].closed))
    && (forall c :: 0 <= c < |r.pipes| ==> |r.pipes[c].buf| <= CAP)
  }

  lemma InvIsSound(w: World)
    requires Inv(w)
    ensures Sound(w.reg)
  {
    assert forall k :: k in w.reg.sessions ==> Good(w, w.reg.sessions[k].ch);
    forall c | 0 <= c < |w.reg.pipes| ensures |w.reg.pipes[c].buf| <= CAP {
      assert Good(w, c);
    }
  }

  /** Every state a run reaches satisfies what the registry's own methods rely on. */
  lemma ReachableIsSound(actions: seq<Action>)
    ensures Sound(Run(INITIAL, actions).reg)
  {
    RunKeepsInv(actions);
    InvIsSound(Run(INITIAL, actions));
  }

  function EntryAfter(r0: Registry, todo: set<string>, serverID: string, k: string): Session
    requires k in r0.sessions
  {
    if k !in todo && Ends(r0, serverID, k) then r0.sessions[k].(closed := true) else r0.sessions[k]
  }

  function PipeAfter(r0: Registry, todo: set<string>, serverID: string, e: Event, c: nat): Pipe
    requires c < |r0.pipes|
  {
    var p := r0.pipes[c];
    if p.key !in todo && EndsPipe(r0, serverID, c) then Pipe(p.key, WithExit(p.buf, e), true) else p
  }

  /** r is r0 after EndAll has visited every key outside todo. */
  ghost predicate EndedOutside(r0: Registry, r: Registry, todo: set<string>, serverID: string, e: Event) {
    && r.sessions.Keys == r0.sessions.Keys && |r.pipes| == |r0.pipes|
    && (forall k :: k in r.sessions ==> r.sessions[k] == EntryAfter(r0, todo, serverID, k))
    && (forall c :: 0 <= c < |r.pipes| ==> r.pipes[c] == PipeAfter(r0, todo, serverID, e, c))
  }

  lemma EndOneMore(r0: Registry, r: Registry, todo: set<string>, serverID: string, e: Event, k: string)
    requires Sound(r0) && EndedOutside(r0, r, todo, serverID, e) && k in todo && k in r.sessions
    ensures EndedOutside(r0, if Ends(r, serverID, k) then End(r, k, e).0 else r, todo - {k}, serverID, e)
  {
    var c := r.sessions[k].ch;
    assert r.sessions[k] == r0.sessions[k] && r0.pipes[c].key == k && r.pipes[c] == r0.pipes[c];
    var r' := if Ends(r, serverID, k) then End(r, k, e).0 else r;
    forall d | 0 <= d < |r'.pipes|
      ensures r'.pipes[d] == PipeAfter(r0, todo - {k}, serverID, e, d)
    {
      assert r.pipes[d] == PipeAfter(r0, todo, serverID, e, d);
    }
    forall j | j in r'.sessions
      ensures r'.sessions[j] == EntryAfter(r0, todo - {k}, serverID, j)
    {
      assert r.sessions[j] == EntryAfter(r0, todo, serverID, j);
    }
  }
}
