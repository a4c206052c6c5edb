/**
 The agent's terminal manager (agent/internal/terminal/manager.go) as a machine of interleaved
 steps. Open checks for a slot, starts the process and registers it in separate steps; stop() does
 not take the lock, so it can fall between the check inside register and the insertion.
 */
module ManagerModel {
  import opened Options

  const MAX_SESSIONS := 8

  /** A started terminal process: the session object, with the identifier it was opened under. */
  datatype Handle = Handle(id: string, n: nat)

  /** The manager's fields; `done` holds the sessions whose close-once has run. */
  datatype Core = Core(sessions: map<string, Handle>, stopped: bool, done: set<Handle>)

  datatype Verdict = Admitted | EmptyID | ManagerStopped | AlreadyExists | TooMany | StartFailed

  /** The decision both validateOpenSlot and register take under the lock. */
  function SlotVerdict(m: Core, id: string): Verdict {
    if m.stopped then ManagerStopped
    else if id in m.sessions then AlreadyExists
    else if |m.sessions| >= MAX_SESSIONS then TooMany
    else Admitted
  }

  function Insert(m: Core, s: Handle): Core {
    m.(sessions := m.sessions[s.id := s])
  }

  /** closeSession: the first call deletes the entry of the session's identifier. */
  function CloseOnce(m: Core, s: Handle): Core {
    if s in m.done then m else m.(sessions := m.sessions - {s.id}, done := m.done + {s})
  }

  // ---- the interleaved machine ----

  /** Where one call of Open stands. */
  datatype Phase =
    | Idle
    | Refused    // returned an error before a process was started
    | Checked    // validateOpenSlot passed
    | Started    // the process runs, register has not been reached
    | Inserting  // inside register, checks passed, lock held
    | Failing    // register refused; the session is about to be closed
    | Opened     // registered once; its read and wait loops run

  datatype Closer = Stopping | Listing | Closing(left: set<Handle>)

  datatype State = State(ids: seq<string>, phases: seq<Phase>, core: Core, lock: Option<nat>, closers: seq<Closer>)

  datatype Action =
    | Check(p: nat)
    | Start(p: nat, ok: bool)
    | RegisterCheck(p: nat)
    | RegisterInsert(p: nat)
    | CloseFailed(p: nat)
    | CloseOpened(p: nat)  // Close, or the wait loop after the process exited
    | BeginCloseAll
    | Stop(c: nat)
    | List(c: nat)
    | CloseNext(c: nat, s: Handle)

  /** One call of Open per identifier, all at the start. */
  function Init(ids: seq<string>): State {
    State(ids, seq(|ids|, i => Idle), Core(map[], false, {}), None, [])
  }

  function HandleOf(st: State, p: nat): Handle
    requires p < |st.ids|
  {
    Handle(st.ids[p], p)
  }

  predicate At(st: State, p: nat, ph: Phase) {
    p < |st.phases| && p < |st.ids| && st.phases[p] == ph
  }

  function Step(st: State, a: Action): State {
    match a
    case Check(p) =>
      if At(st, p, Idle) && st.lock.None? then
        st.(phases := st.phases[p :=
          if st.ids[p] != "" && SlotVerdict(st.core, st.ids[p]).Admitted? then Checked else Refused])
      else st
    case Start(p, ok) =>
      if At(st, p, Checked) then st.(phases := st.phases[p := if ok then Started else Refused]) else st
    case RegisterCheck(p) =>
      if At(st, p, Started) && st.lock.None? then
        if SlotVerdict(st.core, st.ids[p]).Admitted?
        then st.(phases := st.phases[p := Inserting], lock := Some(p))
        else st.(phases := st.phases[p := Failing])
      else st
    case RegisterInsert(p) =>
      if At(st, p, Inserting) && st.lock == Some(p)
      then st.(phases := st.phases[p := Opened], core := Insert(st.core, HandleOf(st, p)), lock := None)
      else st
    case CloseFailed(p) =>
      if At(st, p, Failing) && st.lock.None? then st.(core := CloseOnce(st.core, HandleOf(st, p))) else st
    case CloseOpened(p) =>
      if At(st, p, Opened) && st.lock.None? then st.(core := CloseOnce(st.core, HandleOf(st, p))) else st
    case BeginCloseAll => st.(closers := st.closers + [Stopping])
    case Stop(c) =>
      if c < |st.closers| && st.closers[c].Stopping?
      then st.(core := st.core.(stopped := true), closers := st.closers[c := Listing]) else st
    case List(c) =>
      if c < |st.closers| && st.closers[c].Listing? && st.lock.None?
      then st.(closers := st.closers[c := Closing(st.core.sessions.Values)]) else st
    case CloseNext(c, s) =>
      if c < |st.closers| && st.closers[c].Closing? && s in st.closers[c].left && st.lock.None?
      then st.(core := CloseOnce(st.core, s), closers := st.closers[c := Closing(st.closers[c].left - {s})])
      else st
  }

  function Run(ids: seq<string>, actions: seq<Action>): State {
    if actions == [] then Init(ids) else Step(Run(ids, actions[..|actions| - 1]), actions[|actions| - 1])
  }

  predicate Distinct(ids: seq<string>) {
    forall i, j :: 0 <= i < j < |ids| && ids[i] == ids[j] ==> ids[i] == ""
  }

  // ---- what holds whatever identifiers are used ----

  ghost predicate Bounded(st: State) {
    && |st.phases| == |st.ids|
    && LockHeldInside(st.phases, st.lock)
    && RoomInside(st.ids, st.lock, st.core.sessions)
    && |st.core.sessions| <= MAX_SESSIONS
  }

  ghost predicate LockHeldInside(phases: seq<Phase>, lock: Option<nat>) {
    forall p :: 0 <= p < |phases| ==> (phases[p].Inserting? <==> lock == Some(p))
  }

  ghost predicate RoomInside(ids: seq<string>, lock: Option<nat>, sessions: map<string, Handle>) {
    lock.Some? ==> lock.value < |ids| && ids[lock.value] !in sessions && |sessions| < MAX_SESSIONS
  }

  lemma DeleteShrinks<K, V>(m: map<K, V>, k: K)
    ensures |m - {k}| <= |m|
    ensures k !in m ==> m - {k} == m
  {
    var rest := m - {k};
    if k in m {
      assert m == rest[k := m[k]];
    } else {
      assert rest == m;
    }
  }

  lemma CloseKeepsBounded(st: State, s: Handle)
    requires Bounded(st)
    ensures Bounded(st.(core := CloseOnce(st.core, s)))
  {
    DeleteShrinks(st.core.sessions, s.id);
  }

  lemma OpenMoveKeepsBounded(st: State, a: Action)
    requires Bounded(st) && (a.Check? || a.Start? || a.RegisterCheck? || a.RegisterInsert?)
    ensures Bounded(Step(st, a))
  {
    var st' := Step(st, a);
    assert LockHeldInside(st'.phases, st'.lock);
  }

  lemma StepKeepsBounded(st: State, a: Action)
    requires Bounded(st)
    ensures Bounded(Step(st, a))
  {
    match a
    case CloseFailed(p) => if At(st, p, Failing) { CloseKeepsBounded(st, HandleOf(st, p)); }
    case CloseOpened(p) => if At(st, p, Opened) { CloseKeepsBounded(st, HandleOf(st, p)); }
    case CloseNext(c, s) => CloseKeepsBounded(st, s);
    case BeginCloseAll =>
    case Stop(c) =>
    case List(c) =>
    case _ => OpenMoveKeepsBounded(st, a);
  }

  /** At most eight terminals are registered, whatever the interleaving. */
  lemma {:induction false} SlotsAreBounded(ids: seq<string>, actions: seq<Action>)
    ensures Bounded(Run(ids, actions))
    ensures |Run(ids, actions).core.sessions| <= 8
  {
    if actions != [] {
      var n := |actions| - 1;
      SlotsAreBounded(ids, actions[..n]);
      StepKeepsBounded(Run(ids, actions[..n]), actions[n]);
    }
  }

  // ---- what distinct identifiers add ----

  /** An opened session is registered under its identifier, or its close-once has run. */
  ghost predicate Tracks(st: State, p: nat) {
    At(st, p, Opened) && HandleOf(st, p) !in st.core.done ==>
      st.ids[p] in st.core.sessions && st.core.sessions[st.ids[p]] == HandleOf(st, p)
  }

  ghost predicate Tracked(st: State) {
    forall p :: 0 <= p < |st.ids| ==> Tracks(st, p)
  }

  /** A handle made by an Open call that reached register. */
  predicate Real(ids: seq<string>, phases: seq<Phase>, s: Handle) {
    s.n < |ids| && s.n < |phases| && s.id == ids[s.n] && s.id != "" && (phases[s.n].Opened? || phases[s.n].Failing?)
  }

  ghost predicate AllReal(ids: seq<string>, phases: seq<Phase>, ss: set<Handle>) {
    forall s :: s in ss ==> Real(ids, phases, s)
  }

  /** The registered sessions are open, filed under their own identifiers, and not yet closed. */
  ghost predicate Filed(ids: seq<string>, phases: seq<Phase>, core: Core) {
    forall k :: k in core.sessions ==>
      var s := core.sessions[k]; s.id == k && s !in core.done && Real(ids, phases, s) && phases[s.n].Opened?
  }

  ghost predicate Covers(left: set<Handle>, core: Core) {
    forall k :: k in core.sessions ==> core.sessions[k] in left
  }

  ghost predicate CloserOk(st: State, cl: Closer) {
    && (!cl.Stopping? ==> st.core.stopped)
    && (cl.Closing? ==> st.lock.None? && AllReal(st.ids, st.phases, cl.left) && Covers(cl.left, st.core))
  }

  ghost predicate Sound(st: State) {
    && Filed(st.ids, st.phases, st.core)
    && AllReal(st.ids, st.phases, st.core.done)
    && (forall p :: 0 <= p < |st.phases| && !st.phases[p].Idle? && !st.phases[p].Refused? ==>
         p < |st.ids| && st.ids[p] != "")
    && (forall c :: 0 <= c < |st.closers| ==> CloserOk(st, st.closers[c]))
  }

  /** With distinct identifiers a close deletes at most the entry of its own session. */
  lemma CloseKeepsSound(st: State, s: Handle)
    requires Distinct(st.ids) && |st.phases| == |st.ids| && Tracked(st) && Sound(st)
    requires Real(st.ids, st.phases, s)
    ensures var st' := st.(core := CloseOnce(st.core, s)); Tracked(st') && Sound(st')
    ensures s !in CloseOnce(st.core, s).sessions.Values
  {
    var st' := st.(core := CloseOnce(st.core, s));
    forall p | 0 <= p < |st.ids| ensures Tracks(st', p) {
      assert Tracks(st, p);
    }
    forall c | 0 <= c < |st'.closers| ensures CloserOk(st', st'.closers[c]) {
      assert CloserOk(st, st.closers[c]);
    }
  }

  /** A change of one Open call's phase, up to its insertion. */
  lemma PhaseKeepsSound(st: State, p: nat, ph: Phase, lock: Option<nat>)
    requires |st.phases| == |st.ids| && Tracked(st) && Sound(st) && p < |st.ids|
    requires st.ids[p] != "" || ph == Refused
    requires !At(st, p, Opened) && !At(st, p, Failing) && ph != Opened
    requires lock == st.lock || lock.None? || !st.core.stopped
    ensures var st' := st.(phases := st.phases[p := ph], lock := lock); Tracked(st') && Sound(st')
  {
    var st' := st.(phases := st.phases[p := ph], lock := lock);
    forall q | 0 <= q < |st.ids| ensures Tracks(st', q) {
      assert Tracks(st, q);
    }
    forall c | 0 <= c < |st'.closers| ensures CloserOk(st', st'.closers[c]) {
      assert CloserOk(st, st.closers[c]);
    }
  }

  lemma InsertKeepsSound(st: State, p: nat)
    requires Distinct(st.ids) && Bounded(st) && Tracked(st) && Sound(st) && At(st, p, Inserting)
    ensures var st' := Step(st, RegisterInsert(p)); Tracked(st') && Sound(st')
  {
    var st' := Step(st, RegisterInsert(p));
    forall q | 0 <= q < |st.ids| ensures Tracks(st', q) {
      assert Tracks(st, q);
    }
    forall c | 0 <= c < |st'.closers| ensures CloserOk(st', st'.closers[c]) {
      assert CloserOk(st, st.closers[c]);
    }
  }

  lemma CloserMoveKeepsSound(st: State, a: Action)
    requires Bounded(st) && Tracked(st) && Sound(st) && (a.BeginCloseAll? || a.Stop? || a.List?)
    ensures Tracked(Step(st, a)) && Sound(Step(st, a))
  {
    var st' := Step(st, a);
    forall q | 0 <= q < |st.ids| ensures Tracks(st', q) {
      assert Tracks(st, q);
    }
    forall c | 0 <= c < |st'.closers| ensures CloserOk(st', st'.closers[c]) {
      if c < |st.closers| { assert CloserOk(st, st.closers[c]); }
    }
  }

  lemma CloseNextKeepsSound(st: State, c: nat, s: Handle)
    requires Distinct(st.ids) && Bounded(st) && Tracked(st) && Sound(st)
    ensures Tracked(Step(st, CloseNext(c, s))) && Sound(Step(st, CloseNext(c, s)))
  {
    var st' := Step(st, CloseNext(c, s));
    if st' != st {
      assert CloserOk(st, st.closers[c]);
      CloseKeepsSound(st, s);
      var mid := st.(core := CloseOnce(st.core, s));
      forall q | 0 <= q < |st.ids| ensures Tracks(st', q) {
        assert Tracks(mid, q);
      }
      forall d | 0 <= d < |st'.closers| ensures CloserOk(st', st'.closers[d]) {
        assert CloserOk(mid, mid.closers[d]);
      }
    }
  }

  lemma StepKeepsSound(st: State, a: Action)
    requires Distinct(st.ids) && Bounded(st) && Tracked(st) && Sound(st)
    ensures Tracked(Step(st, a)) && Sound(Step(st, a))
  {
    match a
    case Check(p) =>
      if At(st, p, Idle) && st.lock.None? { PhaseKeepsSound(st, p, Step(st, a).phases[p], None); }
    case Start(p, ok) =>
      if At(st, p, Checked) { PhaseKeepsSound(st, p, Step(st, a).phases[p], st.lock); }
    case RegisterCheck(p) =>
      if At(st, p, Started) && st.lock.None? { PhaseKeepsSound(st, p, Step(st, a).phases[p], Step(st, a).lock); }
    case RegisterInsert(p) =>
      if At(st, p, Inserting) { InsertKeepsSound(st, p); }
    case CloseFailed(p) =>
      if At(st, p, Failing) && st.lock.None? { CloseKeepsSound(st, HandleOf(st, p)); }
    case CloseOpened(p) =>
      if At(st, p, Opened) && st.lock.None? { CloseKeepsSound(st, HandleOf(st, p)); }
    case CloseNext(c, s) => CloseNextKeepsSound(st, c, s);
    case _ => CloserMoveKeepsSound(st, a);
  }

  lemma {:induction false} RunIsSound(ids: seq<string>, actions: seq<Action>)
    requires Distinct(ids)
    ensures Run(ids, actions).ids == ids
    ensures Sound(Run(ids, actions)) && Tracked(Run(ids, actions))
  {
    if actions != [] {
      var n := |actions| - 1;
      RunIsSound(ids, actions[..n]);
      SlotsAreBounded(ids, actions[..n]);
      StepKeepsSound(Run(ids, actions[..n]), actions[n]);
    }
  }

  /** An opened session is registered exactly until its close-once has run. */
  lemma RegisteredUntilClosed(ids: seq<string>, actions: seq<Action>, p: nat)
    requires Distinct(ids) && At(Run(ids, actions), p, Opened)
    ensures p < |ids|
    ensures var m := Run(ids, actions).core;
            (ids[p] in m.sessions && m.sessions[ids[p]] == Handle(ids[p], p)) <==> Handle(ids[p], p) !in m.done
  {
    RunIsSound(ids, actions);
    assert Tracks(Run(ids, actions), p);
  }

  predicate HasFinished(closers: seq<Closer>, c: nat) {
    c < |closers| && closers[c] == Closing({})
  }

  lemma StepKeepsFinished(st: State, a: Action, c: nat)
    requires HasFinished(st.closers, c)
    ensures HasFinished(Step(st, a).closers, c)
  {
  }

  lemma RunOneMore(ids: seq<string>, actions: seq<Action>, a: Action)
    ensures Run(ids, actions + [a]) == Step(Run(ids, actions), a)
  {
    assert (actions + [a])[..|actions|] == actions;
  }

  lemma {:induction false} FinishedStaysFinished(ids: seq<string>, before: seq<Action>, after: seq<Action>, c: nat)
    requires HasFinished(Run(ids, before).closers, c)
    ensures HasFinished(Run(ids, before + after).closers, c)
  {
    if after == [] {
      assert before + after == before;
    } else {
      var front, a := after[..|after| - 1], after[|after| - 1];
      FinishedStaysFinished(ids, before, front, c);
      StepKeepsFinished(Run(ids, before + front), a, c);
      RunOneMore(ids, before + front, a);
      assert before + after == (before + front) + [a];
    }
  }

  /**
   Once some CloseAll has finished, nothing is registered now or later, no register call is past its
   checks, and every session that was ever registered has been closed.
   */
  lemma CloseAllIsFinal(ids: seq<string>, before: seq<Action>, after: seq<Action>, c: nat)
    requires Distinct(ids)
    requires c < |Run(ids, before).closers| && Run(ids, before).closers[c] == Closing({})
    ensures var st := Run(ids, before + after);
            && st.core.sessions == map[]
            && st.core.stopped
            && forall p :: 0 <= p < |ids| ==>
              !At(st, p, Inserting) && (At(st, p, Opened) ==> Handle(ids[p], p) in st.core.done)
  {
    FinishedStaysFinished(ids, before, after, c);
    RunIsSound(ids, before + after);
    SlotsAreBounded(ids, before + after);
    var st := Run(ids, before + after);
    assert CloserOk(st, st.closers[c]);
    forall p | 0 <= p < |ids|
      ensures !At(st, p, Inserting) && (At(st, p, Opened) ==> Handle(ids[p], p) in st.core.done)
    {
      assert Tracks(st, p);
    }
  }

  // ---- reused identifiers ----

  ghost predicate AlwaysTracked(ids: seq<string>) {
    forall actions :: Tracked(Run(ids, actions))
  }

  /** Both calls pass the first check; the second is refused by register and deletes the first one's entry. */
  function CollidingOpens(i: nat, j: nat): seq<Action> {
    [Check(i), Check(j), Start(i, true), Start(j, true), RegisterCheck(i), RegisterInsert(i), RegisterCheck(j), CloseFailed(j)]
  }

  lemma {:induction false} RunVisits(ids: seq<string>, actions: seq<Action>, states: seq<State>)
    requires |states| == |actions| + 1 && states[0] == Init(ids)
    requires forall k :: 0 <= k < |actions| ==> states[k + 1] == Step(states[k], actions[k])
    ensures Run(ids, actions) == states[|actions|]
  {
    if actions != [] {
      RunVisits(ids, actions[..|actions| - 1], states[..|actions|]);
    }
  }

  /** Calls i and j of Open are at phases pi and pj, every other call has not begun. */
  ghost function Two(ids: seq<string>, i: nat, pi: Phase, j: nat, pj: Phase, core: Core, lock: Option<nat>): State {
    State(ids, seq(|ids|, p => if p == i then pi else if p == j then pj else Idle), core, lock, [])
  }

  ghost function CollidingStates(ids: seq<string>, i: nat, j: nat): seq<State>
    requires i < j < |ids|
  {
    var none := Core(map[], false, {});
    var one := Insert(none, Handle(ids[i], i));
    [Two(ids, i, Idle, j, Idle, none, None), Two(ids, i, Checked, j, Idle, none, None),
     Two(ids, i, Checked, j, Checked, none, None), Two(ids, i, Started, j, Checked, none, None),
     Two(ids, i, Started, j, Started, none, None), Two(ids, i, Inserting, j, Started, none, Some(i)),
     Two(ids, i, Opened, j, Started, one, None), Two(ids, i, Opened, j, Failing, one, None),
     Two(ids, i, Opened, j, Failing, CloseOnce(one, Handle(ids[j], j)), None)]
  }

  lemma CollidingStep(ids: seq<string>, i: nat, j: nat, k: nat)
    requires i < j < |ids| && ids[i] == ids[j] != "" && k < 8
    ensures CollidingStates(ids, i, j)[k + 1] == Step(CollidingStates(ids, i, j)[k], CollidingOpens(i, j)[k])
  {
    var st := CollidingStates(ids, i, j)[k];
    var st' := CollidingStates(ids, i, j)[k + 1];
    var p := if k == 1 || k == 3 || k >= 6 then j else i;
    assert st'.phases == st.phases[p := st'.phases[p]];
  }

  /** After colliding opens a session runs that is neither registered nor closed: CloseAll cannot find it. */
  lemma CollisionOrphans(ids: seq<string>, i: nat, j: nat)
    requires i < j < |ids| && ids[i] == ids[j] != ""
    ensures var st := Run(ids, CollidingOpens(i, j));
            At(st, i, Opened) && st.core.sessions == map[] && Handle(ids[i], i) !in st.core.done
  {
    var states := CollidingStates(ids, i, j);
    assert states[0] == Init(ids);
    forall k | 0 <= k < 8 ensures states[k + 1] == Step(states[k], CollidingOpens(i, j)[k]) {
      CollidingStep(ids, i, j, k);
    }
    RunVisits(ids, CollidingOpens(i, j), states);
  }

  lemma CollisionIsUntracked(ids: seq<string>, i: nat, j: nat)
    requires i < j < |ids| && ids[i] == ids[j] != ""
    ensures !Tracked(Run(ids, CollidingOpens(i, j)))
  {
    CollisionOrphans(ids, i, j);
    KeepsIDs(ids, CollidingOpens(i, j));
    assert !Tracks(Run(ids, CollidingOpens(i, j)), i);
  }

  lemma {:induction false} KeepsIDs(ids: seq<string>, actions: seq<Action>)
    ensures Run(ids, actions).ids == ids
  {
    if actions != [] {
      KeepsIDs(ids, actions[..|actions| - 1]);
    }
  }

  /** Sessions are always accounted for exactly when no two calls of Open share an identifier. */
  lemma TrackedIffDistinct(ids: seq<string>)
    ensures AlwaysTracked(ids) <==> Distinct(ids)
  {
    if Distinct(ids) {
      forall actions ensures Tracked(Run(ids, actions)) {
        RunIsSound(ids, actions);
      }
    } else {
      var i, j :| 0 <= i < j < |ids| && ids[i] == ids[j] && ids[i] != "";
      CollisionIsUntracked(ids, i, j);
    }
  }
}
