/**
 What the terminal manager grants: an Open that finds a free slot gets it, eight terminals run at once, and
 a CloseAll can always be brought to its end.
 */
module ManagerProgress {
  import opened Options
  import opened ManagerModel

  /** One call of Open, from its first check to the registration, with a process that starts. */
  function OpenSteps(p: nat): seq<Action> {
    [Check(p), Start(p, true), RegisterCheck(p), RegisterInsert(p)]
  }

  /** The steps, one after the other. */
  function Steps(st: State, actions: seq<Action>): State
    decreases |actions|
  {
    if actions == [] then st else Steps(Step(st, actions[0]), actions[1..])
  }

  lemma StepsThen(st: State, a: Action, st': State, more: seq<Action>)
    requires st' == Step(st, a)
    ensures Steps(st, [a] + more) == Steps(st', more)
  {
    assert ([a] + more)[1..] == more;
  }

  lemma Regrouped(before: seq<Action>, after: seq<Action>)
    requires after != []
    ensures before + after == (before + [after[0]]) + after[1..] && after == [after[0]] + after[1..]
  {
  }

  lemma {:induction false} RunsOn(ids: seq<string>, before: seq<Action>, after: seq<Action>, st: State)
    requires st == Run(ids, before)
    ensures Run(ids, before + after) == Steps(st, after)
    decreases |after|
  {
    if after == [] {
      assert before + after == before;
    } else {
      RunOneMore(ids, before, after[0]);
      RunsOn(ids, before + [after[0]], after[1..], Step(st, after[0]));
      Regrouped(before, after);
      StepsThen(st, after[0], Step(st, after[0]), after[1..]);
    }
  }

  function Opening(st: State, p: nat): State {
    Steps(st, OpenSteps(p))
  }

  /** A slot is free for this identifier. */
  predicate MayOpen(m: Core, id: string) {
    id != "" && !m.stopped && id !in m.sessions && |m.sessions| < 8
  }

  lemma OpeningEffect(st: State, p: nat)
    requires At(st, p, Idle) && st.lock.None?
    ensures var st' := Opening(st, p);
            st' == if MayOpen(st.core, st.ids[p])
                   then st.(phases := st.phases[p := Opened], core := st.core.(sessions := st.core.sessions[st.ids[p] := HandleOf(st, p)]))
                   else st.(phases := st.phases[p := Refused])
  {
    var a4 := [RegisterInsert(p)];
    var a3 := [RegisterCheck(p)] + a4;
    var a2 := [Start(p, true)] + a3;
    assert OpenSteps(p) == [Check(p)] + a2 && a4 == [RegisterInsert(p)] + [];
    if MayOpen(st.core, st.ids[p]) {
      var st1, st2 := st.(phases := st.phases[p := Checked]), st.(phases := st.phases[p := Started]);
      var st3 := st.(phases := st.phases[p := Inserting], lock := Some(p));
      StepsThen(st, Check(p), st1, a2);
      assert st1.phases[p := Started] == st2.phases;
      StepsThen(st1, Start(p, true), st2, a3);
      assert st2.phases[p := Inserting] == st3.phases;
      StepsThen(st2, RegisterCheck(p), st3, a4);
      assert st3.phases[p := Opened] == st.phases[p := Opened];
      StepsThen(st3, RegisterInsert(p), Step(st3, RegisterInsert(p)), []);
    } else {
      var st1 := st.(phases := st.phases[p := Refused]);
      StepsThen(st, Check(p), st1, a2);
      StepsThen(st1, Start(p, true), st1, a3);
      StepsThen(st1, RegisterCheck(p), st1, a4);
      StepsThen(st1, RegisterInsert(p), st1, []);
    }
  }

  /**
   In every run: a call of Open that nothing interrupts registers its session exactly when its identifier
   is new, fewer than eight sessions are registered and the manager was not stopped; otherwise it is
   refused and leaves the manager as it was.
   */
  lemma OpenSucceedsIff(ids: seq<string>, actions: seq<Action>, p: nat)
    requires At(Run(ids, actions), p, Idle) && Run(ids, actions).lock.None?
    ensures p < |ids|
    ensures var st, st' := Run(ids, actions), Run(ids, actions + OpenSteps(p));
            && (At(st', p, Opened) <==> MayOpen(st.core, ids[p]))
            && (if MayOpen(st.core, ids[p]) then st'.core.sessions == st.core.sessions[ids[p] := Handle(ids[p], p)]
                else At(st', p, Refused) && st'.core == st.core)
  {
    KeepsIDs(ids, actions);
    KeepsIDs(ids, actions + OpenSteps(p));
    RunsOn(ids, actions, OpenSteps(p), Run(ids, actions));
    OpeningEffect(Run(ids, actions), p);
  }

  /** A process that does not start leaves no trace: the call has failed and nothing was registered for it. */
  lemma FailedStartIsRefused(ids: seq<string>, actions: seq<Action>, p: nat)
    requires At(Run(ids, actions), p, Checked)
    ensures var st, st' := Run(ids, actions), Run(ids, actions + [Start(p, false)]);
            At(st', p, Refused) && st'.core == st.core && st'.lock == st.lock
  {
    RunOneMore(ids, actions, Start(p, false));
  }

  // ---- closing ----

  predicate Closed(st: State, p: nat) {
    p < |st.ids| && HandleOf(st, p) in st.core.done
  }

  /** Close, or the end of the process, takes an open session off the list and nothing else. */
  lemma CloseRemoves(ids: seq<string>, actions: seq<Action>, p: nat)
    requires At(Run(ids, actions), p, Opened) && Run(ids, actions).lock.None? && !Closed(Run(ids, actions), p)
    ensures var st, st' := Run(ids, actions), Run(ids, actions + [CloseOpened(p)]);
            Closed(st', p) && st'.core.sessions == st.core.sessions - {st.ids[p]}
  {
    RunOneMore(ids, actions, CloseOpened(p));
  }

  lemma {:induction false} StaysClosed(st: State, actions: seq<Action>, p: nat)
    requires Closed(st, p)
    ensures Closed(Steps(st, actions), p)
    decreases |actions|
  {
    if actions != [] {
      StepStaysClosed(st, actions[0], p);
      StaysClosed(Step(st, actions[0]), actions[1..], p);
    }
  }

  lemma StepStaysClosed(st: State, a: Action, p: nat)
    requires Closed(st, p)
    ensures Closed(Step(st, a), p)
  {
  }

  /**
   A session is closed once: whatever happens after its first close, another one changes nothing, so it
   spares a session that was opened under the same identifier since.
   */
  lemma SecondCloseIsNothing(ids: seq<string>, before: seq<Action>, after: seq<Action>, p: nat)
    requires Closed(Run(ids, before), p)
    ensures Run(ids, before + after + [CloseOpened(p)]) == Run(ids, before + after)
  {
    RunsOn(ids, before, after, Run(ids, before));
    StaysClosed(Run(ids, before), after, p);
    RunOneMore(ids, before + after, CloseOpened(p));
  }

  // ---- eight at once ----

  /** Calls 0 to n - 1 of Open, one after the other. */
  function OpensInTurn(n: nat): seq<Action> {
    if n == 0 then [] else OpensInTurn(n - 1) + OpenSteps(n - 1)
  }

  predicate NonEmpty(ids: seq<string>) {
    forall i :: 0 <= i < |ids| ==> ids[i] != ""
  }

  predicate PhasesAfter(phases: seq<Phase>, n: nat) {
    forall p :: 0 <= p < |phases| ==> phases[p] == if p >= n then Idle else if p < 8 then Opened else Refused
  }

  /** Exactly the first n identifiers, but at most eight, are registered. */
  predicate ListedAfter(ids: seq<string>, sessions: map<string, Handle>, n: nat) {
    && (forall p :: 0 <= p < |ids| && p < n && p < 8 ==> ids[p] in sessions && sessions[ids[p]] == Handle(ids[p], p))
    && (forall k :: k in sessions ==> k in ids[..if n < |ids| then n else |ids|])
    && |sessions| == if n < 8 then n else 8
  }

  predicate AfterOpens(ids: seq<string>, st: State, n: nat) {
    && st.ids == ids && |st.phases| == |ids| && st.lock.None? && !st.core.stopped
    && PhasesAfter(st.phases, n) && ListedAfter(ids, st.core.sessions, n)
  }

  lemma ListedOneMore(ids: seq<string>, sessions: map<string, Handle>, n: nat)
    requires n < |ids| && ListedAfter(ids, sessions, n) && ids[n] !in sessions
    ensures ListedAfter(ids, if n < 8 then sessions[ids[n] := Handle(ids[n], n)] else sessions, n + 1)
  {
    assert ids[..n + 1] == ids[..n] + [ids[n]];
  }

  lemma OneMoreOpen(ids: seq<string>, st: State, n: nat)
    requires Distinct(ids) && NonEmpty(ids) && n < |ids| && AfterOpens(ids, st, n)
    ensures AfterOpens(ids, Opening(st, n), n + 1)
  {
    OpeningEffect(st, n);
    assert ids[n] !in st.core.sessions by {
      assert ids[n] !in ids[..n];
    }
    ListedOneMore(ids, st.core.sessions, n);
  }

  lemma {:induction false} OpensRun(ids: seq<string>, n: nat)
    requires Distinct(ids) && NonEmpty(ids) && n <= |ids|
    ensures AfterOpens(ids, Run(ids, OpensInTurn(n)), n)
  {
    if n > 0 {
      OpensRun(ids, n - 1);
      var st := Run(ids, OpensInTurn(n - 1));
      RunsOn(ids, OpensInTurn(n - 1), OpenSteps(n - 1), st);
      OneMoreOpen(ids, st, n - 1);
    }
  }

  /** Of any number of terminals opened one after the other the first eight are registered, the others refused. */
  lemma EightAreAdmitted(ids: seq<string>, p: nat)
    requires Distinct(ids) && NonEmpty(ids) && p < |ids|
    ensures var st := Run(ids, OpensInTurn(|ids|));
            && At(st, p, if p < 8 then Opened else Refused)
            && (p < 8 <==> ids[p] in st.core.sessions && st.core.sessions[ids[p]] == Handle(ids[p], p))
            && |st.core.sessions| == if |ids| < 8 then |ids| else 8
  {
    OpensRun(ids, |ids|);
    RunIsSound(ids, OpensInTurn(|ids|));
  }

  // ---- CloseAll ----

  /** A step that CloseAll call c, or an Open that holds the lock, can take. */
  predicate OfCloser(a: Action, c: nat) {
    a.BeginCloseAll? || a.RegisterInsert? || a == Stop(c) || a == List(c) || (a.CloseNext? && a.c == c)
  }

  predicate AllOfCloser(actions: seq<Action>, c: nat) {
    forall i :: 0 <= i < |actions| ==> OfCloser(actions[i], c)
  }

  ghost predicate CanFinishFrom(st: State, c: nat) {
    exists more :: AllOfCloser(more, c) && HasFinished(Steps(st, more).closers, c)
  }

  lemma FinishesAfter(st: State, a: Action, st': State, c: nat)
    requires st' == Step(st, a) && OfCloser(a, c) && CanFinishFrom(st', c)
    ensures CanFinishFrom(st, c)
  {
    var more :| AllOfCloser(more, c) && HasFinished(Steps(st', more).closers, c);
    StepsThen(st, a, st', more);
    assert AllOfCloser([a] + more, c);
  }

  lemma {:induction false} ClosingFinishes(st: State, c: nat, left: set<Handle>)
    requires c < |st.closers| && st.closers[c] == Closing(left) && st.lock.None?
    ensures CanFinishFrom(st, c)
    decreases |left|
  {
    if left == {} {
      assert AllOfCloser([], c) && HasFinished(Steps(st, []).closers, c);
    } else {
      var s :| s in left;
      ClosingFinishes(Step(st, CloseNext(c, s)), c, left - {s});
      FinishesAfter(st, CloseNext(c, s), Step(st, CloseNext(c, s)), c);
    }
  }

  lemma UnlockedFinishes(st: State)
    requires st.lock.None?
    ensures CanFinishFrom(st, |st.closers|)
  {
    var c := |st.closers|;
    var st1 := Step(st, BeginCloseAll);
    var st2 := Step(st1, Stop(c));
    var st3 := Step(st2, List(c));
    ClosingFinishes(st3, c, st3.closers[c].left);
    FinishesAfter(st2, List(c), st3, c);
    FinishesAfter(st1, Stop(c), st2, c);
    FinishesAfter(st, BeginCloseAll, st1, c);
  }

  lemma LockedFinishes(st: State, p: nat)
    requires st.lock == Some(p) && At(st, p, Inserting)
    ensures CanFinishFrom(st, |st.closers|)
  {
    var st1 := Step(st, RegisterInsert(p));
    UnlockedFinishes(st1);
    FinishesAfter(st, RegisterInsert(p), st1, |st.closers|);
  }

  /** Whatever a run has come to, the next CloseAll can finish: at most the Open inside register has to leave it first. */
  lemma CloseAllCanFinish(ids: seq<string>, actions: seq<Action>)
    ensures exists more :: AllOfCloser(more, |Run(ids, actions).closers|)
                           && HasFinished(Run(ids, actions + more).closers, |Run(ids, actions).closers|)
  {
    var st := Run(ids, actions);
    SlotsAreBounded(ids, actions);
    if st.lock.None? {
      UnlockedFinishes(st);
    } else {
      LockedFinishes(st, st.lock.value);
    }
    var more :| AllOfCloser(more, |st.closers|) && HasFinished(Steps(st, more).closers, |st.closers|);
    RunsOn(ids, actions, more, st);
  }

  /** A CloseAll has got as far as closing the manager's done channel. */
  predicate HasStopped(closers: seq<Closer>) {
    exists c :: 0 <= c < |closers| && !closers[c].Stopping?
  }

  /** The manager refuses everything exactly from the first stop() on. */
  lemma {:induction false} StoppedIffCloseAll(ids: seq<string>, actions: seq<Action>)
    ensures Run(ids, actions).core.stopped <==> HasStopped(Run(ids, actions).closers)
  {
    if actions != [] {
      var n := |actions| - 1;
      StoppedIffCloseAll(ids, actions[..n]);
      StepStops(Run(ids, actions[..n]), actions[n]);
    }
  }

  lemma StepStops(st: State, a: Action)
    requires st.core.stopped <==> HasStopped(st.closers)
    ensures Step(st, a).core.stopped <==> HasStopped(Step(st, a).closers)
  {
    var st' := Step(st, a);
    if HasStopped(st.closers) {
      var c :| 0 <= c < |st.closers| && !st.closers[c].Stopping?;
      assert !st'.closers[c].Stopping?;
    }
    if a.Stop? && st' != st {
      assert !st'.closers[a.c].Stopping?;
    }
    if HasStopped(st'.closers) && !(a.Stop? && st' != st) {
      var c :| 0 <= c < |st'.closers| && !st'.closers[c].Stopping?;
      assert c < |st.closers| && !st.closers[c].Stopping?;
    }
  }
}
