/**
 The agent's terminal manager with its fields, proved against ManagerModel. The methods run one
 after the other here; their interleavings are the subject of ManagerModel.
 */
module TerminalManager {
  import opened ManagerModel

  class Manager {
    var sessions: map<string, Handle>
    var stopped: bool
    var done: set<Handle>  // the sessions whose closeOnce has fired
    var started: nat       // processes started so far

    ghost function State(): Core
      reads this
    {
      Core(sessions, stopped, done)
    }

    ghost predicate Valid()
      reads this
    {
      && |sessions| <= MAX_SESSIONS
      && (forall k :: k in sessions ==> sessions[k].id == k && sessions[k] !in done && sessions[k].n < started)
      && (forall s :: s in done ==> s.n < started)
    }

    constructor ()
      ensures Valid() && State() == Core(map[], false, {})
    {
      sessions, stopped, done, started := map[], false, {}, 0;
    }

    method ValidateOpenSlot(id: string) returns (v: Verdict)
      ensures v == SlotVerdict(State(), id)
      ensures v.Admitted? <==> !stopped && id !in sessions && |sessions| < 8
      ensures v.TooMany? ==> |sessions| >= 8
    {
      if stopped {
        return ManagerStopped;
      }
      if id in sessions {
        return AlreadyExists;
      }
      if |sessions| >= MAX_SESSIONS {
        return TooMany;
      }
      v := Admitted;
    }

    method Register(s: Handle) returns (v: Verdict)
      requires Valid() && s.n < started && s !in done
      modifies this`sessions
      ensures Valid()
      ensures v == SlotVerdict(old(State()), s.id)
      ensures State() == if v.Admitted? then Insert(old(State()), s) else old(State())
      ensures v.Admitted? <==> !stopped && s.id !in old(sessions) && |old(sessions)| < 8
    {
      v := ValidateOpenSlot(s.id);
      if v.Admitted? {
        sessions := sessions[s.id := s];
      }
    }

    method CloseSession(s: Handle)
      requires Valid() && s.n < started
      modifies this`sessions, this`done
      ensures Valid()
      ensures State() == CloseOnce(old(State()), s)
    {
      if s !in done {
        DeleteShrinks(sessions, s.id);
        sessions := sessions - {s.id};
        done := done + {s};
      }
    }

    /**
     A refused open changes nothing; an admitted one adds exactly its own, fresh session. stop() needs
     no lock, so it may run while the process starts: then register refuses and the process is closed.
     */
    method Open(id: string, processStarts: bool, stoppedMeanwhile: bool) returns (v: Verdict)
      requires Valid()
      modifies this
      ensures Valid()
      ensures var first := if id == "" then EmptyID else SlotVerdict(old(State()), id);
              var s := Handle(id, old(started));
              if !first.Admitted? || !processStarts then
                v == (if first.Admitted? then StartFailed else first) && State() == old(State())
              else if stoppedMeanwhile then
                v == ManagerStopped && State() == Core(old(sessions), true, old(done) + {s})
              else v == Admitted && State() == Insert(old(State()), s)
      ensures v.Admitted? <==>
                id != "" && id !in old(sessions) && |old(sessions)| < 8 && !old(stopped) && processStarts && !stoppedMeanwhile
    {
      if id == "" {
        return EmptyID;
      }
      v := ValidateOpenSlot(id);
      if v.Admitted? {
        if !processStarts {
          return StartFailed;
        }
        var s := Handle(id, started);
        started := started + 1;
        if stoppedMeanwhile {
          stopped := true;
        }
        v := Register(s);
        if !v.Admitted? {
          DeleteShrinks(sessions, id);
          CloseSession(s);
        }
      }
    }

    /** Stops the manager, then closes every registered session. */
    method CloseAll()
      requires Valid()
      modifies this
      ensures Valid()
      ensures State() == Core(map[], true, old(done) + old(sessions.Values))
    {
      stopped := true;
      ghost var m := State();
      var left := sessions.Values;
      while left != {}
        invariant Valid() && ClosedDownTo(m, State(), left)
      {
        var s :| s in left;
        CloseOneMore(m, State(), left, s);
        CloseSession(s);
        left := left - {s};
      }
      assert sessions == map[];
    }
  }

  /** The manager m0 with exactly the sessions outside `left` closed. */
  ghost predicate ClosedDownTo(m0: Core, m: Core, left: set<Handle>) {
    && m.stopped == m0.stopped
    && left <= m0.sessions.Values
    && m.done == m0.done + (m0.sessions.Values - left)
    && (forall s :: s in left ==> s.id in m.sessions && m.sessions[s.id] == s && s !in m.done)
    && (forall k :: k in m.sessions ==> m.sessions[k].id == k && m.sessions[k] in left)
  }

  lemma CloseOneMore(m0: Core, m: Core, left: set<Handle>, s: Handle)
    requires ClosedDownTo(m0, m, left) && s in left
    ensures ClosedDownTo(m0, CloseOnce(m, s), left - {s})
  {
    assert m0.sessions.Values - (left - {s}) == (m0.sessions.Values - left) + {s};
  }
}
