/**
 What the terminal session registry answers, stated over the actions of a run alone: who registered a
 session, whether its stream was attached, whether its exit was reported, and whether it was removed.
 */
module TerminalHistory {
  import opened Keys
  import opened Options
  import opened TerminalModel

  /** A registration of one key: by whom, its number among all registrations, and what has happened to it. */
  datatype Registration = Registration(owner: string, executionUser: string, number: nat, attached: bool, ended: bool)

  /** The key's registration after one more action; `number` is how many sessions were registered before. */
  function Next(reg: Option<Registration>, key: string, a: Action, number: nat): Option<Registration> {
    match a
    case DoRegister(k, user, executionUser) =>
      if k == key && reg.None? then Some(Registration(user, executionUser, number, false, false)) else reg
    case DoAttach(k, user) =>
      if k == key && reg.Some? && reg.value.owner == user then Some(reg.value.(attached := true)) else reg
    case DoEnd(k, _, _) => if k == key && reg.Some? then Some(reg.value.(ended := true)) else reg
    case DoEndAll(server, _, _) =>
      if HasPrefix(key, server + ":") && reg.Some? then Some(reg.value.(ended := true)) else reg
    case DoClose(k) => if k == key then None else reg
    case DoAbandon(k) => if k == key then None else reg
    case DoExpire(k) => if k == key && reg.Some? && !reg.value.attached then None else reg
    case _ => reg
  }

  /** The registration a key has at the end of the run. This looks at the actions only, never at the registry. */
  function Current(actions: seq<Action>, key: string): Option<Registration>
    decreases |actions|, 0
  {
    if actions == [] then None
    else Next(Current(actions[..|actions| - 1], key), key, actions[|actions| - 1], Registered(actions[..|actions| - 1]))
  }

  /** How many registrations the run has seen: those of a key that was not registered at that moment. */
  function Registered(actions: seq<Action>): nat
    decreases |actions|, 1
  {
    if actions == [] then 0
    else
      var before, a := actions[..|actions| - 1], actions[|actions| - 1];
      Registered(before) + if a.DoRegister? && Current(before, a.key).None? then 1 else 0
  }

  predicate Agrees(r: Registry, key: string, reg: Option<Registration>) {
    match reg
    case None => key !in r.sessions
    case Some(x) => key in r.sessions && r.sessions[key] == Session(x.owner, x.executionUser, x.number, x.attached, x.ended)
  }

  lemma StepAgrees(w: World, a: Action, key: string, reg: Option<Registration>)
    requires Agrees(w.reg, key, reg)
    ensures Agrees(Step(w, a).reg, key, Next(reg, key, a, |w.reg.pipes|))
  {
    match a
    case DoEndAll(server, code, err) => EndAllAgrees(w.reg, server, Exit(code, err), key, reg);
    case DoRegister(k, user, executionUser) =>
    case _ => OthersAgree(w, a, key, reg);
  }

  lemma EndAllAgrees(r: Registry, server: string, e: Event, key: string, reg: Option<Registration>)
    requires Agrees(r, key, reg)
    ensures Agrees(EndAll(r, server, e), key,
              if HasPrefix(key, server + ":") && reg.Some? then Some(reg.value.(ended := true)) else reg)
  {
  }

  lemma OthersAgree(w: World, a: Action, key: string, reg: Option<Registration>)
    requires Agrees(w.reg, key, reg) && !a.DoEndAll? && !a.DoRegister?
    ensures Agrees(Step(w, a).reg, key, Next(reg, key, a, |w.reg.pipes|))
  {
  }

  lemma StepCounts(w: World, a: Action)
    ensures |Step(w, a).reg.pipes| == |w.reg.pipes| + if a.DoRegister? && a.key !in w.reg.sessions then 1 else 0
  {
  }

  lemma {:induction false} ChannelsAreRegistrations(actions: seq<Action>)
    ensures |Run(INITIAL, actions).reg.pipes| == Registered(actions)
    decreases |actions|, 1
  {
    if actions != [] {
      var before, a := actions[..|actions| - 1], actions[|actions| - 1];
      ChannelsAreRegistrations(before);
      StepCounts(Run(INITIAL, before), a);
      if a.DoRegister? {
        EntryIsHistory(before, a.key);
      }
    }
  }

  /**
   In every run the registry holds, for each key, exactly the registration the actions tell: its owner is
   the user that registered it, its channel the one made then, and the entry is gone exactly after a removal.
   */
  lemma {:induction false} EntryIsHistory(actions: seq<Action>, key: string)
    ensures Agrees(Run(INITIAL, actions).reg, key, Current(actions, key))
    decreases |actions|, 0
  {
    if actions != [] {
      var before := actions[..|actions| - 1];
      EntryIsHistory(before, key);
      ChannelsAreRegistrations(before);
      StepAgrees(Run(INITIAL, before), actions[|actions| - 1], key, Current(before, key));
    }
  }

  /**
   A stream is attached exactly by the user that registered the session, and by that user once: a foreign
   user is told that there is no such session, the owner's second stream that one is attached already,
   and neither changes anything. The owner's stream gets the channel of its own registration.
   */
  lemma AttachAnswers(actions: seq<Action>, key: string, user: string)
    ensures var w := Run(INITIAL, actions); var reg := Current(actions, key);
            var (r', answer) := AttachStream(w.reg, key, user);
            && (answer.NoSession? <==> reg.None? || reg.value.owner != user)
            && (answer.AlreadyStreaming? <==> reg.Some? && reg.value.owner == user && reg.value.attached)
            && (answer.Stream? ==> answer.ch == reg.value.number && r'.pipes == w.reg.pipes)
            && (!answer.Stream? ==> r' == w.reg && Step(w, DoAttach(key, user)) == w)
  {
    EntryIsHistory(actions, key);
  }

  /** Every registration has been attached to only by its owner, and its channel counts that one stream. */
  lemma {:induction false} AttachedOnlyByOwner(actions: seq<Action>, key: string, owner: string)
    requires Current(actions, key).Some? && Current(actions, key).value.owner == owner
    ensures Current(actions, key).value.attached ==> DoAttach(key, owner) in actions
    ensures exists executionUser :: DoRegister(key, owner, executionUser) in actions
  {
    var n := |actions| - 1;
    var before, a := actions[..n], actions[n];
    if Current(before, key).Some? && Current(before, key).value.owner == owner {
      AttachedOnlyByOwner(before, key, owner);
      var executionUser :| DoRegister(key, owner, executionUser) in before;
      assert DoRegister(key, owner, executionUser) in actions;
      assert DoAttach(key, owner) in before ==> DoAttach(key, owner) in actions;
    } else {
      assert a.DoRegister? && a == DoRegister(key, owner, a.executionUser);
    }
  }

  /** What the other operations answer: each does its work exactly when the history allows it. */
  lemma AnswersAreHistory(actions: seq<Action>, key: string, user: string, data: seq<bv8>, e: Event)
    ensures var r := Run(INITIAL, actions).reg; var reg := Current(actions, key);
            && (Register(r, key, user, user).1 <==> reg.None?)
            && (End(r, key, e).1 <==> reg.Some? && !reg.value.ended)
            && (RemoveIfHubInitiated(r, key).1.1 <==> reg.Some?)
            && (RemoveIfHubInitiated(r, key).1.0 <==> reg.Some? && reg.value.ended)
            && (RemoveUnattached(r, key).1 <==> reg.Some? && !reg.value.attached)
            && (Remove(r, key).1 <==> reg.Some?)
  {
    EntryIsHistory(actions, key);
  }

  /** Data is accepted exactly for a session whose exit was not reported and while fewer than 256 events wait for its stream. */
  lemma DataIsAcceptedIff(actions: seq<Action>, key: string, data: seq<bv8>)
    ensures var w := Run(INITIAL, actions); var reg := Current(actions, key);
            var w' := Step(w, DoData(key, data));
            && (reg.Some? ==> reg.value.number < |w.reg.pipes| && reg.value.number < |w.lives| && reg.value.number < |w'.lives|)
            && (reg.Some? && !reg.value.ended && |w.reg.pipes[reg.value.number].buf| < 256 ==>
                 w'.lives[reg.value.number].accepted == w.lives[reg.value.number].accepted + [Data(data)])
            && (reg.None? || reg.value.ended || |w.reg.pipes[reg.value.number].buf| == 256 ==> w' == w)
  {
    EntryIsHistory(actions, key);
    RunKeepsInv(actions);
    if Current(actions, key).Some? {
      EntryFacts(Run(INITIAL, actions), key);
    }
  }

  lemma TakeOne(received: seq<Event>, buf: seq<Event>)
    requires buf != []
    ensures received + [buf[0]] == (received + buf)[..|received| + 1]
    ensures (received + [buf[0]]) + buf[1..] == received + buf
  {
    assert buf == [buf[0]] + buf[1..];
  }

  /** The stream takes out the event that is due next, whenever one waits. */
  lemma ReceiveTakesTheNext(actions: seq<Action>, c: nat)
    requires c < |Run(INITIAL, actions).lives|
    ensures var w := Run(INITIAL, actions); var w' := Step(w, DoReceive(c));
            && |w.lives| == |w.reg.pipes| == |w'.lives| == |w'.reg.pipes|
            && var due, n := Delivered(w, c), |w.lives[c].received|;
               && Delivered(w', c) == due
               && w'.lives[c].received == due[..if n < |due| then n + 1 else n]
  {
    RunKeepsInv(actions);
    ReceivesOne(Run(INITIAL, actions), c);
  }

  lemma ReceivesOne(w: World, c: nat)
    requires c < |w.lives| == |w.reg.pipes|
    ensures var w' := StepReceive(w, c);
            && |w.lives| == |w'.lives| == |w'.reg.pipes|
            && var due, n := Delivered(w, c), |w.lives[c].received|;
               && Delivered(w', c) == due
               && w'.lives[c].received == due[..if n < |due| then n + 1 else n]
  {
    if w.reg.pipes[c].buf != [] {
      TakeOne(w.lives[c].received, w.reg.pipes[c].buf);
    }
  }
}
