/**
 The notification queues (hub/internal/notify/notifier.go): jobs enter one of two bounded channels and
 one worker takes them out; Close closes the channels in turn and waits for the worker.
 */
module NotifierModel {
  import opened Options

  const QUEUE_SIZE := 100

  datatype Job = Job(to: string, security: bool, body: string)

  datatype Source = Main | Priority

  datatype Taken = Taken(job: Job, from: Source)

  /** Where the worker is: at its first select, at the second, in one of the two drain loops, or finished. */
  datatype Place = Top | Choice | DrainMain | DrainPriority | Finished

  /** `accepted` are the jobs each channel ever took, `job` is the one being processed. */
  datatype State = State(
    queue: seq<Job>, priority: seq<Job>, queueClosed: bool, priorityClosed: bool,
    place: Place, job: Option<Taken>, processed: seq<Taken>, returned: bool,
    acceptedMain: seq<Job>, acceptedPriority: seq<Job>, panicked: bool)

  const INITIAL := State([], [], false, false, Top, None, [], false, [], [], false)

  /** Which channel takes the job, if any. */
  function Accepts(queue: seq<Job>, priority: seq<Job>, job: Job): Option<Source> {
    if |queue| < QUEUE_SIZE then Some(Main)
    else if job.security && |priority| < QUEUE_SIZE then Some(Priority)
    else None
  }

  /** A send on a closed channel panics. */
  function Enqueue(s: State, job: Job): State {
    if s.queueClosed then s.(panicked := true)
    else
      match Accepts(s.queue, s.priority, job)
      case Some(Main) => s.(queue := s.queue + [job], acceptedMain := s.acceptedMain + [job])
      case Some(Priority) =>
        if s.priorityClosed then s.(panicked := true)
        else s.(priority := s.priority + [job], acceptedPriority := s.acceptedPriority + [job])
      case None => s
  }

  /** What counts as misuse: a send on the main channel when it is closed, or on the priority channel when that is. */
  lemma MisuseIsNoticed(s: State, job: Job)
    ensures Enqueue(s, job).panicked <==>
              s.panicked || s.queueClosed ||
              (|s.queue| >= 100 && job.security && |s.priority| < 100 && s.priorityClosed)
  {
  }

  function TakeMain(s: State): State
    requires s.queue != []
  {
    s.(queue := s.queue[1..], job := Some(Taken(s.queue[0], Main)))
  }

  function TakePriority(s: State): State
    requires s.priority != []
  {
    s.(priority := s.priority[1..], job := Some(Taken(s.priority[0], Priority)))
  }

  /** The next thing the worker does; `pick` is the case a select with several ready cases would choose. */
  function Work(s: State, pick: Source): State {
    if s.job.Some? then s.(processed := s.processed + [s.job.value], job := None)
    else
      match s.place
      case Top =>
        if s.priority != [] then TakePriority(s)
        else if s.priorityClosed then s.(place := DrainMain)
        else s.(place := Choice)
      case Choice =>
        if pick.Priority? then
          if s.priority != [] then TakePriority(s).(place := Top)
          else if s.priorityClosed then s.(place := DrainMain)
          else s
        else
          if s.queue != [] then TakeMain(s).(place := Top)
          else if s.queueClosed then s.(place := DrainPriority)
          else s
      case DrainMain =>
        if s.queue != [] then TakeMain(s) else if s.queueClosed then s.(place := Finished) else s
      case DrainPriority =>
        if s.priority != [] then TakePriority(s) else if s.priorityClosed then s.(place := Finished) else s
      case Finished => s
  }

  datatype Action = DoEnqueue(job: Job) | DoWork(pick: Source) | CloseQueue | ClosePriority | Return

  /** Close closes the main channel, then the priority channel, and returns once the worker has finished. */
  function Step(s: State, a: Action): State {
    match a
    case DoEnqueue(job) => Enqueue(s, job)
    case DoWork(pick) => Work(s, pick)
    case CloseQueue => s.(queueClosed := true)
    case ClosePriority => if s.queueClosed then s.(priorityClosed := true) else s
    case Return => if s.priorityClosed && s.place.Finished? then s.(returned := true) else s
  }

  datatype Run = Start | Then(before: Run, a: Action)

  function After(run: Run): State {
    match run
    case Start => INITIAL
    case Then(before, a) => Step(After(before), a)
  }

  // ---- conservation ----

  /** The jobs of one channel among those taken, in order. */
  function Of(from: Source, taken: seq<Taken>): seq<Job> {
    if taken == [] then [] else
    var earlier := Of(from, taken[..|taken| - 1]);
    if taken[|taken| - 1].from == from then earlier + [taken[|taken| - 1].job] else earlier
  }

  lemma OfAppend(from: Source, taken: seq<Taken>, t: Taken)
    ensures Of(from, taken + [t]) == if t.from == from then Of(from, taken) + [t.job] else Of(from, taken)
  {
    assert (taken + [t])[..|taken|] == taken;
  }

  function InHand(from: Source, job: Option<Taken>): seq<Job> {
    if job.Some? && job.value.from == from then [job.value.job] else []
  }

  /** One channel: what it accepted is what was processed, then what is in hand, then what waits. */
  predicate Conserved(from: Source, accepted: seq<Job>, processed: seq<Taken>, job: Option<Taken>, waiting: seq<Job>) {
    accepted == Of(from, processed) + InHand(from, job) + waiting && |waiting| <= QUEUE_SIZE
  }

  /** A drain loop runs only when the other channel is closed and empty, so nothing is left behind. */
  predicate Placed(s: State) {
    && (s.priorityClosed ==> s.queueClosed)
    && (s.place.DrainMain? || s.place.Finished? ==> s.priorityClosed && s.priority == [])
    && (s.place.DrainPriority? || s.place.Finished? ==> s.queueClosed && s.queue == [])
    && (s.place.Finished? ==> s.job.None?)
    && (s.returned ==> s.place.Finished?)
  }

  predicate Inv(s: State) {
    && Placed(s)
    && Conserved(Main, s.acceptedMain, s.processed, s.job, s.queue)
    && Conserved(Priority, s.acceptedPriority, s.processed, s.job, s.priority)
  }

  lemma EnqueueConserves(from: Source, accepted: seq<Job>, processed: seq<Taken>, job: Option<Taken>, waiting: seq<Job>, j: Job)
    requires Conserved(from, accepted, processed, job, waiting) && |waiting| < QUEUE_SIZE
    ensures Conserved(from, accepted + [j], processed, job, waiting + [j])
  {
    assert Of(from, processed) + InHand(from, job) + waiting + [j] == Of(from, processed) + InHand(from, job) + (waiting + [j]);
  }

  lemma TakeConserves(from: Source, accepted: seq<Job>, processed: seq<Taken>, waiting: seq<Job>)
    requires Conserved(from, accepted, processed, None, waiting) && waiting != []
    ensures Conserved(from, accepted, processed, Some(Taken(waiting[0], from)), waiting[1..])
  {
    assert waiting == [waiting[0]] + waiting[1..];
  }

  lemma ProcessConserves(from: Source, accepted: seq<Job>, processed: seq<Taken>, t: Taken, waiting: seq<Job>)
    requires Conserved(from, accepted, processed, Some(t), waiting)
    ensures Conserved(from, accepted, processed + [t], None, waiting)
  {
    OfAppend(from, processed, t);
  }

  lemma TakeMainKeepsInv(s: State)
    requires Inv(s) && s.queue != [] && s.job.None? && (s.place.Choice? || s.place.DrainMain?)
    ensures Inv(TakeMain(s)) && Inv(TakeMain(s).(place := if s.place.Choice? then Top else s.place))
  {
    TakeConserves(Main, s.acceptedMain, s.processed, s.queue);
  }

  lemma TakePriorityKeepsInv(s: State)
    requires Inv(s) && s.priority != [] && s.job.None? && !s.place.DrainMain? && !s.place.Finished?
    ensures Inv(TakePriority(s)) && Inv(TakePriority(s).(place := if s.place.Choice? then Top else s.place))
  {
    TakeConserves(Priority, s.acceptedPriority, s.processed, s.priority);
  }

  lemma ProcessKeepsInv(s: State)
    requires Inv(s) && s.job.Some?
    ensures Inv(s.(processed := s.processed + [s.job.value], job := None))
  {
    ProcessConserves(Main, s.acceptedMain, s.processed, s.job.value, s.queue);
    ProcessConserves(Priority, s.acceptedPriority, s.processed, s.job.value, s.priority);
  }

  lemma WorkKeepsInv(s: State, pick: Source)
    requires Inv(s)
    ensures Inv(Work(s, pick))
  {
    if s.job.Some? {
      ProcessKeepsInv(s);
    } else if s.queue != [] && ((s.place.Choice? && pick.Main?) || s.place.DrainMain?) {
      TakeMainKeepsInv(s);
    } else if s.priority != [] && (s.place.Top? || (s.place.Choice? && pick.Priority?) || s.place.DrainPriority?) {
      TakePriorityKeepsInv(s);
    }
  }

  lemma StepKeepsInv(s: State, a: Action)
    requires Inv(s)
    ensures Inv(Step(s, a))
  {
    match a
    case DoWork(pick) => WorkKeepsInv(s, pick);
    case DoEnqueue(job) =>
      if |s.queue| < QUEUE_SIZE {
        EnqueueConserves(Main, s.acceptedMain, s.processed, s.job, s.queue, job);
      } else if |s.priority| < QUEUE_SIZE {
        EnqueueConserves(Priority, s.acceptedPriority, s.processed, s.job, s.priority, job);
      }
    case _ =>
  }

  lemma {:induction false} RunKeepsInv(run: Run)
    ensures Inv(After(run))
  {
    if run.Then? {
      RunKeepsInv(run.before);
      StepKeepsInv(After(run.before), run.a);
    }
  }

  lemma {:induction false} TwoSources(taken: seq<Taken>, j: Job)
    ensures multiset(Of(Main, taken))[j] + multiset(Of(Priority, taken))[j] == Times(taken, j)
  {
    if taken != [] {
      TwoSources(taken[..|taken| - 1], j);
    }
  }

  /** How often a job was processed. */
  function Times(taken: seq<Taken>, j: Job): nat {
    if taken == [] then 0 else Times(taken[..|taken| - 1], j) + if taken[|taken| - 1].job == j then 1 else 0
  }

  /**
   For every interleaving, every choice of the selects and every order in which the worker sees the two
   closes: when Close returns, the worker has processed the accepted jobs of each channel, all of them,
   each exactly once and in the order they were accepted.
   */
  lemma EverythingAcceptedIsProcessedOnce(run: Run, j: Job)
    requires After(run).returned
    ensures var s := After(run);
            && Of(Main, s.processed) == s.acceptedMain
            && Of(Priority, s.processed) == s.acceptedPriority
            && Times(s.processed, j) == multiset(s.acceptedMain)[j] + multiset(s.acceptedPriority)[j]
  {
    RunKeepsInv(run);
    TwoSources(After(run).processed, j);
  }

  lemma ConservedCounts(from: Source, accepted: seq<Job>, processed: seq<Taken>, job: Option<Taken>, waiting: seq<Job>, j: Job)
    requires Conserved(from, accepted, processed, job, waiting)
    ensures Of(from, processed) <= accepted && multiset(Of(from, processed))[j] <= multiset(accepted)[j]
  {
    var done, rest := Of(from, processed), InHand(from, job) + waiting;
    assert accepted == done + rest;
    assert multiset(done + rest) == multiset(done) + multiset(rest);
  }

  /** Nothing is processed that was not accepted, and nothing twice, at any moment. */
  lemma NeverMoreThanAccepted(run: Run, j: Job)
    ensures var s := After(run);
            && Of(Main, s.processed) <= s.acceptedMain && Of(Priority, s.processed) <= s.acceptedPriority
            && Times(s.processed, j) <= multiset(s.acceptedMain)[j] + multiset(s.acceptedPriority)[j]
  {
    RunKeepsInv(run);
    var s := After(run);
    TwoSources(s.processed, j);
    ConservedCounts(Main, s.acceptedMain, s.processed, s.job, s.queue, j);
    ConservedCounts(Priority, s.acceptedPriority, s.processed, s.job, s.priority, j);
  }

  /** Once both channels are closed the worker is never blocked, whatever its selects choose, and gets closer to the end. */
  function Measure(s: State): nat {
    4 * (|s.queue| + |s.priority|) + (if s.job.Some? then 3 else 0)
    + match s.place case Top => 2 case Choice => 2 case DrainMain => 1 case DrainPriority => 1 case Finished => 0
  }

  predicate Stopping(s: State) { s.queueClosed && s.priorityClosed }

  /**
   With both channels closed the first select never falls through to the second again; from the second
   any choice makes progress. So the worker finishes after at most Measure(s) steps.
   */
  lemma WorkerFinishes(s: State, pick: Source)
    requires Stopping(s) && !(s.place.Finished? && s.job.None?)
    ensures Stopping(Step(s, DoWork(pick))) && Measure(Step(s, DoWork(pick))) < Measure(s)
  {
  }

  function Worked(s: State, picks: seq<Source>): State {
    if picks == [] then s else Step(Worked(s, picks[..|picks| - 1]), DoWork(picks[|picks| - 1]))
  }

  lemma {:induction false} WorkedMeasure(s: State, picks: seq<Source>)
    requires Stopping(s)
    ensures var s' := Worked(s, picks);
            Stopping(s') && ((s'.place.Finished? && s'.job.None?) || Measure(s') + |picks| <= Measure(s))
  {
    if picks != [] {
      var s1 := Worked(s, picks[..|picks| - 1]);
      WorkedMeasure(s, picks[..|picks| - 1]);
      if !(s1.place.Finished? && s1.job.None?) {
        WorkerFinishes(s1, picks[|picks| - 1]);
      }
    }
  }

  /** Close returns: after Measure steps of the worker, whatever it picks, Return is enabled. */
  lemma CloseReturns(run: Run, picks: seq<Source>)
    requires Stopping(After(run)) && |picks| >= Measure(After(run))
    ensures Step(Worked(After(run), picks), Return).returned
  {
    WorkedMeasure(After(run), picks);
  }

  /** The only panic is a send on a closed channel: it happens exactly when a job is enqueued after Close has begun. */
  predicate EnqueuedAfterClose(run: Run) {
    run.Then? && ((run.a.DoEnqueue? && Closing(run.before)) || EnqueuedAfterClose(run.before))
  }

  predicate Closing(run: Run) {
    run.Then? && (run.a.CloseQueue? || Closing(run.before))
  }

  lemma StepCloses(s: State, a: Action)
    ensures Step(s, a).queueClosed == (s.queueClosed || a.CloseQueue?)
    ensures Step(s, a).priorityClosed == (s.priorityClosed || (a.ClosePriority? && s.queueClosed))
    ensures (s.priorityClosed ==> s.queueClosed) ==> Step(s, a).panicked == (s.panicked || (a.DoEnqueue? && s.queueClosed))
  {
  }

  lemma {:induction false} ClosingIsClosed(run: Run)
    ensures After(run).queueClosed <==> Closing(run)
    ensures After(run).priorityClosed ==> After(run).queueClosed
  {
    if run.Then? {
      ClosingIsClosed(run.before);
      StepCloses(After(run.before), run.a);
    }
  }

  lemma {:induction false} PanicsIff(run: Run)
    ensures After(run).panicked <==> EnqueuedAfterClose(run)
  {
    if run.Then? {
      PanicsIff(run.before);
      ClosingIsClosed(run.before);
      StepCloses(After(run.before), run.a);
    }
  }

  /** In every run before Close, a security event is refused exactly when both channels are full, any other when the main one is. */
  lemma RefusedIff(run: Run, job: Job)
    requires !Closing(run)
    ensures var s := After(run); var s' := Step(s, DoEnqueue(job));
            (s'.acceptedMain == s.acceptedMain && s'.acceptedPriority == s.acceptedPriority) <==>
              |s.queue| == QUEUE_SIZE && (job.security ==> |s.priority| == QUEUE_SIZE)
  {
    RunKeepsInv(run);
    ClosingIsClosed(run);
    var s := After(run);
    assert |s.acceptedMain + [job]| != |s.acceptedMain| && |s.acceptedPriority + [job]| != |s.acceptedPriority|;
  }

  /** The main channel comes first; the priority channel takes only security events that find it full. */
  lemma WhereAJobGoes(run: Run, job: Job)
    requires !Closing(run)
    ensures var s := After(run); var s' := Step(s, DoEnqueue(job));
            && (|s.queue| < 100 ==> s'.queue == s.queue + [job] && s'.priority == s.priority)
            && (|s.queue| == 100 && job.security && |s.priority| < 100 ==> s'.queue == s.queue && s'.priority == s.priority + [job])
            && |s'.queue| <= 100 && |s'.priority| <= 100
  {
    RunKeepsInv(run);
    RunKeepsInv(Then(run, DoEnqueue(job)));
    ClosingIsClosed(run);
  }

  // ---- the worker's preference ----

  predicate Extends(later: Run, run: Run) {
    later == run || (later.Then? && Extends(later.before, run))
  }

  /** The worker takes a job from this channel. */
  predicate Takes(s: State, a: Action, from: Source) {
    s.job.None? && Step(s, a).job.Some? && Step(s, a).job.value.from == from
  }

  /** How many jobs the worker has taken from this channel since `run`. */
  function TakenSince(later: Run, run: Run, from: Source): nat
    requires Extends(later, run)
  {
    if later == run then 0
    else TakenSince(later.before, run, from) + if Takes(After(later.before), later.a, from) then 1 else 0
  }

  /** While a priority job waits no second job of the main channel is taken before it. */
  lemma StepWaits(s0: State, s: State, a: Action, mains: nat)
    requires Inv(s) && s0.priority != [] && s0.priority <= s.priority && mains <= 1 && (mains == 1 ==> !s.place.Choice?)
    requires !Takes(s, a, Priority)
    ensures s0.priority <= Step(s, a).priority
    ensures mains + (if Takes(s, a, Main) then 1 else 0) <= 1
    ensures mains + (if Takes(s, a, Main) then 1 else 0) == 1 ==> !Step(s, a).place.Choice?
  {
  }

  /**
   From the moment a job waits in the priority channel, and until one is taken from it, the worker takes at
   most one job from the main channel, whatever its selects choose and however many jobs are enqueued.
   */
  lemma {:induction false} PriorityWaitsForOne(run: Run, later: Run)
    requires Extends(later, run) && After(run).priority != [] && TakenSince(later, run, Priority) == 0
    ensures TakenSince(later, run, Main) <= 1
    ensures After(run).priority <= After(later).priority
    ensures TakenSince(later, run, Main) == 1 ==> !After(later).place.Choice?
  {
    if later != run {
      PriorityWaitsForOne(run, later.before);
      RunKeepsInv(later.before);
      StepWaits(After(run), After(later.before), later.a, TakenSince(later.before, run, Main));
    }
  }

  /** Since it last took a job, the worker has looked into the priority channel and found it empty. */
  predicate FoundNone(run: Run) {
    run.Then? &&
    var s := After(run.before);
    if Takes(s, run.a, Main) || Takes(s, run.a, Priority) then false
    else FoundNone(run.before) || (run.a.DoWork? && s.job.None? && s.priority == [])
  }

  lemma {:induction false} SecondSelectFoundNone(run: Run)
    ensures After(run).place.Choice? && After(run).job.None? ==> FoundNone(run)
    ensures After(run).place.Choice? ==> After(run).job.None?
  {
    if run.Then? {
      SecondSelectFoundNone(run.before);
      RunKeepsInv(run.before);
    }
  }

  /** While the priority channel is open, no job of the main channel is taken without looking for priority jobs first. */
  lemma MainOnlyAfterALook(run: Run, a: Action)
    requires Takes(After(run), a, Main) && !After(run).priorityClosed
    ensures FoundNone(run)
  {
    SecondSelectFoundNone(run);
    RunKeepsInv(run);
  }

  /** The worker has nothing to do, whichever case its select looks at. */
  predicate Blocked(s: State) {
    Step(s, DoWork(Main)) == s && Step(s, DoWork(Priority)) == s
  }

  /** In every run the worker stands still only when it has finished or when nothing waits in either channel. */
  lemma BlockedIff(run: Run)
    ensures var s := After(run);
            Blocked(s) <==>
              && s.job.None?
              && (s.place.Finished? ||
                  (s.queue == [] && s.priority == [] && !s.priorityClosed && ((s.place.Choice? && !s.queueClosed) || s.place.DrainPriority?)))
  {
    RunKeepsInv(run);
  }

  /** A waiting job moves the worker on: it processes what it holds, or takes the job, or goes to where it will. */
  lemma WaitingIsNotIgnored(run: Run)
    requires (After(run).queue != [] || After(run).priority != []) && !After(run).place.Finished?
    ensures !Blocked(After(run))
  {
    BlockedIff(run);
  }
}
