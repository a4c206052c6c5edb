/**
 The debounced offline and online notifications (Notify, scheduleDebounced and cancelDebounce in
 hub/internal/notify/notifier.go). A timer that fires is one step.
 */
module DebounceModel {
  import opened Options

  /** A minute, in seconds. */
  const DELAY := 60

  datatype Note = Note(server: string, online: bool, at: int)

  datatype Event = Offline(server: string) | Online(server: string) | Fire(server: string) | Shutdown

  /** Server to the time its timer is due. */
  type Pending = map<string, int>

  /** What one event does to the timers and what it sends. Without a server id nothing is debounced. */
  function Handle(p: Pending, e: Event, now: int): (Pending, Option<Note>) {
    match e
    case Offline(s) => if s == "" then (p, Some(Note(s, false, now))) else (p[s := now + DELAY], None)
    case Online(s) => if s != "" && s in p then (p - {s}, None) else (p, Some(Note(s, true, now)))
    case Fire(s) => if s in p && p[s] <= now then (p - {s}, Some(Note(s, false, now))) else (p, None)
    case Shutdown => (map[], None)
  }

  datatype Run = Start | Then(before: Run, e: Event, now: int)

  function After(run: Run): Pending {
    match run
    case Start => map[]
    case Then(before, e, now) => Handle(After(before), e, now).0
  }

  function Sent(run: Run): seq<Note> {
    match run
    case Start => []
    case Then(before, e, now) =>
      More(Sent(before), Handle(After(before), e, now).1)
  }

  function More(sent: seq<Note>, note: Option<Note>): seq<Note> {
    if note.Some? then sent + [note.value] else sent
  }

  // ---- the accounts of one server ----

  /** What became of a server's offline events and online events so far. */
  datatype Tally = Tally(offline: nat, superseded: nat, cancelled: nat, reported: nat, dropped: nat,
                         online: nat, suppressed: nat, announced: nat)

  /** One event, for a server whose timer is due at `due`, if one runs. */
  function Account(t: Tally, s: string, due: Option<int>, e: Event, now: int): Tally {
    match e
    case Offline(x) =>
      if x != s then t
      else if s == "" then t.(offline := t.offline + 1, reported := t.reported + 1)
      else if due.Some? then t.(offline := t.offline + 1, superseded := t.superseded + 1)
      else t.(offline := t.offline + 1)
    case Online(x) =>
      if x != s then t
      else if due.Some? then t.(online := t.online + 1, cancelled := t.cancelled + 1, suppressed := t.suppressed + 1)
      else t.(online := t.online + 1, announced := t.announced + 1)
    case Fire(x) => if x == s && due.Some? && due.value <= now then t.(reported := t.reported + 1) else t
    case Shutdown => if due.Some? then t.(dropped := t.dropped + 1) else t
  }

  function Due(p: Pending, s: string): Option<int> {
    if s in p then Some(p[s]) else None
  }

  function Tallied(run: Run, s: string): Tally {
    match run
    case Start => Tally(0, 0, 0, 0, 0, 0, 0, 0)
    case Then(before, e, now) => Account(Tallied(before, s), s, Due(After(before), s), e, now)
  }

  /** The online flags of the notes about one server, in the order they were sent. */
  function About(notes: seq<Note>, s: string): seq<bool> {
    if notes == [] then [] else
    var earlier := About(notes[..|notes| - 1], s);
    if notes[|notes| - 1].server == s then earlier + [notes[|notes| - 1].online] else earlier
  }

  lemma AboutAppend(notes: seq<Note>, n: Note, s: string)
    ensures About(notes + [n], s) == if n.server == s then About(notes, s) + [n.online] else About(notes, s)
  {
    assert (notes + [n])[..|notes|] == notes;
  }

  function Occurrences(flags: seq<bool>, online: bool): nat {
    if flags == [] then 0
    else Occurrences(flags[..|flags| - 1], online) + if flags[|flags| - 1] == online then 1 else 0
  }

  lemma OccurrencesAppend(flags: seq<bool>, b: bool, online: bool)
    ensures Occurrences(flags + [b], online) == Occurrences(flags, online) + if b == online then 1 else 0
  {
    assert (flags + [b])[..|flags|] == flags;
  }

  predicate Balanced(t: Tally, waiting: bool, offSent: nat, onSent: nat) {
    && t.offline == t.superseded + t.cancelled + t.reported + t.dropped + (if waiting then 1 else 0)
    && t.online == t.suppressed + t.announced
    && t.suppressed == t.cancelled
    && offSent == t.reported && onSent == t.announced
  }

  function One(note: Option<Note>, s: string, online: bool): nat {
    if note.Some? && note.value.server == s && note.value.online == online then 1 else 0
  }

  lemma SentOneMore(sent: seq<Note>, note: Option<Note>, s: string, online: bool)
    ensures Occurrences(About(More(sent, note), s), online) == Occurrences(About(sent, s), online) + One(note, s, online)
  {
    if note.Some? {
      AboutAppend(sent, note.value, s);
      OccurrencesAppend(About(sent, s), note.value.online, online);
    }
  }

  lemma AccountBalances(p: Pending, e: Event, now: int, s: string, t: Tally, offSent: nat, onSent: nat)
    requires Balanced(t, s in p, offSent, onSent) && "" !in p
    ensures var (p', note) := Handle(p, e, now);
            && "" !in p'
            && Balanced(Account(t, s, Due(p, s), e, now), s in p', offSent + One(note, s, false), onSent + One(note, s, true))
  {
  }

  predicate Accounted(p: Pending, sent: seq<Note>, t: Tally, s: string) {
    "" !in p && Balanced(t, s in p, Occurrences(About(sent, s), false), Occurrences(About(sent, s), true))
  }

  lemma EventIsAccountedFor(p: Pending, sent: seq<Note>, t: Tally, s: string, e: Event, now: int)
    requires Accounted(p, sent, t, s)
    ensures Accounted(Handle(p, e, now).0, More(sent, Handle(p, e, now).1), Account(t, s, Due(p, s), e, now), s)
  {
    var (p', note) := Handle(p, e, now);
    SentOneMore(sent, note, s, false);
    SentOneMore(sent, note, s, true);
    AccountBalances(p, e, now, s, t, Occurrences(About(sent, s), false), Occurrences(About(sent, s), true));
  }

  /**
   Every offline event is exactly one of superseded, cancelled, reported, dropped by a shutdown, or still
   waiting; the online events suppressed are as many as the offline events they cancelled; and what was
   sent is what was reported and announced, nothing else.
   */
  lemma {:induction false} EveryEventIsAccountedFor(run: Run, s: string)
    ensures Accounted(After(run), Sent(run), Tallied(run, s), s)
  {
    if run.Then? {
      EveryEventIsAccountedFor(run.before, s);
      EventIsAccountedFor(After(run.before), Sent(run.before), Tallied(run.before, s), s, run.e, run.now);
    }
  }

  // ---- alternation ----

  function Grown(inputs: seq<bool>, s: string, e: Event): seq<bool> {
    if e == Online(s) then inputs + [true] else if e == Offline(s) then inputs + [false] else inputs
  }

  /** What happened to the server: the online flags of its events. */
  function Inputs(run: Run, s: string): seq<bool> {
    match run
    case Start => []
    case Then(before, e, _) => Grown(Inputs(before, s), s, e)
  }

  predicate Alternates(flags: seq<bool>) {
    forall i :: 0 < i < |flags| ==> flags[i - 1] != flags[i]
  }

  predicate EndsWith(flags: seq<bool>, b: bool) {
    flags != [] && flags[|flags| - 1] == b
  }

  predicate NoShutdown(run: Run) {
    run.Then? ==> !run.e.Shutdown? && NoShutdown(run.before)
  }

  /** While a timer runs the last event was offline and the last note, if any, online; otherwise the last note is the last event. */
  predicate InStep(inputs: seq<bool>, sent: seq<bool>, waiting: bool) {
    if waiting then EndsWith(inputs, false) && (sent == [] || EndsWith(sent, true))
    else sent == [] || (inputs != [] && EndsWith(sent, inputs[|inputs| - 1]))
  }

  lemma AlternatesPrefix(flags: seq<bool>, b: bool)
    requires Alternates(flags + [b])
    ensures Alternates(flags) && !EndsWith(flags, b)
  {
    var more := flags + [b];
    forall i | 0 < i < |flags| ensures flags[i - 1] != flags[i] {
      assert more[i - 1] != more[i];
    }
    assert flags != [] ==> more[|flags| - 1] != more[|flags|];
  }

  lemma AlternatesOneMore(flags: seq<bool>, b: bool)
    requires Alternates(flags) && !EndsWith(flags, b)
    ensures Alternates(flags + [b])
  {
  }

  function Noted(flags: seq<bool>, s: string, note: Option<Note>): seq<bool> {
    if note.Some? && note.value.server == s then flags + [note.value.online] else flags
  }

  lemma StaysInStep(p: Pending, e: Event, now: int, s: string, inputs: seq<bool>, flags: seq<bool>)
    requires s != "" && !e.Shutdown? && Alternates(Grown(inputs, s, e))
    requires Alternates(flags) && InStep(inputs, flags, s in p)
    ensures var (p', note) := Handle(p, e, now);
            Alternates(Noted(flags, s, note)) && InStep(Grown(inputs, s, e), Noted(flags, s, note), s in p')
  {
    if e == Online(s) { AlternatesPrefix(inputs, true); }
    if e == Offline(s) { AlternatesPrefix(inputs, false); }
    var note := Handle(p, e, now).1;
    if note.Some? && note.value.server == s {
      AlternatesOneMore(flags, note.value.online);
    }
  }

  lemma InputsAlternateBefore(inputs: seq<bool>, s: string, e: Event)
    requires Alternates(Grown(inputs, s, e))
    ensures Alternates(inputs)
  {
    if e == Online(s) { AlternatesPrefix(inputs, true); }
    if e == Offline(s) { AlternatesPrefix(inputs, false); }
  }

  /**
   If a server's events alternate between offline and online, so do the notifications about it,
   whichever of the brief disconnections were filtered out.
   */
  lemma {:induction false} NotificationsAlternate(run: Run, s: string)
    requires s != "" && NoShutdown(run) && Alternates(Inputs(run, s))
    ensures Alternates(About(Sent(run), s))
    ensures InStep(Inputs(run, s), About(Sent(run), s), s in After(run))
  {
    if run.Then? {
      InputsAlternateBefore(Inputs(run.before, s), s, run.e);
      NotificationsAlternate(run.before, s);
      StaysInStep(After(run.before), run.e, run.now, s, Inputs(run.before, s), About(Sent(run.before), s));
      AboutMore(Sent(run.before), Handle(After(run.before), run.e, run.now).1, s);
    }
  }

  lemma AboutMore(sent: seq<Note>, note: Option<Note>, s: string)
    ensures About(More(sent, note), s) == Noted(About(sent, s), s, note)
  {
    if note.Some? { AboutAppend(sent, note.value, s); }
  }

  // ---- the delay ----

  /** The server's last event is an offline event at this time. */
  predicate OfflineSince(run: Run, s: string, at: int) {
    run.Then? &&
    if run.e == Offline(s) then run.now == at
    else run.e != Online(s) && OfflineSince(run.before, s, at)
  }

  lemma {:induction false} TimerIsOfLastOffline(run: Run, s: string)
    requires s != "" && s in After(run)
    ensures OfflineSince(run, s, After(run)[s] - DELAY)
  {
    if run.e != Offline(s) {
      TimerIsOfLastOffline(run.before, s);
    }
  }

  /** An offline notification is sent only when the server's last event was going offline, a full minute ago or more. */
  lemma ReportedOnlyAfterTheDelay(run: Run, s: string, now: int)
    requires s != "" && s in After(run)
    ensures var note := Handle(After(run), Fire(s), now).1;
            var at := After(run)[s] - 60;
            && OfflineSince(run, s, at)
            && (note.Some? <==> at + 60 <= now)
            && (note.Some? ==> note.value == Note(s, false, now))
  {
    TimerIsOfLastOffline(run, s);
  }

  /** Events of one server never touch another's timer or notifications. */
  lemma ServersAreIndependent(p: Pending, e: Event, now: int, s: string)
    requires !e.Shutdown? && e.server != s
    ensures var (p', note) := Handle(p, e, now);
            && (s in p' <==> s in p) && (s in p ==> p'[s] == p[s])
            && (note.Some? ==> note.value.server != s)
  {
  }
}
