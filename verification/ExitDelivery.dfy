/**
 The delivery of a terminal's exit (deliverExit in hub/internal/grpcserver/terminalsessions.go) step by
 step, while the stream handler, which needs no lock to receive, takes events out of the same channel.
 TerminalModel takes the whole delivery as one step; this is what that leaves out.
 */
module ExitDelivery {
  import opened TerminalModel

  /** Before the length test, before the receive of a full round, before the send, and the two ends. */
  datatype Place = Testing | Evicting | Sending | Sent | Lost

  datatype Delivery = Delivery(place: Place, buf: seq<Event>, received: seq<Event>)

  datatype Move = Deliver | Consume

  function DeliverStep(d: Delivery, e: Event): Delivery {
    match d.place
    case Testing => d.(place := if |d.buf| == CAP then Evicting else Sending)
    case Evicting => if d.buf == [] then d.(place := Lost) else d.(place := Testing, buf := d.buf[1..])
    case Sending => d.(place := Sent, buf := d.buf + [e])
    case Sent => d
    case Lost => d
  }

  function ConsumeStep(d: Delivery): Delivery {
    if d.buf == [] then d else d.(buf := d.buf[1..], received := d.received + [d.buf[0]])
  }

  /** A schedule of the two goroutines, latest move last. */
  datatype Schedule = Start | Then(before: Schedule, m: Move)

  function Played(buf: seq<Event>, e: Event, s: Schedule): Delivery {
    match s
    case Start => Delivery(Testing, buf, [])
    case Then(before, Deliver) => DeliverStep(Played(buf, e, before), e)
    case Then(before, Consume) => ConsumeStep(Played(buf, e, before))
  }

  // ---- the schedule ----

  /** How many steps of the delivery the schedule has. */
  function Steps(s: Schedule): nat {
    if s.Start? then 0 else Steps(s.before) + if s.m.Deliver? then 1 else 0
  }

  /** How often the handler tries to receive after exactly n steps of the delivery. */
  function Gap(s: Schedule, n: nat): nat {
    if s.Start? then 0 else Gap(s.before, n) + if s.m.Consume? && Steps(s.before) == n then 1 else 0
  }

  lemma {:induction false} NoGapAhead(s: Schedule, n: nat)
    requires n > Steps(s)
    ensures Gap(s, n) == 0
  {
    if s.Then? { NoGapAhead(s.before, n); }
  }

  // ---- where the delivery stands ----

  /** The test finds the buffer full: it was full and nothing was received before. */
  predicate FoundFull(buf: seq<Event>, s: Schedule) {
    |buf| == CAP && Gap(s, 0) == 0
  }

  /** The place is determined by the schedule. */
  function PlaceOf(full: bool, gap: nat, steps: nat): Place {
    if steps == 0 then Testing
    else if !full then (if steps == 1 then Sending else Sent)
    else if steps == 1 then Evicting
    else if gap >= CAP then Lost
    else if steps == 2 then Testing
    else if steps == 3 then Sending
    else Sent
  }

  function WithoutAt(buf: seq<Event>, i: nat): seq<Event> {
    if i < |buf| then buf[..i] + buf[i + 1..] else buf
  }

  /** What the handler has received and can still receive of the old events. */
  function Survivors(buf: seq<Event>, full: bool, gap: nat, steps: nat): seq<Event> {
    if full && steps >= 2 && gap < CAP then WithoutAt(buf, gap) else buf
  }

  predicate Stands(d: Delivery, buf: seq<Event>, e: Event, full: bool, gap0: nat, gap: nat, steps: nat) {
    && d.place == PlaceOf(full, gap, steps)
    && d.received + d.buf == Survivors(buf, full, gap, steps) + (if d.place.Sent? then [e] else [])
    && (steps == 0 ==> |d.received| == if gap0 < |buf| then gap0 else |buf|)
    && (full && steps == 1 ==> |d.received| == if gap < CAP then gap else CAP)
    && (d.place.Sending? ==> |d.buf| < CAP)
  }

  lemma ConsumeKeeps(d: Delivery, buf: seq<Event>, e: Event, full: bool, full': bool, gap0: nat, gap: nat, steps: nat)
    requires Stands(d, buf, e, full, gap0, gap, steps) && (full ==> |buf| == CAP)
    requires full' == (full && steps != 0) && (full && steps == 0 ==> gap == 0)
    ensures Stands(ConsumeStep(d), buf, e, full', if steps == 0 then gap0 + 1 else gap0, if steps == 1 then gap + 1 else gap, steps)
  {
    if d.buf != [] {
      assert d.received + d.buf == (d.received + [d.buf[0]]) + d.buf[1..];
    }
  }

  lemma EvictKeeps(received: seq<Event>, rest: seq<Event>, buf: seq<Event>)
    requires received + rest == buf && rest != []
    ensures received + rest[1..] == WithoutAt(buf, |received|)
  {
  }

  lemma DeliverKeeps(d: Delivery, buf: seq<Event>, e: Event, full: bool, gap0: nat, gap: nat, steps: nat)
    requires Stands(d, buf, e, full, gap0, gap, steps) && |buf| <= CAP
    requires full <==> |buf| == CAP && gap0 == 0
    requires steps == 0 ==> gap == 0
    ensures Stands(DeliverStep(d, e), buf, e, full, gap0, gap, steps + 1)
  {
    assert |d.received + d.buf| == |d.received| + |d.buf|;
    if d.place.Evicting? && d.buf != [] {
      EvictKeeps(d.received, d.buf, buf);
    }
    if d.place.Sending? {
      assert d.received + (d.buf + [e]) == (d.received + d.buf) + [e];
    }
  }

  lemma {:induction false} ScheduleDecides(buf: seq<Event>, e: Event, s: Schedule)
    requires |buf| <= CAP
    ensures Stands(Played(buf, e, s), buf, e, FoundFull(buf, s), Gap(s, 0), Gap(s, 1), Steps(s))
  {
    if s.Then? {
      ScheduleDecides(buf, e, s.before);
      NoGapAhead(s.before, Steps(s.before) + 1);
      var d := Played(buf, e, s.before);
      if s.m.Deliver? {
        DeliverKeeps(d, buf, e, FoundFull(buf, s.before), Gap(s.before, 0), Gap(s.before, 1), Steps(s.before));
      } else {
        ConsumeKeeps(d, buf, e, FoundFull(buf, s.before), FoundFull(buf, s), Gap(s.before, 0), Gap(s.before, 1), Steps(s.before));
      }
    }
  }

  /**
   The exit is lost exactly when the length test finds the buffer full, and then the handler tries to
   receive at least 256 times, and so empties the buffer, before the delivery's next step.
   */
  lemma ExitIsLostIff(buf: seq<Event>, e: Event, s: Schedule)
    requires |buf| <= CAP
    ensures Played(buf, e, s).place.Lost? <==> |buf| == 256 && Gap(s, 0) == 0 && Steps(s) >= 2 && Gap(s, 1) >= 256
  {
    ScheduleDecides(buf, e, s);
  }

  /** Otherwise four steps send it, whatever the handler does in between: the send never blocks and nothing loops. */
  lemma ExitIsSentIff(buf: seq<Event>, e: Event, s: Schedule)
    requires |buf| <= CAP && Steps(s) >= 4
    ensures Played(buf, e, s).place.Sent? <==> !(|buf| == CAP && Gap(s, 0) == 0 && Gap(s, 1) >= CAP)
  {
    ScheduleDecides(buf, e, s);
  }

  /**
   For every schedule: received and waiting events are the old ones in order, less at most one, the oldest
   unread when the test had found the buffer full, and then the exit, if it was sent.
   */
  lemma AtMostOneEventIsEvicted(buf: seq<Event>, e: Event, s: Schedule)
    requires |buf| <= CAP
    ensures var d := Played(buf, e, s);
            var evicted := |buf| == CAP && Gap(s, 0) == 0 && Steps(s) >= 2 && Gap(s, 1) < CAP;
            d.received + d.buf ==
              (if evicted then WithoutAt(buf, Gap(s, 1)) else buf) + (if d.place.Sent? then [e] else [])
  {
    ScheduleDecides(buf, e, s);
  }

  function Alone(n: nat): Schedule {
    if n == 0 then Start else Then(Alone(n - 1), Deliver)
  }

  lemma {:induction false} AloneHasNoGaps(n: nat, k: nat)
    ensures Steps(Alone(n)) == n && Gap(Alone(n), k) == 0
  {
    if n > 0 { AloneHasNoGaps(n - 1, k); }
  }

  lemma {:induction false} AloneReceivesNothing(buf: seq<Event>, e: Event, n: nat)
    ensures Played(buf, e, Alone(n)).received == []
  {
    if n > 0 { AloneReceivesNothing(buf, e, n - 1); }
  }

  /** Undisturbed, the steps together do what TerminalModel takes as one. */
  lemma UndisturbedIsWithExit(buf: seq<Event>, e: Event)
    requires |buf| <= CAP
    ensures Played(buf, e, Alone(4)).place.Sent? && Played(buf, e, Alone(4)).buf == WithExit(buf, e)
  {
    AloneHasNoGaps(4, 0);
    AloneHasNoGaps(4, 1);
    AloneReceivesNothing(buf, e, 4);
    ScheduleDecides(buf, e, Alone(4));
    var d := Played(buf, e, Alone(4));
    assert d.received + d.buf == d.buf;
    if |buf| == CAP {
      assert WithoutAt(buf, 0) == buf[1..];
    }
  }
}
