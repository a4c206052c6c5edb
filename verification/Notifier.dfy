/** The notifier with its channels and timers, proved against NotifierModel and DebounceModel. */
module Notifier {
  import opened Options
  import opened NotifierModel
  import Debounce = DebounceModel

  class Notifier {
    var queue: seq<Job>
    var priorityQueue: seq<Job>
    var closed: bool                // both channels
    var processed: seq<Taken>       // the jobs the worker has sent, and where it took them from
    var debounce: map<string, int>  // timers, by server

    ghost predicate Valid()
      reads this
    {
      |queue| <= QUEUE_SIZE && |priorityQueue| <= QUEUE_SIZE
    }

    constructor ()
      ensures Valid() && queue == [] && priorityQueue == [] && !closed && processed == [] && debounce == map[]
    {
      queue, priorityQueue, closed, processed, debounce := [], [], false, [], map[];
    }

    /** Refused exactly when neither channel may take the job; otherwise one of them has it last. */
    method EnqueueJob(job: Job) returns (ok: bool)
      requires Valid() && !closed
      modifies this`queue, this`priorityQueue
      ensures Valid()
      ensures ok == Accepts(old(queue), old(priorityQueue), job).Some?
      ensures queue == if Accepts(old(queue), old(priorityQueue), job) == Some(Main) then old(queue) + [job] else old(queue)
      ensures priorityQueue ==
              if Accepts(old(queue), old(priorityQueue), job) == Some(Priority) then old(priorityQueue) + [job] else old(priorityQueue)
    {
      if |queue| < QUEUE_SIZE {
        queue := queue + [job];
        return true;
      }
      if job.security && |priorityQueue| < QUEUE_SIZE {
        priorityQueue := priorityQueue + [job];
        return true;
      }
      ok := false;
    }

    /** Everything the two channels held is processed, each channel's jobs in their order. */
    ghost predicate Drained(before: seq<Taken>, main: seq<Job>, priority: seq<Job>)
      reads this
    {
      && Of(Main, processed) + queue == Of(Main, before) + main
      && Of(Priority, processed) + priorityQueue == Of(Priority, before) + priority
    }

    method TakeMain()
      requires queue != []
      modifies this`queue, this`processed
      ensures queue == old(queue)[1..] && processed == old(processed) + [Taken(old(queue)[0], Main)]
      ensures Drained(old(processed), old(queue), old(priorityQueue))
    {
      OfAppend(Main, processed, Taken(queue[0], Main));
      OfAppend(Priority, processed, Taken(queue[0], Main));
      processed := processed + [Taken(queue[0], Main)];
      queue := queue[1..];
    }

    method TakePriority()
      requires priorityQueue != []
      modifies this`priorityQueue, this`processed
      ensures priorityQueue == old(priorityQueue)[1..] && processed == old(processed) + [Taken(old(priorityQueue)[0], Priority)]
      ensures Drained(old(processed), old(queue), old(priorityQueue))
    {
      OfAppend(Main, processed, Taken(priorityQueue[0], Priority));
      OfAppend(Priority, processed, Taken(priorityQueue[0], Priority));
      processed := processed + [Taken(priorityQueue[0], Priority)];
      priorityQueue := priorityQueue[1..];
    }

    method DrainMain()
      modifies this`queue, this`processed
      ensures queue == [] && Drained(old(processed), old(queue), old(priorityQueue))
    {
      while queue != []
        invariant Drained(old(processed), old(queue), old(priorityQueue))
        decreases |queue|
      {
        TakeMain();
      }
    }

    method DrainPriority()
      modifies this`priorityQueue, this`processed
      ensures priorityQueue == [] && Drained(old(processed), old(queue), old(priorityQueue))
    {
      while priorityQueue != []
        invariant Drained(old(processed), old(queue), old(priorityQueue))
        decreases |priorityQueue|
      {
        TakePriority();
      }
    }

    /**
     The worker's loop on closed channels, from either of its two selects. Where both cases of the second
     select are ready the choice is open; whatever it is, the loop ends with both channels empty and every
     job processed in order.
     */
    method Worker()
      requires closed
      modifies this`queue, this`priorityQueue, this`processed
      ensures queue == [] && priorityQueue == []
      ensures Of(Main, processed) == Of(Main, old(processed)) + old(queue)
      ensures Of(Priority, processed) == Of(Priority, old(processed)) + old(priorityQueue)
    {
      while true
        invariant Drained(old(processed), old(queue), old(priorityQueue))
        decreases |queue| + |priorityQueue|
      {
        var second := *;
        if !second {
          if priorityQueue == [] {
            DrainMain();
            return;
          }
          TakePriority();
        } else {
          var pickPriority := *;
          if pickPriority {
            if priorityQueue == [] {
              DrainMain();
              return;
            }
            TakePriority();
          } else {
            if queue == [] {
              DrainPriority();
              return;
            }
            TakeMain();
          }
        }
      }
    }

    /** Close drops the timers, closes both channels and returns when the worker has finished. */
    method Close()
      requires !closed
      modifies this
      ensures closed && debounce == map[] && queue == [] && priorityQueue == []
      ensures Of(Main, processed) == Of(Main, old(processed)) + old(queue)
      ensures Of(Priority, processed) == Of(Priority, old(processed)) + old(priorityQueue)
    {
      var left := debounce.Keys;
      while left != {}
        invariant left == debounce.Keys
        invariant unchanged(this`queue, this`priorityQueue, this`processed)
      {
        var k :| k in left;
        debounce := debounce - {k};
        left := left - {k};
      }
      closed := true;
      Worker();
    }

    method ScheduleDebounced(server: string, now: int)
      modifies this`debounce
      ensures debounce == old(debounce)[server := now + Debounce.DELAY]
    {
      debounce := debounce[server := now + Debounce.DELAY];
    }

    method CancelDebounce(server: string) returns (cancelled: bool)
      modifies this`debounce
      ensures cancelled == (server in old(debounce)) && debounce == old(debounce) - {server}
    {
      cancelled := server in debounce;
      debounce := debounce - {server};
    }

    /** An agent going offline or coming online: the timers and the notification, if one is sent. */
    method Notify(online: bool, server: string, now: int) returns (note: Option<Debounce.Note>)
      modifies this`debounce
      ensures (debounce, note) ==
              Debounce.Handle(old(debounce), if online then Debounce.Online(server) else Debounce.Offline(server), now)
    {
      if online && server != "" {
        var cancelled := CancelDebounce(server);
        if cancelled {
          return None;
        }
        assert debounce == old(debounce);
      }
      if !online && server != "" {
        ScheduleDebounced(server, now);
        return None;
      }
      note := Some(Debounce.Note(server, online, now));
    }

    /** The timer's function. */
    method TimerFires(server: string, now: int) returns (note: Option<Debounce.Note>)
      requires server in debounce && debounce[server] <= now
      modifies this`debounce
      ensures (debounce, note) == Debounce.Handle(old(debounce), Debounce.Fire(server), now)
    {
      debounce := debounce - {server};
      note := Some(Debounce.Note(server, false, now));
    }
  }
}
