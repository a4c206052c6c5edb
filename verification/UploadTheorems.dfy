/** What the upload pipeline guarantees over every run. */
module UploadTheorems {
  import opened Options
  import opened DropzoneModel
  import opened UploadModel
  import opened Units

  // ---- success means a complete file ----

  /** The read is taken by the handler, whatever becomes of it. */
  predicate Taken(w: World, id: string, data: Bytes, send: Send) {
    InPhase(w, id, Reading) && 0 < |data| <= CHUNK_SIZE && (send.Lost? ==> Losable(w, id))
  }

  /** Everything the reader of one upload has returned, concatenated. */
  function ReadBy(run: Run, id: string): Bytes {
    if run.Start? then []
    else if run.a.Read? && run.a.id == id && Taken(After(run.before), id, run.a.data, run.a.send)
    then ReadBy(run.before, id) + run.a.data
    else ReadBy(run.before, id)
  }

  predicate SentIsRead(w: World, id: string, read: Bytes) {
    id in w.hubs && (w.hubs[id].phase.Reading? || w.hubs[id].eof) ==> w.hubs[id].sent == read
  }

  predicate EofEndsReading(w: World, id: string) {
    id in w.hubs ==> (w.hubs[id].eof ==> !w.hubs[id].phase.Reading?)
                     && (w.hubs[id].phase.Awaiting? || w.hubs[id].phase.Succeeded? ==> w.hubs[id].eof)
  }

  lemma {:induction false} SentIsWhatWasRead(run: Run, id: string)
    ensures SentIsRead(After(run), id, ReadBy(run, id)) && EofEndsReading(After(run), id)
    ensures id !in After(run).hubs ==> ReadBy(run, id) == []
  {
    if run.Then? {
      SentIsWhatWasRead(run.before, id);
      var w := After(run.before);
      match run.a
      case Read(j, data, send) =>
      case Handle(io) => HandleKeepsHubs(w, io);
      case _ =>
    }
  }

  lemma HandleKeepsHubs(w: World, io: Io)
    ensures StepHandle(w, io).hubs == w.hubs
  {
  }

  /**
   Whenever the hub reports success, the agent renamed a file that holds exactly the bytes the reader
   returned, the reader had reached its end, and the size is within the limit.
   */
  lemma SuccessMeansComplete(run: Run, id: string)
    requires SafeNames(run) && InPhase(After(run), id, Succeeded)
    ensures var w := After(run);
            && id in w.published && w.published[id] < |w.drop.inodes|
            && w.drop.inodes[w.published[id]] == ReadBy(run, id)
            && w.hubs[id].total == |ReadBy(run, id)| <= 100 * 1024 * 1024
  {
    RunKeepsInv(run);
    SentIsWhatWasRead(run, id);
    var w := After(run);
    assert Stored(w.drop, w.hubs, w.published, id);
    assert FlowAt(w.hubs[id], w.link, w.drop, w.published.Keys, id);
  }

  /** Every visible file is one completed upload, in full, under its own name: partial files are never visible. */
  lemma VisibleFilesAreComplete(run: Run, n: Name)
    requires SafeNames(run) && Visible(n) && n in After(run).drop.dir
    ensures var w := After(run);
            && w.drop.dir[n] < |w.drop.inodes|
            && exists id :: id in w.hubs && w.hubs[id].eof && n == Entry(Sanitize(w.hubs[id].filename))
                            && w.drop.inodes[w.drop.dir[n]] == ReadBy(run, id)
  {
    RunKeepsInv(run);
    var w := After(run);
    assert Shown(w.drop.dir, w.hubs, w.published, w.owner, n);
    var id := w.owner[n];
    assert Stored(w.drop, w.hubs, w.published, id);
    SentIsWhatWasRead(run, id);
  }

  // ---- how a handler ends ----

  predicate Listens(w: World, id: string) {
    InPhase(w, id, Reading) || InPhase(w, id, Awaiting)
  }

  lemma SendKeepsListening(w: World, j: string, h: Handler, c: Option<Chunk>, send: Send, id: string)
    requires (id in w.pending <==> Listens(w, id)) && InPhase(w, j, Reading) && !h.phase.Succeeded?
    ensures var w' := Put(w, j, h, c, send); id in w'.pending <==> Listens(w', id)
  {
  }

  /** A handler keeps its channel for acknowledgements exactly until it returns. */
  lemma {:induction false} ListensUntilItReturns(run: Run, id: string)
    ensures id in After(run).pending <==> Listens(After(run), id)
  {
    if run.Then? {
      ListensUntilItReturns(run.before, id);
      var w := After(run.before);
      match run.a
      case Handle(io) => HandleKeepsHubs(w, io);
      case Read(j, data, send) =>
        if Taken(w, j, data, send) {
          var (h, c) := OnChunk(w.hubs[j], j, data, send.Refused?);
          SendKeepsListening(w, j, h, c, send, id);
        }
      case Eof(j, send) =>
        if InPhase(w, j, Reading) {
          var (h, c) := OnEof(w.hubs[j], j, send.Refused?);
          SendKeepsListening(w, j, h, c, send, id);
        }
      case _ =>
    }
  }

  /** A handler that waits answers what the acknowledgement in its channel says, or a failure when it times out first. */
  lemma WaitingHandlerAnswers(run: Run, id: string)
    requires InPhase(After(run), id, Awaiting)
    ensures InPhase(After(Then(run, Timeout(id))), id, Failed)
    ensures id in After(run).pending
    ensures var answer := After(run).pending[id];
            InPhase(After(Then(run, TakeAck(id))), id,
              if answer.None? then Awaiting else if answer.value.ok then Succeeded else Failed)
  {
    ListensUntilItReturns(run, id);
  }

  predicate FirstIsUnsent(w: World, id: string) {
    id in w.hubs ==> (w.hubs[id].isFirst <==> w.hubs[id].sent == [])
  }

  lemma {:induction false} FirstInRun(run: Run, id: string)
    ensures FirstIsUnsent(After(run), id)
  {
    if run.Then? {
      FirstInRun(run.before, id);
      match run.a
      case Handle(io) => HandleKeepsHubs(After(run.before), io);
      case _ =>
    }
  }

  /**
   What a read puts on the stream: one chunk, with the name only while nothing was sent before; nothing
   when the send is lost or refused.
   */
  lemma WhatIsSent(run: Run, id: string, data: Bytes, send: Send)
    requires Taken(After(run), id, data, send)
    ensures var w := After(run); var h := w.hubs[id];
            After(Then(run, Read(id, data, send))).link ==
              if send.Queued? && h.total + |data| <= 100 * 1024 * 1024
              then w.link + [Chunk(id, if h.sent == [] then h.filename else "", data, false)] else w.link
    ensures After(Then(run, Eof(id, send))).link ==
              if send.Queued? then After(run).link + [Chunk(id, "", [], true)] else After(run).link
  {
    FirstInRun(run, id);
  }

  lemma WithoutOne(acks: seq<Ack>, i: nat)
    requires i < |acks|
    ensures multiset(WithoutAck(acks, i)) == multiset(acks) - multiset{acks[i]}
  {
    assert acks == acks[..i] + [acks[i]] + acks[i + 1..];
  }

  /** An acknowledgement that reaches a listening handler with an empty channel is heard; any other is dropped. */
  lemma DeliveredAckIsHeard(w: World, i: nat)
    requires i < |w.acks|
    ensures var w' := Step(w, DeliverAck(i)); var a := w.acks[i];
            && w' == w.(acks := w'.acks, pending := w'.pending)
            && multiset(w'.acks) == multiset(w.acks) - multiset{a}
            && w'.pending == if a.id in w.pending && w.pending[a.id].None? then w.pending[a.id := Some(a)] else w.pending
  {
    WithoutOne(w.acks, i);
  }

  lemma StepKeepsAnswer(w: World, a: Action, id: string)
    requires id in w.pending && w.pending[id].Some? && id in w.hubs
    ensures id in Step(w, a).pending ==> Step(w, a).pending[id] == w.pending[id]
  {
    if a.Handle? { HandleKeepsHubs(w, a.io); }
  }

  /** The first answer a handler hears is the only one: it stays in the channel until the handler returns, whatever else arrives. */
  lemma {:induction false} FirstAnswerStays(run: Run, later: Run, id: string)
    requires Extends(later, run) && id in After(run).pending && After(run).pending[id].Some? && id in After(later).pending
    ensures After(later).pending[id] == After(run).pending[id]
  {
    if later != run {
      var w := After(later.before);
      ListensUntilItReturns(run, id);
      HandlersStay(run, later.before, id);
      if id in w.pending {
        FirstAnswerStays(run, later.before, id);
        StepKeepsAnswer(w, later.a, id);
      } else {
        StaysReturned(w, later.a, id);
      }
    }
  }

  lemma StepKeepsHandlers(w: World, a: Action, id: string)
    requires id in w.hubs
    ensures id in Step(w, a).hubs
  {
    if a.Handle? { HandleKeepsHubs(w, a.io); }
  }

  lemma {:induction false} HandlersStay(run: Run, later: Run, id: string)
    requires Extends(later, run) && id in After(run).hubs
    ensures id in After(later).hubs
  {
    if later != run {
      HandlersStay(run, later.before, id);
      StepKeepsHandlers(After(later.before), later.a, id);
    }
  }

  lemma StaysReturned(w: World, a: Action, id: string)
    requires id in w.hubs && id !in w.pending
    ensures id in Step(w, a).hubs && id !in Step(w, a).pending
  {
    if a.Handle? { HandleKeepsHubs(w, a.io); }
  }

  /** A handler that has returned never listens again. */
  lemma {:induction false} NeverListensAgain(run: Run, later: Run, id: string)
    requires Extends(later, run) && id in After(run).hubs && id !in After(run).pending
    ensures id in After(later).hubs && id !in After(later).pending
  {
    if later != run {
      NeverListensAgain(run, later.before, id);
      StaysReturned(After(later.before), later.a, id);
    }
  }

  /** An acknowledgement that is lost is gone and changes nothing else: its handler goes on waiting, up to its timeout. */
  lemma LostAckIsGone(w: World, i: nat)
    requires i < |w.acks|
    ensures var w' := Step(w, LoseAck(i));
            && w' == w.(acks := w'.acks)
            && multiset(w'.acks) == multiset(w.acks) - multiset{w.acks[i]}
  {
    WithoutOne(w.acks, i);
  }

  /** A handler that reads fails when its reader fails, a send is refused or a read takes it over 100 MB, and otherwise goes on. */
  lemma ReadingHandlerAnswers(run: Run, id: string, data: Bytes)
    requires InPhase(After(run), id, Reading) && 0 < |data| <= 64 * 1024
    ensures InPhase(After(Then(run, ReadError(id))), id, Failed)
    ensures InPhase(After(Then(run, Eof(id, Refused))), id, Failed)
    ensures InPhase(After(Then(run, Eof(id, Queued))), id, Awaiting)
    ensures InPhase(After(Then(run, Read(id, data, Refused))), id, Failed)
    ensures InPhase(After(Then(run, Read(id, data, Queued))), id,
              if After(run).hubs[id].total + |data| <= 100 * 1024 * 1024 then Reading else Failed)
  {
    ReadAnswers(After(run), id, data);
  }

  lemma ReadAnswers(w: World, id: string, data: Bytes)
    requires InPhase(w, id, Reading) && 0 < |data| <= 64 * 1024
    ensures InPhase(StepRead(w, id, data, Refused), id, Failed)
    ensures InPhase(StepRead(w, id, data, Queued), id, if w.hubs[id].total + |data| <= 100 * 1024 * 1024 then Reading else Failed)
  {
  }

  // ---- no second chance ----

  /** Nothing that could still open or finish the upload exists: not at the agent, not on the stream, not at the hub. */
  predicate Dead(w: World, id: string) {
    && id in w.hubs && id !in w.published && id !in w.drop.uploads
    && Unnamed(ForID(w.link, id), 0)
    && !(w.hubs[id].phase.Reading? && w.hubs[id].isFirst)
  }

  ghost predicate AgentAnswers(w: World, a: Action) {
    a.Handle? && w.link != [] ==>
      Outcome(w.drop, HandleChunk(w.drop, w.link[0], a.io).0, HandleChunk(w.drop, w.link[0], a.io).1, w.link[0])
  }

  lemma AgentAnswersInRun(run: Run, a: Action)
    requires SafeNames(run)
    ensures AgentAnswers(After(run), a)
  {
    RunKeepsInv(run);
    var w := After(run);
    if a.Handle? && w.link != [] {
      ChunkOutcome(w.drop, w.link[0], a.io);
    }
  }

  lemma HandledKeepsDead(w: World, d': Drop, ack: Option<Ack>, id: string)
    requires Dead(w, id) && w.link != [] && Outcome(w.drop, d', ack, w.link[0])
    ensures Dead(Handled(w, d', ack), id)
  {
    ForIDHead(w.link, id);
    var cs, rest := ForID(w.link, id), ForID(w.link[1..], id);
    assert w.link[0].id == id ==> cs[0].filename == "" && forall i :: 0 <= i < |rest| ==> rest[i] == cs[i + 1];
    assert w.link[0].id != id ==> Kept(w.drop, d', id);
  }

  lemma SendKeepsDead(w: World, id: string, j: string, h: Handler, c: Option<Chunk>, send: Send)
    requires Dead(w, id) && (c.Some? ==> c.value.id == j)
    requires j == id ==> (c.Some? ==> c.value.filename == "") && !(h.phase.Reading? && h.isFirst)
    ensures Dead(Put(w, j, h, c, send), id)
  {
    if c.Some? {
      ForIDAppend(w.link, c.value, id);
    }
  }

  lemma StepKeepsDead(w: World, a: Action, id: string)
    requires Dead(w, id) && AgentAnswers(w, a)
    ensures Dead(Step(w, a), id)
  {
    match a
    case Read(j, data, send) =>
      if Taken(w, j, data, send) {
        var (h, c) := OnChunk(w.hubs[j], j, data, send.Refused?);
        SendKeepsDead(w, id, j, h, c, send);
      }
    case Eof(j, send) =>
      if InPhase(w, j, Reading) {
        var (h, c) := OnEof(w.hubs[j], j, send.Refused?);
        SendKeepsDead(w, id, j, h, c, send);
      }
    case Handle(io) =>
      if w.link != [] {
        var (d', ack) := HandleChunk(w.drop, w.link[0], io);
        HandledKeepsDead(w, d', ack, id);
      }
    case _ =>
  }

  predicate Extends(later: Run, run: Run) {
    later == run || (later.Then? && Extends(later.before, run))
  }

  lemma {:induction false} DeadStaysDead(run: Run, later: Run, id: string)
    requires SafeNames(later) && Extends(later, run) && Dead(After(run), id)
    ensures Dead(After(later), id)
  {
    if later != run {
      DeadStaysDead(run, later.before, id);
      AgentAnswersInRun(later.before, later.a);
      StepKeepsDead(After(later.before), later.a, id);
    }
  }

  /** A dead upload is never reported as a success, however the run goes on. */
  lemma NoSecondChance(run: Run, later: Run, id: string)
    requires SafeNames(later) && Extends(later, run) && Dead(After(run), id)
    ensures !InPhase(After(later), id, Succeeded) && id !in After(later).published
  {
    DeadStaysDead(run, later, id);
    RunKeepsInv(later);
  }

  lemma HandledErrorKills(w: World, d': Drop, ack: Option<Ack>, id: string)
    requires w.link != [] && w.link[0].id == id && Outcome(w.drop, d', ack, w.link[0]) && ack.Some? && !ack.value.ok
    requires id in w.hubs && FlowAt(w.hubs[id], w.link, w.drop, w.published.Keys, id)
    ensures Dead(Handled(w, d', ack), id)
  {
    ForIDHead(w.link, id);
    var cs, rest := ForID(w.link, id), ForID(w.link[1..], id);
    assert forall i :: 0 <= i < |rest| ==> rest[i] == cs[i + 1];
  }

  lemma FlowInRun(run: Run, id: string)
    requires SafeNames(run) && id in After(run).hubs
    ensures var w := After(run); FlowAt(w.hubs[id], w.link, w.drop, w.published.Keys, id)
  {
    RunKeepsInv(run);
  }

  lemma AddressedInRun(run: Run)
    requires SafeNames(run)
    ensures Addressed(After(run).link, After(run).hubs)
  {
    RunKeepsInv(run);
  }

  lemma SoundInRun(run: Run)
    requires SafeNames(run)
    ensures Sound(After(run).drop)
  {
    RunKeepsInv(run);
  }

  /** The agent's error kills the upload, because only its first chunk carried the name. */
  lemma ErrorKills(run: Run, io: Io)
    requires SafeNames(run) && After(run).link != []
    requires var w := After(run); var ack := HandleChunk(w.drop, w.link[0], io).1; ack.Some? && !ack.value.ok
    ensures Dead(After(Then(run, Handle(io))), After(run).link[0].id)
  {
    var w := After(run);
    var (d', ack) := HandleChunk(w.drop, w.link[0], io);
    AgentAnswersInRun(run, Handle(io));
    AddressedInRun(run);
    FlowInRun(run, w.link[0].id);
    HandledErrorKills(w, d', ack, w.link[0].id);
  }

  /** Cleanup after a broken stream kills every upload whose first chunk was sent, unless it is complete. */
  lemma DisconnectKills(run: Run, id: string)
    requires SafeNames(run) && id in After(run).hubs && id !in After(run).published
    requires !After(run).hubs[id].isFirst || !After(run).hubs[id].phase.Reading?
    ensures Dead(After(Then(run, Disconnect)), id)
  {
  }

  // ---- continuations ----

  /** The run goes on without a disconnect. */
  predicate Continues(later: Run, run: Run) {
    later == run || (later.Then? && !later.a.Disconnect? && Continues(later.before, run))
  }

  lemma {:induction false} ContinuesTwice(later: Run, mid: Run, run: Run)
    requires Continues(later, mid) && Continues(mid, run)
    ensures Continues(later, run)
  {
    if later != mid {
      ContinuesTwice(later.before, mid, run);
    }
  }
}
