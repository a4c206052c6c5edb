/**
 What happens to interleaved uploads when nothing fails: no stream breaks, no send, read, write, rename or
 acknowledgement is lost, no handler times out, and a slot is free whenever a first chunk arrives.
 */
module UploadProgress {
  import opened Options
  import opened DropzoneModel
  import opened UploadModel
  import opened UploadTheorems
  import opened Units

  predicate Usable(filename: string) {
    filename != "" && Sanitize(filename) != ""
  }

  /** The operating system does what the chunk asks of it. */
  predicate Willing(io: Io, c: Chunk) {
    io.openOk && io.renameOk && io.written >= |c.data|
  }

  /** Nothing fails in this step. */
  predicate Smooth(w: World, a: Action) {
    match a
    case Begin(_, filename) => Usable(filename)
    case Read(id, data, send) => send.Queued? && (id in w.hubs ==> w.hubs[id].total + |data| <= 100 * 1024 * 1024)
    case Eof(_, send) => send.Queued?
    case Handle(io) =>
      w.link != [] ==> Willing(io, w.link[0]) && (w.link[0].id in w.drop.uploads || |w.drop.uploads| < 10)
    case DeliverAck(_) => true
    case TakeAck(_) => true
    case _ => false
  }

  predicate SmoothRun(run: Run) {
    run.Then? ==> SmoothRun(run.before) && Smooth(After(run.before), run.a)
  }

  // ---- no upload with content ever dies ----

  predicate Unrefused(acks: seq<Ack>, pending: map<string, Option<Ack>>, id: string) {
    && (forall i :: 0 <= i < |acks| && acks[i].id == id ==> acks[i].ok)
    && (id in pending && pending[id].Some? ==> pending[id].value.ok)
  }

  /** A success for this upload is on its way to the handler. */
  predicate Waiting(acks: seq<Ack>, pending: map<string, Option<Ack>>, id: string) {
    || (exists i :: 0 <= i < |acks| && acks[i].id == id && acks[i].ok)
    || (id in pending && pending[id].Some? && pending[id].value.ok)
  }

  /** An upload with content is published, open, or about to be opened by its named chunk; after its end a final chunk follows. */
  predicate Lively(h: Handler, cs: seq<Chunk>, open: bool, published: bool, waiting: bool) {
    !h.isFirst ==>
      && (published || open || (cs != [] && cs[0].filename == h.filename))
      && (h.eof && !published ==> cs != [] && cs[|cs| - 1].done)
      && (published ==> h.phase.Succeeded? || waiting)
  }

  /** A handler that has sent content or may still do so. An empty file is refused and not among them. */
  predicate Live(h: Handler) {
    !h.isFirst || h.phase.Reading?
  }

  predicate Alive(w: World, id: string) {
    id in w.hubs && Live(w.hubs[id]) ==>
      && Usable(w.hubs[id].filename) && !w.hubs[id].phase.Failed?
      && (w.hubs[id].phase.Succeeded? || id in w.pending)
      && (w.hubs[id].phase.Awaiting? || w.hubs[id].phase.Succeeded? ==> w.hubs[id].eof)
      && Unrefused(w.acks, w.pending, id)
      && Lively(w.hubs[id], ForID(w.link, id), id in w.drop.uploads, id in w.published, Waiting(w.acks, w.pending, id))
  }

  lemma BeginKeepsAlive(w: World, j: string, filename: string, id: string)
    requires Alive(w, id) && Usable(filename) && (id !in w.hubs ==> Untouched(w, id))
    ensures Alive(StepBegin(w, j, filename), id)
  {
  }

  /** Nothing is known of an upload that has not begun. */
  predicate Untouched(w: World, id: string) {
    && id !in w.hubs && id !in w.published && id !in w.drop.uploads && ForID(w.link, id) == []
    && forall i :: 0 <= i < |w.acks| ==> w.acks[i].id != id
  }

  lemma ReadKeepsAlive(w: World, j: string, data: Bytes, id: string)
    requires Alive(w, id) && Smooth(w, Read(j, data, Queued))
    requires id in w.hubs ==> FlowAt(w.hubs[id], w.link, w.drop, w.published.Keys, id)
    ensures Alive(StepRead(w, j, data, Queued), id)
  {
    if Taken(w, j, data, Queued) {
      var (h, c) := OnChunk(w.hubs[j], j, data, false);
      ForIDAppend(w.link, c.value, id);
    }
  }

  lemma EofKeepsAlive(w: World, j: string, id: string)
    requires Alive(w, id)
    requires id in w.hubs ==> FlowAt(w.hubs[id], w.link, w.drop, w.published.Keys, id)
    ensures Alive(StepEof(w, j, Queued), id)
  {
    if InPhase(w, j, Reading) {
      var (h, c) := OnEof(w.hubs[j], j, false);
      ForIDAppend(w.link, c.value, id);
    }
  }

  function Filled(pending: map<string, Option<Ack>>, a: Ack): map<string, Option<Ack>> {
    if a.id in pending && pending[a.id].None? then pending[a.id := Some(a)] else pending
  }

  lemma DeliveredIsWaiting(acks: seq<Ack>, pending: map<string, Option<Ack>>, i: nat, id: string)
    requires i < |acks| && id in pending && Unrefused(acks, pending, id) && Waiting(acks, pending, id)
    ensures Waiting(WithoutAck(acks, i), Filled(pending, acks[i]), id)
  {
    if !(pending[id].Some? && pending[id].value.ok) {
      var k :| 0 <= k < |acks| && acks[k].id == id && acks[k].ok;
      if k != i {
        assert WithoutAck(acks, i)[if k < i then k else k - 1] == acks[k];
      }
    }
  }

  lemma DeliveredIsUnrefused(acks: seq<Ack>, pending: map<string, Option<Ack>>, i: nat, id: string)
    requires i < |acks| && Unrefused(acks, pending, id)
    ensures Unrefused(WithoutAck(acks, i), Filled(pending, acks[i]), id)
  {
    var rest := WithoutAck(acks, i);
    assert forall k :: 0 <= k < |rest| ==> rest[k] == acks[if k < i then k else k + 1];
  }

  lemma DeliverKeepsAlive(w: World, i: nat, id: string)
    requires Alive(w, id)
    ensures Alive(StepDeliverAck(w, i), id)
  {
    if i < |w.acks| && id in w.hubs && Live(w.hubs[id]) {
      DeliveredIsUnrefused(w.acks, w.pending, i, id);
      if id in w.pending && Waiting(w.acks, w.pending, id) {
        DeliveredIsWaiting(w.acks, w.pending, i, id);
      }
    }
  }

  lemma TakeKeepsAlive(w: World, j: string, id: string)
    requires Alive(w, id)
    ensures Alive(StepTakeAck(w, j), id)
  {
  }

  // ---- the agent's part ----

  lemma WillingWrite(d: Drop, id: string, data: Bytes, io: Io)
    requires id in d.uploads && UploadSound(d.dir, d.inodes, id, d.uploads[id])
    requires io.written >= |data| && |Content(d, id)| + |data| <= MAX_UPLOAD_SIZE
    ensures Write(d, id, data, io).1.None?
  {
  }

  lemma WillingFinish(d: Drop, id: string, io: Io)
    requires id in d.uploads && UploadSound(d.dir, d.inodes, id, d.uploads[id]) && io.renameOk
    ensures Finish(d, id, io).1.Some? && Finish(d, id, io).1.value.ok
  {
  }

  lemma OpenNeverFails(d: Drop, c: Chunk, io: Io)
    requires Sound(d) && c.id in d.uploads && Willing(io, c) && |Content(d, c.id)| + |c.data| <= MAX_UPLOAD_SIZE
    ensures var ack := HandleChunk(d, c, io).1; ack.Some? ==> ack.value.ok
  {
    assert UploadSound(d.dir, d.inodes, c.id, d.uploads[c.id]);
    WillingWrite(d, c.id, c.data, io);
    WriteEffect(d, c.id, c.data, io);
    var d2 := Write(d, c.id, c.data, io).0;
    assert UploadSound(d2.dir, d2.inodes, c.id, d2.uploads[c.id]);
    WillingFinish(d2, c.id, io);
  }

  lemma NewNeverFails(d: Drop, c: Chunk, io: Io)
    requires Sound(d) && c.id !in d.uploads && Willing(io, c) && |c.data| <= MAX_UPLOAD_SIZE
    requires IsRequestID(c.id) && Visible(Entry(Sanitize(c.filename))) && Usable(c.filename) && |d.uploads| < MAX_CONCURRENT
    ensures var ack := HandleChunk(d, c, io).1; ack.Some? ==> ack.value.ok
  {
    OpenedEffect(d, c.id, c.filename);
    OpenNeverFails(Opened(d, c.id, c.filename), c, io);
    OpenedFirst(d, c, io);
  }

  /** A live upload's next chunk is either taken in or completes it. */
  lemma NextChunkSucceeds(d: Drop, c: Chunk, rest: seq<Chunk>, h: Handler, io: Io, published: bool, waiting: bool)
    requires Sound(d) && IsRequestID(c.id) && Visible(Entry(Sanitize(h.filename))) && Usable(h.filename) && !h.isFirst
    requires Flow(h, [c] + rest, c.id in d.uploads, Content(d, c.id), FinalOf(d, c.id), published)
    requires Lively(h, [c] + rest, c.id in d.uploads, published, waiting)
    requires Willing(io, c) && (c.id in d.uploads || |d.uploads| < MAX_CONCURRENT)
    ensures var ack := HandleChunk(d, c, io).1; ack.Some? ==> ack.value.ok
  {
    var cs := [c] + rest;
    assert cs[0] == c && cs != [];
    ConcatHead(c, rest);
    if c.id in d.uploads {
      OpenNeverFails(d, c, io);
    } else {
      NewNeverFails(d, c, io);
    }
  }

  /** After the upload's next chunk was taken in, or has completed it. */
  lemma LivelyAfterOwn(h: Handler, c: Chunk, rest: seq<Chunk>, open: bool, waiting: bool, completed: bool)
    requires Lively(h, [c] + rest, open, false, waiting) && (!completed ==> !c.done)
    ensures Lively(h, rest, !completed, completed, waiting || completed)
  {
    var cs := [c] + rest;
    assert rest != [] ==> rest[|rest| - 1] == cs[|cs| - 1];
    assert rest == [] ==> cs[|cs| - 1] == c;
  }

  lemma UnrefusedMore(acks: seq<Ack>, pending: map<string, Option<Ack>>, a: Ack, id: string)
    requires Unrefused(acks, pending, id) && (a.id == id ==> a.ok)
    ensures Unrefused(acks + [a], pending, id) && (a.id == id ==> Waiting(acks + [a], pending, id))
  {
    assert (acks + [a])[|acks|] == a;
  }

  lemma HandledOwnKeepsAlive(w: World, d': Drop, ack: Option<Ack>, id: string)
    requires Alive(w, id) && w.link != [] && w.link[0].id == id && Outcome(w.drop, d', ack, w.link[0])
    requires id in w.hubs && FlowAt(w.hubs[id], w.link, w.drop, w.published.Keys, id)
    requires Live(w.hubs[id]) ==> ack.Some? ==> ack.value.ok
    ensures Alive(Handled(w, d', ack), id)
  {
    var h, c := w.hubs[id], w.link[0];
    var rest := ForID(w.link[1..], id);
    ForIDHead(w.link, id);
    if Live(h) {
      LivelyAfterOwn(h, c, rest, id in w.drop.uploads, Waiting(w.acks, w.pending, id), ack.Some?);
      if ack.Some? {
        UnrefusedMore(w.acks, w.pending, ack.value, id);
      }
      OwnPartsAfter(w, d', ack, id);
    }
  }

  lemma OwnPartsAfter(w: World, d': Drop, ack: Option<Ack>, id: string)
    requires w.link != [] && w.link[0].id == id && Outcome(w.drop, d', ack, w.link[0]) && (ack.Some? ==> ack.value.ok)
    ensures var w' := Handled(w, d', ack);
            && w'.hubs == w.hubs && w'.pending == w.pending && w'.link == w.link[1..]
            && w'.acks == (if ack.Some? then w.acks + [ack.value] else w.acks)
            && (id in w'.drop.uploads <==> ack.None?)
            && (id in w'.published <==> id in w.published || ack.Some?)
  {
  }

  lemma WaitingMore(acks: seq<Ack>, pending: map<string, Option<Ack>>, a: Ack, id: string)
    requires Waiting(acks, pending, id)
    ensures Waiting(acks + [a], pending, id)
  {
    if !(id in pending && pending[id].Some? && pending[id].value.ok) {
      var i :| 0 <= i < |acks| && acks[i].id == id && acks[i].ok;
      assert (acks + [a])[i] == acks[i];
    }
  }

  lemma HandledOtherKeepsAlive(w: World, d': Drop, ack: Option<Ack>, id: string)
    requires Alive(w, id) && w.link != [] && w.link[0].id != id && Outcome(w.drop, d', ack, w.link[0])
    ensures Alive(Handled(w, d', ack), id)
  {
    ForIDHead(w.link, id);
    assert Kept(w.drop, d', id);
    if ack.Some? && Waiting(w.acks, w.pending, id) {
      WaitingMore(w.acks, w.pending, ack.value, id);
    }
  }

  // ---- whole runs ----

  predicate AcksKnown(acks: seq<Ack>, hubs: map<string, Handler>) {
    forall i :: 0 <= i < |acks| ==> acks[i].id in hubs
  }

  lemma HandledKeepsAcksKnown(w: World, d': Drop, ack: Option<Ack>)
    requires AcksKnown(w.acks, w.hubs) && Addressed(w.link, w.hubs) && w.link != [] && Outcome(w.drop, d', ack, w.link[0])
    ensures AcksKnown(Handled(w, d', ack).acks, w.hubs)
  {
  }

  /** Only the agent makes acknowledgements, and no handler is ever forgotten. */
  lemma OthersKeepAcksKnown(w: World, a: Action)
    requires AcksKnown(w.acks, w.hubs) && !a.Handle?
    ensures AcksKnown(Step(w, a).acks, Step(w, a).hubs)
  {
    var w' := Step(w, a);
    assert w.hubs.Keys <= w'.hubs.Keys;
    forall i | 0 <= i < |w'.acks| ensures w'.acks[i].id in w'.hubs {
      assert w'.acks[i] in w.acks;
    }
  }

  lemma HandleKeepsAcksKnown(w: World, io: Io)
    requires AcksKnown(w.acks, w.hubs) && Addressed(w.link, w.hubs) && AgentAnswers(w, Handle(io))
    ensures AcksKnown(StepHandle(w, io).acks, StepHandle(w, io).hubs)
  {
    if w.link != [] {
      var (d', ack) := HandleChunk(w.drop, w.link[0], io);
      HandledKeepsAcksKnown(w, d', ack);
    }
  }

  lemma {:induction false} AcksKnownInRun(run: Run)
    requires SafeNames(run)
    ensures AcksKnown(After(run).acks, After(run).hubs)
  {
    if run.Then? {
      AcksKnownInRun(run.before);
      if run.a.Handle? {
        AgentAnswersInRun(run.before, run.a);
        AddressedInRun(run.before);
        HandleKeepsAcksKnown(After(run.before), run.a.io);
      } else {
        OthersKeepAcksKnown(After(run.before), run.a);
      }
    }
  }

  lemma UntouchedInRun(run: Run, id: string)
    requires SafeNames(run) && id !in After(run).hubs
    ensures Untouched(After(run), id)
  {
    var w := After(run);
    RunKeepsInv(run);
    AcksKnownInRun(run);
    ForIDOnlyAddressed(w.link, w.hubs, id);
    PublishedIsKnown(run, id);
  }

  lemma PublishedIsKnown(run: Run, id: string)
    requires SafeNames(run)
    ensures id in After(run).published ==> id in After(run).hubs
  {
    RunKeepsInv(run);
    var w := After(run);
    assert id in w.published ==> Stored(w.drop, w.hubs, w.published, id);
  }

  lemma NamesInRun(run: Run, id: string)
    requires SafeNames(run) && id in After(run).hubs
    ensures IsRequestID(id) && Visible(Entry(Sanitize(After(run).hubs[id].filename)))
  {
    RunKeepsInv(run);
  }

  lemma HandleKeepsAlive(run: Run, io: Io, id: string)
    requires SafeNames(run) && Smooth(After(run), Handle(io)) && Alive(After(run), id)
    ensures Alive(StepHandle(After(run), io), id)
  {
    var w := After(run);
    if w.link != [] {
      var (d', ack) := HandleChunk(w.drop, w.link[0], io);
      AgentAnswersInRun(run, Handle(io));
      if w.link[0].id == id {
        AddressedInRun(run);
        FlowInRun(run, id);
        if Live(w.hubs[id]) {
          OwnChunkSucceeds(run, io, id);
        }
        HandledOwnKeepsAlive(w, d', ack, id);
      } else {
        HandledOtherKeepsAlive(w, d', ack, id);
      }
    }
  }

  lemma OwnChunkSucceeds(run: Run, io: Io, id: string)
    requires SafeNames(run) && Smooth(After(run), Handle(io)) && Alive(After(run), id)
    requires id in After(run).hubs && Live(After(run).hubs[id]) && After(run).link != [] && After(run).link[0].id == id
    ensures var ack := HandleChunk(After(run).drop, After(run).link[0], io).1; ack.Some? ==> ack.value.ok
  {
    var w := After(run);
    FlowInRun(run, id);
    NamesInRun(run, id);
    SoundInRun(run);
    ForIDHead(w.link, id);
    NextChunkSucceeds(w.drop, w.link[0], ForID(w.link[1..], id), w.hubs[id], io, id in w.published, Waiting(w.acks, w.pending, id));
  }

  lemma {:induction false} AliveInRun(run: Run, id: string)
    requires SafeNames(run) && SmoothRun(run)
    ensures Alive(After(run), id)
  {
    if run.Then? {
      AliveInRun(run.before, id);
      var w := After(run.before);
      if id in w.hubs {
        FlowInRun(run.before, id);
      } else {
        UntouchedInRun(run.before, id);
      }
      match run.a
      case Begin(j, filename) => BeginKeepsAlive(w, j, filename, id);
      case Read(j, data, send) => ReadKeepsAlive(w, j, data, id);
      case Eof(j, send) => EofKeepsAlive(w, j, id);
      case Handle(io) => HandleKeepsAlive(run.before, io, id);
      case DeliverAck(i) => DeliverKeepsAlive(w, i, id);
      case TakeAck(j) => TakeKeepsAlive(w, j, id);
    }
  }

  /**
   However uploads interleave: as long as nothing fails, an upload whose reader has ended, which had any
   content and whose chunks have all been handled is published with exactly the bytes that were read, and
   its handler has reported success or the acknowledgement that makes it do so is on its way.
   */
  lemma UploadsComplete(run: Run, id: string)
    requires SafeNames(run) && SmoothRun(run)
    requires var w := After(run); id in w.hubs && w.hubs[id].eof && !w.hubs[id].isFirst && ForID(w.link, id) == []
    ensures var w := After(run);
            && id in w.published && w.published[id] < |w.drop.inodes| && w.drop.inodes[w.published[id]] == ReadBy(run, id)
            && (w.hubs[id].phase.Succeeded? || (w.hubs[id].phase.Awaiting? && OnItsWay(w, id)))
  {
    AliveInRun(run, id);
    PublishedIsRead(run, id);
    FlowInRun(run, id);
  }

  lemma PublishedIsRead(run: Run, id: string)
    requires SafeNames(run) && id in After(run).published
    ensures var w := After(run); w.published[id] < |w.drop.inodes| && w.drop.inodes[w.published[id]] == ReadBy(run, id)
  {
    RunKeepsInv(run);
    SentIsWhatWasRead(run, id);
    assert Stored(After(run).drop, After(run).hubs, After(run).published, id);
  }

  /** The handler still listens, and what is on its way to it is a success and nothing else. */
  predicate OnItsWay(w: World, id: string) {
    id in w.pending && Waiting(w.acks, w.pending, id) && Unrefused(w.acks, w.pending, id)
  }

  /** A handler that waits takes the success as soon as it is delivered. */
  lemma WaitingIsReported(w: World, id: string, i: nat)
    requires InPhase(w, id, Awaiting) && OnItsWay(w, id)
    requires w.pending[id].Some? || (i < |w.acks| && w.acks[i].id == id)
    ensures InPhase(StepTakeAck(if w.pending[id].Some? then w else StepDeliverAck(w, i), id), id, Succeeded)
  {
  }

  lemma TakingReports(run: Run, id: string)
    requires SafeNames(run) && SmoothRun(run) && InPhase(After(run), id, Awaiting)
    requires OnItsWay(After(run), id) && After(run).pending[id].Some?
    ensures var later := Then(run, TakeAck(id)); SafeNames(later) && SmoothRun(later) && InPhase(After(later), id, Succeeded)
  {
    WaitingIsReported(After(run), id, 0);
  }

  lemma DeliveringReports(run: Run, id: string, i: nat)
    requires SafeNames(run) && SmoothRun(run) && InPhase(After(run), id, Awaiting) && OnItsWay(After(run), id)
    requires After(run).pending[id].None? && i < |After(run).acks| && After(run).acks[i].id == id
    ensures var later := Then(Then(run, DeliverAck(i)), TakeAck(id));
            SafeNames(later) && SmoothRun(later) && InPhase(After(later), id, Succeeded)
  {
    WaitingIsReported(After(run), id, i);
    assert After(Then(run, DeliverAck(i))) == StepDeliverAck(After(run), i);
  }

  /** So every such upload is reported as a success after at most two more steps, in which nothing fails either. */
  lemma UploadsAreReported(run: Run, id: string) returns (later: Run)
    requires SafeNames(run) && SmoothRun(run)
    requires var w := After(run); id in w.hubs && w.hubs[id].eof && !w.hubs[id].isFirst && ForID(w.link, id) == []
    ensures Continues(later, run) && SafeNames(later) && SmoothRun(later)
    ensures InPhase(After(later), id, Succeeded)
  {
    UploadsComplete(run, id);
    var w := After(run);
    if w.hubs[id].phase.Succeeded? {
      later := run;
    } else if w.pending[id].Some? {
      TakingReports(run, id);
      later := Then(run, TakeAck(id));
      assert Continues(run, run);
    } else {
      var i :| 0 <= i < |w.acks| && w.acks[i].id == id && w.acks[i].ok;
      DeliveringReports(run, id, i);
      later := Then(Then(run, DeliverAck(i)), TakeAck(id));
      assert Continues(run, run) && Continues(Then(run, DeliverAck(i)), run);
    }
  }
}
