/** The slot at the agent that an upload keeps when the hub has given it up. */
module UploadSlots {
  import opened Options
  import opened DropzoneModel
  import opened UploadModel
  import opened UploadProgress
  import opened UploadTheorems

  // ---- an upload the hub has given up ----

  /** The hub has given up, nothing is under way, yet the agent still holds the upload open. */
  predicate Abandoned(w: World, id: string) {
    InPhase(w, id, Failed) && id in w.drop.uploads && ForID(w.link, id) == []
  }

  lemma HandledKeepsAbandoned(w: World, d': Drop, ack: Option<Ack>, id: string)
    requires Abandoned(w, id) && w.link != [] && Outcome(w.drop, d', ack, w.link[0])
    ensures Abandoned(Handled(w, d', ack), id)
  {
    ForIDHead(w.link, id);
    assert Kept(w.drop, d', id);
  }

  lemma SendKeepsAbandoned(w: World, id: string, j: string, h: Handler, c: Option<Chunk>, send: Send)
    requires Abandoned(w, id) && j != id && (c.Some? ==> c.value.id == j)
    ensures Abandoned(Put(w, j, h, c, send), id)
  {
    if c.Some? {
      ForIDAppend(w.link, c.value, id);
    }
  }

  lemma StepKeepsAbandoned(w: World, a: Action, id: string)
    requires Abandoned(w, id) && AgentAnswers(w, a) && !a.Disconnect?
    ensures Abandoned(Step(w, a), id)
  {
    match a
    case Handle(io) =>
      if w.link != [] {
        var (d', ack) := HandleChunk(w.drop, w.link[0], io);
        HandledKeepsAbandoned(w, d', ack, id);
      }
    case Read(j, data, send) =>
      if Taken(w, j, data, send) {
        var (h, c) := OnChunk(w.hubs[j], j, data, send.Refused?);
        SendKeepsAbandoned(w, id, j, h, c, send);
      }
    case Eof(j, send) =>
      if InPhase(w, j, Reading) {
        var (h, c) := OnEof(w.hubs[j], j, send.Refused?);
        SendKeepsAbandoned(w, id, j, h, c, send);
      }
    case _ =>
  }

  /** A read error, or a read over the limit, abandons an upload the agent has open and has no more chunks of. */
  lemma FailureAbandons(w: World, a: Action, id: string)
    requires InPhase(w, id, Reading) && id in w.drop.uploads && ForID(w.link, id) == []
    requires a == ReadError(id) || (a.Read? && a.id == id && Taken(w, id, a.data, a.send) && w.hubs[id].total + |a.data| > MAX_UPLOAD_SIZE)
    ensures Abandoned(Step(w, a), id)
  {
  }

  /** An abandoned upload keeps its slot through every continuation, however long, up to a disconnect, which frees it. */
  lemma {:induction false} AbandonedUntilDisconnect(run: Run, later: Run, id: string)
    requires SafeNames(later) && Continues(later, run) && Abandoned(After(run), id)
    ensures Abandoned(After(later), id)
    ensures id !in After(Then(later, Disconnect)).drop.uploads
  {
    if later != run {
      AbandonedUntilDisconnect(run, later.before, id);
      AgentAnswersInRun(later.before, later.a);
      StepKeepsAbandoned(After(later.before), later.a, id);
    }
  }

  // ---- when the slot does come free ----

  /** Once the final chunk was sent, it is the last one under way for as long as the upload is open or about to be opened. */
  predicate FinalFollows(h: Handler, cs: seq<Chunk>, open: bool) {
    h.eof && (open || (cs != [] && cs[0].filename != "")) ==> cs != [] && cs[|cs| - 1].done
  }

  predicate FinalFollowsAt(w: World, id: string) {
    id in w.hubs ==> FinalFollows(w.hubs[id], ForID(w.link, id), id in w.drop.uploads)
  }

  lemma SendKeepsFinal(w: World, j: string, h: Handler, c: Option<Chunk>, send: Send, id: string)
    requires FinalFollowsAt(w, id) && InPhase(w, j, Reading) && (c.Some? ==> c.value.id == j)
    requires j == id ==> (h.eof ==> c.Some? && c.value.done && (send.Lost? ==> Losable(w, id)) && !send.Refused?)
    ensures FinalFollowsAt(Put(w, j, h, c, send), id)
  {
    if c.Some? {
      ForIDAppend(w.link, c.value, id);
    }
  }

  lemma FinalAfterOwn(h: Handler, c: Chunk, rest: seq<Chunk>, open: bool, open': bool)
    requires FinalFollows(h, [c] + rest, open) && Unnamed([c] + rest, 1)
    requires open' ==> !c.done && (open || c.filename != "")
    ensures FinalFollows(h, rest, open')
  {
    var cs := [c] + rest;
    assert cs[0] == c;
    assert rest != [] ==> rest[|rest| - 1] == cs[|cs| - 1] && rest[0] == cs[1];
    assert rest == [] ==> cs[|cs| - 1] == c;
  }

  lemma HandledKeepsFinal(w: World, d': Drop, ack: Option<Ack>, id: string)
    requires FinalFollowsAt(w, id) && w.link != [] && Outcome(w.drop, d', ack, w.link[0])
    requires id in w.hubs ==> FlowAt(w.hubs[id], w.link, w.drop, w.published.Keys, id)
    ensures FinalFollowsAt(Handled(w, d', ack), id)
  {
    ForIDHead(w.link, id);
    if id in w.hubs && w.link[0].id == id {
      FinalAfterOwn(w.hubs[id], w.link[0], ForID(w.link[1..], id), id in w.drop.uploads, id in d'.uploads);
    }
    assert w.link[0].id != id ==> Kept(w.drop, d', id);
  }

  lemma StepKeepsFinal(w: World, a: Action, id: string)
    requires FinalFollowsAt(w, id) && AgentAnswers(w, a)
    requires id in w.hubs ==> FlowAt(w.hubs[id], w.link, w.drop, w.published.Keys, id)
    ensures FinalFollowsAt(Step(w, a), id)
  {
    match a
    case Read(j, data, send) =>
      if Taken(w, j, data, send) {
        var (h, c) := OnChunk(w.hubs[j], j, data, send.Refused?);
        SendKeepsFinal(w, j, h, c, send, id);
      }
    case Eof(j, send) =>
      if InPhase(w, j, Reading) && (send.Lost? ==> Losable(w, j)) {
        var (h, c) := OnEof(w.hubs[j], j, send.Refused?);
        SendKeepsFinal(w, j, h, c, send, id);
      }
    case Handle(io) =>
      if w.link != [] {
        HandledKeepsFinal(w, HandleChunk(w.drop, w.link[0], io).0, HandleChunk(w.drop, w.link[0], io).1, id);
      }
    case _ =>
  }

  lemma {:induction false} FinalFollowsInRun(run: Run, id: string)
    requires SafeNames(run)
    ensures FinalFollowsAt(After(run), id)
  {
    if run.Then? {
      FinalFollowsInRun(run.before, id);
      AgentAnswersInRun(run.before, run.a);
      if id in After(run.before).hubs {
        FlowInRun(run.before, id);
      }
      StepKeepsFinal(After(run.before), run.a, id);
    }
  }

  lemma StepKeepsFailed(w: World, a: Action, id: string)
    requires InPhase(w, id, Failed)
    ensures id in Step(w, a).hubs && Step(w, a).hubs[id] == w.hubs[id]
  {
    match a
    case Handle(io) => HandleKeepsHubs(w, io);
    case _ =>
  }

  lemma {:induction false} FailedStaysAsItIs(run: Run, later: Run, id: string)
    requires Continues(later, run) && InPhase(After(run), id, Failed)
    ensures id in After(later).hubs && After(later).hubs[id] == After(run).hubs[id]
  {
    if later != run {
      FailedStaysAsItIs(run, later.before, id);
      StepKeepsFailed(After(later.before), later.a, id);
    }
  }

  /** An operating system that does what this chunk asks. */
  function Obliging(c: Chunk): Io { Io(true, |c.data|, true) }

  /** The upload stays open, and one chunk fewer is under way. */
  predicate StaysOpen(w: World, w': World, id: string) {
    |w'.link| < |w.link| && id in w'.drop.uploads
  }

  lemma OwnDataKeepsOpen(w: World, id: string)
    requires w.link != [] && w.link[0].id == id && id in w.drop.uploads && Sound(w.drop)
    requires id in w.hubs && !w.hubs[id].eof && FlowAt(w.hubs[id], w.link, w.drop, w.published.Keys, id)
    requires AgentAnswers(w, Handle(Obliging(w.link[0])))
    ensures StaysOpen(w, StepHandle(w, Obliging(w.link[0])), id)
  {
    var c := w.link[0];
    ForIDHead(w.link, id);
    var rest := ForID(w.link[1..], id);
    assert ([c] + rest)[0] == c;
    ConcatHead(c, rest);
    OpenNeverFails(w.drop, c, Obliging(c));
  }

  lemma OtherChunkKeepsOpen(w: World, io: Io, id: string)
    requires w.link != [] && w.link[0].id != id && id in w.drop.uploads && AgentAnswers(w, Handle(io))
    ensures StaysOpen(w, StepHandle(w, io), id)
  {
    assert Kept(w.drop, HandleChunk(w.drop, w.link[0], io).0, id);
  }

  lemma OwnChunkDrained(run: Run, id: string)
    requires SafeNames(run) && InPhase(After(run), id, Failed) && !After(run).hubs[id].eof
    requires id in After(run).drop.uploads && After(run).link != [] && After(run).link[0].id == id
    ensures StaysOpen(After(run), StepHandle(After(run), Obliging(After(run).link[0])), id)
  {
    AgentAnswersInRun(run, Handle(Obliging(After(run).link[0])));
    SoundInRun(run);
    FlowInRun(run, id);
    OwnDataKeepsOpen(After(run), id);
  }

  lemma OtherChunkDrained(run: Run, id: string)
    requires SafeNames(run) && id in After(run).drop.uploads && After(run).link != [] && After(run).link[0].id != id
    ensures StaysOpen(After(run), StepHandle(After(run), Obliging(After(run).link[0])), id)
  {
    AgentAnswersInRun(run, Handle(Obliging(After(run).link[0])));
    OtherChunkKeepsOpen(After(run), Obliging(After(run).link[0]), id);
  }

  lemma OneMoreDrained(run: Run, id: string)
    requires SafeNames(run) && InPhase(After(run), id, Failed) && !After(run).hubs[id].eof
    requires id in After(run).drop.uploads && After(run).link != []
    ensures StaysOpen(After(run), StepHandle(After(run), Obliging(After(run).link[0])), id)
  {
    if After(run).link[0].id == id {
      OwnChunkDrained(run, id);
    } else {
      OtherChunkDrained(run, id);
    }
  }

  /** The continuation in which the agent handles everything under way, without any failure; the upload is still open then. */
  lemma {:induction false} Drained(run: Run, id: string) returns (later: Run)
    requires SafeNames(run) && InPhase(After(run), id, Failed) && !After(run).hubs[id].eof && id in After(run).drop.uploads
    ensures SafeNames(later) && Continues(later, run) && After(later).link == [] && id in After(later).drop.uploads
    decreases |After(run).link|
  {
    if After(run).link == [] {
      later := run;
    } else {
      var next := Then(run, Handle(Obliging(After(run).link[0])));
      OneMoreDrained(run, id);
      assert Continues(next, run);
      FailedStaysAsItIs(run, next, id);
      later := Drained(next, id);
      ContinuesTwice(later, next, run);
    }
  }

  /** However the run goes on without a disconnect, once the agent has handled all chunks of the upload its slot is free. */
  ghost predicate ComesFree(run: Run, id: string) {
    forall later :: Continues(later, run) && SafeNames(later) && ForID(After(later).link, id) == [] ==>
      id !in After(later).drop.uploads
  }

  /**
   The slot of a handler that has failed comes free without a disconnect exactly when the final chunk had
   been sent: after a timeout it does, after a 413, a read error or a refused send it does not.
   */
  lemma SlotComesFreeIff(run: Run, id: string)
    requires SafeNames(run) && InPhase(After(run), id, Failed) && id in After(run).drop.uploads
    ensures ComesFree(run, id) <==> After(run).hubs[id].eof
  {
    if After(run).hubs[id].eof {
      forall later | Continues(later, run) && SafeNames(later) && ForID(After(later).link, id) == []
        ensures id !in After(later).drop.uploads
      {
        FailedStaysAsItIs(run, later, id);
        FinalFollowsInRun(later, id);
      }
    } else {
      var later := Drained(run, id);
    }
  }

  // ---- when the slot can still come free ----

  /** Every chunk under way carries data or ends its upload. */
  predicate NoIdleChunks(link: seq<Chunk>) {
    forall i :: 0 <= i < |link| ==> link[i].data != [] || link[i].done
  }

  lemma {:induction false} NoIdleChunksInRun(run: Run)
    ensures NoIdleChunks(After(run).link)
  {
    if run.Then? {
      NoIdleChunksInRun(run.before);
      var w := After(run.before);
      match run.a
      case Handle(io) =>
        if w.link != [] {
          assert After(run).link == w.link[1..];
        }
      case _ =>
    }
  }

  /** An operating system on which no write and no rename succeeds. */
  const FAILING := Io(true, 0, false)

  lemma FailingEndsUpload(d: Drop, c: Chunk)
    requires Sound(d) && c.id in d.uploads && (c.data != [] || c.done)
    ensures HandleChunk(d, c, FAILING).1.Some?
  {
    assert UploadSound(d.dir, d.inodes, c.id, d.uploads[c.id]);
  }

  predicate CloserToFree(w: World, w': World, id: string) {
    |w'.link| < |w.link| && (id in w'.drop.uploads ==> ForID(w'.link, id) != [])
  }

  lemma NextChunkHandled(w: World, d': Drop, ack: Option<Ack>, id: string)
    requires w.link != [] && Outcome(w.drop, d', ack, w.link[0]) && id in w.drop.uploads && ForID(w.link, id) != []
    requires w.link[0].id == id ==> ack.Some?
    ensures CloserToFree(w, Handled(w, d', ack), id)
  {
    ForIDHead(w.link, id);
  }

  lemma FailingEndsInRun(run: Run)
    requires SafeNames(run) && After(run).link != [] && After(run).link[0].id in After(run).drop.uploads
    ensures HandleChunk(After(run).drop, After(run).link[0], FAILING).1.Some?
  {
    SoundInRun(run);
    NoIdleChunksInRun(run);
    FailingEndsUpload(After(run).drop, After(run).link[0]);
  }

  lemma OneMoreHandled(run: Run, id: string)
    requires SafeNames(run) && id in After(run).drop.uploads && ForID(After(run).link, id) != []
    ensures CloserToFree(After(run), After(Then(run, Handle(FAILING))), id)
  {
    var w := After(run);
    assert w.link != [];
    AgentAnswersInRun(run, Handle(FAILING));
    if w.link[0].id == id {
      FailingEndsInRun(run);
    }
    var (d', ack) := HandleChunk(w.drop, w.link[0], FAILING);
    NextChunkHandled(w, d', ack, id);
  }

  /** The continuation in which the agent handles chunks, and fails at each, until the upload's slot is free. */
  lemma {:induction false} HandledUntilFree(run: Run, id: string) returns (later: Run)
    requires SafeNames(run) && id in After(run).drop.uploads && ForID(After(run).link, id) != []
    ensures SafeNames(later) && Continues(later, run) && id !in After(later).drop.uploads
    decreases |After(run).link|
  {
    var next := Then(run, Handle(FAILING));
    OneMoreHandled(run, id);
    assert Continues(next, run);
    if id in After(next).drop.uploads {
      later := HandledUntilFree(next, id);
      ContinuesTwice(later, next, run);
    } else {
      later := next;
    }
  }

  ghost predicate MayComeFree(run: Run, id: string) {
    exists later :: Continues(later, run) && SafeNames(later) && id !in After(later).drop.uploads
  }

  /**
   A remark: if the agent's operating system may fail as well, the slot can come free without a disconnect
   exactly when a chunk of the upload is still under way.
   */
  lemma SlotMayComeFreeIff(run: Run, id: string)
    requires SafeNames(run) && InPhase(After(run), id, Failed) && id in After(run).drop.uploads
    ensures MayComeFree(run, id) <==> ForID(After(run).link, id) != []
  {
    if ForID(After(run).link, id) != [] {
      var later := HandledUntilFree(run, id);
    } else {
      forall later | Continues(later, run) && SafeNames(later) ensures id in After(later).drop.uploads {
        AbandonedUntilDisconnect(run, later, id);
      }
    }
  }
}
