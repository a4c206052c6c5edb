/**
 The upload pipeline: hub handlers that split their readers into chunks
 (hub/internal/server/handlers_upload.go), the FIFO stream to the agent, the agent's dropzone, and the
 acknowledgements that come back through the pending-request table
 (hub/internal/grpcserver/pending.go). Handlers, agent, disconnects and timers interleave freely.
 */
module UploadModel {
  import opened Options
  import opened DropzoneModel
  import opened Units

  const CHUNK_SIZE := 64 * 1024

  datatype Phase = Reading | Awaiting | Succeeded | Failed

  /** One upload handler on the hub; `sent` is all the data it handed to the stream, `eof` says the final chunk followed. */
  datatype Handler = Handler(filename: string, phase: Phase, eof: bool, isFirst: bool, total: nat, sent: Bytes)

  /** How a send ends: the chunk is on the stream, it went into a stream that is already dead, or the send failed. */
  datatype Send = Queued | Lost | Refused

  // ---- one handler ----

  /** The loop body for a read that returned data. */
  function OnChunk(h: Handler, id: string, data: Bytes, refused: bool): (Handler, Option<Chunk>) {
    if h.total + |data| > MAX_UPLOAD_SIZE || refused then (h.(phase := Failed), None)
    else
      (h.(isFirst := false, total := h.total + |data|, sent := h.sent + data),
       Some(Chunk(id, if h.isFirst then h.filename else "", data, false)))
  }

  function OnEof(h: Handler, id: string, refused: bool): (Handler, Option<Chunk>) {
    if refused then (h.(phase := Failed), None) else (h.(phase := Awaiting, eof := true), Some(Chunk(id, "", [], true)))
  }

  // ---- the whole system ----

  /**
   `pending` holds a handler's one-slot acknowledgement channel until the handler returns;
   `published` maps a renamed upload to its inode and `owner` a visible file to its upload.
   */
  datatype World = World(
    drop: Drop, link: seq<Chunk>, acks: seq<Ack>, pending: map<string, Option<Ack>>,
    hubs: map<string, Handler>, published: map<string, nat>, owner: map<Name, string>)

  const INITIAL := World(Drop(map[], map[], []), [], [], map[], map[], map[], map[])

  datatype Action =
    | Begin(id: string, filename: string)
    | Read(id: string, data: Bytes, send: Send)
    | Eof(id: string, send: Send)
    | ReadError(id: string)
    | Handle(io: Io)      // the agent processes the next chunk
    | Disconnect          // the stream breaks; the agent runs Cleanup before it reconnects
    | LoseAck(i: nat)
    | DeliverAck(i: nat)
    | TakeAck(id: string)
    | Timeout(id: string)

  /** The chunks of one upload that are on the stream. */
  function ForID(link: seq<Chunk>, id: string): seq<Chunk> {
    if link == [] then [] else
    var earlier := ForID(link[..|link| - 1], id);
    if link[|link| - 1].id == id then earlier + [link[|link| - 1]] else earlier
  }

  function Concat(cs: seq<Chunk>): Bytes {
    if cs == [] then [] else Concat(cs[..|cs| - 1]) + cs[|cs| - 1].data
  }

  /** A send can vanish unnoticed only while nothing of the upload is on the current stream or at the agent. */
  predicate Losable(w: World, id: string) {
    id !in w.drop.uploads && ForID(w.link, id) == []
  }

  function Put(w: World, id: string, h: Handler, c: Option<Chunk>, send: Send): World {
    w.(hubs := w.hubs[id := h],
       link := if c.Some? && send.Queued? then w.link + [c.value] else w.link,
       pending := if h.phase.Failed? then w.pending - {id} else w.pending)
  }

  predicate InPhase(w: World, id: string, p: Phase) {
    id in w.hubs && w.hubs[id].phase == p
  }

  function StepRead(w: World, id: string, data: Bytes, send: Send): World {
    if InPhase(w, id, Reading) && 0 < |data| <= CHUNK_SIZE && (send.Lost? ==> Losable(w, id)) then
      var (h, c) := OnChunk(w.hubs[id], id, data, send.Refused?);
      Put(w, id, h, c, send)
    else w
  }

  function StepEof(w: World, id: string, send: Send): World {
    if InPhase(w, id, Reading) && (send.Lost? ==> Losable(w, id)) then
      var (h, c) := OnEof(w.hubs[id], id, send.Refused?);
      Put(w, id, h, c, send)
    else w
  }

  /** The agent's answer to the next chunk: new dropzone, acknowledgement, and the file it published, if any. */
  function Handled(w: World, d: Drop, ack: Option<Ack>): World
    requires w.link != []
  {
    var c := w.link[0];
    var f := FinalName(w.drop, c);
    var ok := ack.Some? && ack.value.ok && f in d.dir;
    World(d, w.link[1..], if ack.Some? then w.acks + [ack.value] else w.acks, w.pending, w.hubs,
      if ok then w.published[c.id := d.dir[f]] else w.published,
      if ok then w.owner[f := c.id] else w.owner)
  }

  function StepHandle(w: World, io: Io): World {
    if w.link == [] then w
    else
      var (d, ack) := HandleChunk(w.drop, w.link[0], io);
      Handled(w, d, ack)
  }

  function WithoutAck(acks: seq<Ack>, i: nat): seq<Ack> {
    if i < |acks| then acks[..i] + acks[i + 1..] else acks
  }

  function StepDeliverAck(w: World, i: nat): World {
    if i < |w.acks| then
      var a := w.acks[i];
      w.(acks := WithoutAck(w.acks, i),
         pending := if a.id in w.pending && w.pending[a.id].None? then w.pending[a.id := Some(a)] else w.pending)
    else w
  }

  function StepLoseAck(w: World, i: nat): World {
    w.(acks := WithoutAck(w.acks, i))
  }

  function StepBegin(w: World, id: string, filename: string): World {
    if id in w.hubs || !IsRequestID(id) then w
    else w.(hubs := w.hubs[id := Handler(filename, Reading, false, true, 0, [])], pending := w.pending[id := None])
  }

  function StepDisconnect(w: World): World {
    w.(drop := CleanedUp(w.drop), link := [])
  }

  function End(w: World, id: string, p: Phase): World
    requires id in w.hubs
  {
    w.(hubs := w.hubs[id := w.hubs[id].(phase := p)], pending := w.pending - {id})
  }

  function StepTakeAck(w: World, id: string): World {
    if InPhase(w, id, Awaiting) && id in w.pending && w.pending[id].Some?
    then End(w, id, if w.pending[id].value.ok then Succeeded else Failed) else w
  }

  function StepFail(w: World, id: string, p: Phase): World {
    if InPhase(w, id, p) then End(w, id, Failed) else w
  }

  function Step(w: World, a: Action): World {
    match a
    case Begin(id, filename) => StepBegin(w, id, filename)
    case Read(id, data, send) => StepRead(w, id, data, send)
    case Eof(id, send) => StepEof(w, id, send)
    case ReadError(id) => StepFail(w, id, Reading)
    case Handle(io) => StepHandle(w, io)
    case Disconnect => StepDisconnect(w)
    case LoseAck(i) => StepLoseAck(w, i)
    case DeliverAck(i) => StepDeliverAck(w, i)
    case TakeAck(id) => StepTakeAck(w, id)
    case Timeout(id) => StepFail(w, id, Awaiting)
  }

  /** A run from the empty dropzone, latest action last. */
  datatype Run = Start | Then(before: Run, a: Action)

  function After(run: Run): World {
    match run
    case Start => INITIAL
    case Then(before, a) => Step(After(before), a)
  }

  /** No upload asks for a name that belongs to some request's temporary file. */
  predicate SafeNames(run: Run) {
    run.Then? ==> SafeNames(run.before) && (run.a.Begin? ==> Visible(Entry(Sanitize(run.a.filename))))
  }

  // ---- the invariant ----

  predicate Unnamed(cs: seq<Chunk>, from: nat) {
    forall i :: from <= i < |cs| ==> cs[i].filename == ""
  }

  predicate DoneIsLast(cs: seq<Chunk>, closed: bool) {
    forall i :: 0 <= i < |cs| && cs[i].done ==> i == |cs| - 1 && closed
  }

  /**
   Where the bytes of one upload are. Published: nothing is left to handle. Open at the agent: the file
   plus the chunks under way make up everything sent. Not yet open: the chunks under way start with the
   only named one and make up everything sent. Otherwise the upload is dead: the chunks under way carry
   no name, so none of them can open a file again.
   */
  ghost predicate Flow(h: Handler, cs: seq<Chunk>, open: bool, content: Bytes, final: Name, published: bool) {
    && h.total == |h.sent| <= MAX_UPLOAD_SIZE
    && Unnamed(cs, 1) && DoneIsLast(cs, h.eof) && (h.phase.Reading? ==> !h.eof)
    && (h.isFirst && h.phase.Reading? ==> cs == [] && h.sent == [] && !open && !published)
    && (published ==> !open && cs == [] && h.eof)
    && (open ==> Unnamed(cs, 0) && content + Concat(cs) == h.sent && final == Entry(Sanitize(h.filename)))
    && (!open && cs != [] && cs[0].filename != "" ==> cs[0].filename == h.filename && Concat(cs) == h.sent)
  }

  function FinalOf(d: Drop, id: string): Name {
    if id in d.uploads then d.uploads[id].final else Plain("")
  }

  ghost predicate FlowAt(h: Handler, link: seq<Chunk>, d: Drop, done: set<string>, id: string) {
    Flow(h, ForID(link, id), id in d.uploads, Content(d, id), FinalOf(d, id), id in done)
  }

  ghost predicate Names(hubs: map<string, Handler>) {
    forall id :: id in hubs ==> IsRequestID(id) && Visible(Entry(Sanitize(hubs[id].filename)))
  }

  predicate Addressed(link: seq<Chunk>, hubs: map<string, Handler>) {
    forall i :: 0 <= i < |link| ==> link[i].id in hubs && Visible(Entry(Sanitize(link[i].filename)))
  }

  /** An acknowledged success, wherever it is, stands for a published upload. */
  ghost predicate Honest(acks: seq<Ack>, pending: map<string, Option<Ack>>, hubs: map<string, Handler>, done: set<string>) {
    && (forall i :: 0 <= i < |acks| && acks[i].ok ==> acks[i].id in done)
    && (forall id :: id in pending && pending[id].Some? && pending[id].value.ok ==> id in done)
    && (forall id :: id in hubs && hubs[id].phase.Succeeded? ==> id in done)
  }

  /** A published inode is settled and holds exactly what its handler sent. */
  ghost predicate Stored(d: Drop, hubs: map<string, Handler>, published: map<string, nat>, id: string)
    requires id in published
  {
    && id in hubs && Settled(d.dir, d.inodes, published[id])
    && d.inodes[published[id]] == hubs[id].sent && hubs[id].eof
  }

  ghost predicate AllStored(d: Drop, hubs: map<string, Handler>, published: map<string, nat>) {
    forall id {:trigger Stored(d, hubs, published, id)} :: id in published ==> Stored(d, hubs, published, id)
  }

  /** The visible file n is the published inode of its owner, an upload sent under that name. */
  predicate Shown(dir: map<Name, nat>, hubs: map<string, Handler>, published: map<string, nat>, owner: map<Name, string>, n: Name)
    requires n in dir
  {
    && n in owner && owner[n] in published && owner[n] in hubs
    && dir[n] == published[owner[n]]
    && n == Entry(Sanitize(hubs[owner[n]].filename))
  }

  ghost predicate AllShown(dir: map<Name, nat>, hubs: map<string, Handler>, published: map<string, nat>, owner: map<Name, string>) {
    forall n: Name {:trigger Shown(dir, hubs, published, owner, n)} ::
      Visible(n) && n in dir ==> Shown(dir, hubs, published, owner, n)
  }

  ghost predicate Flows(hubs: map<string, Handler>, link: seq<Chunk>, d: Drop, done: set<string>) {
    forall id {:trigger FlowAt(hubs[id], link, d, done, id)} :: id in hubs ==> FlowAt(hubs[id], link, d, done, id)
  }

  ghost predicate Known(d: Drop, hubs: map<string, Handler>) {
    forall id :: id in d.uploads ==> id in hubs
  }

  ghost predicate StreamInv(d: Drop, link: seq<Chunk>, hubs: map<string, Handler>, done: set<string>) {
    Sound(d) && Names(hubs) && Addressed(link, hubs) && Known(d, hubs) && Flows(hubs, link, d, done)
  }

  ghost predicate FileInv(d: Drop, hubs: map<string, Handler>, published: map<string, nat>, owner: map<Name, string>) {
    AllStored(d, hubs, published) && AllShown(d.dir, hubs, published, owner)
  }

  ghost predicate Inv(w: World) {
    && StreamInv(w.drop, w.link, w.hubs, w.published.Keys)
    && Honest(w.acks, w.pending, w.hubs, w.published.Keys)
    && FileInv(w.drop, w.hubs, w.published, w.owner)
  }

  // ---- chunks of one upload ----

  lemma ForIDAppend(link: seq<Chunk>, c: Chunk, id: string)
    ensures ForID(link + [c], id) == if c.id == id then ForID(link, id) + [c] else ForID(link, id)
  {
    assert (link + [c])[..|link|] == link;
  }

  lemma {:induction false} ForIDHead(link: seq<Chunk>, id: string)
    requires link != []
    ensures ForID(link, id) == if link[0].id == id then [link[0]] + ForID(link[1..], id) else ForID(link[1..], id)
  {
    var n := |link| - 1;
    if n > 0 {
      ForIDHead(link[..n], id);
      assert link[..n][1..] == link[1..][..n - 1] && link[1..][n - 1] == link[n];
    } else {
      assert link[..0] == [] && link[1..] == [];
    }
  }

  lemma {:induction false} ForIDOnlyAddressed(link: seq<Chunk>, hubs: map<string, Handler>, id: string)
    requires Addressed(link, hubs) && id !in hubs
    ensures ForID(link, id) == []
  {
    if link != [] {
      ForIDOnlyAddressed(link[..|link| - 1], hubs, id);
    }
  }

  lemma ConcatAppend(cs: seq<Chunk>, c: Chunk)
    ensures Concat(cs + [c]) == Concat(cs) + c.data
  {
    assert (cs + [c])[..|cs|] == cs;
  }

  lemma {:induction false} ConcatHead(c: Chunk, cs: seq<Chunk>)
    ensures Concat([c] + cs) == c.data + Concat(cs)
  {
    if cs == [] {
      assert [c] + cs == [c] && [c][..0] == [];
    } else {
      var n := |cs| - 1;
      ConcatHead(c, cs[..n]);
      assert ([c] + cs)[..n + 1] == [c] + cs[..n];
    }
  }

  // ---- one upload's flow under each step ----

  lemma FlowAfterRead(h: Handler, id: string, cs: seq<Chunk>, open: bool, content: Bytes, final: Name, published: bool,
                      data: Bytes, send: Send)
    requires Flow(h, cs, open, content, final, published) && h.phase.Reading?
    requires send.Lost? ==> !open && cs == []
    ensures var (h', c) := OnChunk(h, id, data, send.Refused?);
            Flow(h', if c.Some? && send.Queued? then cs + [c.value] else cs, open, content, final, published)
  {
    var (h', c) := OnChunk(h, id, data, send.Refused?);
    if c.Some? && send.Queued? {
      ConcatAppend(cs, c.value);
      var cs' := cs + [c.value];
      assert forall i :: 0 <= i < |cs| ==> cs'[i] == cs[i];
      if open {
        assert content + Concat(cs') == (content + Concat(cs)) + data;
      }
    }
  }

  lemma FlowAfterEof(h: Handler, id: string, cs: seq<Chunk>, open: bool, content: Bytes, final: Name, published: bool, send: Send)
    requires Flow(h, cs, open, content, final, published) && h.phase.Reading?
    ensures var (h', c) := OnEof(h, id, send.Refused?);
            Flow(h', if c.Some? && send.Queued? then cs + [c.value] else cs, open, content, final, published)
  {
    var (h', c) := OnEof(h, id, send.Refused?);
    if c.Some? && send.Queued? {
      ConcatAppend(cs, c.value);
      assert Concat(cs + [c.value]) == Concat(cs);
      assert forall i :: 0 <= i < |cs| ==> (cs + [c.value])[i] == cs[i];
    }
  }

  /** The first chunk under way is handled and the upload stays open: its bytes move from the stream into the file. */
  lemma FlowAfterData(h: Handler, c: Chunk, rest: seq<Chunk>, open: bool, content: Bytes, final: Name)
    requires Flow(h, [c] + rest, open, content, final, false) && !c.done && (open || (c.filename != "" && content == []))
    ensures Flow(h, rest, true, content + c.data, if open then final else Entry(Sanitize(c.filename)), false)
  {
    var cs := [c] + rest;
    ConcatHead(c, rest);
    assert cs[0] == c && forall i :: 0 <= i < |rest| ==> rest[i] == cs[i + 1];
    assert (content + c.data) + Concat(rest) == content + (c.data + Concat(rest));
  }

  /** The upload is given up: what is still under way carries no name. */
  lemma FlowAfterFailure(h: Handler, c: Chunk, rest: seq<Chunk>, open: bool, content: Bytes, final: Name, content': Bytes, final': Name)
    requires Flow(h, [c] + rest, open, content, final, false)
    ensures Flow(h, rest, false, content', final', false)
  {
    var cs := [c] + rest;
    assert cs[0] == c && forall i :: 0 <= i < |rest| ==> rest[i] == cs[i + 1];
  }

  /** The upload is published: it holds everything that was sent, and nothing is under way any more. */
  lemma FlowAfterSuccess(h: Handler, c: Chunk, rest: seq<Chunk>, open: bool, content: Bytes, final: Name, content': Bytes, final': Name)
    requires Flow(h, [c] + rest, open, content, final, false) && c.done && (open || (c.filename != "" && content == []))
    ensures Flow(h, rest, false, content', final', true) && h.eof && content + c.data == h.sent
    ensures (if open then final else Entry(Sanitize(c.filename))) == Entry(Sanitize(h.filename))
  {
    var cs := [c] + rest;
    assert cs[0] == c;
    assert rest == [];
    ConcatHead(c, rest);
  }

  lemma FlowAfterHandle(h: Handler, d: Drop, d': Drop, ack: Option<Ack>, c: Chunk, rest: seq<Chunk>)
    requires Flow(h, [c] + rest, c.id in d.uploads, Content(d, c.id), FinalOf(d, c.id), false)
    requires Outcome(d, d', ack, c)
    ensures var ok := ack.Some? && ack.value.ok;
            && Flow(h, rest, c.id in d'.uploads, Content(d', c.id), FinalOf(d', c.id), ok)
            && (ok ==> Content(d, c.id) + c.data == h.sent && FinalName(d, c) == Entry(Sanitize(h.filename)) && h.eof)
  {
    var open, content, final := c.id in d.uploads, Content(d, c.id), FinalOf(d, c.id);
    if ack.None? {
      FlowAfterData(h, c, rest, open, content, final);
    } else if ack.value.ok {
      FlowAfterSuccess(h, c, rest, open, content, final, Content(d', c.id), FinalOf(d', c.id));
    } else {
      FlowAfterFailure(h, c, rest, open, content, final, Content(d', c.id), FinalOf(d', c.id));
    }
  }

  // ---- the system under each step ----

  /** Replacing one handler by another of the same name keeps the files accounted for. */
  lemma FilesAfterHubChange(d: Drop, hubs: map<string, Handler>, published: map<string, nat>, owner: map<Name, string>,
                            id: string, h: Handler)
    requires AllStored(d, hubs, published) && AllShown(d.dir, hubs, published, owner) && Names(hubs)
    requires if id in hubs then h.filename == hubs[id].filename && (id in published ==> h.sent == hubs[id].sent && h.eof)
             else IsRequestID(id) && Visible(Entry(Sanitize(h.filename)))
    ensures var hubs' := hubs[id := h]; AllStored(d, hubs', published) && AllShown(d.dir, hubs', published, owner) && Names(hubs')
  {
    var hubs' := hubs[id := h];
    forall n: Name | Visible(n) && n in d.dir ensures Shown(d.dir, hubs', published, owner, n) {
      assert Shown(d.dir, hubs, published, owner, n);
    }
    forall j | j in published ensures Stored(d, hubs', published, j) {
      assert Stored(d, hubs, published, j);
    }
  }

  lemma FlowsAfterPut(hubs: map<string, Handler>, link: seq<Chunk>, link': seq<Chunk>, d: Drop, done: set<string>,
                      id: string, h: Handler)
    requires Flows(hubs, link, d, done)
    requires link' == link || exists c: Chunk :: c.id == id && link' == link + [c]
    requires FlowAt(h, link', d, done, id)
    ensures Flows(hubs[id := h], link', d, done)
  {
    var hubs' := hubs[id := h];
    forall j | j in hubs' ensures FlowAt(hubs'[j], link', d, done, j) {
      if j != id {
        assert FlowAt(hubs[j], link, d, done, j);
        if link' != link {
          var c: Chunk :| c.id == id && link' == link + [c];
          ForIDAppend(link, c, j);
        }
      }
    }
  }

  lemma AddressedAfterPut(link: seq<Chunk>, hubs: map<string, Handler>, id: string, h: Handler, c: Chunk)
    requires Addressed(link, hubs) && Names(hubs) && id in hubs && h.filename == hubs[id].filename
    requires c.id == id && (c.filename == "" || c.filename == h.filename)
    ensures Addressed(link, hubs[id := h]) && Addressed(link + [c], hubs[id := h])
  {
    assert Visible(Entry(Sanitize("")));
  }

  lemma PutKeepsStream(d: Drop, link: seq<Chunk>, link': seq<Chunk>, hubs: map<string, Handler>, done: set<string>,
                       id: string, h: Handler, c: Chunk)
    requires StreamInv(d, link, hubs, done) && id in hubs && h.filename == hubs[id].filename
    requires c.id == id && (c.filename == "" || c.filename == h.filename)
    requires (link' == link || link' == link + [c]) && FlowAt(h, link', d, done, id) && Names(hubs[id := h])
    ensures StreamInv(d, link', hubs[id := h], done)
  {
    AddressedAfterPut(link, hubs, id, h, c);
    FlowsAfterPut(hubs, link, link', d, done, id, h);
  }

  lemma PutKeepsHonest(acks: seq<Ack>, pending: map<string, Option<Ack>>, hubs: map<string, Handler>, done: set<string>,
                       id: string, h: Handler)
    requires Honest(acks, pending, hubs, done) && !h.phase.Succeeded?
    ensures Honest(acks, pending, hubs[id := h], done) && Honest(acks, pending - {id}, hubs[id := h], done)
  {
  }

  lemma PutKeepsInv(w: World, id: string, h: Handler, c: Option<Chunk>, send: Send)
    requires Inv(w) && InPhase(w, id, Reading) && !h.phase.Succeeded? && h.filename == w.hubs[id].filename
    requires c.Some? ==> c.value.id == id && (c.value.filename == "" || c.value.filename == h.filename)
    requires FlowAt(h, Put(w, id, h, c, send).link, w.drop, w.published.Keys, id)
    ensures Inv(Put(w, id, h, c, send))
  {
    var done := w.published.Keys;
    assert id !in done by { assert FlowAt(w.hubs[id], w.link, w.drop, done, id); }
    FilesAfterHubChange(w.drop, w.hubs, w.published, w.owner, id, h);
    PutKeepsStream(w.drop, w.link, Put(w, id, h, c, send).link, w.hubs, done, id, h,
                   if c.Some? then c.value else Chunk(id, "", [], false));
    PutKeepsHonest(w.acks, w.pending, w.hubs, done, id, h);
  }

  lemma ReadKeepsInv(w: World, id: string, data: Bytes, send: Send)
    requires Inv(w)
    ensures Inv(StepRead(w, id, data, send))
  {
    if InPhase(w, id, Reading) && 0 < |data| <= CHUNK_SIZE && (send.Lost? ==> Losable(w, id)) {
      assert FlowAt(w.hubs[id], w.link, w.drop, w.published.Keys, id);
      FlowAfterRead(w.hubs[id], id, ForID(w.link, id), id in w.drop.uploads, Content(w.drop, id), FinalOf(w.drop, id),
                    id in w.published, data, send);
      var (h, c) := OnChunk(w.hubs[id], id, data, send.Refused?);
      if c.Some? { ForIDAppend(w.link, c.value, id); }
      PutKeepsInv(w, id, h, c, send);
    }
  }

  lemma EofKeepsInv(w: World, id: string, send: Send)
    requires Inv(w)
    ensures Inv(StepEof(w, id, send))
  {
    if InPhase(w, id, Reading) && (send.Lost? ==> Losable(w, id)) {
      assert FlowAt(w.hubs[id], w.link, w.drop, w.published.Keys, id);
      FlowAfterEof(w.hubs[id], id, ForID(w.link, id), id in w.drop.uploads, Content(w.drop, id), FinalOf(w.drop, id),
                   id in w.published, send);
      var (h, c) := OnEof(w.hubs[id], id, send.Refused?);
      if c.Some? { ForIDAppend(w.link, c.value, id); }
      PutKeepsInv(w, id, h, c, send);
    }
  }

  /** A handler returns: only its phase and its acknowledgement slot change. */
  lemma EndKeepsInv(w: World, id: string, p: Phase)
    requires Inv(w) && id in w.hubs && !p.Reading? && !p.Awaiting? && (p.Succeeded? ==> id in w.published)
    ensures Inv(End(w, id, p))
  {
    var h := w.hubs[id].(phase := p);
    assert FlowAt(w.hubs[id], w.link, w.drop, w.published.Keys, id);
    FilesAfterHubChange(w.drop, w.hubs, w.published, w.owner, id, h);
    FlowsAfterPut(w.hubs, w.link, w.link, w.drop, w.published.Keys, id, h);
  }

  lemma BeginKeepsFlows(link: seq<Chunk>, d: Drop, hubs: map<string, Handler>, published: map<string, nat>, id: string, filename: string)
    requires Addressed(link, hubs) && Known(d, hubs) && Flows(hubs, link, d, published.Keys) && AllStored(d, hubs, published)
    requires id !in hubs
    ensures Flows(hubs[id := Handler(filename, Reading, false, true, 0, [])], link, d, published.Keys)
  {
    ForIDOnlyAddressed(link, hubs, id);
    assert id in published ==> Stored(d, hubs, published, id);
    FlowsAfterPut(hubs, link, link, d, published.Keys, id, Handler(filename, Reading, false, true, 0, []));
  }

  lemma BeginKeepsInv(w: World, id: string, filename: string)
    requires Inv(w) && Visible(Entry(Sanitize(filename)))
    ensures Inv(StepBegin(w, id, filename))
  {
    if id !in w.hubs && IsRequestID(id) {
      BeginKeepsFlows(w.link, w.drop, w.hubs, w.published, id, filename);
      FilesAfterHubChange(w.drop, w.hubs, w.published, w.owner, id, Handler(filename, Reading, false, true, 0, []));
    }
  }

  lemma DisconnectKeepsFlows(hubs: map<string, Handler>, link: seq<Chunk>, d: Drop, done: set<string>)
    requires Flows(hubs, link, d, done)
    ensures Flows(hubs, [], CleanedUp(d), done)
  {
    forall j | j in hubs ensures FlowAt(hubs[j], [], CleanedUp(d), done, j) {
      assert FlowAt(hubs[j], link, d, done, j);
    }
  }

  /** Files stay accounted for when visible entries and settled inodes stay as they are. */
  lemma FilesAfterQuietChange(d: Drop, d': Drop, hubs: map<string, Handler>, published: map<string, nat>, owner: map<Name, string>)
    requires AllStored(d, hubs, published) && AllShown(d.dir, hubs, published, owner)
    requires SameVisible(d, d') && forall i :: KeepsSettled(d, d', i)
    ensures AllStored(d', hubs, published) && AllShown(d'.dir, hubs, published, owner)
  {
    forall j | j in published ensures Stored(d', hubs, published, j) {
      assert Stored(d, hubs, published, j) && KeepsSettled(d, d', published[j]);
    }
    forall n: Name | Visible(n) && n in d'.dir ensures Shown(d'.dir, hubs, published, owner, n) {
      assert SameEntry(d, d', n) && Shown(d.dir, hubs, published, owner, n);
    }
  }

  lemma DisconnectKeepsInv(w: World)
    requires Inv(w)
    ensures Inv(StepDisconnect(w))
  {
    CleanupEffect(w.drop);
    DisconnectKeepsFlows(w.hubs, w.link, w.drop, w.published.Keys);
    FilesAfterQuietChange(w.drop, CleanedUp(w.drop), w.hubs, w.published, w.owner);
  }

  lemma AckMovesKeepInv(w: World, i: nat)
    requires Inv(w)
    ensures Inv(StepLoseAck(w, i)) && Inv(StepDeliverAck(w, i))
  {
  }

  predicate Published(ack: Option<Ack>) {
    ack.Some? && ack.value.ok
  }

  /** The flow of any upload after the agent handled the next chunk, and what a success means for its own. */
  lemma HandleKeepsFlow(d: Drop, d': Drop, ack: Option<Ack>, c: Chunk, rest: seq<Chunk>, hubs: map<string, Handler>,
                        done: set<string>, j: string)
    requires j in hubs && FlowAt(hubs[j], [c] + rest, d, done, j) && Outcome(d, d', ack, c)
    ensures FlowAt(hubs[j], rest, d', if Published(ack) then done + {c.id} else done, j)
    ensures j == c.id ==> j !in done
    ensures j == c.id && Published(ack) ==>
              && Content(d, j) + c.data == hubs[j].sent && FinalName(d, c) == Entry(Sanitize(hubs[j].filename))
              && hubs[j].eof
  {
    ForIDHead([c] + rest, j);
    assert ([c] + rest)[1..] == rest;
    if j == c.id {
      FlowAfterHandle(hubs[j], d, d', ack, c, ForID(rest, j));
    } else {
      assert Kept(d, d', j);
    }
  }

  /** A published upload: its file is the settled inode and visible under its own name. */
  lemma FilesAfterPublish(d: Drop, d': Drop, hubs: map<string, Handler>, published: map<string, nat>, owner: map<Name, string>,
                          id: string, f: Name)
    requires AllStored(d, hubs, published) && AllShown(d.dir, hubs, published, owner)
    requires forall i :: KeepsSettled(d, d', i)
    requires id in hubs && id !in published && hubs[id].eof && f == Entry(Sanitize(hubs[id].filename))
    requires Publishes(d, d', f, hubs[id].sent)
    ensures AllStored(d', hubs, published[id := d'.dir[f]])
    ensures AllShown(d'.dir, hubs, published[id := d'.dir[f]], owner[f := id])
  {
    var published' := published[id := d'.dir[f]];
    forall j | j in published' ensures Stored(d', hubs, published', j) {
      if j != id {
        assert Stored(d, hubs, published, j) && KeepsSettled(d, d', published[j]);
      }
    }
    forall n: Name | Visible(n) && n in d'.dir ensures Shown(d'.dir, hubs, published', owner[f := id], n) {
      if n != f {
        assert SameEntry(d, d', n) && Shown(d.dir, hubs, published, owner, n);
      }
    }
  }

  lemma HandleKeepsFlows(d: Drop, d': Drop, ack: Option<Ack>, c: Chunk, rest: seq<Chunk>, hubs: map<string, Handler>, done: set<string>)
    requires Flows(hubs, [c] + rest, d, done) && Outcome(d, d', ack, c)
    ensures Flows(hubs, rest, d', if Published(ack) then done + {c.id} else done)
  {
    forall j | j in hubs ensures FlowAt(hubs[j], rest, d', if Published(ack) then done + {c.id} else done, j) {
      assert FlowAt(hubs[j], [c] + rest, d, done, j);
      HandleKeepsFlow(d, d', ack, c, rest, hubs, done, j);
    }
  }

  lemma HandleKeepsFiles(d: Drop, d': Drop, ack: Option<Ack>, c: Chunk, rest: seq<Chunk>, hubs: map<string, Handler>,
                         published: map<string, nat>, owner: map<Name, string>)
    requires c.id in hubs && FlowAt(hubs[c.id], [c] + rest, d, published.Keys, c.id) && Outcome(d, d', ack, c)
    requires AllStored(d, hubs, published) && AllShown(d.dir, hubs, published, owner)
    ensures if Published(ack) then
              var f := FinalName(d, c);
              && f in d'.dir
              && AllStored(d', hubs, published[c.id := d'.dir[f]])
              && AllShown(d'.dir, hubs, published[c.id := d'.dir[f]], owner[f := c.id])
            else AllStored(d', hubs, published) && AllShown(d'.dir, hubs, published, owner)
  {
    HandleKeepsFlow(d, d', ack, c, rest, hubs, published.Keys, c.id);
    if Published(ack) {
      FilesAfterPublish(d, d', hubs, published, owner, c.id, FinalName(d, c));
    } else {
      FilesAfterQuietChange(d, d', hubs, published, owner);
    }
  }

  lemma HandleKeepsKnown(d: Drop, d': Drop, ack: Option<Ack>, c: Chunk, rest: seq<Chunk>, hubs: map<string, Handler>)
    requires Known(d, hubs) && Addressed([c] + rest, hubs) && Outcome(d, d', ack, c)
    ensures c.id in hubs && Known(d', hubs) && Addressed(rest, hubs)
  {
    assert ([c] + rest)[0] == c;
    assert forall i :: 0 <= i < |rest| ==> rest[i] == ([c] + rest)[i + 1];
    forall j | j in d'.uploads ensures j in hubs {
      assert j != c.id ==> Kept(d, d', j);
    }
  }

  lemma HandleKeepsStream(d: Drop, d': Drop, ack: Option<Ack>, c: Chunk, rest: seq<Chunk>, hubs: map<string, Handler>, done: set<string>)
    requires StreamInv(d, [c] + rest, hubs, done) && Outcome(d, d', ack, c)
    ensures StreamInv(d', rest, hubs, if Published(ack) then done + {c.id} else done)
  {
    HandleKeepsKnown(d, d', ack, c, rest, hubs);
    HandleKeepsFlows(d, d', ack, c, rest, hubs, done);
  }

  lemma HandledParts(w: World, d': Drop, ack: Option<Ack>)
    requires w.link != [] && (Published(ack) ==> FinalName(w.drop, w.link[0]) in d'.dir)
    ensures var w' := Handled(w, d', ack); var id, f := w.link[0].id, FinalName(w.drop, w.link[0]);
            && w'.drop == d' && w'.link == w.link[1..] && w'.hubs == w.hubs
            && w'.published == (if Published(ack) then w.published[id := d'.dir[f]] else w.published)
            && w'.owner == (if Published(ack) then w.owner[f := id] else w.owner)
            && w'.published.Keys == (if Published(ack) then w.published.Keys + {id} else w.published.Keys)
  {
  }

  lemma HandledKeepsHonest(w: World, d': Drop, ack: Option<Ack>)
    requires w.link != [] && Honest(w.acks, w.pending, w.hubs, w.published.Keys)
    requires Published(ack) ==> ack.value.id == w.link[0].id && FinalName(w.drop, w.link[0]) in d'.dir
    ensures var w' := Handled(w, d', ack); Honest(w'.acks, w'.pending, w'.hubs, w'.published.Keys)
  {
  }

  lemma HandledKeepsInv(w: World, d': Drop, ack: Option<Ack>)
    requires Inv(w) && w.link != [] && Outcome(w.drop, d', ack, w.link[0])
    ensures Inv(Handled(w, d', ack))
  {
    var c := w.link[0];
    assert FlowAt(w.hubs[c.id], w.link, w.drop, w.published.Keys, c.id);
    assert w.link == [c] + w.link[1..];
    HandleKeepsStream(w.drop, d', ack, c, w.link[1..], w.hubs, w.published.Keys);
    HandledParts(w, d', ack);
    HandleKeepsFiles(w.drop, d', ack, c, w.link[1..], w.hubs, w.published, w.owner);
    HandledKeepsHonest(w, d', ack);
  }

  lemma HandleKeepsInv(w: World, io: Io)
    requires Inv(w)
    ensures Inv(StepHandle(w, io))
  {
    if w.link != [] {
      ChunkOutcome(w.drop, w.link[0], io);
      var (d', ack) := HandleChunk(w.drop, w.link[0], io);
      HandledKeepsInv(w, d', ack);
    }
  }

  lemma FailKeepsInv(w: World, id: string, p: Phase)
    requires Inv(w) && (p.Reading? || p.Awaiting?)
    ensures Inv(StepFail(w, id, p))
  {
    if InPhase(w, id, p) {
      EndKeepsInv(w, id, Failed);
    }
  }

  lemma TakeAckKeepsInv(w: World, id: string)
    requires Inv(w)
    ensures Inv(StepTakeAck(w, id))
  {
    if InPhase(w, id, Awaiting) && id in w.pending && w.pending[id].Some? {
      EndKeepsInv(w, id, if w.pending[id].value.ok then Succeeded else Failed);
    }
  }

  lemma StepKeepsInv(w: World, a: Action)
    requires Inv(w) && (a.Begin? ==> Visible(Entry(Sanitize(a.filename))))
    ensures Inv(Step(w, a))
  {
    match a
    case Begin(id, filename) => BeginKeepsInv(w, id, filename);
    case Read(id, data, send) => ReadKeepsInv(w, id, data, send);
    case Eof(id, send) => EofKeepsInv(w, id, send);
    case ReadError(id) => FailKeepsInv(w, id, Reading);
    case Handle(io) => HandleKeepsInv(w, io);
    case Disconnect => DisconnectKeepsInv(w);
    case LoseAck(i) => AckMovesKeepInv(w, i);
    case DeliverAck(i) => AckMovesKeepInv(w, i);
    case TakeAck(id) => TakeAckKeepsInv(w, id);
    case Timeout(id) => FailKeepsInv(w, id, Awaiting);
  }

  lemma {:induction false} RunKeepsInv(run: Run)
    requires SafeNames(run)
    ensures Inv(After(run))
  {
    if run.Then? {
      RunKeepsInv(run.before);
      StepKeepsInv(After(run.before), run.a);
    }
  }
}
