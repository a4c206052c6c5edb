/**
 The hub's read loop (streamFileToAgent in hub/internal/server/handlers_upload.go) and the round trip:
 what the agent assembles from the chunks is what the reader returned.
 */
module HubUpload {
  import opened Options
  import opened DropzoneModel
  import opened UploadModel
  import opened Units

  /** One call of Read: some bytes, possibly none, and whether the reader ended with them. */
  datatype End = More | AtEof | Broken
  datatype Got = Got(data: Bytes, end: End)

  datatype Result = Sent(total: nat) | TooLarge | SendFailed | ReadFailed

  function Data(script: seq<Got>): Bytes {
    if script == [] then [] else Data(script[..|script| - 1]) + script[|script| - 1].data
  }

  /** A reader ends once, with its last call, and never returns more than the buffer holds. */
  predicate Reader(script: seq<Got>) {
    && script != [] && !script[|script| - 1].end.More?
    && forall i :: 0 <= i < |script| ==> |script[i].data| <= CHUNK_SIZE && (i < |script| - 1 ==> script[i].end.More?)
  }

  /** Only the first chunk that carries data carries the name, and every chunk has the upload's id. */
  predicate Chunked(chunks: seq<Chunk>, id: string, filename: string) {
    forall i :: 0 <= i < |chunks| ==>
      && chunks[i].id == id && !chunks[i].done && 0 < |chunks[i].data| <= 64 * 1024
      && chunks[i].filename == if i == 0 then filename else ""
  }

  predicate StreamOf(chunks: seq<Chunk>, id: string, filename: string, content: Bytes) {
    && chunks != [] && chunks[|chunks| - 1] == Chunk(id, "", [], true)
    && Chunked(chunks[..|chunks| - 1], id, filename)
    && Concat(chunks) == content
  }

  /**
   Sends whatever the reader returns. `accepts` is the number of sends the agent's stream takes.
   Success means that all of the content is on the stream, followed by the final chunk; each failure
   says which of the conditions of success was missing.
   */
  method StreamFileToAgent(id: string, filename: string, script: seq<Got>, accepts: nat)
    returns (chunks: seq<Chunk>, r: Result)
    requires Reader(script)
    ensures r.Sent? ==>
      && StreamOf(chunks, id, filename, Data(script))
      && r.total == |Data(script)| <= 100 * 1024 * 1024
      && |chunks| <= accepts && script[|script| - 1].end.AtEof?
    ensures !r.Sent? ==> Chunked(chunks, id, filename) && Concat(chunks) <= Data(script)
    ensures r.TooLarge? ==> |Data(script)| > 100 * 1024 * 1024
    ensures r.SendFailed? ==> |chunks| == accepts
    ensures r.ReadFailed? ==> script[|script| - 1].end.Broken? && Concat(chunks) == Data(script)
  {
    chunks := [];
    var isFirst := true;
    var totalSize := 0;
    var i := 0;
    ghost var read: Bytes := [];
    while i < |script|
      invariant 0 <= i <= |script|
      invariant i == |script| ==> script[|script| - 1].end.AtEof? && read == Data(script)
      invariant isFirst <==> chunks == []
      invariant SoFar(chunks, id, filename, read) && totalSize == |read| <= MAX_UPLOAD_SIZE
      invariant ReadSoFar(script, i, read)
      invariant |chunks| <= accepts
    {
      var got := script[i];
      ReadOneMore(script, i, read);
      if |got.data| > 0 {
        totalSize := totalSize + |got.data|;
        if totalSize > MAX_UPLOAD_SIZE {
          return chunks, TooLarge;
        }
        var name := if isFirst then filename else "";
        isFirst := false;
        if |chunks| == accepts {
          return chunks, SendFailed;
        }
        SentOneMore(chunks, id, filename, read, got.data);
        chunks := chunks + [Chunk(id, name, got.data, false)];
      }
      i := i + 1;
      read := read + got.data;
      if got.end.AtEof? {
        break;
      }
      if got.end.Broken? {
        return chunks, ReadFailed;
      }
    }
    if |chunks| == accepts {
      return chunks, SendFailed;
    }
    SentAll(chunks, id, filename, read);
    chunks := chunks + [Chunk(id, "", [], true)];
    r := Sent(totalSize);
  }

  ghost predicate ReadSoFar(script: seq<Got>, i: nat, read: Bytes) {
    i <= |script| && read == Data(script[..i]) && read <= Data(script)
  }

  lemma ReadOneMore(script: seq<Got>, i: nat, read: Bytes)
    requires i < |script| && ReadSoFar(script, i, read)
    ensures ReadSoFar(script, i + 1, read + script[i].data)
    ensures i + 1 == |script| ==> read + script[i].data == Data(script)
  {
    var now := Data(script[..i + 1]);
    assert now == read + script[i].data by { DataNext(script, i); }
    assert now <= Data(script) by { DataPrefix(script, i + 1); }
    if i + 1 == |script| {
      assert script[..i + 1] == script;
    }
  }

  lemma {:induction false} DataPrefix(script: seq<Got>, i: nat)
    requires i <= |script|
    ensures Data(script[..i]) <= Data(script)
  {
    if i < |script| {
      DataPrefix(script[..|script| - 1], i);
      assert script[..|script| - 1][..i] == script[..i];
    } else {
      assert script[..i] == script;
    }
  }

  lemma DataNext(script: seq<Got>, i: nat)
    requires i < |script|
    ensures Data(script[..i + 1]) == Data(script[..i]) + script[i].data
  {
    var p := script[..i + 1];
    assert p[..i] == script[..i] && p[i] == script[i] && |p| == i + 1;
  }

  predicate SoFar(chunks: seq<Chunk>, id: string, filename: string, data: Bytes) {
    Chunked(chunks, id, filename) && Concat(chunks) == data
  }

  lemma SentOneMore(chunks: seq<Chunk>, id: string, filename: string, data: Bytes, more: Bytes)
    requires SoFar(chunks, id, filename, data) && 0 < |more| <= CHUNK_SIZE
    ensures SoFar(chunks + [Chunk(id, if chunks == [] then filename else "", more, false)], id, filename, data + more)
  {
    ConcatAppend(chunks, Chunk(id, if chunks == [] then filename else "", more, false));
  }

  lemma SentAll(chunks: seq<Chunk>, id: string, filename: string, data: Bytes)
    requires SoFar(chunks, id, filename, data)
    ensures StreamOf(chunks + [Chunk(id, "", [], true)], id, filename, data)
  {
    ConcatAppend(chunks, Chunk(id, "", [], true));
    assert (chunks + [Chunk(id, "", [], true)])[..|chunks|] == chunks;
  }

  // ---- the same loop, one step at a time ----

  function Flat(pieces: seq<Bytes>): Bytes {
    if pieces == [] then [] else Flat(pieces[..|pieces| - 1]) + pieces[|pieces| - 1]
  }

  /** The handler of the pipeline model after reading these pieces, when every send is taken, and what it has sent. */
  function SendAll(id: string, filename: string, pieces: seq<Bytes>): (Handler, seq<Chunk>) {
    if pieces == [] then (Handler(filename, Reading, false, true, 0, []), [])
    else
      var (h, chunks) := SendAll(id, filename, pieces[..|pieces| - 1]);
      var (h', c) := OnChunk(h, id, pieces[|pieces| - 1], false);
      (h', if c.Some? then chunks + [c.value] else chunks)
  }

  /**
   The pipeline model's handler sends what the read loop sends: while the content is within the limit it
   has sent all of it, chunked and named once, and with the end of the reader the stream is complete.
   */
  lemma {:induction false} HandlerSendsTheStream(id: string, filename: string, pieces: seq<Bytes>)
    requires forall i :: 0 <= i < |pieces| ==> 0 < |pieces[i]| <= CHUNK_SIZE
    requires |Flat(pieces)| <= MAX_UPLOAD_SIZE
    ensures var (h, chunks) := SendAll(id, filename, pieces);
            && h == Handler(filename, Reading, false, pieces == [], |Flat(pieces)|, Flat(pieces))
            && |chunks| == |pieces| && SoFar(chunks, id, filename, Flat(pieces))
            && OnEof(h, id, false).1.Some?
            && StreamOf(chunks + [OnEof(h, id, false).1.value], id, filename, Flat(pieces))
  {
    if pieces != [] {
      var front, data := pieces[..|pieces| - 1], pieces[|pieces| - 1];
      HandlerSendsTheStream(id, filename, front);
      SentOneMore(SendAll(id, filename, front).1, id, filename, Flat(front), data);
    }
    SentAll(SendAll(id, filename, pieces).1, id, filename, Flat(pieces));
  }

  // ---- the round trip ----

  /** An operating system that does what it is asked. */
  function Willing(c: Chunk): Io { Io(true, |c.data|, true) }

  /** The agent handles the chunks one after the other; all its answers, in order. */
  function FeedAll(d: Drop, chunks: seq<Chunk>): (Drop, seq<Ack>) {
    if chunks == [] then (d, [])
    else
      var c := chunks[|chunks| - 1];
      var (d1, acks) := FeedAll(d, chunks[..|chunks| - 1]);
      var (d2, ack) := HandleChunk(d1, c, Willing(c));
      (d2, if ack.Some? then acks + [ack.value] else acks)
  }

  predicate Admissible(d: Drop, filename: string) {
    |d.uploads| < 10 && filename != "" && Sanitize(filename) != ""
  }

  lemma WillingNeverFails(d: Drop, c: Chunk)
    requires Sound(d) && !c.done && |Content(d, c.id)| + |c.data| <= MAX_UPLOAD_SIZE
    requires c.id in d.uploads || Admissible(d, c.filename)
    ensures HandleChunk(d, c, Willing(c)).1.None?
  {
    if c.id in d.uploads {
      assert UploadSound(d.dir, d.inodes, c.id, d.uploads[c.id]);
    }
  }

  lemma ConcatGrows(chunks: seq<Chunk>)
    requires chunks != []
    ensures |Concat(chunks)| == |Concat(chunks[..|chunks| - 1])| + |chunks[|chunks| - 1].data|
  {
  }

  /** While data chunks arrive, the file grows by exactly their bytes and nothing visible changes. */
  lemma {:induction false} FeedingData(d: Drop, chunks: seq<Chunk>, id: string, filename: string)
    requires Sound(d) && id !in d.uploads && IsRequestID(id) && Visible(Entry(Sanitize(filename))) && Admissible(d, filename)
    requires chunks != [] && Chunked(chunks, id, filename) && |Concat(chunks)| <= MAX_UPLOAD_SIZE
    ensures var (d', acks) := FeedAll(d, chunks);
            && acks == [] && Sound(d') && SameVisible(d, d')
            && id in d'.uploads && Content(d', id) == Concat(chunks) && d'.uploads[id].final == Entry(Sanitize(filename))
  {
    var n := |chunks| - 1;
    var c, before := chunks[n], chunks[..n];
    ConcatGrows(chunks);
    assert Chunked(before, id, filename);
    if n > 0 {
      FeedingData(d, before, id, filename);
    }
    var d1 := FeedAll(d, before).0;
    WillingNeverFails(d1, c);
    ChunkOutcome(d1, c, Willing(c));
    var d2 := HandleChunk(d1, c, Willing(c)).0;
    forall m: Name | Visible(m) ensures SameEntry(d, d2, m) {
      assert n > 0 ==> SameEntry(d, d1, m);
      assert SameEntry(d1, d2, m);
    }
  }

  lemma FinalChunkPublishes(d: Drop, id: string)
    requires Sound(d) && id in d.uploads
    ensures var (d', ack) := HandleChunk(d, Chunk(id, "", [], true), Willing(Chunk(id, "", [], true)));
            ack.Some? && ack.value.ok && Publishes(d, d', d.uploads[id].final, Content(d, id))
  {
    assert UploadSound(d.dir, d.inodes, id, d.uploads[id]);
    assert Write(d, id, [], Willing(Chunk(id, "", [], true))) == (d, None);
    FinishEffect(d, id, Willing(Chunk(id, "", [], true)));
  }

  lemma {:induction false} FeedingRefused(d: Drop, chunks: seq<Chunk>, id: string, filename: string)
    requires id !in d.uploads && !Admissible(d, filename) && Chunked(chunks, id, filename)
    ensures FeedAll(d, chunks).0 == d && forall i :: 0 <= i < |FeedAll(d, chunks).1| ==> !FeedAll(d, chunks).1[i].ok
  {
    if chunks != [] {
      assert Chunked(chunks[..|chunks| - 1], id, filename);
      FeedingRefused(d, chunks[..|chunks| - 1], id, filename);
    }
  }

  function LastOk(acks: seq<Ack>): bool {
    acks != [] && acks[|acks| - 1].ok
  }

  lemma FeedOneMore(d: Drop, before: seq<Chunk>, c: Chunk)
    ensures var (d1, acks) := FeedAll(d, before); var (d2, ack) := HandleChunk(d1, c, Willing(c));
            FeedAll(d, before + [c]) == (d2, if ack.Some? then acks + [ack.value] else acks)
  {
    assert (before + [c])[..|before|] == before;
  }

  lemma ConcatLast(before: seq<Chunk>, c: Chunk)
    ensures Concat(before + [c]) == Concat(before) + c.data
  {
    assert (before + [c])[..|before|] == before;
  }

  /** What the agent answers to a whole stream is a success, the only answer, and the file is there. */
  ghost predicate RoundTrip(d: Drop, fed: (Drop, seq<Ack>), f: Name, content: Bytes) {
    LastOk(fed.1) && |fed.1| == 1 && Publishes(d, fed.0, f, content)
  }

  lemma RoundTripPublishes(d: Drop, before: seq<Chunk>, id: string, filename: string)
    requires Sound(d) && id !in d.uploads && IsRequestID(id) && Visible(Entry(Sanitize(filename))) && Admissible(d, filename)
    requires before != [] && Chunked(before, id, filename) && |Concat(before)| <= MAX_UPLOAD_SIZE
    ensures RoundTrip(d, FeedAll(d, before + [Chunk(id, "", [], true)]), Entry(Sanitize(filename)), Concat(before))
  {
    var last := Chunk(id, "", [], true);
    FeedingData(d, before, id, filename);
    var d1 := FeedAll(d, before).0;
    FinalChunkPublishes(d1, id);
    FeedOneMore(d, before, last);
    PublishesAfter(d, d1, HandleChunk(d1, last, Willing(last)).0, Entry(Sanitize(filename)), Concat(before));
  }

  lemma RoundTripRefused(d: Drop, before: seq<Chunk>, id: string, filename: string)
    requires id !in d.uploads && Chunked(before, id, filename) && (before == [] || !Admissible(d, filename))
    ensures var (d', acks) := FeedAll(d, before + [Chunk(id, "", [], true)]); d' == d && !LastOk(acks)
  {
    FeedOneMore(d, before, Chunk(id, "", [], true));
    if before != [] {
      FeedingRefused(d, before, id, filename);
    }
  }

  lemma SomeData(before: seq<Chunk>, id: string, filename: string)
    requires Chunked(before, id, filename) && before != []
    ensures Concat(before) != []
  {
    ConcatGrows(before);
  }

  /**
   However the reader splits its bytes: when nothing fails, the agent's last answer is a success exactly
   when the content is not empty, a slot is free and the name is usable, and then the file it publishes
   holds exactly the content. An empty file sends no named chunk and is always refused.
   */
  lemma UploadRoundTrip(d: Drop, chunks: seq<Chunk>, id: string, filename: string, content: Bytes)
    requires Sound(d) && id !in d.uploads && IsRequestID(id) && Visible(Entry(Sanitize(filename)))
    requires StreamOf(chunks, id, filename, content) && |content| <= 100 * 1024 * 1024
    ensures var (d', acks) := FeedAll(d, chunks);
            && (LastOk(acks) <==> content != [] && Admissible(d, filename))
            && (LastOk(acks) ==> |acks| == 1 && Publishes(d, d', Entry(Sanitize(filename)), content))
            && (!LastOk(acks) ==> d' == d)
  {
    var before, last := chunks[..|chunks| - 1], chunks[|chunks| - 1];
    assert chunks == before + [last];
    ConcatLast(before, last);
    assert Concat(before) == content;
    if before != [] {
      SomeData(before, id, filename);
    }
    if before != [] && Admissible(d, filename) {
      RoundTripPublishes(d, before, id, filename);
    } else {
      RoundTripRefused(d, before, id, filename);
    }
  }
}
