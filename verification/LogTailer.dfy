/**
 The polling loop of the log tailer (agent/internal/logtailer/tailer.go): a file handle, the offset
 reached, and a path whose file grows, shrinks or is replaced between the polls.
 */
module LogTailer {
  import opened Options
  import opened LogFilter
  import opened Units

  const MAX_READ := 1024 * 1024

  /** The inodes, the one the path names, the one the tailer has open, and its offset. */
  datatype Tail = Tail(files: seq<Bytes>, path: nat, f: nat, offset: nat)

  predicate Ok(t: Tail) {
    t.path < |t.files| && t.f < |t.files|
  }

  /** How one poll meets the file system. `grown` is appended between Stat and the read; a read may return fewer bytes. */
  datatype Timing = Timing(statOk: bool, openOk: bool, readOk: bool, grown: Bytes, short: nat)

  datatype Sent = Sent(data: Bytes, offset: nat)

  function Min(a: int, b: int): int { if a < b then a else b }

  function Appended(t: Tail, bytes: Bytes): Tail
    requires Ok(t)
  {
    t.(files := t.files[t.path := t.files[t.path] + bytes])
  }

  predicate Shrunk(t: Tail)
    requires Ok(t)
  {
    |t.files[t.path]| < t.offset
  }

  /** A poll that found the file shorter than the offset: reopen and read the first megabyte. */
  function Reopen(t: Tail, p: Timing): (Tail, Option<Sent>)
    requires Ok(t)
  {
    var size := |t.files[t.path]|;
    var now := Appended(t, p.grown);
    if !p.openOk || !p.readOk then (now, None)
    else
      var file := now.files[now.path];
      var data := file[..Min(|file|, MAX_READ)];
      (now.(f := now.path, offset := size), if data == [] then None else Some(Sent(data, size)))
  }

  /** A poll that found more data: read what Stat promised, at most a megabyte, from the open handle. */
  function ReadMore(t: Tail, p: Timing): (Tail, Option<Sent>)
    requires Ok(t) && t.offset <= |t.files[t.path]|
  {
    var now := Appended(t, p.grown);
    var file := now.files[now.f];
    var want := Min(|t.files[t.path]| - t.offset, MAX_READ);
    var n := Min(Min(want, p.short), |file| - t.offset);
    if !p.readOk || n <= 0 then (now, None)
    else (now.(offset := t.offset + n), Some(Sent(file[t.offset..t.offset + n], t.offset + n)))
  }

  function ReadNewData(t: Tail, p: Timing): (Tail, Option<Sent>)
    requires Ok(t)
  {
    if !p.statOk then (Appended(t, p.grown), None)
    else if Shrunk(t) then Reopen(t, p)
    else if |t.files[t.path]| == t.offset then (Appended(t, p.grown), None)
    else ReadMore(t, p)
  }

  /** Where a tail starts: at the end for a request without an offset. */
  function Opened(files: seq<Bytes>, path: nat, requested: int): Tail
    requires path < |files|
  {
    Tail(files, path, path, if requested <= 0 then |files[path]| else requested)
  }

  // ---- runs ----

  datatype Action =
    | Append(bytes: Bytes)        // the program writes its log
    | Truncate(content: Bytes)    // the file is emptied in place and rewritten
    | Replace(content: Bytes)     // the file is renamed away and a new one created
    | Poll(p: Timing)

  /** What has been sent since the last rotation that was noticed, and the byte it starts at. */
  datatype State = State(t: Tail, from: nat, since: Bytes)

  function DataOf(sent: Option<Sent>): Bytes {
    if sent.Some? then sent.value.data else []
  }

  predicate Notices(t: Tail, p: Timing)
    requires Ok(t)
  {
    p.statOk && Shrunk(t) && p.openOk && p.readOk
  }

  function Step(s: State, a: Action): State
    requires Ok(s.t)
  {
    match a
    case Append(bytes) => s.(t := Appended(s.t, bytes))
    case Truncate(content) => s.(t := s.t.(files := s.t.files[s.t.path := content]))
    case Replace(content) => s.(t := s.t.(files := s.t.files + [content], path := |s.t.files|))
    case Poll(p) =>
      var (t', sent) := ReadNewData(s.t, p);
      if Notices(s.t, p) then State(t', 0, DataOf(sent)) else State(t', s.from, s.since + DataOf(sent))
  }

  datatype Run = Start(s: State) | Then(before: Run, a: Action)

  function After(run: Run): (s: State)
    requires RunOk(run)
    ensures Ok(s.t)
  {
    match run
    case Start(s) => s
    case Then(before, a) => StepOk(After(before), a); Step(After(before), a)
  }

  predicate RunOk(run: Run) {
    match run
    case Start(s) => Ok(s.t)
    case Then(before, _) => RunOk(before)
  }

  lemma StepOk(s: State, a: Action)
    requires Ok(s.t)
    ensures Ok(Step(s, a).t)
  {
  }

  /** What the log file holds: the last rewrite or replacement, and everything appended since. */
  function FileContent(run: Run): Bytes
    requires RunOk(run)
  {
    match run
    case Start(s) => s.t.files[s.t.path]
    case Then(before, Append(bytes)) => FileContent(before) + bytes
    case Then(_, Truncate(content)) => content
    case Then(_, Replace(content)) => content
    case Then(before, Poll(p)) => FileContent(before) + p.grown
  }

  /** The path always names the file the writers made; polls change nothing about it. */
  lemma {:induction false} FileIsHistory(run: Run)
    requires RunOk(run)
    ensures After(run).t.files[After(run).t.path] == FileContent(run)
  {
    if run.Then? {
      FileIsHistory(run.before);
      StepOk(After(run.before), run.a);
    }
  }

  /** A poll that meets an error sends nothing and moves nothing: the same bytes are read again later. */
  lemma FailedPollIsRetried(t: Tail, p: Timing)
    requires Ok(t) && (!p.statOk || !p.readOk || (Shrunk(t) && !p.openOk))
    ensures ReadNewData(t, p) == (Appended(t, p.grown), None)
  {
  }

  predicate OnlyAppends(run: Run) {
    run.Then? ==> OnlyAppends(run.before) && (run.a.Append? || run.a.Poll?)
  }

  /** What was sent is the file from the start of the stream up to the offset: no gap and no repeat. */
  predicate Faithful(s: State) {
    && Ok(s.t) && s.t.f == s.t.path
    && s.from <= s.t.offset <= |s.t.files[s.t.path]|
    && s.since == s.t.files[s.t.path][s.from..s.t.offset]
  }

  // ---- growing files ----

  lemma AppendKeepsFaithful(s: State, bytes: Bytes)
    requires Faithful(s)
    ensures Faithful(s.(t := Appended(s.t, bytes)))
  {
    var file := s.t.files[s.t.path];
    assert (file + bytes)[s.from..s.t.offset] == file[s.from..s.t.offset];
  }

  lemma PollKeepsFaithful(s: State, p: Timing)
    requires Faithful(s)
    ensures Faithful(Step(s, Poll(p)))
  {
    AppendKeepsFaithful(s, p.grown);
    var now := Appended(s.t, p.grown);
    var file := now.files[now.path];
    var t' := ReadNewData(s.t, p).0;
    if t'.offset > s.t.offset {
      assert file[s.from..s.t.offset] + file[s.t.offset..t'.offset] == file[s.from..t'.offset];
    } else {
      assert s.since + [] == s.since;
    }
  }

  /** However the polls fall, a file that only grows is sent without a gap and without a repeat. */
  lemma {:induction false} GrowingFileIsSentInFull(run: Run)
    requires RunOk(run) && OnlyAppends(run) && Faithful(Origin(run))
    ensures Faithful(After(run))
  {
    if run.Then? {
      GrowingFileIsSentInFull(run.before);
      match run.a
      case Append(bytes) => AppendKeepsFaithful(After(run.before), bytes);
      case Poll(p) => PollKeepsFaithful(After(run.before), p);
    }
  }

  function Origin(run: Run): State {
    match run
    case Start(s) => s
    case Then(before, _) => Origin(before)
  }

  /** A chunk is not empty and at most a megabyte, is labelled with the offset after it, and only the offset and the handle move. */
  lemma ChunksAreBounded(t: Tail, p: Timing)
    requires Ok(t)
    ensures var (t', sent) := ReadNewData(t, p);
            && (sent.Some? ==> 0 < |sent.value.data| <= 1024 * 1024 && sent.value.offset == t'.offset)
            && (sent.Some? && !Shrunk(t) ==> t'.offset == t.offset + |sent.value.data| && t'.f == t.f)
            && (sent.None? && !Notices(t, p) ==> t'.offset == t.offset && t'.f == t.f)
            && t'.path == t.path && t'.files == Appended(t, p.grown).files
  {
  }

  function Undisturbed(): Timing { Timing(true, true, true, [], MAX_READ) }

  /** Polls that nothing disturbs; after enough of them everything has been sent. */
  function Polled(s: State, n: nat): (s': State)
    requires Ok(s.t)
    ensures Ok(s'.t)
  {
    if n == 0 then s else StepOk(Polled(s, n - 1), Poll(Undisturbed())); Step(Polled(s, n - 1), Poll(Undisturbed()))
  }

  lemma UndisturbedPoll(s: State)
    requires Faithful(s)
    ensures var s' := Step(s, Poll(Undisturbed()));
            && s'.t.files == s.t.files && s'.t.path == s.t.path
            && s'.t.offset == Min(|s.t.files[s.t.path]|, s.t.offset + MAX_READ)
  {
    assert s.t.files[s.t.path] + [] == s.t.files[s.t.path];
    assert Appended(s.t, []).files == s.t.files;
  }

  /** s' is s after its offset advanced by k bytes or to the end of the file. */
  predicate Advanced(s: State, s': State, k: nat)
    requires Ok(s.t) && Ok(s'.t)
  {
    && s'.t.files == s.t.files && s'.t.path == s.t.path && s'.from == s.from
    && s'.t.offset == Min(|s.t.files[s.t.path]|, s.t.offset + k)
  }

  lemma {:induction false} PolledOffset(s: State, n: nat, k: nat)
    requires Faithful(s) && k == n * MAX_READ
    ensures Faithful(Polled(s, n)) && Advanced(s, Polled(s, n), k)
  {
    if n > 0 {
      var s1 := Polled(s, n - 1);
      PolledOffset(s, n - 1, k - MAX_READ);
      UndisturbedPoll(s1);
      PollKeepsFaithful(s1, Undisturbed());
    }
  }

  /** The reader catches up, and needs exactly one poll per started megabyte. */
  lemma CatchesUpIff(s: State, n: nat)
    requires Faithful(s)
    ensures var file := s.t.files[s.t.path];
            Polled(s, n).since == file[s.from..] <==> |file| - s.t.offset <= n * 1_048_576
  {
    PolledOffset(s, n, n * MAX_READ);
    var s' := Polled(s, n);
    var file := s.t.files[s.t.path];
    assert s'.since == file[s.from..s'.t.offset];
    assert |s'.since| == s'.t.offset - s.from && |file[s.from..]| == |file| - s.from;
  }

  // ---- rotation ----

  /**
   After a rotation is noticed the new content is followed without gap or repeat exactly when the read
   returned as much as Stat had announced: the file is at most a megabyte and did not grow in between.
   */
  lemma RotationIsFaithfulIff(s: State, p: Timing)
    requires Ok(s.t) && Notices(s.t, p)
    ensures var size := |s.t.files[s.t.path]|;
            Faithful(Step(s, Poll(p))) <==> size <= MAX_READ && (p.grown == [] || size == MAX_READ)
  {
    var now := Appended(s.t, p.grown);
    var file := now.files[now.path];
    var size := |s.t.files[s.t.path]|;
    var s' := Step(s, Poll(p));
    assert s'.since == file[..Min(|file|, MAX_READ)];
    assert |file| == size + |p.grown|;
    if Min(|file|, MAX_READ) == size {
      assert s'.since == file[0..size];
    } else {
      assert |file[0..size]| == size && |s'.since| != size;
    }
  }

  /** From such a rotation on, the stream is the new file from byte 0, for as long as it only grows. */
  lemma RotatedFileIsSentInFull(s: State, p: Timing, run: Run)
    requires Ok(s.t) && Notices(s.t, p) && p.grown == [] && |s.t.files[s.t.path]| <= MAX_READ
    requires RunOk(run) && OnlyAppends(run) && Origin(run) == Step(s, Poll(p))
    ensures var s' := After(run);
            s'.t.offset <= |s'.t.files[s'.t.path]| && s'.since == s'.t.files[s'.t.path][..s'.t.offset]
  {
    RotationIsFaithfulIff(s, p);
    GrowingFileIsSentInFull(run);
    FromIsKept(run);
  }

  lemma {:induction false} FromIsKept(run: Run)
    requires RunOk(run) && OnlyAppends(run) && Faithful(Origin(run))
    ensures After(run).from == Origin(run).from
  {
    if run.Then? {
      FromIsKept(run.before);
      GrowingFileIsSentInFull(run.before);
    }
  }

  /** What a rotation does to the stream: the first k bytes of the file, then, whatever lies between, from byte `size` on. */
  predicate Resumed(s: State, k: nat, size: nat) {
    && Ok(s.t) && s.t.f == s.t.path
    && k <= |s.t.files[s.t.path]| && size <= s.t.offset <= |s.t.files[s.t.path]|
    && s.since == s.t.files[s.t.path][..k] + s.t.files[s.t.path][size..s.t.offset]
  }

  lemma AppendKeepsResumed(s: State, bytes: Bytes, k: nat, size: nat)
    requires Resumed(s, k, size)
    ensures Resumed(s.(t := Appended(s.t, bytes)), k, size)
  {
    var file := s.t.files[s.t.path];
    assert (file + bytes)[..k] == file[..k] && (file + bytes)[size..s.t.offset] == file[size..s.t.offset];
  }

  lemma PollKeepsResumed(s: State, p: Timing, k: nat, size: nat)
    requires Resumed(s, k, size)
    ensures Resumed(Step(s, Poll(p)), k, size)
  {
    AppendKeepsResumed(s, p.grown, k, size);
    var now := Appended(s.t, p.grown);
    var file := now.files[now.path];
    var t' := ReadNewData(s.t, p).0;
    if t'.offset > s.t.offset {
      assert file[size..s.t.offset] + file[s.t.offset..t'.offset] == file[size..t'.offset];
      assert file[..k] + file[size..s.t.offset] + file[s.t.offset..t'.offset] ==
             file[..k] + (file[size..s.t.offset] + file[s.t.offset..t'.offset]);
    } else {
      assert s.since + [] == s.since;
    }
  }

  /**
   The stream after any noticed rotation, for as long as the new file only grows: first what the rotation
   read, then everything from the size that Stat had announced. Bytes the read did not reach are never
   sent, and bytes it read beyond that size are sent twice.
   */
  lemma {:induction false} RotationResumesAtSize(s: State, p: Timing, run: Run)
    requires Ok(s.t) && Notices(s.t, p)
    requires RunOk(run) && OnlyAppends(run) && Origin(run) == Step(s, Poll(p))
    ensures var size := |s.t.files[s.t.path]|;
            Resumed(After(run), Min(size + |p.grown|, MAX_READ), size)
  {
    if run.Then? {
      var size := |s.t.files[s.t.path]|;
      RotationResumesAtSize(s, p, run.before);
      match run.a
      case Append(bytes) => AppendKeepsResumed(After(run.before), bytes, Min(size + |p.grown|, MAX_READ), size);
      case Poll(q) => PollKeepsResumed(After(run.before), q, Min(size + |p.grown|, MAX_READ), size);
    }
  }

  /** After the rotation of a file of more than a megabyte the bytes between the first megabyte and its size are never sent. */
  lemma LargeRotationSkips(s: State, p: Timing, run: Run)
    requires Ok(s.t) && Notices(s.t, p) && |s.t.files[s.t.path]| > MAX_READ
    requires RunOk(run) && OnlyAppends(run) && Origin(run) == Step(s, Poll(p))
    ensures var t, size := After(run).t, |s.t.files[s.t.path]|;
            && MAX_READ < size <= t.offset <= |t.files[t.path]|
            && After(run).since == t.files[t.path][..MAX_READ] + t.files[t.path][size..t.offset]
  {
    RotationResumesAtSize(s, p, run);
  }

  /** The tailer holds a file that was renamed away, has sent all of it, and the new one is not shorter than the offset. */
  predicate Stranded(s: State) {
    Ok(s.t) && s.t.f != s.t.path && |s.t.files[s.t.f]| <= s.t.offset <= |s.t.files[s.t.path]|
  }

  /** Nothing was sent, and neither the offset nor the handle moved. */
  predicate Unmoved(s: State, s': State) {
    s'.since == s.since && s'.from == s.from && s'.t.offset == s.t.offset && s'.t.f == s.t.f
  }

  lemma StrandedStep(s: State, a: Action)
    requires Stranded(s) && (a.Append? || a.Poll?)
    ensures Stranded(Step(s, a)) && Unmoved(s, Step(s, a))
  {
    if a.Poll? {
      var now := Appended(s.t, a.p.grown);
      assert now.files[now.f] == s.t.files[s.t.f];
      assert s.since + [] == s.since;
    }
  }

  /** A replacement that has already grown past the old offset is never noticed: nothing is sent any more. */
  lemma {:induction false} UnnoticedReplacementStopsTheStream(run: Run)
    requires RunOk(run) && OnlyAppends(run) && Stranded(Origin(run))
    ensures Stranded(After(run)) && Unmoved(Origin(run), After(run))
  {
    if run.Then? {
      UnnoticedReplacementStopsTheStream(run.before);
      StrandedStep(After(run.before), run.a);
    }
  }

  predicate Continues(run: Run, s: State) {
    RunOk(run) && OnlyAppends(run) && Origin(run) == s
  }

  lemma OneStep(s: State, a: Action)
    requires Ok(s.t) && (a.Append? || a.Poll?)
    ensures var run := Run.Then(Start(s), a); Continues(run, s) && After(run) == Step(s, a)
  {
    var start := Start(s);
    var run := Run.Then(start, a);
    assert RunOk(start) && OnlyAppends(start) && Origin(start) == s && After(start) == s;
    assert Origin(run) == Origin(start);
  }

  /** However long the new file is written to and polled, nothing comes of it. */
  ghost predicate Silent(s: State) {
    forall run :: Continues(run, s) ==> Unmoved(s, After(run))
  }

  /**
   Once the old file is fully sent, replacing it silences the tailer for good, through every growth of
   the new file and every poll, exactly when the new file is not shorter than the offset.
   */
  lemma ReplaceSilencesIff(s: State, content: Bytes)
    requires Faithful(s) && s.t.offset == |s.t.files[s.t.path]|
    ensures Silent(Step(s, Replace(content))) <==> |content| >= s.t.offset
  {
    var s1 := Step(s, Replace(content));
    if |content| >= s.t.offset {
      forall run | Continues(run, s1) ensures Unmoved(s1, After(run)) {
        UnnoticedReplacementStopsTheStream(run);
      }
    } else {
      var run := Run.Then(Start(s1), Poll(Undisturbed()));
      OneStep(s1, Poll(Undisturbed()));
      assert After(run).t.f == s1.t.path != s1.t.f;
    }
  }

  // ---- the polling loop ----

  /** What happens before a tick, and how the tick's poll goes. */
  datatype Tick = Tick(written: Bytes, p: Timing)

  function Concat(chunks: seq<Sent>): Bytes {
    if chunks == [] then [] else Concat(chunks[..|chunks| - 1]) + chunks[|chunks| - 1].data
  }

  lemma ConcatAppend(chunks: seq<Sent>, c: Sent)
    ensures Concat(chunks + [c]) == Concat(chunks) + c.data
  {
    assert (chunks + [c])[..|chunks|] == chunks;
  }

  /** Chunk k ends where its label says and starts where the chunk before it ended. */
  predicate Labelled(chunks: seq<Sent>, start: nat, offset: nat) {
    && (forall k :: 0 <= k < |chunks| ==>
          0 < |chunks[k].data| <= MAX_READ && chunks[k].offset == (if k == 0 then start else chunks[k - 1].offset) + |chunks[k].data|)
    && offset == if chunks == [] then start else chunks[|chunks| - 1].offset
  }

  lemma LabelledOneMore(chunks: seq<Sent>, start: nat, offset: nat, c: Sent)
    requires Labelled(chunks, start, offset) && 0 < |c.data| <= MAX_READ && c.offset == offset + |c.data|
    ensures Labelled(chunks + [c], start, c.offset)
  {
  }

  function More(chunks: seq<Sent>, sent: Option<Sent>): seq<Sent> {
    if sent.Some? then chunks + [sent.value] else chunks
  }

  ghost predicate Following(t: Tail, start: nat, chunks: seq<Sent>) {
    Faithful(State(t, start, Concat(chunks))) && Labelled(chunks, start, t.offset)
  }

  lemma TickKeepsLabelled(t: Tail, start: nat, chunks: seq<Sent>, p: Timing)
    requires Ok(t) && !Shrunk(t) && Labelled(chunks, start, t.offset)
    ensures var (t', sent) := ReadNewData(t, p); Labelled(More(chunks, sent), start, t'.offset)
  {
    ChunksAreBounded(t, p);
    var (t', sent) := ReadNewData(t, p);
    if sent.Some? {
      LabelledOneMore(chunks, start, t.offset, sent.value);
    }
  }

  lemma ConcatMore(chunks: seq<Sent>, sent: Option<Sent>)
    ensures Concat(More(chunks, sent)) == Concat(chunks) + DataOf(sent)
  {
    if sent.Some? { ConcatAppend(chunks, sent.value); }
  }

  lemma TickKeepsFollowing(t: Tail, start: nat, chunks: seq<Sent>, tick: Tick)
    requires Following(t, start, chunks)
    ensures var (t', sent) := ReadNewData(Appended(t, tick.written), tick.p);
            Following(t', start, More(chunks, sent))
  {
    var s := State(t, start, Concat(chunks));
    AppendKeepsFaithful(s, tick.written);
    var s1 := s.(t := Appended(t, tick.written));
    PollKeepsFaithful(s1, tick.p);
    var (t', sent) := ReadNewData(s1.t, tick.p);
    assert Step(s1, Poll(tick.p)) == State(t', start, s.since + DataOf(sent));
    ConcatMore(chunks, sent);
    TickKeepsLabelled(s1.t, start, chunks, tick.p);
  }

  /**
   StartTail on a file that only grows: the chunks put together are the file from the starting offset to
   the final one, and each is labelled with the offset after it. (An offset past the end of the file reads
   as a rotation.)
   */
  method Follow(files: seq<Bytes>, path: nat, requested: int, ticks: seq<Tick>) returns (t: Tail, chunks: seq<Sent>)
    requires path < |files|
    ensures Ok(t) && t.path == path
    ensures var start := if requested <= 0 then |files[path]| else requested;
            start <= |files[path]| ==>
              && start <= t.offset <= |t.files[path]|
              && Concat(chunks) == t.files[path][start..t.offset]
              && Labelled(chunks, start, t.offset)
  {
    t := Opened(files, path, requested);
    chunks := [];
    var i := 0;
    ghost var start := t.offset;
    while i < |ticks|
      invariant i <= |ticks| && Ok(t) && t.path == path
      invariant start <= |files[path]| ==> Following(t, start, chunks)
    {
      if start <= |files[path]| {
        TickKeepsFollowing(t, start, chunks, ticks[i]);
      }
      t := Appended(t, ticks[i].written);
      var (t', sent) := ReadNewData(t, ticks[i].p);
      if sent.Some? {
        chunks := chunks + [sent.value];
      }
      t := t';
      i := i + 1;
    }
  }

  // ---- the stream under a grep ----

  function Datas(chunks: seq<Sent>): seq<Bytes> {
    seq(|chunks|, i requires 0 <= i < |chunks| => chunks[i].data)
  }

  lemma {:induction false} WholeAppend(pieces: seq<Bytes>, last: Bytes)
    ensures Whole(pieces + [last]) == Whole(pieces) + last
  {
    if pieces == [] {
      assert [] + [last] == [last];
    } else {
      WholeAppend(pieces[1..], last);
      assert (pieces + [last])[1..] == pieces[1..] + [last];
    }
  }

  lemma {:induction false} ConcatIsWhole(chunks: seq<Sent>)
    ensures Concat(chunks) == Whole(Datas(chunks))
  {
    if chunks != [] {
      var front := chunks[..|chunks| - 1];
      ConcatIsWhole(front);
      WholeAppend(Datas(front), chunks[|chunks| - 1].data);
      assert Datas(chunks) == Datas(front) + [chunks[|chunks| - 1].data];
    }
  }

  /** What a reader with a grep receives is the grep of the part of the file that was followed. */
  lemma GrepOfTheStream(g: Grep, chunks: seq<Sent>, part: Bytes)
    requires Concat(chunks) == part
    requires forall i :: 0 <= i < |chunks| ==> Clean(chunks[i].data)
    ensures FilteredEach(g, Datas(chunks)) == Filtered(g, part)
  {
    ConcatIsWhole(chunks);
    ChunkwiseIsWhole(g, Datas(chunks));
  }
}
