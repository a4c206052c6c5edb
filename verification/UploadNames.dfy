/** Which file names are safe: the names the dropzone uses for its own temporary files are not. */
module UploadNames {
  import opened Options
  import opened DropzoneModel
  import opened UploadModel
  import opened UploadTheorems
  import opened Units

  /** A reported success stands for a file with the bytes that were read. */
  predicate Truthful(run: Run, id: string) {
    var w := After(run);
    InPhase(w, id, Succeeded) ==>
      id in w.published && w.published[id] < |w.drop.inodes| && w.drop.inodes[w.published[id]] == ReadBy(run, id)
  }

  /** Every upload of the run asks for f or for a name that is no request's temporary one. */
  predicate UsesOnly(run: Run, f: string) {
    run.Then? ==> UsesOnly(run.before, f)
                  && (run.a.Begin? ==> run.a.filename == f || Visible(Entry(Sanitize(run.a.filename))))
  }

  /** A name is safe when no upload can report a wrong success because of it. */
  ghost predicate IsSafe(f: string) {
    forall run, id :: UsesOnly(run, f) ==> Truthful(run, id)
  }

  // ---- an upload of a temporary name replaces another upload's bytes ----

  /** Two different request ids. */
  predicate Two(x: string, y: string) {
    x != y && IsRequestID(x) && IsRequestID(y)
  }

  const OK := Io(true, 1, true)
  const ONE: Bytes := [1]
  const TWO: Bytes := [2]

  function First(x: string): Chunk { Chunk(x, "v", ONE, false) }
  function FirstOther(y: string, f: string): Chunk { Chunk(y, f, TWO, false) }
  function Last(id: string): Chunk { Chunk(id, "", [], true) }

  // The dropzone: x open; both open; y renamed over x's temporary file; x "completed".
  function Open1(x: string): Drop { Drop(map[x := Upload(0, 1, Plain("v"))], map[Temp(x) := 0], [ONE]) }
  function Open2(x: string, y: string): Drop {
    Drop(map[x := Upload(0, 1, Plain("v")), y := Upload(1, 1, Temp(x))], map[Temp(x) := 0, Temp(y) := 1], [ONE, TWO])
  }
  function Clobbered(x: string): Drop { Drop(map[x := Upload(0, 1, Plain("v"))], map[Temp(x) := 1], [ONE, TWO]) }
  function Final(): Drop { Drop(map[], map[Plain("v") := 1], [ONE, TWO]) }

  lemma NameV()
    ensures Sanitize("v") == "v" && Entry("v") == Plain("v")
  {
    assert TrimSlashes("v") == "v" && AfterSlash("v") == "v";
  }

  lemma FirstChunk(x: string)
    ensures HandleChunk(INITIAL.drop, First(x), OK) == (Open1(x), None)
  {
    NameV();
    var d := Opened(INITIAL.drop, x, "v");
    assert d == Drop(map[x := Upload(0, 0, Plain("v"))], map[Temp(x) := 0], [[]]);
    assert [[]][0 := ONE] == [ONE] && [] + ONE == ONE;
    assert Appended(d, x, ONE) == Open1(x);
  }

  lemma OtherChunk(x: string, y: string, f: string)
    requires x != y && Entry(Sanitize(f)) == Temp(x)
    ensures HandleChunk(Open1(x), FirstOther(y, f), OK) == (Open2(x, y), None)
  {
    var d := Opened(Open1(x), y, f);
    assert Open1(x).uploads.Keys == {x} && |Open1(x).uploads| == 1;
    assert Base("") == "." && Sanitize("") == "";
    assert Refusal(Open1(x), f, OK).None?;
    assert d == Drop(Open1(x).uploads[y := Upload(1, 0, Temp(x))], map[Temp(x) := 0, Temp(y) := 1], [ONE, []]);
    assert [ONE, []][1 := TWO] == [ONE, TWO] && [] + TWO == TWO;
    assert Appended(d, y, TWO) == Open2(x, y);
  }

  lemma OtherDone(x: string, y: string)
    requires x != y
    ensures HandleChunk(Open2(x, y), Last(y), OK) == (Clobbered(x), Some(Ack(y, true, "")))
  {
    var d := Open2(x, y);
    assert d.uploads - {y} == Clobbered(x).uploads;
    assert (d.dir - {Temp(y)})[Temp(x) := 1] == Clobbered(x).dir;
    assert Write(d, y, [], OK) == (d, None);
    assert Finish(d, y, OK) == (Clobbered(x), Some(Ack(y, true, "")));
  }

  lemma OwnDone(x: string)
    ensures HandleChunk(Clobbered(x), Last(x), OK) == (Final(), Some(Ack(x, true, "")))
  {
    var d := Clobbered(x);
    assert d.uploads - {x} == map[] && (d.dir - {Temp(x)})[Plain("v") := 1] == Final().dir;
    assert Write(d, x, [], OK) == (d, None);
    assert Finish(d, x, OK) == (Final(), Some(Ack(x, true, "")));
  }

  function Hub(f: string, phase: Phase, eof: bool, sent: Bytes): Handler { Handler(f, phase, eof, sent == [], |sent|, sent) }

  function Hubs(x: string, y: string, hx: Handler, hy: Handler): map<string, Handler> { map[x := hx, y := hy] }

  function Begun(x: string, y: string, f: string): Run { Then(Then(Start, Begin(x, "v")), Begin(y, f)) }
  function FirstRead(x: string, y: string, f: string): Run { Then(Begun(x, y, f), Read(x, ONE, Queued)) }
  function HalfDone(x: string, y: string, f: string): Run { Then(FirstRead(x, y, f), Handle(OK)) }
  function OtherRead(x: string, y: string, f: string): Run { Then(HalfDone(x, y, f), Read(y, TWO, Queued)) }
  function OtherSent(x: string, y: string, f: string): Run { Then(OtherRead(x, y, f), Eof(y, Queued)) }
  function BothOpen(x: string, y: string, f: string): Run { Then(OtherSent(x, y, f), Handle(OK)) }
  function Replaced(x: string, y: string, f: string): Run { Then(BothOpen(x, y, f), Handle(OK)) }
  function OwnSent(x: string, y: string, f: string): Run { Then(Replaced(x, y, f), Eof(x, Queued)) }
  function Completed(x: string, y: string, f: string): Run { Then(OwnSent(x, y, f), Handle(OK)) }
  function Acked(x: string, y: string, f: string): Run { Then(Completed(x, y, f), DeliverAck(1)) }
  function Reported(x: string, y: string, f: string): Run { Then(Acked(x, y, f), TakeAck(x)) }

  lemma Quietly(w: World, c: Chunk, rest: seq<Chunk>, d: Drop)
    requires w.link == [c] + rest && HandleChunk(w.drop, c, OK) == (d, None)
    ensures StepHandle(w, OK) == World(d, rest, w.acks, w.pending, w.hubs, w.published, w.owner)
  {
    assert w.link[0] == c && w.link[1..] == rest;
  }

  lemma Finally(w: World, c: Chunk, rest: seq<Chunk>, d: Drop, f: Name)
    requires w.link == [c] + rest && HandleChunk(w.drop, c, OK) == (d, Some(Ack(c.id, true, "")))
    requires f == FinalName(w.drop, c) && f in d.dir
    ensures StepHandle(w, OK) == World(d, rest, w.acks + [Ack(c.id, true, "")], w.pending, w.hubs,
                                       w.published[c.id := d.dir[f]], w.owner[f := c.id])
  {
    assert w.link[0] == c && w.link[1..] == rest;
  }

  lemma BegunState(x: string, y: string, f: string)
    requires Two(x, y)
    ensures After(Begun(x, y, f)) == World(INITIAL.drop, [], [], map[x := None, y := None],
              Hubs(x, y, Hub("v", Reading, false, []), Hub(f, Reading, false, [])), map[], map[])
  {
    assert After(Then(Start, Begin(x, "v"))) == StepBegin(INITIAL, x, "v");
  }

  lemma FirstReadState(x: string, y: string, f: string)
    requires Two(x, y)
    ensures After(FirstRead(x, y, f)) == World(INITIAL.drop, [First(x)], [], map[x := None, y := None],
              Hubs(x, y, Hub("v", Reading, false, ONE), Hub(f, Reading, false, [])), map[], map[])
  {
    BegunState(x, y, f);
    assert [] + ONE == ONE;
    assert OnChunk(Hub("v", Reading, false, []), x, ONE, false) == (Hub("v", Reading, false, ONE), Some(First(x)));
  }

  /** The world in which x's first chunk is on the stream. */
  function FirstOnStream(x: string, y: string, f: string): World {
    World(INITIAL.drop, [First(x)], [], map[x := None, y := None],
          Hubs(x, y, Hub("v", Reading, false, ONE), Hub(f, Reading, false, [])), map[], map[])
  }

  lemma FirstIsHandled(x: string, y: string, f: string)
    ensures StepHandle(FirstOnStream(x, y, f), OK) ==
            World(Open1(x), [], [], map[x := None, y := None],
                  Hubs(x, y, Hub("v", Reading, false, ONE), Hub(f, Reading, false, [])), map[], map[])
  {
    FirstChunk(x);
    Quietly(FirstOnStream(x, y, f), First(x), [], Open1(x));
  }

  lemma AfterHandle(run: Run)
    ensures After(Then(run, Handle(OK))) == StepHandle(After(run), OK)
  {
  }

  lemma HalfDoneState(x: string, y: string, f: string)
    requires Two(x, y)
    ensures After(HalfDone(x, y, f)) == World(Open1(x), [], [], map[x := None, y := None],
              Hubs(x, y, Hub("v", Reading, false, ONE), Hub(f, Reading, false, [])), map[], map[])
  {
    FirstReadState(x, y, f);
    AfterHandle(FirstRead(x, y, f));
    FirstIsHandled(x, y, f);
  }

  lemma OtherReadState(x: string, y: string, f: string)
    requires Two(x, y)
    ensures After(OtherRead(x, y, f)) == World(Open1(x), [FirstOther(y, f)], [], map[x := None, y := None],
              Hubs(x, y, Hub("v", Reading, false, ONE), Hub(f, Reading, false, TWO)), map[], map[])
  {
    HalfDoneState(x, y, f);
    assert [] + TWO == TWO;
  }

  lemma OtherSentState(x: string, y: string, f: string)
    requires Two(x, y)
    ensures After(OtherSent(x, y, f)) == World(Open1(x), [FirstOther(y, f), Last(y)], [], map[x := None, y := None],
              Hubs(x, y, Hub("v", Reading, false, ONE), Hub(f, Awaiting, true, TWO)), map[], map[])
  {
    OtherReadState(x, y, f);
  }

  lemma BothOpenState(x: string, y: string, f: string)
    requires Two(x, y) && Entry(Sanitize(f)) == Temp(x)
    ensures After(BothOpen(x, y, f)) == World(Open2(x, y), [Last(y)], [], map[x := None, y := None],
              Hubs(x, y, Hub("v", Reading, false, ONE), Hub(f, Awaiting, true, TWO)), map[], map[])
  {
    OtherSentState(x, y, f);
    OtherChunk(x, y, f);
    Quietly(After(OtherSent(x, y, f)), FirstOther(y, f), [Last(y)], Open2(x, y));
  }

  lemma ReplacedState(x: string, y: string, f: string)
    requires Two(x, y) && Entry(Sanitize(f)) == Temp(x)
    ensures After(Replaced(x, y, f)) == World(Clobbered(x), [], [Ack(y, true, "")], map[x := None, y := None],
              Hubs(x, y, Hub("v", Reading, false, ONE), Hub(f, Awaiting, true, TWO)), map[y := 1], map[Temp(x) := y])
  {
    BothOpenState(x, y, f);
    OtherDone(x, y);
    Finally(After(BothOpen(x, y, f)), Last(y), [], Clobbered(x), Temp(x));
  }

  lemma OwnSentState(x: string, y: string, f: string)
    requires Two(x, y) && Entry(Sanitize(f)) == Temp(x)
    ensures After(OwnSent(x, y, f)) == World(Clobbered(x), [Last(x)], [Ack(y, true, "")], map[x := None, y := None],
              Hubs(x, y, Hub("v", Awaiting, true, ONE), Hub(f, Awaiting, true, TWO)), map[y := 1], map[Temp(x) := y])
  {
    ReplacedState(x, y, f);
  }

  lemma CompletedState(x: string, y: string, f: string)
    requires Two(x, y) && Entry(Sanitize(f)) == Temp(x)
    ensures After(Completed(x, y, f)) == World(Final(), [], [Ack(y, true, ""), Ack(x, true, "")], map[x := None, y := None],
              Hubs(x, y, Hub("v", Awaiting, true, ONE), Hub(f, Awaiting, true, TWO)), map[y := 1, x := 1],
              map[Temp(x) := y, Plain("v") := x])
  {
    OwnSentState(x, y, f);
    OwnDone(x);
    Finally(After(OwnSent(x, y, f)), Last(x), [], Final(), Plain("v"));
  }

  /** The second acknowledgement reaches x's handler. */
  lemma SecondAckDelivered(w: World, x: string, y: string)
    requires x != y && w.acks == [Ack(y, true, ""), Ack(x, true, "")] && w.pending == map[x := None, y := None]
    ensures StepDeliverAck(w, 1) == w.(acks := [Ack(y, true, "")], pending := map[x := Some(Ack(x, true, "")), y := None])
  {
    assert WithoutAck(w.acks, 1) == [Ack(y, true, "")];
    assert w.pending[x := Some(Ack(x, true, ""))] == map[x := Some(Ack(x, true, "")), y := None];
  }

  lemma AckedState(x: string, y: string, f: string)
    requires Two(x, y) && Entry(Sanitize(f)) == Temp(x)
    ensures var w := After(Acked(x, y, f));
            && w.drop == Final() && w.published == map[y := 1, x := 1]
            && w.hubs == Hubs(x, y, Hub("v", Awaiting, true, ONE), Hub(f, Awaiting, true, TWO))
            && w.pending == map[x := Some(Ack(x, true, "")), y := None]
  {
    CompletedState(x, y, f);
    SecondAckDelivered(After(Completed(x, y, f)), x, y);
  }

  lemma ReportedState(x: string, y: string, f: string)
    requires Two(x, y) && Entry(Sanitize(f)) == Temp(x)
    ensures var w := After(Reported(x, y, f)); InPhase(w, x, Succeeded) && w.drop == Final() && w.published == map[y := 1, x := 1]
  {
    AckedState(x, y, f);
    var w := After(Acked(x, y, f));
    assert w.pending[x] == Some(Ack(x, true, ""));
    assert InPhase(w, x, Awaiting);
  }

  lemma OneByteRead(x: string, y: string, f: string)
    requires Two(x, y)
    ensures ReadBy(Reported(x, y, f), x) == ONE
  {
    BegunState(x, y, f);
    assert ReadBy(Then(Start, Begin(x, "v")), x) == [];
    assert ReadBy(Begun(x, y, f), x) == [];
    assert ReadBy(FirstRead(x, y, f), x) == [] + ONE;
    assert ReadBy(HalfDone(x, y, f), x) == ONE;
    assert ReadBy(OtherSent(x, y, f), x) == ONE;
    assert ReadBy(Replaced(x, y, f), x) == ONE;
    assert ReadBy(Completed(x, y, f), x) == ONE;
  }

  lemma ReportedUsesOnly(x: string, y: string, f: string)
    ensures UsesOnly(Reported(x, y, f), f)
  {
    NameV();
    assert UsesOnly(Begun(x, y, f), f);
    assert UsesOnly(HalfDone(x, y, f), f);
    assert UsesOnly(OtherSent(x, y, f), f);
    assert UsesOnly(Replaced(x, y, f), f);
    assert UsesOnly(Completed(x, y, f), f);
  }

  /** The upload whose temporary file was replaced is reported as a success with the other upload's byte. */
  lemma ReportedIsWrong(x: string, y: string, f: string)
    requires Two(x, y) && Entry(Sanitize(f)) == Temp(x)
    ensures UsesOnly(Reported(x, y, f), f) && !Truthful(Reported(x, y, f), x)
  {
    ReportedState(x, y, f);
    OneByteRead(x, y, f);
    ReportedUsesOnly(x, y, f);
    assert ONE[0] != TWO[0];
  }

  lemma {:induction false} VisibleNamesAreSafe(run: Run, f: string)
    requires Visible(Entry(Sanitize(f))) && UsesOnly(run, f)
    ensures SafeNames(run)
  {
    if run.Then? {
      VisibleNamesAreSafe(run.before, f);
    }
  }

  /** A request id that differs from x in its first digit. */
  function Another(x: string): (y: string)
    requires IsRequestID(x)
    ensures Two(x, y)
  {
    x[0 := if x[0] == '0' then '1' else '0']
  }

  /** The name is exactly that of the temporary file some request may have. */
  predicate NamesATemporary(f: string, id: string) {
    IsRequestID(id) && Sanitize(f) == TEMP_PREFIX + id
  }

  lemma NamesATemporaryIff(f: string, id: string)
    ensures NamesATemporary(f, id) <==> Entry(Sanitize(f)) == Temp(id) && IsRequestID(id)
  {
    EntriesAreNames(Sanitize(f), id);
  }

  /** A file name is safe exactly when, sanitized, it is not ".upload-" followed by a request id. */
  lemma NameIsSafeIff(f: string)
    ensures IsSafe(f) <==> forall id :: !NamesATemporary(f, id)
  {
    var n := Entry(Sanitize(f));
    if Visible(n) {
      forall run, id | UsesOnly(run, f) ensures Truthful(run, id) {
        VisibleNamesAreSafe(run, f);
        if InPhase(After(run), id, Succeeded) {
          SuccessMeansComplete(run, id);
        }
      }
      forall id ensures !NamesATemporary(f, id) {
        NamesATemporaryIff(f, id);
      }
    } else {
      NamesATemporaryIff(f, n.id);
      ReportedIsWrong(n.id, Another(n.id), f);
    }
  }
}
