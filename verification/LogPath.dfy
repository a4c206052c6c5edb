/**
 The whole path of a followed log: the agent's tailer sends chunks, the hub's log session buffers and may
 drop them, the handler receives what is left. The stream between the two is FIFO.
 */
module LogPath {
  import opened LogTailer
  import Filter = LogFilter
  import Session = LogSessionModel

  /** Every dropped chunk costs at least a byte. */
  lemma {:induction false} DropsAreMissed(offers: seq<Session.Offer>)
    requires forall i :: 0 <= i < |offers| ==> offers[i].data != []
    ensures |Filter.Whole(Session.All(offers))| >= |Filter.Whole(Session.Taken(offers))| + Session.Dropped(offers)
  {
    if offers != [] {
      var front, last := offers[..|offers| - 1], offers[|offers| - 1];
      DropsAreMissed(front);
      WholeAppend(Session.All(front), last.data);
      WholeAppend(Session.Taken(front), last.data);
    }
  }

  lemma {:induction false} OffersAreData(offers: seq<Session.Offer>)
    ensures |Session.All(offers)| == |offers| && forall i :: 0 <= i < |offers| ==> Session.All(offers)[i] == offers[i].data
  {
    if offers != [] {
      OffersAreData(offers[..|offers| - 1]);
    }
  }

  /**
   From file to reader: when the tailer has followed a file from `start` and its chunks were delivered to
   a session in order, what the reader has received and what waits for it is exactly that part of the
   file if, and only if, the session dropped nothing.
   */
  lemma ReaderSeesTheFileIff(t: Tail, start: nat, chunks: seq<Sent>, run: Session.Run, n: nat)
    requires Following(t, start, chunks)
    requires n < |Session.After(run).lives| && Session.All(Session.After(run).lives[n].offered) == Datas(chunks)
    ensures var l := Session.After(run).lives[n];
            Filter.Whole(l.received + l.buf) == t.files[t.path][start..t.offset] <==> Session.Dropped(l.offered) == 0
  {
    var l := Session.After(run).lives[n];
    Session.EveryChunkIsAccountedFor(run, n);
    ConcatIsWhole(chunks);
    OffersAreData(l.offered);
    forall i | 0 <= i < |l.offered| ensures l.offered[i].data != [] {
      assert l.offered[i].data == Datas(chunks)[i] == chunks[i].data;
    }
    DropsAreMissed(l.offered);
    assert Session.Taken(l.offered) == l.received + l.buf;
  }
}
