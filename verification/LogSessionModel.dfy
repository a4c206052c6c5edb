/**
 The hub's log sessions (hub/internal/grpcserver/logsessions.go): bounded channels between the stream
 that delivers log chunks and the handlers that read them, with a counter of what was dropped.
 */
module LogSessionModel {
  import opened Units

  const CAPACITY := 64

  /** One Deliver: the chunk and whether the buffer took it. */
  datatype Offer = Offer(data: Bytes, taken: bool)

  /** One registration and everything that happened to its channel; `drained` is what DrainOverflow reported. */
  datatype Life = Life(key: string, open: bool, buf: seq<Bytes>, offered: seq<Offer>, received: seq<Bytes>, drained: nat)

  /** `panicked` records a send on a closed channel or a second close. */
  datatype State = State(channels: map<string, nat>, overflow: map<string, nat>, lives: seq<Life>, panicked: bool)

  const EMPTY := State(map[], map[], [], false)

  function Register(s: State, key: string): State {
    s.(channels := s.channels[key := |s.lives|], overflow := s.overflow[key := 0],
       lives := s.lives + [Life(key, true, [], [], [], 0)])
  }

  function Count(overflow: map<string, nat>, key: string): nat {
    if key in overflow then overflow[key] else 0
  }

  function Offered(l: Life, data: Bytes): Life {
    if |l.buf| < CAPACITY
    then l.(buf := l.buf + [data], offered := l.offered + [Offer(data, true)])
    else l.(offered := l.offered + [Offer(data, false)])
  }

  function Deliver(s: State, key: string, data: Bytes): State {
    if key !in s.channels || s.channels[key] >= |s.lives| then s
    else
      var n := s.channels[key];
      var l := s.lives[n];
      if !l.open then s.(panicked := true)
      else s.(lives := s.lives[n := Offered(l, data)],
              overflow := if |l.buf| < CAPACITY then s.overflow else s.overflow[key := Count(s.overflow, key) + 1])
  }

  /** The handler that registered channel n takes the oldest chunk, if there is one. */
  function Receive(s: State, n: nat): State {
    if n < |s.lives| && s.lives[n].buf != [] then
      var l := s.lives[n];
      s.(lives := s.lives[n := l.(buf := l.buf[1..], received := l.received + [l.buf[0]])])
    else s
  }

  function Drain(s: State, key: string): State {
    var dropped := Count(s.overflow, key);
    if dropped == 0 || key !in s.channels || s.channels[key] >= |s.lives| then s
    else
      var n := s.channels[key];
      s.(overflow := s.overflow[key := 0], lives := s.lives[n := s.lives[n].(drained := s.lives[n].drained + dropped)])
  }

  function Remove(s: State, key: string): State {
    if key !in s.channels || s.channels[key] >= |s.lives| then s
    else
      var n := s.channels[key];
      State(s.channels - {key}, s.overflow - {key}, s.lives[n := s.lives[n].(open := false)], s.panicked || !s.lives[n].open)
  }

  /** What counts as misuse: a send on a closed channel, or a second close; once noticed it stays noticed. */
  lemma MisuseIsNoticed(s: State, key: string, data: Bytes)
    requires key in s.channels && s.channels[key] < |s.lives|
    ensures var misuse := !s.lives[s.channels[key]].open;
            && Deliver(s, key, data).panicked == (s.panicked || misuse)
            && Remove(s, key).panicked == (s.panicked || misuse)
  {
  }

  datatype Action =
    | DoRegister(key: string)
    | DoDeliver(key: string, data: Bytes)
    | DoReceive(n: nat)
    | DoDrain(key: string)
    | DoRemove(key: string)

  function Step(s: State, a: Action): State {
    match a
    case DoRegister(key) => Register(s, key)
    case DoDeliver(key, data) => Deliver(s, key, data)
    case DoReceive(n) => Receive(s, n)
    case DoDrain(key) => Drain(s, key)
    case DoRemove(key) => Remove(s, key)
  }

  datatype Run = Start | Then(before: Run, a: Action)

  function After(run: Run): State {
    match run
    case Start => EMPTY
    case Then(before, a) => Step(After(before), a)
  }

  // ---- the accounts of one life ----

  function Taken(offers: seq<Offer>): seq<Bytes> {
    if offers == [] then [] else
    var earlier := Taken(offers[..|offers| - 1]);
    if offers[|offers| - 1].taken then earlier + [offers[|offers| - 1].data] else earlier
  }

  function All(offers: seq<Offer>): seq<Bytes> {
    if offers == [] then [] else All(offers[..|offers| - 1]) + [offers[|offers| - 1].data]
  }

  function Dropped(offers: seq<Offer>): nat {
    if offers == [] then 0
    else Dropped(offers[..|offers| - 1]) + if offers[|offers| - 1].taken then 0 else 1
  }

  lemma OneMoreOffer(offers: seq<Offer>, o: Offer)
    ensures Taken(offers + [o]) == if o.taken then Taken(offers) + [o.data] else Taken(offers)
    ensures Dropped(offers + [o]) == Dropped(offers) + if o.taken then 0 else 1
  {
    assert (offers + [o])[..|offers|] == offers;
  }

  /** Everything taken was received or is waiting, in order, and at most CAPACITY chunks wait. */
  predicate Ordered(l: Life) {
    Taken(l.offered) == l.received + l.buf && |l.buf| <= CAPACITY && l.drained <= Dropped(l.offered)
  }

  predicate Registered(channels: map<string, nat>, l: Life, n: nat) {
    l.key in channels && channels[l.key] == n
  }

  /** Every dropped chunk of a registered life was reported or is counted. */
  predicate Accounted(l: Life, n: nat, channels: map<string, nat>, overflow: map<string, nat>) {
    && Ordered(l)
    && (Registered(channels, l, n) ==> l.open && l.key in overflow && Dropped(l.offered) == l.drained + overflow[l.key])
  }

  ghost predicate Keyed(channels: map<string, nat>, overflow: map<string, nat>, lives: seq<Life>) {
    && channels.Keys == overflow.Keys
    && forall k :: k in channels ==> channels[k] < |lives| && lives[channels[k]].key == k
  }

  ghost predicate Inv(s: State) {
    && !s.panicked && Keyed(s.channels, s.overflow, s.lives)
    && forall n {:trigger Accounted(s.lives[n], n, s.channels, s.overflow)} ::
         0 <= n < |s.lives| ==> Accounted(s.lives[n], n, s.channels, s.overflow)
  }

  /** The channel of a registered session exists and is open, and its drops are counted. */
  lemma RegisteredIsOpen(s: State, key: string)
    requires Inv(s) && key in s.channels
    ensures s.channels[key] < |s.lives| && s.lives[s.channels[key]].open && key in s.overflow
  {
    assert Accounted(s.lives[s.channels[key]], s.channels[key], s.channels, s.overflow);
  }

  lemma RegisterKeepsInv(s: State, key: string)
    requires Inv(s)
    ensures Inv(Register(s, key))
  {
    var s' := Register(s, key);
    forall n | 0 <= n < |s'.lives| ensures Accounted(s'.lives[n], n, s'.channels, s'.overflow) {
      if n < |s.lives| {
        assert Accounted(s.lives[n], n, s.channels, s.overflow);
      }
    }
  }

  lemma OfferKeepsOrdered(l: Life, data: Bytes)
    requires Ordered(l)
    ensures Ordered(Offered(l, data))
    ensures Dropped(Offered(l, data).offered) == Dropped(l.offered) + if |l.buf| < CAPACITY then 0 else 1
  {
    OneMoreOffer(l.offered, Offer(data, |l.buf| < CAPACITY));
  }

  lemma DeliverKeepsInv(s: State, key: string, data: Bytes)
    requires Inv(s)
    ensures Inv(Deliver(s, key, data))
  {
    if key in s.channels {
      var s' := Deliver(s, key, data);
      var m := s.channels[key];
      assert Accounted(s.lives[m], m, s.channels, s.overflow);
      OfferKeepsOrdered(s.lives[m], data);
      assert s'.overflow.Keys == s.overflow.Keys;
      forall n | 0 <= n < |s'.lives| ensures Accounted(s'.lives[n], n, s'.channels, s'.overflow) {
        assert Accounted(s.lives[n], n, s.channels, s.overflow);
      }
    }
  }

  lemma ReceiveKeepsInv(s: State, m: nat)
    requires Inv(s)
    ensures Inv(Receive(s, m))
  {
    var s' := Receive(s, m);
    forall n | 0 <= n < |s'.lives| ensures Accounted(s'.lives[n], n, s'.channels, s'.overflow) {
      assert Accounted(s.lives[n], n, s.channels, s.overflow);
    }
  }

  lemma DrainKeepsInv(s: State, key: string)
    requires Inv(s)
    ensures Inv(Drain(s, key))
  {
    var s' := Drain(s, key);
    if key in s.channels {
      var m := s.channels[key];
      assert Accounted(s.lives[m], m, s.channels, s.overflow);
    }
    assert s'.overflow.Keys == s.overflow.Keys;
    forall n | 0 <= n < |s'.lives| ensures Accounted(s'.lives[n], n, s'.channels, s'.overflow) {
      assert Accounted(s.lives[n], n, s.channels, s.overflow);
    }
  }

  lemma RemoveKeepsInv(s: State, key: string)
    requires Inv(s)
    ensures Inv(Remove(s, key))
  {
    var s' := Remove(s, key);
    if key in s.channels {
      var m := s.channels[key];
      assert Accounted(s.lives[m], m, s.channels, s.overflow);
    }
    forall n | 0 <= n < |s'.lives| ensures Accounted(s'.lives[n], n, s'.channels, s'.overflow) {
      assert Accounted(s.lives[n], n, s.channels, s.overflow);
    }
  }

  lemma {:induction false} RunKeepsInv(run: Run)
    ensures Inv(After(run))
  {
    if run.Then? {
      RunKeepsInv(run.before);
      var s := After(run.before);
      match run.a
      case DoRegister(key) => RegisterKeepsInv(s, key);
      case DoDeliver(key, data) => DeliverKeepsInv(s, key, data);
      case DoReceive(n) => ReceiveKeepsInv(s, n);
      case DoDrain(key) => DrainKeepsInv(s, key);
      case DoRemove(key) => RemoveKeepsInv(s, key);
    }
  }

  // ---- what a reader gets ----

  predicate Subsequence(s: seq<Bytes>, t: seq<Bytes>) {
    if t == [] then s == []
    else if s != [] && s[|s| - 1] == t[|t| - 1] then Subsequence(s[..|s| - 1], t[..|t| - 1]) || Subsequence(s, t[..|t| - 1])
    else Subsequence(s, t[..|t| - 1])
  }

  lemma {:induction false} TakenIsSubsequence(offers: seq<Offer>)
    ensures Subsequence(Taken(offers), All(offers))
    ensures Dropped(offers) == |All(offers)| - |Taken(offers)|
    ensures Dropped(offers) == 0 ==> Taken(offers) == All(offers)
  {
    if offers != [] {
      var front := offers[..|offers| - 1];
      TakenIsSubsequence(front);
      assert All(offers)[..|All(offers)| - 1] == All(front);
      if offers[|offers| - 1].taken {
        assert Taken(offers)[..|Taken(offers)| - 1] == Taken(front);
      }
    }
  }

  /**
   For every registration in every run: no channel is sent to or closed after its close; what was taken
   is what was received plus what waits, in the order delivered; at most 64 chunks wait; the reports sum
   up to the drops exactly, save for those still counted; and without a drop the reader gets everything.
   */
  lemma EveryChunkIsAccountedFor(run: Run, n: nat)
    requires n < |After(run).lives|
    ensures var s := After(run);
            var l := s.lives[n];
            && !s.panicked
            && Taken(l.offered) == l.received + l.buf && |l.buf| <= 64
            && Subsequence(l.received + l.buf, All(l.offered))
            && |All(l.offered)| == |l.received| + |l.buf| + Dropped(l.offered)
            && (Registered(s.channels, l, n) ==> Dropped(l.offered) == l.drained + Count(s.overflow, l.key))
            && (Dropped(l.offered) == 0 ==> l.received + l.buf == All(l.offered))
            && l.drained <= Dropped(l.offered)
  {
    RunKeepsInv(run);
    var s := After(run);
    assert Accounted(s.lives[n], n, s.channels, s.overflow);
    TakenIsSubsequence(s.lives[n].offered);
  }

  /** A chunk is dropped only when 64 unread chunks are waiting, and an unknown key takes nothing. */
  lemma DroppedOnlyWhenFull(run: Run, key: string, data: Bytes)
    ensures var s := After(run);
            var s' := Step(s, DoDeliver(key, data));
            && (key !in s.channels ==> s' == s)
            && (key in s.channels ==>
                  var n := s.channels[key];
                  && n < |s.lives| && s'.lives[n].offered == s.lives[n].offered + [Offer(data, |s.lives[n].buf| < 64)]
                  && forall m :: 0 <= m < |s.lives| && m != n ==> s'.lives[m] == s.lives[m])
  {
    RunKeepsInv(run);
    var s := After(run);
    if key in s.channels {
      assert Accounted(s.lives[s.channels[key]], s.channels[key], s.channels, s.overflow);
    }
  }
}
