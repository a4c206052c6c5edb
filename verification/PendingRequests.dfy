/** The table that hands an agent's answer to the handler waiting for it (hub/internal/grpcserver/pending.go). */
module PendingRequests {
  import opened Keys
  import opened Options

  /** A channel with one slot. */
  class Slot<M> {
    var message: Option<M>

    constructor ()
      ensures message == None
    {
      message := None;
    }
  }

  class Pending<M> {
    var channels: map<string, Slot<M>>

    /** No two keys share a channel, so an answer for one request cannot reach another. */
    ghost predicate Valid()
      reads this
    {
      forall k, l :: k in channels && l in channels && k != l ==> channels[k] != channels[l]
    }

    constructor ()
      ensures Valid() && channels == map[]
    {
      channels := map[];
    }

    method Register(serverID: string, requestID: string) returns (ch: Slot<M>)
      requires Valid()
      modifies this`channels
      ensures Valid() && fresh(ch) && ch.message == None
      ensures channels == old(channels)[MakeKey(serverID, requestID) := ch]
    {
      ch := new Slot<M>();
      channels := channels[MakeKey(serverID, requestID) := ch];
    }

    /**
     The message reaches the request's own channel or nobody: an unknown request and a channel that
     already holds an answer refuse it, and no other channel changes.
     */
    method Deliver(serverID: string, requestID: string, msg: M) returns (ok: bool)
      requires Valid()
      modifies channels.Values
      ensures Valid() && channels == old(channels)
      ensures var key := MakeKey(serverID, requestID);
              && ok == (key in channels && old(channels[key].message).None?)
              && (ok ==> channels[key].message == Some(msg))
              && forall k :: k in channels && (k != key || !ok) ==> channels[k].message == old(channels[k].message)
    {
      var key := MakeKey(serverID, requestID);
      if key !in channels {
        return false;
      }
      var ch := channels[key];
      if ch.message.Some? {
        return false;
      }
      ch.message := Some(msg);
      ok := true;
    }

    method Remove(serverID: string, requestID: string)
      requires Valid()
      modifies this`channels
      ensures Valid() && channels == old(channels) - {MakeKey(serverID, requestID)}
    {
      channels := channels - {MakeKey(serverID, requestID)};
    }
  }

  datatype Op<M> = Open(server: string, request: string) | Answer(server: string, request: string, msg: M) | Close(server: string, request: string)

  predicate AllColonFree<M>(ops: seq<Op<M>>) {
    forall i :: 0 <= i < |ops| ==> ColonFree(ops[i].server)
  }

  /** What a request hears from these operations: whether it is still registered, and the first answer addressed to it until then. */
  datatype Ear<M> = Ear(registered: bool, heard: Option<M>)

  function Heard<M>(ops: seq<Op<M>>, server: string, request: string): Ear<M> {
    if ops == [] then Ear(true, None)
    else
      var ear := Heard(ops[..|ops| - 1], server, request);
      var op := ops[|ops| - 1];
      if op.server != server || op.request != request then ear
      else if op.Answer? then (if ear.registered && ear.heard.None? then ear.(heard := Some(op.msg)) else ear)
      else ear.(registered := false)
  }

  /** An answer from another server, or for another request, is never heard. */
  lemma {:induction false} OnlyOwnAnswersAreHeard<M>(ops: seq<Op<M>>, server: string, request: string)
    ensures var heard := Heard(ops, server, request).heard;
            heard.Some? ==> exists i :: 0 <= i < |ops| && ops[i] == Answer(server, request, heard.value)
  {
    if ops != [] {
      var front := ops[..|ops| - 1];
      OnlyOwnAnswersAreHeard(front, server, request);
      var heard := Heard(front, server, request).heard;
      if heard.Some? {
        var i :| 0 <= i < |front| && front[i] == Answer(server, request, heard.value);
        assert ops[i] == front[i];
      }
    }
  }

  /** The request's channel holds what it should have heard, and no other entry uses the channel. */
  ghost predicate Listening<M(!new)>(p: Pending<M>, ch: Slot<M>, server: string, request: string, ear: Ear<M>)
    reads p, ch
  {
    var key := MakeKey(server, request);
    && ch.message == ear.heard
    && (forall k :: k in p.channels && p.channels[k] == ch ==> k == key)
    && (ear.registered <==> key in p.channels && p.channels[key] == ch)
  }

  /**
   A request's channel through any sequence of registrations, answers and removals, its own and others':
   it holds exactly the first answer addressed to this server and request while it was registered.
   */
  method RegisterAndListen<M(!new)>(p: Pending<M>, server: string, request: string, ops: seq<Op<M>>) returns (ch: Slot<M>)
    requires p.Valid() && ColonFree(server) && AllColonFree(ops)
    modifies p`channels, p.channels.Values
    ensures p.Valid() && ch.message == Heard(ops, server, request).heard
  {
    ch := p.Register(server, request);
    var i := 0;
    while i < |ops|
      invariant i <= |ops| && p.Valid()
      invariant fresh(ch) && forall k :: k in p.channels ==> p.channels[k] in old(p.channels.Values) || fresh(p.channels[k])
      invariant Listening(p, ch, server, request, Heard(ops[..i], server, request))
    {
      var op := ops[i];
      assert ops[..i + 1][..i] == ops[..i];
      MakeKeyInjective(op.server, op.request, server, request);
      match op {
        case Open(s, r) => var other := p.Register(s, r);
        case Answer(s, r, msg) => var ok := p.Deliver(s, r, msg);
        case Close(s, r) => p.Remove(s, r);
      }
      i := i + 1;
    }
    assert ops[..i] == ops;
  }
}
