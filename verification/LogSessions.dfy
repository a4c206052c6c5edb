/** The log session table as the hub runs it, proved against the operations of LogSessionModel. */
module LogSessions {
  import opened Keys
  import opened LogSessionModel
  import opened Units
  import Model = LogSessionModel

  class LogSessions {
    var channels: map<string, nat>
    var overflow: map<string, nat>
    var buffers: seq<seq<Bytes>>  // the buffer of every channel made so far
    ghost var lives: seq<Life>   // and what happened to it

    ghost function State(): Model.State
      reads this
    {
      Model.State(channels, overflow, lives, false)
    }

    ghost predicate Valid()
      reads this
    {
      && Inv(State()) && |buffers| == |lives|
      && forall n :: 0 <= n < |lives| ==> lives[n].buf == buffers[n]
    }

    constructor ()
      ensures Valid() && State() == EMPTY
    {
      channels, overflow, buffers, lives := map[], map[], [], [];
    }

    method Register(serverID: string, requestID: string) returns (ch: nat)
      requires Valid()
      modifies this
      ensures Valid() && State() == Model.Register(old(State()), MakeKey(serverID, requestID))
      ensures ch == |old(lives)| && channels[MakeKey(serverID, requestID)] == ch
    {
      var key := MakeKey(serverID, requestID);
      RegisterKeepsInv(State(), key);
      ch := |buffers|;
      channels, overflow := channels[key := ch], overflow[key := 0];
      buffers := buffers + [[]];
      lives := lives + [Life(key, true, [], [], [], 0)];
    }

    method Deliver(serverID: string, requestID: string, data: Bytes) returns (ok: bool)
      requires Valid()
      modifies this
      ensures Valid() && State() == Model.Deliver(old(State()), MakeKey(serverID, requestID), data)
      ensures var key := MakeKey(serverID, requestID);
              ok == (key in channels && channels[key] < |old(buffers)| && |old(buffers)[channels[key]]| < CAPACITY)
    {
      var key := MakeKey(serverID, requestID);
      if key !in channels {
        return false;
      }
      DeliverKeepsInv(State(), key, data);
      var n := channels[key];
      RegisteredIsOpen(State(), key);
      if |buffers[n]| < CAPACITY {
        buffers := buffers[n := buffers[n] + [data]];
        ok := true;
      } else {
        overflow := overflow[key := overflow[key] + 1];
        ok := false;
      }
      lives := lives[n := Offered(lives[n], data)];
    }

    method Receive(ch: nat) returns (ok: bool, data: Bytes)
      requires Valid() && ch < |buffers|
      modifies this
      ensures Valid() && State() == Model.Receive(old(State()), ch)
      ensures ok == (old(buffers)[ch] != []) && (ok ==> data == old(buffers)[ch][0])
    {
      ReceiveKeepsInv(State(), ch);
      ok, data := buffers[ch] != [], [];
      if ok {
        data := buffers[ch][0];
        buffers := buffers[ch := buffers[ch][1..]];
        lives := lives[ch := lives[ch].(buf := buffers[ch], received := lives[ch].received + [data])];
      }
    }

    method DrainOverflow(serverID: string, requestID: string) returns (dropped: nat)
      requires Valid()
      modifies this
      ensures Valid() && State() == Drain(old(State()), MakeKey(serverID, requestID))
      ensures dropped == Count(old(overflow), MakeKey(serverID, requestID))
    {
      var key := MakeKey(serverID, requestID);
      DrainKeepsInv(State(), key);
      dropped := if key in overflow then overflow[key] else 0;
      if dropped > 0 {
        overflow := overflow[key := 0];
        ghost var n := channels[key];
        lives := lives[n := lives[n].(drained := lives[n].drained + dropped)];
      }
    }

    method Remove(serverID: string, requestID: string)
      requires Valid()
      modifies this
      ensures Valid() && State() == Model.Remove(old(State()), MakeKey(serverID, requestID))
    {
      var key := MakeKey(serverID, requestID);
      RemoveKeepsInv(State(), key);
      if key in channels {
        ghost var n := channels[key];
        RegisteredIsOpen(State(), key);
        channels, overflow := channels - {key}, overflow - {key};
        lives := lives[n := lives[n].(open := false)];
      }
    }
  }
}
