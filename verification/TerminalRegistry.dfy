/** The terminal session registry as the hub runs it, proved against the operations of TerminalModel. */
module TerminalRegistry {
  import opened Keys
  import opened TerminalModel
  import Model = TerminalModel

  class TerminalSessions {
    var sessions: map<string, Session>
    var pipes: seq<Pipe>

    ghost function State(): Registry
      reads this
    {
      Registry(sessions, pipes, false)
    }

    ghost predicate Valid()
      reads this
    {
      Sound(State())
    }

    constructor ()
      ensures Valid() && State() == EMPTY
    {
      sessions, pipes := map[], [];
    }

    /** A buffered send; the caller holds the lock, so nobody closes the channel meanwhile. */
    method Send(c: nat, e: Event)
      requires c < |pipes| && !pipes[c].closed
      modifies this`pipes
      ensures pipes == old(pipes)[c := old(pipes)[c].(buf := old(pipes)[c].buf + [e])]
    {
      pipes := pipes[c := pipes[c].(buf := pipes[c].buf + [e])];
    }

    method CloseChannel(c: nat)
      requires c < |pipes| && !pipes[c].closed
      modifies this`pipes
      ensures pipes == old(pipes)[c := old(pipes)[c].(closed := true)]
    {
      pipes := pipes[c := pipes[c].(closed := true)];
    }

    /** Evicts until the channel has room, then sends the exit. */
    method DeliverExit(c: nat, e: Event)
      requires c < |pipes| && !pipes[c].closed && |pipes[c].buf| <= CAP
      modifies this`pipes
      ensures pipes == old(pipes)[c := old(pipes)[c].(buf := WithExit(old(pipes)[c].buf, e))]
    {
      ghost var before := pipes[c].buf;
      while |pipes[c].buf| == CAP
        invariant |pipes| == |old(pipes)|
        invariant pipes == old(pipes)[c := old(pipes)[c].(buf := pipes[c].buf)]
        invariant pipes[c].buf == before || (|before| == CAP && pipes[c].buf == before[1..])
        decreases |pipes[c].buf|
      {
        pipes := pipes[c := pipes[c].(buf := pipes[c].buf[1..])];
      }
      Send(c, e);
    }

    method Register(serverID: string, sessionID: string, userID: string, executionUser: string) returns (ok: bool)
      requires Valid()
      modifies this
      ensures Valid()
      ensures (State(), ok) == Model.Register(old(State()), MakeKey(serverID, sessionID), userID, executionUser)
    {
      var key := MakeKey(serverID, sessionID);
      if key in sessions {
        return false;
      }
      sessions := sessions[key := Session(userID, executionUser, |pipes|, false, false)];
      pipes := pipes + [Pipe(key, [], false)];
      ok := true;
    }

    method AttachStream(serverID: string, sessionID: string, userID: string) returns (res: Attached)
      requires Valid()
      modifies this
      ensures Valid()
      ensures (State(), res) == Model.AttachStream(old(State()), MakeKey(serverID, sessionID), userID)
    {
      var key := MakeKey(serverID, sessionID);
      if key !in sessions || sessions[key].userID != userID {
        return NoSession;
      }
      if sessions[key].streaming {
        return AlreadyStreaming;
      }
      sessions := sessions[key := sessions[key].(streaming := true)];
      res := Stream(sessions[key].ch);
    }

    method DeliverData(serverID: string, sessionID: string, data: seq<bv8>) returns (ok: bool)
      requires Valid()
      modifies this
      ensures Valid()
      ensures (State(), ok) == Model.DeliverData(old(State()), MakeKey(serverID, sessionID), data)
    {
      var key := MakeKey(serverID, sessionID);
      if key !in sessions || sessions[key].closed {
        return false;
      }
      var c := sessions[key].ch;
      if |pipes[c].buf| < CAP {
        Send(c, Data(data));
        return true;
      }
      ok := false;
    }

    method EndSession(key: string, e: Event)
      requires Valid() && key in sessions && !sessions[key].closed
      modifies this
      ensures Valid()
      ensures State() == Model.End(old(State()), key, e).0
    {
      var s := sessions[key];
      DeliverExit(s.ch, e);
      CloseChannel(s.ch);
      sessions := sessions[key := s.(closed := true)];
    }

    method End(serverID: string, sessionID: string, code: int, err: string) returns (ok: bool)
      requires Valid()
      modifies this
      ensures Valid()
      ensures (State(), ok) == Model.End(old(State()), MakeKey(serverID, sessionID), Exit(code, err))
    {
      var key := MakeKey(serverID, sessionID);
      if key !in sessions || sessions[key].closed {
        return false;
      }
      EndSession(key, Exit(code, err));
      ok := true;
    }

    method EndAll(serverID: string, code: int, err: string)
      requires Valid()
      modifies this
      ensures Valid()
      ensures State() == Model.EndAll(old(State()), serverID, Exit(code, err))
    {
      ghost var r := State();
      var e := Exit(code, err);
      var keys := sessions.Keys;
      while keys != {}
        invariant Valid()
        invariant keys <= sessions.Keys
        invariant EndedOutside(r, State(), keys, serverID, e)
      {
        var k :| k in keys;
        EndOneMore(r, State(), keys, serverID, e, k);
        if HasPrefix(k, serverID + ":") && !sessions[k].closed {
          EndSession(k, e);
        }
        keys := keys - {k};
      }
    }

    /** Deletes an entry, closing its channel unless its exit already did. */
    method Drop(key: string)
      requires Valid() && key in sessions
      modifies this
      ensures Valid()
      ensures State() == Model.Drop(old(State()), key)
    {
      if !sessions[key].closed {
        CloseChannel(sessions[key].ch);
      }
      sessions := sessions - {key};
    }

    method RemoveIfHubInitiated(serverID: string, sessionID: string) returns (alreadyClosed: bool, removed: bool)
      requires Valid()
      modifies this
      ensures Valid()
      ensures (State(), (alreadyClosed, removed)) ==
              Model.RemoveIfHubInitiated(old(State()), MakeKey(serverID, sessionID))
    {
      var key := MakeKey(serverID, sessionID);
      if key !in sessions {
        return false, false;
      }
      alreadyClosed := sessions[key].closed;
      Drop(key);
      removed := true;
    }

    method RemoveUnattached(serverID: string, sessionID: string) returns (removed: bool)
      requires Valid()
      modifies this
      ensures Valid()
      ensures (State(), removed) == Model.RemoveUnattached(old(State()), MakeKey(serverID, sessionID))
    {
      var key := MakeKey(serverID, sessionID);
      if key !in sessions || sessions[key].streaming {
        return false;
      }
      Drop(key);
      removed := true;
    }

    method Remove(serverID: string, sessionID: string) returns (removed: bool)
      requires Valid()
      modifies this
      ensures Valid()
      ensures (State(), removed) == Model.Remove(old(State()), MakeKey(serverID, sessionID))
    {
      var key := MakeKey(serverID, sessionID);
      if key !in sessions {
        return false;
      }
      Drop(key);
      removed := true;
    }
  }
}
