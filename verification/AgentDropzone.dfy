/** The dropzone with its uploads map and the files of its directory, proved against DropzoneModel. */
module AgentDropzone {
  import opened Options
  import opened DropzoneModel
  import Model = DropzoneModel
  import opened Units

  class Dropzone {
    var uploads: map<string, Upload>
    var dir: map<Name, nat>   // the directory: entry to inode
    var inodes: seq<Bytes>

    ghost function State(): Drop
      reads this
    {
      Drop(uploads, dir, inodes)
    }

    /** Every entry and every open file refers to an inode. */
    ghost predicate Valid()
      reads this
    {
      && (forall n :: n in dir ==> dir[n] < |inodes|)
      && (forall id :: id in uploads ==> uploads[id].fd < |inodes|)
    }

    constructor ()
      ensures Valid() && State() == Drop(map[], map[], [])
    {
      uploads, dir, inodes := map[], map[], [];
    }

    /** Checks the request and opens the temporary file; the caller records the upload. */
    method OpenNewUpload(id: string, filename: string, openOk: bool) returns (u: Upload, ack: Option<Ack>)
      requires Valid() && id !in uploads
      modifies this`dir, this`inodes
      ensures Valid() && (ack.None? ==> u.fd < |inodes|)
      ensures var refusal := Refusal(old(State()), filename, Io(openOk, 0, true));
              if refusal.Some? then ack == Some(Ack(id, false, refusal.value)) && State() == old(State())
              else ack == None && Drop(old(uploads)[id := u], dir, inodes) == Opened(old(State()), id, filename)
    {
      u := Upload(0, 0, Plain(""));
      if |uploads| >= MAX_CONCURRENT {
        return u, Some(Ack(id, false, "too many concurrent uploads"));
      }
      if filename == "" {
        return u, Some(Ack(id, false, "no filename provided"));
      }
      var safe := Sanitize(filename);
      if safe == "" {
        return u, Some(Ack(id, false, "invalid filename"));
      }
      if !openOk {
        return u, Some(Ack(id, false, "file operation failed"));
      }
      var tmp := Temp(id);
      if tmp in dir {
        inodes := inodes[dir[tmp] := []];
      } else {
        dir := dir[tmp := |inodes|];
        inodes := inodes + [[]];
      }
      return Upload(dir[tmp], 0, Entry(safe)), None;
    }

    /** Removes the upload's temporary file by name, whatever the name refers to. */
    method Remove(id: string)
      modifies this`dir
      ensures dir == old(dir) - {Temp(id)}
    {
      dir := dir - {Temp(id)};
    }

    /** Writes one chunk's data to the open file; over the limit or on an error the upload is given up. */
    method Append(id: string, data: Bytes, io: Io) returns (ack: Option<Ack>)
      requires Valid() && id in uploads
      modifies this
      ensures Valid() && (ack.None? ==> id in uploads)
      ensures (State(), ack) == Write(old(State()), id, data, io)
    {
      var state := uploads[id];
      if |data| > 0 {
        if state.bytes + |data| > MAX_UPLOAD_SIZE {
          Remove(id);
          uploads := uploads - {id};
          return Some(Ack(id, false, "file size limit exceeded"));
        }
        if io.written < |data| {
          inodes := inodes[state.fd := inodes[state.fd] + data[..io.written]];
          ghost var grown := uploads[id := state.(bytes := state.bytes + io.written)];
          assert grown - {id} == uploads - {id};
          uploads := uploads - {id};
          return Some(Ack(id, false, "file operation failed"));
        }
        inodes := inodes[state.fd := inodes[state.fd] + data];
        uploads := uploads[id := state.(bytes := state.bytes + |data|)];
      }
      ack := None;
    }

    /**
     One chunk: the dropzone changes and answers exactly as the model says. From a sound state, and unless
     the file is named like some request's temporary one, the outcome is one of ChunkOutcome's and the
     state stays sound.
     */
    method HandleChunk(c: Chunk, io: Io) returns (ack: Option<Ack>)
      requires Valid()
      modifies this
      ensures Valid()
      ensures (State(), ack) == Model.HandleChunk(old(State()), c, io)
      ensures Sound(old(State())) && IsRequestID(c.id) && Visible(Entry(Sanitize(c.filename))) ==> Outcome(old(State()), State(), ack, c)
    {
      if Sound(State()) && IsRequestID(c.id) && Visible(Entry(Sanitize(c.filename))) {
        ChunkOutcome(State(), c, io);
      }
      ack := Process(c, io);
    }

    method Process(c: Chunk, io: Io) returns (ack: Option<Ack>)
      requires Valid()
      modifies this
      ensures Valid()
      ensures (State(), ack) == Model.HandleChunk(old(State()), c, io)
    {
      if c.id !in uploads {
        var u, refused := OpenNewUpload(c.id, c.filename, io.openOk);
        if refused.Some? {
          return refused;
        }
        uploads := uploads[c.id := u];
      }
      ack := Append(c.id, c.data, io);
      if ack.None? && c.done {
        ack := Complete(c.id, io);
      }
    }

    method Complete(id: string, io: Io) returns (ack: Option<Ack>)
      requires Valid() && id in uploads
      modifies this
      ensures Valid()
      ensures (State(), ack) == Finish(old(State()), id, io)
    {
      var tmp := Temp(id);
      if tmp !in dir || !io.renameOk {
        Remove(id);
        uploads := uploads - {id};
        return Some(Ack(id, false, "file operation failed"));
      }
      dir := (dir - {tmp})[uploads[id].final := dir[tmp]];
      uploads := uploads - {id};
      ack := Some(Ack(id, true, ""));
    }

    /** Closes every open upload and removes its temporary file. */
    method Cleanup()
      requires Valid()
      modifies this
      ensures Valid() && State() == CleanedUp(old(State()))
      ensures Sound(old(State())) ==> Sound(State()) && SameVisible(old(State()), State())
    {
      CloseOpenFiles();
      if Sound(old(State())) {
        CleanupEffect(old(State()));
      }
    }

    method CloseOpenFiles()
      modifies this
      ensures State() == CleanedUp(old(State()))
    {
      ghost var before, all := State(), uploads.Keys;
      while uploads != map[]
        invariant inodes == before.inodes && uploads.Keys <= all
        invariant dir == DirWithout(before.dir, all - uploads.Keys)
        decreases |uploads|
      {
        var id :| id in uploads;
        RemoveOneMore(before.dir, all, uploads.Keys, id);
        RemovalShrinks(uploads, id);
        Remove(id);
        uploads := uploads - {id};
      }
      assert all - uploads.Keys == all;
      AllRemoved(before);
    }
  }

  lemma AllRemoved(d: Drop)
    ensures CleanedUp(d) == Drop(map[], DirWithout(d.dir, d.uploads.Keys), d.inodes)
  {
    assert forall n :: n in d.dir ==> ((exists id :: id in d.uploads && n == Temp(id)) <==> n.Temp? && n.id in d.uploads.Keys);
  }

  /** The directory without the temporary files of these uploads. */
  ghost function DirWithout(dir: map<Name, nat>, ids: set<string>): map<Name, nat> {
    map n | n in dir && !(n.Temp? && n.id in ids) :: dir[n]
  }

  lemma RemoveOneMore(dir: map<Name, nat>, all: set<string>, left: set<string>, id: string)
    requires left <= all && id in left
    ensures DirWithout(dir, all - left) - {Temp(id)} == DirWithout(dir, all - (left - {id}))
  {
  }

  lemma RemovalShrinks(m: map<string, Upload>, id: string)
    requires id in m
    ensures |m - {id}| < |m|
  {
    assert (m - {id}).Keys == m.Keys - {id};
  }
}
