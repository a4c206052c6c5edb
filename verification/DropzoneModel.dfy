/**
 The agent's dropzone (agent/internal/dropzone/dropzone.go): chunks of an upload are appended to a
 temporary file, which is renamed to its final name by the chunk marked done.
 */
module DropzoneModel {
  import opened Keys
  import opened Options
  import opened Units

  const MAX_UPLOAD_SIZE := 100 * 1024 * 1024
  const MAX_CONCURRENT := 10
  const TEMP_PREFIX := ".upload-"

  /** A directory entry: the temporary file of an upload, or any other name. */
  datatype Name = Temp(id: string) | Plain(name: string)

  /** How a file name is read as an entry. A file the user calls ".upload-x" is the temporary file of x. */
  function Entry(file: string): Name {
    if HasPrefix(file, TEMP_PREFIX) then Temp(file[|TEMP_PREFIX|..]) else Plain(file)
  }

  function FileName(n: Name): string {
    match n
    case Temp(id) => TEMP_PREFIX + id
    case Plain(name) => name
  }

  /** Entries and file names are the same thing: nothing is lost by reading names as entries. */
  lemma EntriesAreNames(file: string, id: string)
    ensures FileName(Entry(file)) == file && Entry(FileName(Temp(id))) == Temp(id)
  {
    assert FileName(Temp(id))[|TEMP_PREFIX|..] == id;
  }

  /** A request id: a random (version 4) UUID in its canonical form, section 3 of RFC 4122. */
  predicate IsRequestID(s: string) {
    |s| == 36 && forall i :: 0 <= i < 36 ==> Fits(i, s[i])
  }

  /** The characters a canonical UUID may have at this position. */
  predicate Fits(i: nat, c: char) {
    if i == 8 || i == 13 || i == 18 || i == 23 then c == '-'
    else if i == 14 then c == '4'
    else if i == 19 then c == '8' || c == '9' || c == 'a' || c == 'b'
    else '0' <= c <= '9' || 'a' <= c <= 'f'
  }

  /** An entry that is not the temporary file of any request. */
  predicate Visible(n: Name) {
    n.Temp? ==> !IsRequestID(n.id)
  }

  /** An open upload: the inode its file handle refers to, the bytes written, the final name. */
  datatype Upload = Upload(fd: nat, bytes: nat, final: Name)

  /** The uploads map, the directory (entry to inode) and the contents of the inodes. */
  datatype Drop = Drop(uploads: map<string, Upload>, dir: map<Name, nat>, inodes: seq<Bytes>)

  datatype Chunk = Chunk(id: string, filename: string, data: Bytes, done: bool)

  datatype Ack = Ack(id: string, ok: bool, error: string)

  /** How the operating system answers during one call: a write that fails may still write a prefix. */
  datatype Io = Io(openOk: bool, written: nat, renameOk: bool)

  // ---- filepath.Base and the names it can produce ----

  function TrimSlashes(s: string): string {
    if s != "" && s[|s| - 1] == '/' then TrimSlashes(s[..|s| - 1]) else s
  }

  function AfterSlash(s: string): string {
    if s == "" || s[|s| - 1] == '/' then "" else AfterSlash(s[..|s| - 1]) + [s[|s| - 1]]
  }

  function Base(s: string): string {
    if s == "" then "."
    else if TrimSlashes(s) == "" then "/"
    else AfterSlash(TrimSlashes(s))
  }

  function Sanitize(name: string): string {
    var base := Base(name);
    if base == "." || base == ".." || base == "/" then "" else base
  }

  /** A sanitized name is a plain entry of the dropzone directory. */
  lemma SanitizedIsPlain(name: string)
    ensures '/' !in Sanitize(name) && Sanitize(name) != "." && Sanitize(name) != ".."
  {
    AfterSlashIsPlain(TrimSlashes(name));
  }

  lemma {:induction false} AfterSlashIsPlain(s: string)
    ensures '/' !in AfterSlash(s)
  {
    if s != "" && s[|s| - 1] != '/' {
      AfterSlashIsPlain(s[..|s| - 1]);
    }
  }

  /** A name without slashes is its own base: sanitizing twice changes nothing. */
  lemma {:induction false} PlainIsItsOwnSuffix(s: string)
    requires '/' !in s
    ensures AfterSlash(s) == s
  {
    if s != "" {
      PlainIsItsOwnSuffix(s[..|s| - 1]);
      assert s == s[..|s| - 1] + [s[|s| - 1]];
    }
  }

  predicate IsPlainName(n: string) {
    n != "" && '/' !in n && n != "." && n != ".."
  }

  lemma {:induction false} AfterLastSlash(dir: string, n: string)
    requires '/' !in n
    ensures AfterSlash(dir + "/" + n) == n
  {
    var s := dir + "/" + n;
    if n == "" {
      assert s[|s| - 1] == '/';
    } else {
      var front := n[..|n| - 1];
      AfterLastSlash(dir, front);
      assert s[..|s| - 1] == dir + "/" + front && s[|s| - 1] == n[|n| - 1] != '/';
      assert n == front + [n[|n| - 1]];
    }
  }

  function Slashes(k: nat): string {
    if k == 0 then "" else Slashes(k - 1) + "/"
  }

  lemma {:induction false} TrimsSlashes(s: string, k: nat)
    requires s != "" && s[|s| - 1] != '/'
    ensures TrimSlashes(s + Slashes(k)) == s
  {
    if k == 0 {
      assert s + "" == s;
    } else {
      TrimsSlashes(s, k - 1);
      assert (s + Slashes(k))[..|s + Slashes(k)| - 1] == s + Slashes(k - 1);
    }
  }

  /** The last element of a path is what the file is called, whatever directory and trailing slashes surround it. */
  lemma SanitizeTakesTheLast(dir: string, n: string, k: nat)
    requires IsPlainName(n)
    ensures Sanitize(n) == n
    ensures Sanitize(dir + "/" + n + Slashes(k)) == n
  {
    PlainIsItsOwnSuffix(n);
    assert n[|n| - 1] in n;
    AfterLastSlash(dir, n);
    TrimsSlashes(dir + "/" + n, k);
  }

  /** A path that ends in ".." or "." names no file. */
  lemma NothingIsNamed(dir: string, e: string, k: nat)
    requires e == "." || e == ".."
    ensures Sanitize(dir + "/" + e + Slashes(k)) == "" == Sanitize(Slashes(k))
  {
    AfterLastSlash(dir, e);
    TrimsSlashes(dir + "/" + e, k);
    SlashesTrimAway(k);
  }

  lemma {:induction false} SlashesTrimAway(k: nat)
    ensures TrimSlashes(Slashes(k)) == ""
  {
    if k > 0 {
      SlashesTrimAway(k - 1);
      assert Slashes(k)[..|Slashes(k)| - 1] == Slashes(k - 1);
    }
  }

  lemma SanitizeIsIdempotent(name: string)
    ensures Sanitize(Sanitize(name)) == Sanitize(name)
  {
    var s := Sanitize(name);
    SanitizedIsPlain(name);
    if s != "" {
      assert s[|s| - 1] in s;
      assert TrimSlashes(s) == s;
      PlainIsItsOwnSuffix(s);
    }
  }

  // ---- the operations ----

  /** Why a new upload is refused, if it is. */
  function Refusal(d: Drop, filename: string, io: Io): Option<string> {
    if |d.uploads| >= MAX_CONCURRENT then Some("too many concurrent uploads")
    else if filename == "" then Some("no filename provided")
    else if Sanitize(filename) == "" then Some("invalid filename")
    else if !io.openOk then Some("file operation failed")
    else None
  }

  /** Opens the temporary file, truncating one that an earlier failure left behind. */
  function Opened(d: Drop, id: string, filename: string): Drop {
    var tmp := Temp(id);
    if tmp in d.dir && d.dir[tmp] < |d.inodes| then
      Drop(d.uploads[id := Upload(d.dir[tmp], 0, Entry(Sanitize(filename)))], d.dir, d.inodes[d.dir[tmp] := []])
    else
      Drop(d.uploads[id := Upload(|d.inodes|, 0, Entry(Sanitize(filename)))], d.dir[tmp := |d.inodes|], d.inodes + [[]])
  }

  function Forget(d: Drop, id: string, tmpGone: bool): Drop {
    Drop(d.uploads - {id}, if tmpGone then d.dir - {Temp(id)} else d.dir, d.inodes)
  }

  function Appended(d: Drop, id: string, data: Bytes): Drop
    requires id in d.uploads && d.uploads[id].fd < |d.inodes|
  {
    var u := d.uploads[id];
    Drop(d.uploads[id := u.(bytes := u.bytes + |data|)], d.dir, d.inodes[u.fd := d.inodes[u.fd] + data])
  }

  /** Appends to the open file; a failed write abandons the upload but leaves its file. */
  function Write(d: Drop, id: string, data: Bytes, io: Io): (Drop, Option<Ack>)
    requires id in d.uploads
  {
    var u := d.uploads[id];
    if |data| == 0 || u.fd >= |d.inodes| then (d, None)
    else if u.bytes + |data| > MAX_UPLOAD_SIZE then
      (Forget(d, id, true), Some(Ack(id, false, "file size limit exceeded")))
    else if io.written < |data| then
      (Forget(Appended(d, id, data[..io.written]), id, false), Some(Ack(id, false, "file operation failed")))
    else
      (Appended(d, id, data), None)
  }

  /** Renames the temporary file to its final name, replacing a file that has that name. */
  function Finish(d: Drop, id: string, io: Io): (Drop, Option<Ack>)
    requires id in d.uploads
  {
    var tmp := Temp(id);
    if tmp in d.dir && io.renameOk then
      (Drop(d.uploads - {id}, (d.dir - {tmp})[d.uploads[id].final := d.dir[tmp]], d.inodes), Some(Ack(id, true, "")))
    else
      (Forget(d, id, true), Some(Ack(id, false, "file operation failed")))
  }

  function HandleChunk(d: Drop, c: Chunk, io: Io): (Drop, Option<Ack>) {
    var refusal := if c.id in d.uploads then None else Refusal(d, c.filename, io);
    if refusal.Some? then (d, Some(Ack(c.id, false, refusal.value)))
    else
      var d1 := if c.id in d.uploads then d else Opened(d, c.id, c.filename);
      var (d2, ack) := Write(d1, c.id, c.data, io);
      if ack.Some? || !c.done then (d2, ack)
      else if c.id in d2.uploads then Finish(d2, c.id, io) else (d2, None)
  }

  function CleanedUp(d: Drop): Drop {
    Drop(map[], map n | n in d.dir && !(exists id :: id in d.uploads && n == Temp(id)) :: d.dir[n], d.inodes)
  }

  // ---- what every operation keeps ----

  /** Every name has an inode of its own. */
  ghost predicate DirSound(dir: map<Name, nat>, inodes: seq<Bytes>) {
    && (forall n :: n in dir ==> dir[n] < |inodes|)
    && (forall m, n {:trigger dir[m], dir[n]} :: m in dir && n in dir && m != n ==> dir[m] != dir[n])
  }

  predicate UploadSound(dir: map<Name, nat>, inodes: seq<Bytes>, id: string, u: Upload) {
    && Temp(id) in dir && dir[Temp(id)] == u.fd < |inodes|
    && u.bytes == |inodes[u.fd]| <= MAX_UPLOAD_SIZE
    && IsRequestID(id) && Visible(u.final)
  }

  ghost predicate Sound(d: Drop) {
    && DirSound(d.dir, d.inodes)
    && (forall id :: id in d.uploads ==> UploadSound(d.dir, d.inodes, id, d.uploads[id]))
    && |d.uploads| <= MAX_CONCURRENT
  }

  /** An inode no request's temporary name refers to; nothing will be written to it again. */
  ghost predicate Settled(dir: map<Name, nat>, inodes: seq<Bytes>, i: nat) {
    i < |inodes| && forall id :: Temp(id) in dir && IsRequestID(id) ==> dir[Temp(id)] != i
  }

  function Content(d: Drop, id: string): Bytes {
    if id in d.uploads && d.uploads[id].fd < |d.inodes| then d.inodes[d.uploads[id].fd] else []
  }

  /** Upload j is untouched. */
  predicate Kept(d: Drop, d': Drop, j: string) {
    && (j in d.uploads <==> j in d'.uploads)
    && (j in d.uploads ==> d'.uploads[j] == d.uploads[j] && Content(d', j) == Content(d, j)
                           && UploadSound(d'.dir, d'.inodes, j, d'.uploads[j]))
  }

  ghost predicate KeepsSettled(d: Drop, d': Drop, i: nat) {
    Settled(d.dir, d.inodes, i) ==> Settled(d'.dir, d'.inodes, i) && d'.inodes[i] == d.inodes[i]
  }

  predicate SameEntry(d: Drop, d': Drop, n: Name) {
    (n in d.dir <==> n in d'.dir) && (n in d.dir ==> d'.dir[n] == d.dir[n])
  }

  /** The operation touched only this upload and its files. */
  ghost predicate Local(d: Drop, d': Drop, id: string) {
    && Sound(d')
    && (forall j :: j != id ==> Kept(d, d', j))
    && (forall i :: KeepsSettled(d, d', i))
  }

  ghost predicate SameVisible(d: Drop, d': Drop) {
    forall n: Name :: Visible(n) ==> SameEntry(d, d', n)
  }

  lemma LocalIsSound(d: Drop, d': Drop, id: string)
    requires DirSound(d'.dir, d'.inodes) && |d'.uploads| <= MAX_CONCURRENT
    requires forall j :: j != id ==> Kept(d, d', j)
    requires id in d'.uploads ==> UploadSound(d'.dir, d'.inodes, id, d'.uploads[id])
    ensures Sound(d')
  {
    forall j | j in d'.uploads ensures UploadSound(d'.dir, d'.inodes, j, d'.uploads[j]) {
      assert j != id ==> Kept(d, d', j);
    }
  }

  lemma OpenedKeeps(d: Drop, id: string, filename: string, j: string, i: nat)
    requires Sound(d) && IsRequestID(id) && id !in d.uploads
    ensures var d' := Opened(d, id, filename); (j != id ==> Kept(d, d', j)) && KeepsSettled(d, d', i)
  {
    assert j in d.uploads ==> UploadSound(d.dir, d.inodes, j, d.uploads[j]);
  }

  lemma OpenedDir(d: Drop, id: string, filename: string)
    requires DirSound(d.dir, d.inodes) && IsRequestID(id)
    ensures var d' := Opened(d, id, filename); DirSound(d'.dir, d'.inodes) && SameVisible(d, d')
  {
    var d' := Opened(d, id, filename);
    assert !Visible(Temp(id));
    forall n | Visible(n) ensures SameEntry(d, d', n) {}
    assert DirSound(d'.dir, d'.inodes);
  }

  lemma OpenedOwn(d: Drop, id: string, filename: string)
    requires DirSound(d.dir, d.inodes) && IsRequestID(id) && Visible(Entry(Sanitize(filename)))
    ensures var d' := Opened(d, id, filename);
            && d'.uploads.Keys == d.uploads.Keys + {id} && UploadSound(d'.dir, d'.inodes, id, d'.uploads[id])
            && Content(d', id) == [] && d'.uploads[id].final == Entry(Sanitize(filename))
  {
  }

  lemma OpenedEffect(d: Drop, id: string, filename: string)
    requires Sound(d) && id !in d.uploads && |d.uploads| < MAX_CONCURRENT && IsRequestID(id) && Visible(Entry(Sanitize(filename)))
    ensures var d' := Opened(d, id, filename);
            && Local(d, d', id) && SameVisible(d, d')
            && id in d'.uploads && Content(d', id) == [] && d'.uploads[id].final == Entry(Sanitize(filename))
  {
    var d' := Opened(d, id, filename);
    OpenedOwn(d, id, filename);
    assert |d'.uploads.Keys| <= MAX_CONCURRENT;
    OpenedDir(d, id, filename);
    forall j | j != id ensures Kept(d, d', j) { OpenedKeeps(d, id, filename, j, 0); }
    forall i ensures KeepsSettled(d, d', i) { OpenedKeeps(d, id, filename, "", i); }
    LocalIsSound(d, d', id);
  }

  lemma ForgetKeeps(d: Drop, id: string, tmpGone: bool, j: string, i: nat)
    requires Sound(d) && id in d.uploads
    ensures var d' := Forget(d, id, tmpGone); (j != id ==> Kept(d, d', j)) && KeepsSettled(d, d', i)
  {
    assert j in d.uploads ==> UploadSound(d.dir, d.inodes, j, d.uploads[j]);
  }

  lemma ForgetDir(d: Drop, id: string, tmpGone: bool)
    requires DirSound(d.dir, d.inodes) && IsRequestID(id)
    ensures var d' := Forget(d, id, tmpGone); DirSound(d'.dir, d'.inodes) && SameVisible(d, d')
  {
    var d' := Forget(d, id, tmpGone);
    forall n: Name | Visible(n) ensures SameEntry(d, d', n) {}
  }

  lemma ForgetEffect(d: Drop, id: string, tmpGone: bool)
    requires Sound(d) && id in d.uploads
    ensures var d' := Forget(d, id, tmpGone); Local(d, d', id) && SameVisible(d, d')
  {
    var d' := Forget(d, id, tmpGone);
    assert UploadSound(d.dir, d.inodes, id, d.uploads[id]);
    assert d'.uploads.Keys == d.uploads.Keys - {id};
    ForgetDir(d, id, tmpGone);
    forall j | j != id ensures Kept(d, d', j) { ForgetKeeps(d, id, tmpGone, j, 0); }
    forall i ensures KeepsSettled(d, d', i) { ForgetKeeps(d, id, tmpGone, "", i); }
    LocalIsSound(d, d', id);
  }

  /** Appending to the upload's own inode disturbs nobody else. */
  lemma AppendEffect(d: Drop, id: string, data: Bytes)
    requires Sound(d) && id in d.uploads && d.uploads[id].fd < |d.inodes|
    requires d.uploads[id].bytes + |data| <= MAX_UPLOAD_SIZE
    ensures var d' := Appended(d, id, data);
            && Local(d, d', id) && SameVisible(d, d')
            && id in d'.uploads && d'.uploads[id].final == d.uploads[id].final
            && Content(d', id) == Content(d, id) + data
  {
    var d' := Appended(d, id, data);
    assert UploadSound(d.dir, d.inodes, id, d.uploads[id]);
    assert d'.uploads.Keys == d.uploads.Keys;
    forall j | j != id ensures Kept(d, d', j) {
      assert j in d.uploads ==> UploadSound(d.dir, d.inodes, j, d.uploads[j]);
    }
    LocalIsSound(d, d', id);
    forall n: Name | Visible(n) ensures SameEntry(d, d', n) {}
  }

  lemma LocalTwice(d: Drop, d1: Drop, d2: Drop, id: string)
    requires Local(d, d1, id) && Local(d1, d2, id)
    ensures Local(d, d2, id)
    ensures SameVisible(d, d1) && SameVisible(d1, d2) ==> SameVisible(d, d2)
  {
    forall j | j != id ensures Kept(d, d2, j) {
      assert Kept(d, d1, j) && Kept(d1, d2, j);
    }
    forall i ensures KeepsSettled(d, d2, i) {
      assert KeepsSettled(d, d1, i) && KeepsSettled(d1, d2, i);
    }
    if SameVisible(d, d1) && SameVisible(d1, d2) {
      forall n: Name | Visible(n) ensures SameEntry(d, d2, n) {
        assert SameEntry(d, d1, n) && SameEntry(d1, d2, n);
      }
    }
  }

  lemma PartialWriteEffect(d: Drop, id: string, part: Bytes)
    requires Sound(d) && id in d.uploads && d.uploads[id].fd < |d.inodes|
    requires d.uploads[id].bytes + |part| <= MAX_UPLOAD_SIZE
    ensures var d' := Forget(Appended(d, id, part), id, false); Local(d, d', id) && SameVisible(d, d')
  {
    AppendEffect(d, id, part);
    ForgetEffect(Appended(d, id, part), id, false);
    LocalTwice(d, Appended(d, id, part), Forget(Appended(d, id, part), id, false), id);
  }

  ghost predicate WroteOrFailed(d: Drop, d': Drop, ack: Option<Ack>, id: string, data: Bytes)
    requires id in d.uploads
  {
    && Local(d, d', id) && SameVisible(d, d')
    && match ack
       case None => id in d'.uploads && d'.uploads[id].final == d.uploads[id].final
                    && Content(d', id) == Content(d, id) + data
       case Some(a) => id !in d'.uploads && a.id == id && !a.ok
  }

  lemma EmptyWriteEffect(d: Drop, id: string)
    requires Sound(d) && id in d.uploads
    ensures WroteOrFailed(d, d, None, id, [])
  {
    forall j | j != id ensures Kept(d, d, j) {
      assert j in d.uploads ==> UploadSound(d.dir, d.inodes, j, d.uploads[j]);
    }
  }

  lemma WriteEffect(d: Drop, id: string, data: Bytes, io: Io)
    requires Sound(d) && id in d.uploads
    ensures WroteOrFailed(d, Write(d, id, data, io).0, Write(d, id, data, io).1, id, data)
  {
    var u := d.uploads[id];
    assert UploadSound(d.dir, d.inodes, id, u);
    if |data| == 0 {
      EmptyWriteEffect(d, id);
    } else if u.bytes + |data| > MAX_UPLOAD_SIZE {
      ForgetEffect(d, id, true);
    } else if io.written < |data| {
      PartialWriteEffect(d, id, data[..io.written]);
    } else {
      AppendEffect(d, id, data);
    }
  }

  /** A published file: the entry f now names a settled inode that holds exactly these bytes. */
  ghost predicate Publishes(d: Drop, d': Drop, f: Name, bytes: Bytes) {
    && f in d'.dir && Settled(d'.dir, d'.inodes, d'.dir[f]) && d'.inodes[d'.dir[f]] == bytes
    && forall n: Name :: Visible(n) && n != f ==> SameEntry(d, d', n)
  }

  lemma FinishKeeps(d: Drop, id: string, io: Io, j: string, i: nat)
    requires Sound(d) && id in d.uploads
    ensures var d' := Finish(d, id, io).0; (j != id ==> Kept(d, d', j)) && KeepsSettled(d, d', i)
  {
    assert UploadSound(d.dir, d.inodes, id, d.uploads[id]);
    assert j in d.uploads ==> UploadSound(d.dir, d.inodes, j, d.uploads[j]);
  }

  function Renamed(dir: map<Name, nat>, tmp: Name, f: Name): map<Name, nat>
    requires tmp in dir
  {
    (dir - {tmp})[f := dir[tmp]]
  }

  lemma RenamedIsSound(dir: map<Name, nat>, inodes: seq<Bytes>, tmp: Name, f: Name)
    requires DirSound(dir, inodes) && tmp in dir
    ensures DirSound(Renamed(dir, tmp, f), inodes)
  {
  }

  /** A rename from a request's temporary name to a visible one settles the inode. */
  lemma RenamedIsSettled(dir: map<Name, nat>, inodes: seq<Bytes>, tmp: Name, f: Name)
    requires DirSound(dir, inodes) && tmp in dir && Visible(f)
    ensures Settled(Renamed(dir, tmp, f), inodes, dir[tmp])
  {
  }

  lemma FinishDir(d: Drop, id: string, io: Io)
    requires Sound(d) && id in d.uploads && Finish(d, id, io).1.Some? && Finish(d, id, io).1.value.ok
    ensures var d' := Finish(d, id, io).0;
            DirSound(d'.dir, d'.inodes) && Publishes(d, d', d.uploads[id].final, Content(d, id))
  {
    var d', f := Finish(d, id, io).0, d.uploads[id].final;
    assert UploadSound(d.dir, d.inodes, id, d.uploads[id]);
    RenamedIsSound(d.dir, d.inodes, Temp(id), f);
    RenamedIsSettled(d.dir, d.inodes, Temp(id), f);
    assert d'.dir == Renamed(d.dir, Temp(id), f);
    forall n: Name | Visible(n) && n != f ensures SameEntry(d, d', n) {}
  }

  lemma FinishEffect(d: Drop, id: string, io: Io)
    requires Sound(d) && id in d.uploads
    ensures var (d', ack) := Finish(d, id, io);
            && Local(d, d', id) && id !in d'.uploads && ack.Some? && ack.value.id == id
            && (if ack.value.ok then Publishes(d, d', d.uploads[id].final, Content(d, id)) else SameVisible(d, d'))
  {
    var (d', ack) := Finish(d, id, io);
    assert UploadSound(d.dir, d.inodes, id, d.uploads[id]);
    if ack.value.ok {
      assert d'.uploads.Keys == d.uploads.Keys - {id};
      FinishDir(d, id, io);
      forall j | j != id ensures Kept(d, d', j) { FinishKeeps(d, id, io, j, 0); }
      forall i ensures KeepsSettled(d, d', i) { FinishKeeps(d, id, io, "", i); }
      LocalIsSound(d, d', id);
    } else {
      ForgetEffect(d, id, true);
    }
  }

  function FinalName(d: Drop, c: Chunk): Name {
    if c.id in d.uploads then d.uploads[c.id].final else Entry(Sanitize(c.filename))
  }

  /**
   What one chunk can do. Without an answer the data was appended and the upload stays open. A refusal
   leaves no open upload and no change among the visible files. A success publishes exactly the bytes
   received for this upload; it needs an open upload or a chunk that carries a file name.
   */
  ghost predicate Outcome(d: Drop, d': Drop, ack: Option<Ack>, c: Chunk) {
    && Local(d, d', c.id)
    && match ack
       case None =>
         && !c.done && SameVisible(d, d') && c.id in d'.uploads
         && (c.id in d.uploads || c.filename != "")
         && d'.uploads[c.id].final == FinalName(d, c)
         && Content(d', c.id) == Content(d, c.id) + c.data
       case Some(a) =>
         && a.id == c.id && c.id !in d'.uploads
         && (if a.ok then c.done && (c.id in d.uploads || c.filename != "")
                          && Publishes(d, d', FinalName(d, c), Content(d, c.id) + c.data)
             else SameVisible(d, d'))
  }

  lemma PublishesAfter(d: Drop, d1: Drop, d2: Drop, f: Name, bytes: Bytes)
    requires SameVisible(d, d1) && Publishes(d1, d2, f, bytes)
    ensures Publishes(d, d2, f, bytes)
  {
    forall n: Name | Visible(n) && n != f ensures SameEntry(d, d2, n) {
      assert SameEntry(d, d1, n) && SameEntry(d1, d2, n);
    }
  }

  lemma OpenUploadOutcome(d: Drop, c: Chunk, io: Io)
    requires Sound(d) && c.id in d.uploads
    ensures Outcome(d, HandleChunk(d, c, io).0, HandleChunk(d, c, io).1, c)
  {
    WriteEffect(d, c.id, c.data, io);
    var (d2, ack) := Write(d, c.id, c.data, io);
    if ack.None? && c.done {
      FinishEffect(d2, c.id, io);
      var (d3, ack3) := Finish(d2, c.id, io);
      LocalTwice(d, d2, d3, c.id);
      if ack3.value.ok {
        PublishesAfter(d, d2, d3, d2.uploads[c.id].final, Content(d2, c.id));
      }
    }
  }

  lemma OutcomeAfterOpening(d: Drop, d1: Drop, d2: Drop, ack: Option<Ack>, c: Chunk)
    requires c.id !in d.uploads && c.filename != "" && Local(d, d1, c.id) && SameVisible(d, d1)
    requires c.id in d1.uploads && Content(d1, c.id) == [] && d1.uploads[c.id].final == Entry(Sanitize(c.filename))
    requires Outcome(d1, d2, ack, c)
    ensures Outcome(d, d2, ack, c)
  {
    LocalTwice(d, d1, d2, c.id);
    if ack.Some? && ack.value.ok {
      PublishesAfter(d, d1, d2, FinalName(d, c), c.data);
    }
  }

  lemma SelfIsLocal(d: Drop, id: string)
    requires Sound(d)
    ensures Local(d, d, id) && SameVisible(d, d)
  {
    forall j | j != id ensures Kept(d, d, j) {
      assert j in d.uploads ==> UploadSound(d.dir, d.inodes, j, d.uploads[j]);
    }
  }

  lemma ChunkOutcome(d: Drop, c: Chunk, io: Io)
    requires Sound(d) && IsRequestID(c.id) && Visible(Entry(Sanitize(c.filename)))
    ensures Outcome(d, HandleChunk(d, c, io).0, HandleChunk(d, c, io).1, c)
  {
    if c.id in d.uploads {
      OpenUploadOutcome(d, c, io);
    } else if Refusal(d, c.filename, io).Some? {
      SelfIsLocal(d, c.id);
    } else {
      NewUploadOutcome(d, c, io);
    }
  }

  lemma NewUploadOutcome(d: Drop, c: Chunk, io: Io)
    requires Sound(d) && IsRequestID(c.id) && Visible(Entry(Sanitize(c.filename)))
    requires c.id !in d.uploads && Refusal(d, c.filename, io).None?
    ensures Outcome(d, HandleChunk(d, c, io).0, HandleChunk(d, c, io).1, c)
  {
    OpenedEffect(d, c.id, c.filename);
    var d1 := Opened(d, c.id, c.filename);
    OpenUploadOutcome(d1, c, io);
    OpenedFirst(d, c, io);
    OutcomeAfterOpening(d, d1, HandleChunk(d1, c, io).0, HandleChunk(d1, c, io).1, c);
  }

  /** The first chunk is handled like any other once the upload is open. */
  lemma OpenedFirst(d: Drop, c: Chunk, io: Io)
    requires c.id !in d.uploads && Refusal(d, c.filename, io).None?
    ensures HandleChunk(d, c, io) == HandleChunk(Opened(d, c.id, c.filename), c, io)
  {
  }

  // ---- when a chunk fails, and what it leaves behind ----

  /** The chunk would start an upload, and may not: no slot, no usable name, or the file cannot be opened. */
  predicate NotOpened(d: Drop, c: Chunk, io: Io) {
    c.id !in d.uploads && (|d.uploads| >= 10 || c.filename == "" || Sanitize(c.filename) == "" || !io.openOk)
  }

  function WhyNot(d: Drop, c: Chunk): string {
    if |d.uploads| == 10 then "too many concurrent uploads"
    else if c.filename == "" then "no filename provided"
    else if Sanitize(c.filename) == "" then "invalid filename"
    else "file operation failed"
  }

  predicate TooLong(d: Drop, c: Chunk) {
    |Content(d, c.id)| + |c.data| > 100 * 1024 * 1024
  }

  predicate WritesShort(c: Chunk, io: Io) {
    io.written < |c.data|
  }

  /** How the agent answers a chunk, and whether the upload's temporary file is there afterwards. */
  ghost predicate Answered(d: Drop, c: Chunk, io: Io, d': Drop, ack: Option<Ack>) {
    if NotOpened(d, c, io) then ack == Some(Ack(c.id, false, WhyNot(d, c))) && d' == d
    else if TooLong(d, c) then ack == Some(Ack(c.id, false, "file size limit exceeded")) && Temp(c.id) !in d'.dir
    else if WritesShort(c, io) then ack == Some(Ack(c.id, false, "file operation failed")) && Temp(c.id) in d'.dir
    else if !c.done then ack.None? && Temp(c.id) in d'.dir
    else ack.Some? && ack.value.ok == io.renameOk && Temp(c.id) !in d'.dir
  }

  /**
   For every chunk and every answer of the operating system: what the agent replies, and that the temporary
   file stays exactly while the upload is open or after a failed write.
   */
  lemma ChunkAnswer(d: Drop, c: Chunk, io: Io)
    requires Sound(d) && IsRequestID(c.id) && Visible(Entry(Sanitize(c.filename)))
    ensures Answered(d, c, io, HandleChunk(d, c, io).0, HandleChunk(d, c, io).1)
  {
    if c.id in d.uploads {
      OpenUploadAnswer(d, c, io);
    } else if !NotOpened(d, c, io) {
      OpenedEffect(d, c.id, c.filename);
      OpenedFirst(d, c, io);
      OpenUploadAnswer(Opened(d, c.id, c.filename), c, io);
    }
  }

  lemma OpenUploadAnswer(d: Drop, c: Chunk, io: Io)
    requires Sound(d) && c.id in d.uploads
    ensures Answered(d, c, io, HandleChunk(d, c, io).0, HandleChunk(d, c, io).1)
  {
    assert UploadSound(d.dir, d.inodes, c.id, d.uploads[c.id]);
    var (d1, ack) := Write(d, c.id, c.data, io);
    if ack.None? && c.done {
      FinishAnswer(d1, c.id, io);
    }
  }

  /** A temporary file that an earlier failure left behind is emptied and used again: the same inode, and no other. */
  lemma LeftoverIsTruncated(d: Drop, c: Chunk, io: Io)
    requires Sound(d) && IsRequestID(c.id) && c.id !in d.uploads && !NotOpened(d, c, io) && Temp(c.id) in d.dir
    requires c.data == [] && !c.done
    ensures var d' := HandleChunk(d, c, io).0;
            d'.dir == d.dir && d'.inodes == d.inodes[d.dir[Temp(c.id)] := []] && d'.uploads[c.id].fd == d.dir[Temp(c.id)]
  {
  }

  lemma FinishAnswer(d: Drop, id: string, io: Io)
    requires id in d.uploads && Temp(id) in d.dir && d.uploads[id].final != Temp(id)
    ensures var (d', ack) := Finish(d, id, io); ack.Some? && ack.value.ok == io.renameOk && Temp(id) !in d'.dir
  {
  }

  /** After Cleanup nothing is open, and neither a visible file nor a published inode has changed. */
  lemma CleanupEffect(d: Drop)
    requires Sound(d)
    ensures var d' := CleanedUp(d);
            && Sound(d') && d'.uploads == map[] && SameVisible(d, d')
            && (forall i :: KeepsSettled(d, d', i))
            && (forall id :: Temp(id) in d'.dir <==> Temp(id) in d.dir && id !in d.uploads)
  {
    var d' := CleanedUp(d);
    forall n: Name | Visible(n) ensures SameEntry(d, d', n) {}
    forall i ensures KeepsSettled(d, d', i) {}
  }
}
