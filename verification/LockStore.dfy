/**
 The lockfile store as a state machine over a small filesystem: any number of
 upserting processes and lock-free readers, interleaved one system call at a
 time, each of which may crash between any two calls.

 Files are inodes: a rename links the document path to another inode, and a
 reader that opened the old one keeps reading it.
 */
module LockStore {
  import opened Basics
  import opened CiteRecords

  type Pid = nat
  type Inode = nat
  type Bytes = string

  const LOCK_ATTEMPTS: nat := 50

  /** JSON: what is encoded is never empty and decodes to itself. */
  datatype Codec = Codec(encode: Doc -> Bytes, decode: Bytes -> Option<Doc>)

  ghost predicate Faithful(c: Codec) {
    forall d :: c.encode(d) != "" && c.decode(c.encode(d)) == Some(d)
  }

  /** A zero-byte file reads as the initial, empty document. */
  function ReadDoc(c: Codec, b: Bytes): Option<Doc> {
    if b == "" then Some([]) else c.decode(b)
  }

  /** What a lock-free reader makes of the bytes it read: an empty file does not parse. */
  function ReadLock(c: Codec, b: Bytes): Option<Doc> {
    if b == "" then None else c.decode(b)
  }

  /** Where an upsert is; `ok` is the result it will return. */
  datatype Pc =
    | Acquiring(attempt: nat)
    | Locked
    | HaveDoc(doc: Doc)
    | Writing(temp: Inode, out: Bytes, written: nat)
    | Renaming(temp: Inode)
    | Releasing(ok: bool)
    | Unlinking(ok: bool)
    | Finished(ok: bool)
    | Crashed

  /** The release function of one acquisition and its `released` flag. */
  datatype Closure = NoClosure | Armed | Released

  datatype Proc = Proc(rec: Record, pc: Pc, closure: Closure)

  /** A reader between open and close, and what it has read. */
  datatype Reader = Reader(inode: Inode, got: Bytes, closed: bool, seen: nat)

  datatype Upsertion = Upsertion(pid: Pid, rec: Record)

  datatype State = State(
    lockDir: bool,
    path: Option<Inode>,
    data: map<Inode, Bytes>,
    procs: map<Pid, Proc>,
    readers: map<nat, Reader>,
    // history, never read by a step
    base: Option<Doc>,
    owner: Option<Pid>,
    acquired: seq<Pid>,
    published: seq<Upsertion>,
    linked: map<Inode, nat>)

  datatype Step =
    | Spawn(pid: Pid, rec: Record)
    | Acquire(pid: Pid)
    | LockBusy(pid: Pid)
    | LockError(pid: Pid)
    | ReadFile(pid: Pid)
    | ReadFails(pid: Pid)
    | CreateTemp(pid: Pid, inode: Inode)
    | WriteSome(pid: Pid, n: nat)
    | CloseTemp(pid: Pid)
    | PublishFails(pid: Pid, tempRemoved: bool)
    | Rename(pid: Pid)
    | CallRelease(pid: Pid)
    | RemoveLock(pid: Pid)
    | RemoveLockFails(pid: Pid)
    | Crash(pid: Pid)
    | Open(reader: nat)
    | ReadChunk(reader: nat, n: nat)
    | CloseReader(reader: nat)

  predicate At(s: State, pid: Pid) {
    pid in s.procs
  }

  /** Between reading the document and publishing the new one. */
  predicate TempWork(pc: Pc) {
    pc.HaveDoc? || pc.Writing? || pc.Renaming?
  }

  function Goto(s: State, pid: Pid, pc: Pc): State
    requires At(s, pid)
  {
    s.(procs := s.procs[pid := s.procs[pid].(pc := pc)])
  }

  /** What the document path reads as; an absent file reads as the initial document. */
  function OnDisk(c: Codec, s: State): Option<Doc>
    requires s.path.Some? ==> s.path.value in s.data
  {
    if s.path.None? then Some([]) else ReadDoc(c, s.data[s.path.value])
  }

  predicate Enabled(c: Codec, s: State, step: Step) {
    && (s.path.Some? ==> s.path.value in s.data)
    && match step
       case Spawn(pid, _) => !At(s, pid)
       case Acquire(pid) => At(s, pid) && s.procs[pid].pc.Acquiring? && s.procs[pid].pc.attempt < LOCK_ATTEMPTS && !s.lockDir
       case LockBusy(pid) => At(s, pid) && s.procs[pid].pc.Acquiring? && s.procs[pid].pc.attempt < LOCK_ATTEMPTS && s.lockDir
       case LockError(pid) => At(s, pid) && s.procs[pid].pc.Acquiring?
       case ReadFile(pid) => At(s, pid) && s.procs[pid].pc.Locked? && OnDisk(c, s).Some?
       case ReadFails(pid) => At(s, pid) && s.procs[pid].pc.Locked?
       case CreateTemp(pid, inode) => At(s, pid) && s.procs[pid].pc.HaveDoc? && inode !in s.data
       case WriteSome(pid, n) =>
         && At(s, pid) && s.procs[pid].pc.Writing? && s.procs[pid].pc.temp in s.data
         && s.procs[pid].pc.written + n <= |s.procs[pid].pc.out|
       case CloseTemp(pid) => At(s, pid) && s.procs[pid].pc.Writing? && s.procs[pid].pc.written == |s.procs[pid].pc.out|
       case PublishFails(pid, _) => At(s, pid) && TempWork(s.procs[pid].pc)
       case Rename(pid) => At(s, pid) && s.procs[pid].pc.Renaming?
       case CallRelease(pid) =>
         && At(s, pid) && !s.procs[pid].closure.NoClosure?
         && (s.procs[pid].pc.Releasing? || s.procs[pid].pc.Unlinking? || s.procs[pid].pc.Finished?)
       case RemoveLock(pid) => At(s, pid) && s.procs[pid].pc.Unlinking?
       case RemoveLockFails(pid) => At(s, pid) && s.procs[pid].pc.Unlinking?
       case Crash(pid) => At(s, pid) && !s.procs[pid].pc.Finished?
       case Open(r) => r !in s.readers && s.path.Some?
       case ReadChunk(r, n) =>
         && r in s.readers && !s.readers[r].closed && s.readers[r].inode in s.data
         && |s.readers[r].got| + n <= |s.data[s.readers[r].inode]|
       case CloseReader(r) =>
         && r in s.readers && !s.readers[r].closed && s.readers[r].inode in s.data
         && |s.readers[r].got| == |s.data[s.readers[r].inode]|
  }

  function SetProc(s: State, pid: Pid, p: Proc): State {
    s.(procs := s.procs[pid := p])
  }

  function DoAcquire(s: State, pid: Pid): State
    requires At(s, pid)
  {
    SetProc(s.(lockDir := true, owner := Some(pid), acquired := s.acquired + [pid]),
            pid, s.procs[pid].(pc := Locked, closure := Armed))
  }

  function DoLockBusy(s: State, pid: Pid): State
    requires At(s, pid) && s.procs[pid].pc.Acquiring?
  {
    var attempt := s.procs[pid].pc.attempt + 1;
    Goto(s, pid, if attempt < LOCK_ATTEMPTS then Acquiring(attempt) else Finished(false))
  }

  function DoCreateTemp(c: Codec, s: State, pid: Pid, inode: Inode): State
    requires At(s, pid) && s.procs[pid].pc.HaveDoc?
  {
    var out := c.encode(Upsert(s.procs[pid].pc.doc, s.procs[pid].rec));
    Goto(s.(data := s.data[inode := ""]), pid, Writing(inode, out, 0))
  }

  function DoWrite(s: State, pid: Pid, n: nat): State
    requires At(s, pid) && s.procs[pid].pc.Writing? && s.procs[pid].pc.temp in s.data
    requires s.procs[pid].pc.written + n <= |s.procs[pid].pc.out|
  {
    var pc := s.procs[pid].pc;
    Goto(s.(data := s.data[pc.temp := s.data[pc.temp] + pc.out[pc.written..pc.written + n]]),
         pid, pc.(written := pc.written + n))
  }

  function DoPublishFails(s: State, pid: Pid, tempRemoved: bool): State
    requires At(s, pid) && TempWork(s.procs[pid].pc)
  {
    var pc := s.procs[pid].pc;
    var data := if tempRemoved && !pc.HaveDoc? then s.data - {pc.temp} else s.data;
    Goto(s.(data := data), pid, Releasing(false))
  }

  function DoRename(s: State, pid: Pid): State
    requires At(s, pid) && s.procs[pid].pc.Renaming?
  {
    var temp := s.procs[pid].pc.temp;
    Goto(s.(path := Some(temp),
            published := s.published + [Upsertion(pid, s.procs[pid].rec)],
            linked := s.linked[temp := |s.published| + 1]),
         pid, Releasing(true))
  }

  function DoCallRelease(s: State, pid: Pid): State
    requires At(s, pid) && (s.procs[pid].pc.Releasing? || s.procs[pid].pc.Unlinking? || s.procs[pid].pc.Finished?)
  {
    if s.procs[pid].closure.Released? then s
    else SetProc(s, pid, s.procs[pid].(pc := Unlinking(s.procs[pid].pc.ok), closure := Released))
  }

  function DoRemoveLock(s: State, pid: Pid): State
    requires At(s, pid) && s.procs[pid].pc.Unlinking?
  {
    Goto(s.(lockDir := false, owner := None), pid, Finished(s.procs[pid].pc.ok))
  }

  function DoReadChunk(s: State, r: nat, n: nat): State
    requires r in s.readers && s.readers[r].inode in s.data
    requires |s.readers[r].got| + n <= |s.data[s.readers[r].inode]|
  {
    var rd := s.readers[r];
    var at := |rd.got|;
    s.(readers := s.readers[r := rd.(got := rd.got + s.data[rd.inode][at..at + n])])
  }

  function Do(c: Codec, s: State, step: Step): State
    requires Enabled(c, s, step)
  {
    match step
    case Spawn(pid, rec) => SetProc(s, pid, Proc(rec, Acquiring(0), NoClosure))
    case Acquire(pid) => DoAcquire(s, pid)
    case LockBusy(pid) => DoLockBusy(s, pid)
    case LockError(pid) => Goto(s, pid, Finished(false))
    case ReadFile(pid) => Goto(s, pid, HaveDoc(OnDisk(c, s).value))
    case ReadFails(pid) => Goto(s, pid, Releasing(false))
    case CreateTemp(pid, inode) => DoCreateTemp(c, s, pid, inode)
    case WriteSome(pid, n) => DoWrite(s, pid, n)
    case CloseTemp(pid) => Goto(s, pid, Renaming(s.procs[pid].pc.temp))
    case PublishFails(pid, tempRemoved) => DoPublishFails(s, pid, tempRemoved)
    case Rename(pid) => DoRename(s, pid)
    case CallRelease(pid) => DoCallRelease(s, pid)
    case RemoveLock(pid) => DoRemoveLock(s, pid)
    case RemoveLockFails(pid) => Goto(s, pid, Finished(s.procs[pid].pc.ok))
    case Crash(pid) => Goto(s, pid, Crashed)
    case Open(r) => s.(readers := s.readers[r := Reader(s.path.value, "", false, |s.published|)])
    case ReadChunk(r, n) => DoReadChunk(s, r, n)
    case CloseReader(r) => s.(readers := s.readers[r := s.readers[r].(closed := true)])
  }
}
