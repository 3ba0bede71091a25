/**
 What holds in every state of the lockfile store, and that every step keeps it.
 */
module LockStoreInvariant {
  import opened Basics
  import opened CiteRecords
  import opened LockStore

  // ----- what the document should be -----

  /** The document after applying upserts in order. */
  ghost function Replay(base: Option<Doc>, log: seq<Upsertion>): Option<Doc> {
    if base.None? then None
    else if log == [] then base
    else Some(Upsert(Replay(base, log[..|log| - 1]).value, log[|log| - 1].rec))
  }

  ghost function Current(s: State): Option<Doc> {
    Replay(s.base, s.published)
  }

  ghost function Pids(log: seq<Upsertion>): seq<Pid> {
    seq(|log|, i requires 0 <= i < |log| => log[i].pid)
  }

  /** The members of `chosen`, in the order of `order`. */
  ghost function Select(order: seq<Pid>, chosen: set<Pid>): seq<Pid> {
    if order == [] then []
    else
      var last := order[|order| - 1];
      Select(order[..|order| - 1], chosen) + if last in chosen then [last] else []
  }

  ghost function Publishers(s: State): set<Pid> {
    set p | p in Pids(s.published)
  }

  // ----- the invariant -----

  /** The process is inside its critical section. */
  predicate Holds(pc: Pc) {
    pc.Locked? || pc.HaveDoc? || pc.Writing? || pc.Renaming? || pc.Releasing? || pc.Unlinking?
  }

  ghost predicate ProcLock(owner: Option<Pid>, pid: Pid, p: Proc) {
    && (Holds(p.pc) ==> owner == Some(pid) && !p.closure.NoClosure?)
    && (p.closure.Armed? ==> Holds(p.pc) || p.pc.Crashed?)
    && (p.closure.Released? ==> p.pc.Unlinking? || p.pc.Finished? || p.pc.Crashed?)
    && (p.pc.Unlinking? ==> p.closure.Released?)
  }

  ghost predicate LockInv(s: State) {
    && s.lockDir == s.owner.Some?
    && (forall p :: p in s.procs ==> ProcLock(s.owner, p, s.procs[p]))
    && (s.owner.Some? ==> s.acquired != [] && s.acquired[|s.acquired| - 1] == s.owner.value)
  }

  ghost predicate FileInv(c: Codec, s: State) {
    && (s.path.None? ==> s.published == [] && s.base == Some([]))
    && (s.base.None? ==> s.published == [])
    && (s.path.Some? ==> s.path.value in s.linked && s.linked[s.path.value] == |s.published|)
    && (forall i :: i in s.linked ==>
          && i in s.data && s.linked[i] <= |s.published| && (s.linked[i] > 0 ==> s.data[i] != "")
          && ReadDoc(c, s.data[i]) == Replay(s.base, s.published[..s.linked[i]]))
  }

  ghost predicate ProcInv(c: Codec, s: State, pid: Pid)
    requires pid in s.procs
  {
    var p := s.procs[pid];
    match p.pc
    case HaveDoc(doc) => Current(s) == Some(doc)
    case Writing(temp, out, written) =>
      && Current(s).Some? && out == c.encode(Upsert(Current(s).value, p.rec)) && written <= |out|
      && temp in s.data && temp !in s.linked && s.data[temp] == out[..written]
    case Renaming(temp) =>
      && Current(s).Some? && temp in s.data && temp !in s.linked
      && s.data[temp] == c.encode(Upsert(Current(s).value, p.rec))
    case _ => true
  }

  ghost predicate ReaderInv(s: State, r: nat)
    requires r in s.readers
  {
    var rd := s.readers[r];
    && rd.inode in s.linked && s.linked[rd.inode] == rd.seen && rd.inode in s.data
    && rd.got <= s.data[rd.inode]
    && (rd.closed ==> rd.got == s.data[rd.inode])
  }

  predicate Succeeded(pc: Pc) {
    (pc.Releasing? || pc.Unlinking? || pc.Finished?) && pc.ok
  }

  /** What a process's result says about the log, and the other way round. */
  ghost predicate ProcLog(publishers: set<Pid>, pid: Pid, p: Proc) {
    && (Succeeded(p.pc) ==> pid in publishers)
    && (pid in publishers ==> Succeeded(p.pc) || p.pc.Crashed?)
  }

  ghost predicate LogInv(s: State) {
    && (forall i, j :: 0 <= i < j < |s.acquired| ==> s.acquired[i] != s.acquired[j])
    && (forall p :: p in s.acquired ==> p in s.procs && !s.procs[p].closure.NoClosure?)
    && Pids(s.published) == Select(s.acquired, Publishers(s))
    && (forall p :: p in s.procs ==> ProcLog(Publishers(s), p, s.procs[p]))
    && (forall k :: 0 <= k < |s.published| ==> s.published[k].pid in s.procs && s.procs[s.published[k].pid].rec == s.published[k].rec)
  }

  ghost predicate FilesInv(c: Codec, s: State) {
    && FileInv(c, s)
    && (forall p :: p in s.procs ==> ProcInv(c, s, p))
    && (forall r :: r in s.readers ==> ReaderInv(s, r))
  }

  ghost predicate Inv(c: Codec, s: State) {
    LockInv(s) && FilesInv(c, s) && LogInv(s)
  }

  /** Nobody is there yet; the document may be absent, empty, valid or malformed. */
  ghost predicate Init(c: Codec, s: State) {
    && !s.lockDir && s.procs == map[] && s.readers == map[]
    && s.owner == None && s.acquired == [] && s.published == []
    && (s.path.None? ==> s.linked == map[])
    && (s.path.Some? ==> s.path.value in s.data && s.linked == map[s.path.value := 0])
    && s.base == OnDisk(c, s)
  }

  lemma {:induction false} InitInv(c: Codec, s: State)
    requires Init(c, s)
    ensures Inv(c, s)
  {
  }

  // ----- every step keeps the lock -----

  lemma SetProcKeepsLock(s: State, pid: Pid, p: Proc)
    requires LockInv(s) && ProcLock(s.owner, pid, p)
    ensures LockInv(SetProc(s, pid, p))
  {
  }

  lemma AcquireKeepsLock(s: State, pid: Pid)
    requires LockInv(s) && At(s, pid) && !s.lockDir
    ensures LockInv(DoAcquire(s, pid))
  {
    var s' := DoAcquire(s, pid);
    forall p | p in s'.procs ensures ProcLock(s'.owner, p, s'.procs[p]) {
      if p != pid {
        assert ProcLock(s.owner, p, s.procs[p]);
      }
    }
  }

  lemma RemoveKeepsLock(s: State, pid: Pid)
    requires LockInv(s) && At(s, pid) && s.procs[pid].pc.Unlinking?
    ensures LockInv(DoRemoveLock(s, pid))
  {
    var s' := DoRemoveLock(s, pid);
    assert ProcLock(s.owner, pid, s.procs[pid]);
    forall p | p in s'.procs ensures ProcLock(s'.owner, p, s'.procs[p]) {
      if p != pid {
        assert ProcLock(s.owner, p, s.procs[p]);
      }
    }
  }

  lemma GotoKeepsLock(s: State, pid: Pid, pc: Pc)
    requires LockInv(s) && At(s, pid)
    requires Holds(pc) ==> Holds(s.procs[pid].pc)
    requires s.procs[pid].closure.Armed? ==> Holds(pc) || pc.Crashed?
    requires s.procs[pid].closure.Released? ==> pc.Finished? || pc.Crashed?
    requires !pc.Unlinking?
    ensures LockInv(Goto(s, pid, pc))
  {
    assert ProcLock(s.owner, pid, s.procs[pid]);
    SetProcKeepsLock(s, pid, s.procs[pid].(pc := pc));
  }

  /** The lock does not depend on files and their history. */
  lemma LockIgnoresFiles(s: State, s': State)
    requires LockInv(s)
    requires s'.lockDir == s.lockDir && s'.owner == s.owner && s'.acquired == s.acquired && s'.procs == s.procs
    ensures LockInv(s')
  {
  }

  lemma OutsideKeepsLock(c: Codec, s: State, step: Step)
    requires LockInv(s) && Enabled(c, s, step) && (step.Spawn? || step.LockBusy? || step.LockError? || step.ReadFile? || step.ReadFails?)
    ensures LockInv(Do(c, s, step))
  {
    match step {
      case Spawn(pid, rec) => SetProcKeepsLock(s, pid, Proc(rec, Acquiring(0), NoClosure));
      case LockBusy(pid) =>
        assert ProcLock(s.owner, pid, s.procs[pid]);
        GotoKeepsLock(s, pid, DoLockBusy(s, pid).procs[pid].pc);
      case LockError(pid) =>
        assert ProcLock(s.owner, pid, s.procs[pid]);
        GotoKeepsLock(s, pid, Finished(false));
      case ReadFile(pid) =>
        assert ProcLock(s.owner, pid, s.procs[pid]);
        GotoKeepsLock(s, pid, HaveDoc(OnDisk(c, s).value));
      case ReadFails(pid) =>
        assert ProcLock(s.owner, pid, s.procs[pid]);
        GotoKeepsLock(s, pid, Releasing(false));
    }
  }

  lemma PublishKeepsLock(c: Codec, s: State, step: Step)
    requires LockInv(s) && Enabled(c, s, step)
    requires step.CreateTemp? || step.WriteSome? || step.CloseTemp? || step.PublishFails? || step.Rename?
    ensures LockInv(Do(c, s, step))
  {
    var s' := Do(c, s, step);
    var pid := step.pid;
    assert ProcLock(s.owner, pid, s.procs[pid]);
    GotoKeepsLock(s, pid, s'.procs[pid].pc);
    LockIgnoresFiles(Goto(s, pid, s'.procs[pid].pc), s');
  }

  lemma LeavingKeepsLock(c: Codec, s: State, step: Step)
    requires LockInv(s) && Enabled(c, s, step) && (step.CallRelease? || step.RemoveLockFails? || step.Crash?)
    ensures LockInv(Do(c, s, step))
  {
    var pid := step.pid;
    assert ProcLock(s.owner, pid, s.procs[pid]);
    match step {
      case CallRelease(_) =>
        if !s.procs[pid].closure.Released? {
          SetProcKeepsLock(s, pid, s.procs[pid].(pc := Unlinking(s.procs[pid].pc.ok), closure := Released));
        }
      case RemoveLockFails(_) => GotoKeepsLock(s, pid, Finished(s.procs[pid].pc.ok));
      case Crash(_) => GotoKeepsLock(s, pid, Crashed);
    }
  }

  lemma StepKeepsLock(c: Codec, s: State, step: Step)
    requires LockInv(s) && Enabled(c, s, step)
    ensures LockInv(Do(c, s, step))
  {
    if step.Open? || step.ReadChunk? || step.CloseReader? {
      LockIgnoresFiles(s, Do(c, s, step));
    } else if step.Acquire? {
      AcquireKeepsLock(s, step.pid);
    } else if step.RemoveLock? {
      RemoveKeepsLock(s, step.pid);
    } else if step.CallRelease? || step.RemoveLockFails? || step.Crash? {
      LeavingKeepsLock(c, s, step);
    } else if step.Spawn? || step.LockBusy? || step.LockError? || step.ReadFile? || step.ReadFails? {
      OutsideKeepsLock(c, s, step);
    } else {
      PublishKeepsLock(c, s, step);
    }
  }

  // ----- every step keeps the files -----

  ghost predicate SameFiles(s: State, s': State) {
    && s'.path == s.path && s'.data == s.data && s'.readers == s.readers
    && s'.base == s.base && s'.published == s.published && s'.linked == s.linked
  }

  /** One process moves; no file changes. */
  lemma MoveKeepsFiles(c: Codec, s: State, s': State, pid: Pid)
    requires FilesInv(c, s) && SameFiles(s, s')
    requires pid in s'.procs && s'.procs == s.procs[pid := s'.procs[pid]] && ProcInv(c, s', pid)
    ensures FilesInv(c, s')
  {
    forall p | p in s'.procs ensures ProcInv(c, s', p) {
      if p != pid {
        assert ProcInv(c, s, p);
      }
    }
    forall r | r in s'.readers ensures ReaderInv(s', r) {
      assert ReaderInv(s, r);
    }
  }

  lemma ReadKeepsFiles(c: Codec, s: State, pid: Pid)
    requires FilesInv(c, s) && At(s, pid) && OnDisk(c, s).Some?
    ensures FilesInv(c, Goto(s, pid, HaveDoc(OnDisk(c, s).value)))
  {
    assert s.published[..|s.published|] == s.published;
    assert Current(s) == OnDisk(c, s);
    MoveKeepsFiles(c, s, Goto(s, pid, HaveDoc(OnDisk(c, s).value)), pid);
  }

  /** Only one process at a time works on a new document. */
  ghost predicate SoleWriter(s: State, pid: Pid) {
    forall p :: p in s.procs && p != pid ==> !TempWork(s.procs[p].pc)
  }

  lemma HolderIsSoleWriter(s: State, pid: Pid)
    requires LockInv(s) && At(s, pid) && TempWork(s.procs[pid].pc)
    ensures SoleWriter(s, pid)
  {
    assert ProcLock(s.owner, pid, s.procs[pid]);
    forall p | p in s.procs && p != pid ensures !TempWork(s.procs[p].pc) {
      assert ProcLock(s.owner, p, s.procs[p]);
    }
  }

  /** The writer may do as it likes with files that were never linked. */
  lemma TempKeepsFiles(c: Codec, s: State, s': State, pid: Pid)
    requires FilesInv(c, s) && At(s, pid) && SoleWriter(s, pid)
    requires s'.path == s.path && s'.readers == s.readers
    requires s'.base == s.base && s'.published == s.published && s'.linked == s.linked
    requires pid in s'.procs && s'.procs == s.procs[pid := s'.procs[pid]] && ProcInv(c, s', pid)
    requires forall i :: i in s.linked ==> i in s'.data && s'.data[i] == s.data[i]
    ensures FilesInv(c, s')
  {
    forall p | p in s'.procs ensures ProcInv(c, s', p) {
      if p != pid {
        assert !TempWork(s.procs[p].pc);
      }
    }
    forall r | r in s'.readers ensures ReaderInv(s', r) {
      assert ReaderInv(s, r);
    }
  }

  lemma CreateTempKeepsFiles(c: Codec, s: State, pid: Pid, inode: Inode)
    requires FilesInv(c, s) && At(s, pid) && s.procs[pid].pc.HaveDoc? && SoleWriter(s, pid) && inode !in s.data
    ensures FilesInv(c, DoCreateTemp(c, s, pid, inode))
  {
    assert ProcInv(c, s, pid);
    assert inode !in s.linked;
    TempKeepsFiles(c, s, DoCreateTemp(c, s, pid, inode), pid);
  }

  /** After a write the temp file again holds the written part of the document. */
  lemma WriterKeepsOwn(c: Codec, s: State, pid: Pid, n: nat)
    requires At(s, pid) && ProcInv(c, s, pid) && s.procs[pid].pc.Writing?
    requires s.procs[pid].pc.written + n <= |s.procs[pid].pc.out|
    ensures pid in DoWrite(s, pid, n).procs && ProcInv(c, DoWrite(s, pid, n), pid)
  {
    var pc := s.procs[pid].pc;
    assert pc.out[..pc.written] + pc.out[pc.written..pc.written + n] == pc.out[..pc.written + n];
  }

  lemma {:induction false} WriteKeepsFiles(c: Codec, s: State, pid: Pid, n: nat)
    requires FilesInv(c, s) && At(s, pid) && s.procs[pid].pc.Writing? && SoleWriter(s, pid)
    requires s.procs[pid].pc.temp in s.data && s.procs[pid].pc.written + n <= |s.procs[pid].pc.out|
    ensures FilesInv(c, DoWrite(s, pid, n))
  {
    WriterKeepsOwn(c, s, pid, n);
    TempKeepsFiles(c, s, DoWrite(s, pid, n), pid);
  }

  lemma PublishFailsKeepsFiles(c: Codec, s: State, pid: Pid, removed: bool)
    requires FilesInv(c, s) && At(s, pid) && TempWork(s.procs[pid].pc) && SoleWriter(s, pid)
    ensures FilesInv(c, DoPublishFails(s, pid, removed))
  {
    assert ProcInv(c, s, pid);
    TempKeepsFiles(c, s, DoPublishFails(s, pid, removed), pid);
  }

  lemma CloseTempKeepsFiles(c: Codec, s: State, pid: Pid)
    requires FilesInv(c, s) && At(s, pid) && s.procs[pid].pc.Writing? && s.procs[pid].pc.written == |s.procs[pid].pc.out|
    ensures FilesInv(c, Goto(s, pid, Renaming(s.procs[pid].pc.temp)))
  {
    assert ProcInv(c, s, pid);
    assert s.procs[pid].pc.out[..s.procs[pid].pc.written] == s.procs[pid].pc.out;
    MoveKeepsFiles(c, s, Goto(s, pid, Renaming(s.procs[pid].pc.temp)), pid);
  }

  lemma {:induction false} RenameKeepsFile(c: Codec, s: State, pid: Pid)
    requires Faithful(c) && FilesInv(c, s) && At(s, pid) && s.procs[pid].pc.Renaming?
    ensures FileInv(c, DoRename(s, pid))
  {
    var s' := DoRename(s, pid);
    var temp := s.procs[pid].pc.temp;
    assert ProcInv(c, s, pid);
    assert s'.published[..|s.published|] == s.published;
    forall i | i in s'.linked
      ensures i in s'.data && s'.linked[i] <= |s'.published| && (s'.linked[i] > 0 ==> s'.data[i] != "")
      ensures ReadDoc(c, s'.data[i]) == Replay(s'.base, s'.published[..s'.linked[i]])
    {
      if i == temp {
        assert s'.published[..s'.linked[i]] == s'.published;
      } else {
        assert s'.published[..s'.linked[i]] == s.published[..s.linked[i]];
      }
    }
  }

  /** The rename links a complete encoding of the next document. */
  lemma {:induction false} RenameKeepsFiles(c: Codec, s: State, pid: Pid)
    requires Faithful(c) && FilesInv(c, s) && At(s, pid) && s.procs[pid].pc.Renaming? && SoleWriter(s, pid)
    ensures FilesInv(c, DoRename(s, pid))
  {
    var s' := DoRename(s, pid);
    RenameKeepsFile(c, s, pid);
    forall p | p in s'.procs ensures ProcInv(c, s', p) {
      if p != pid {
        assert !TempWork(s.procs[p].pc);
      }
    }
    forall r | r in s'.readers ensures ReaderInv(s', r) {
      assert ReaderInv(s, r);
      assert ProcInv(c, s, pid);
    }
  }

  lemma ReaderMoveKeepsFiles(c: Codec, s: State, r: nat, rd: Reader)
    requires FilesInv(c, s)
    requires ReaderInv(s.(readers := s.readers[r := rd]), r)
    ensures FilesInv(c, s.(readers := s.readers[r := rd]))
  {
    var s' := s.(readers := s.readers[r := rd]);
    forall p | p in s'.procs ensures ProcInv(c, s', p) {
      assert ProcInv(c, s, p);
    }
    forall q | q in s'.readers ensures ReaderInv(s', q) {
      if q != r {
        assert ReaderInv(s, q);
      }
    }
  }

  lemma ReaderStepKeepsFiles(c: Codec, s: State, step: Step)
    requires FilesInv(c, s) && Enabled(c, s, step) && (step.Open? || step.ReadChunk? || step.CloseReader?)
    ensures FilesInv(c, Do(c, s, step))
  {
    if !step.Open? {
      assert ReaderInv(s, step.reader);
    }
    ReaderMoveKeepsFiles(c, s, step.reader, Do(c, s, step).readers[step.reader]);
  }

  lemma OtherStepKeepsFiles(c: Codec, s: State, step: Step)
    requires FilesInv(c, s) && Enabled(c, s, step)
    requires step.Spawn? || step.Acquire? || step.LockBusy? || step.LockError? || step.ReadFails?
          || step.CallRelease? || step.RemoveLock? || step.RemoveLockFails? || step.Crash?
    ensures FilesInv(c, Do(c, s, step))
  {
    var s' := Do(c, s, step);
    if !(step.CallRelease? && s' == s) {
      MoveKeepsFiles(c, s, s', step.pid);
    }
  }

  lemma StepKeepsFiles(c: Codec, s: State, step: Step)
    requires Faithful(c) && LockInv(s) && FilesInv(c, s) && Enabled(c, s, step)
    ensures FilesInv(c, Do(c, s, step))
  {
    if step.Open? || step.ReadChunk? || step.CloseReader? {
      ReaderStepKeepsFiles(c, s, step);
    } else if step.ReadFile? {
      ReadKeepsFiles(c, s, step.pid);
    } else if step.CloseTemp? {
      CloseTempKeepsFiles(c, s, step.pid);
    } else if step.CreateTemp? || step.WriteSome? || step.PublishFails? || step.Rename? {
      HolderIsSoleWriter(s, step.pid);
      match step {
        case CreateTemp(pid, inode) => CreateTempKeepsFiles(c, s, pid, inode);
        case WriteSome(pid, n) => WriteKeepsFiles(c, s, pid, n);
        case PublishFails(pid, removed) => PublishFailsKeepsFiles(c, s, pid, removed);
        case Rename(pid) => RenameKeepsFiles(c, s, pid);
      }
    } else {
      OtherStepKeepsFiles(c, s, step);
    }
  }

  // ----- every step keeps the log -----

  lemma MoveKeepsLog(s: State, s': State, pid: Pid)
    requires LogInv(s) && s'.acquired == s.acquired && s'.published == s.published
    requires pid in s'.procs && s'.procs == s.procs[pid := s'.procs[pid]]
    requires ProcLog(Publishers(s), pid, s'.procs[pid])
    requires pid in s.procs ==> s'.procs[pid].rec == s.procs[pid].rec
    requires pid in s.procs && s'.procs[pid].closure.NoClosure? ==> s.procs[pid].closure.NoClosure?
    ensures LogInv(s')
  {
    assert Publishers(s') == Publishers(s);
  }

  lemma AcquireKeepsLog(s: State, pid: Pid)
    requires LogInv(s) && At(s, pid) && s.procs[pid].pc.Acquiring? && s.procs[pid].closure.NoClosure?
    ensures LogInv(DoAcquire(s, pid))
  {
    var s' := DoAcquire(s, pid);
    assert s'.acquired[..|s.acquired|] == s.acquired;
    assert Publishers(s') == Publishers(s);
    assert ProcLog(Publishers(s), pid, s.procs[pid]);
    assert pid !in s.acquired;
    assert Select(s'.acquired, Publishers(s)) == Select(s.acquired, Publishers(s));
  }

  lemma {:induction false} SelectAbsent(order: seq<Pid>, chosen: set<Pid>, p: Pid)
    requires p !in order
    ensures Select(order, chosen + {p}) == Select(order, chosen)
  {
    if order != [] {
      SelectAbsent(order[..|order| - 1], chosen, p);
    }
  }

  lemma SelectLast(order: seq<Pid>, chosen: set<Pid>, p: Pid)
    requires order != [] && order[|order| - 1] == p && p !in chosen && p !in order[..|order| - 1]
    ensures Select(order, chosen + {p}) == Select(order, chosen) + [p]
  {
    SelectAbsent(order[..|order| - 1], chosen, p);
  }

  lemma RenameKeepsLog(s: State, pid: Pid)
    requires LogInv(s) && At(s, pid) && s.procs[pid].pc.Renaming?
    requires s.acquired != [] && s.acquired[|s.acquired| - 1] == pid
    ensures LogInv(DoRename(s, pid))
  {
    var s' := DoRename(s, pid);
    assert Pids(s'.published) == Pids(s.published) + [pid];
    assert Publishers(s') == Publishers(s) + {pid};
    assert ProcLog(Publishers(s), pid, s.procs[pid]);
    SelectLast(s.acquired, Publishers(s), pid);
    forall p | p in s'.procs ensures ProcLog(Publishers(s'), p, s'.procs[p]) {
      if p != pid {
        assert ProcLog(Publishers(s), p, s.procs[p]);
      }
    }
  }

  lemma OtherStepKeepsLog(c: Codec, s: State, step: Step)
    requires LogInv(s) && Enabled(c, s, step)
    requires !(step.Open? || step.ReadChunk? || step.CloseReader? || step.Acquire? || step.Rename?)
    ensures LogInv(Do(c, s, step))
  {
    var s' := Do(c, s, step);
    var pid := step.pid;
    if pid in s.procs {
      assert ProcLog(Publishers(s), pid, s.procs[pid]);
    }
    if !(step.CallRelease? && s' == s) {
      MoveKeepsLog(s, s', pid);
    }
  }

  lemma StepKeepsLog(c: Codec, s: State, step: Step)
    requires LockInv(s) && LogInv(s) && Enabled(c, s, step)
    ensures LogInv(Do(c, s, step))
  {
    if step.Open? || step.ReadChunk? || step.CloseReader? {
      assert Publishers(Do(c, s, step)) == Publishers(s);
    } else if step.Acquire? {
      assert ProcLock(s.owner, step.pid, s.procs[step.pid]);
      AcquireKeepsLog(s, step.pid);
    } else if step.Rename? {
      assert ProcLock(s.owner, step.pid, s.procs[step.pid]);
      RenameKeepsLog(s, step.pid);
    } else {
      OtherStepKeepsLog(c, s, step);
    }
  }

  lemma StepKeepsInv(c: Codec, s: State, step: Step)
    requires Faithful(c) && Inv(c, s) && Enabled(c, s, step)
    ensures Inv(c, Do(c, s, step))
  {
    StepKeepsLock(c, s, step);
    StepKeepsFiles(c, s, step);
    StepKeepsLog(c, s, step);
  }
}
