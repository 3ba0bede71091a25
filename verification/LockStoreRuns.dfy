/**
 Whole runs of the lockfile store: mutual exclusion, no lost update, no torn
 read, and what a dead holder leaves behind.
 */
module LockStoreRuns {
  import opened Basics
  import opened CiteRecords
  import opened LockStore
  import opened LockStoreInvariant

  // ----- whole runs -----

  /** The state after the given steps, if each of them is possible in its turn. */
  ghost function After(c: Codec, s0: State, steps: seq<Step>): Option<State> {
    if steps == [] then Some(s0)
    else
      var before := After(c, s0, steps[..|steps| - 1]);
      var step := steps[|steps| - 1];
      if before.Some? && Enabled(c, before.value, step) then Some(Do(c, before.value, step)) else None
  }

  lemma {:induction false} AlwaysInv(c: Codec, s0: State, steps: seq<Step>)
    requires Faithful(c) && Init(c, s0) && After(c, s0, steps).Some?
    ensures Inv(c, After(c, s0, steps).value)
    ensures After(c, s0, steps).value.base == OnDisk(c, s0)
  {
    if steps == [] {
      InitInv(c, s0);
    } else {
      AlwaysInv(c, s0, steps[..|steps| - 1]);
      StepKeepsInv(c, After(c, s0, steps[..|steps| - 1]).value, steps[|steps| - 1]);
    }
  }

  /** At most one process is inside its critical section, and then the lock directory exists. */
  lemma {:induction false} MutualExclusion(c: Codec, s0: State, steps: seq<Step>, p: Pid, q: Pid)
    requires Faithful(c) && Init(c, s0) && After(c, s0, steps).Some?
    requires var s := After(c, s0, steps).value;
             At(s, p) && At(s, q) && Holds(s.procs[p].pc) && Holds(s.procs[q].pc)
    ensures p == q && After(c, s0, steps).value.lockDir
  {
    AlwaysInv(c, s0, steps);
    var s := After(c, s0, steps).value;
    assert ProcLock(s.owner, p, s.procs[p]) && ProcLock(s.owner, q, s.procs[q]);
  }

  /**
   Whatever step makes the lock directory go away, it is its holder's own; a
   release that was already called changes nothing.
   */
  lemma {:induction false} OnlyTheHolderUnlocks(c: Codec, s0: State, steps: seq<Step>, step: Step)
    requires Faithful(c) && Init(c, s0) && After(c, s0, steps).Some?
    requires Enabled(c, After(c, s0, steps).value, step)
    ensures var s := After(c, s0, steps).value;
            && (s.lockDir && !Do(c, s, step).lockDir ==>
                  step.RemoveLock? && s.owner == Some(step.pid) && s.procs[step.pid].pc.Unlinking?)
            && (step.CallRelease? && !s.procs[step.pid].pc.Releasing? ==> Do(c, s, step) == s)
  {
    AlwaysInv(c, s0, steps);
    var s := After(c, s0, steps).value;
    if step.RemoveLock? || step.CallRelease? {
      assert ProcLock(s.owner, step.pid, s.procs[step.pid]);
    }
  }

  /**
   At every step the document on disk is the initial one with the published
   upserts applied in the order their locks were acquired; an upsert that
   returned success was applied, one that returned an error was not.
   */
  lemma {:induction false} DocumentIsReplay(c: Codec, s0: State, steps: seq<Step>)
    requires Faithful(c) && Init(c, s0) && After(c, s0, steps).Some?
    ensures var s := After(c, s0, steps).value;
            && (s.path.Some? ==> s.path.value in s.data)
            && OnDisk(c, s) == Replay(OnDisk(c, s0), s.published)
            && (OnDisk(c, s0).None? ==> s.published == [])
            && Pids(s.published) == Select(s.acquired, Publishers(s))
            && (forall k :: 0 <= k < |s.published| ==>
                  At(s, s.published[k].pid) && s.procs[s.published[k].pid].rec == s.published[k].rec)
            && (forall p :: At(s, p) && s.procs[p].pc.Finished? ==> (s.procs[p].pc.ok <==> p in Publishers(s)))
  {
    AlwaysInv(c, s0, steps);
    var s := After(c, s0, steps).value;
    assert s.published[..|s.published|] == s.published;
    forall p | At(s, p) && s.procs[p].pc.Finished? ensures s.procs[p].pc.ok <==> p in Publishers(s) {
      assert ProcLog(Publishers(s), p, s.procs[p]);
    }
  }

  lemma {:induction false} SelectDistinct(order: seq<Pid>, chosen: set<Pid>)
    requires forall i, j :: 0 <= i < j < |order| ==> order[i] != order[j]
    ensures forall p :: p in Select(order, chosen) ==> p in order
    ensures forall i, j :: 0 <= i < j < |Select(order, chosen)| ==> Select(order, chosen)[i] != Select(order, chosen)[j]
  {
    if order != [] {
      SelectDistinct(order[..|order| - 1], chosen);
      var rest := Select(order[..|order| - 1], chosen);
      forall i | 0 <= i < |rest| ensures rest[i] != order[|order| - 1] {
        assert rest[i] in rest;
      }
    }
  }

  /** No process publishes twice. */
  lemma {:induction false} PublishesOnce(c: Codec, s0: State, steps: seq<Step>, i: nat, j: nat)
    requires Faithful(c) && Init(c, s0) && After(c, s0, steps).Some?
    requires i < j < |After(c, s0, steps).value.published|
    ensures var log := After(c, s0, steps).value.published; log[i].pid != log[j].pid
  {
    AlwaysInv(c, s0, steps);
    var s := After(c, s0, steps).value;
    SelectDistinct(s.acquired, Publishers(s));
    assert Pids(s.published)[i] != Pids(s.published)[j];
  }

  /** Files that were ever linked keep their bytes, and only the first document has number 0. */
  ghost predicate LinkedKept(s: State, s': State) {
    && (forall i :: i in s.linked ==> i in s'.linked && s'.linked[i] == s.linked[i])
    && (forall i :: i in s.linked && i in s.data ==> i in s'.data && s'.data[i] == s.data[i])
    && (forall i :: i in s'.linked && s'.linked[i] == 0 ==> i in s.linked)
  }

  lemma {:induction false} RenameKeepsLinked(c: Codec, s: State, pid: Pid)
    requires At(s, pid) && s.procs[pid].pc.Renaming? && ProcInv(c, s, pid)
    ensures LinkedKept(s, DoRename(s, pid))
  {
  }

  lemma {:induction false} TempKeepsLinked(c: Codec, s: State, step: Step)
    requires Enabled(c, s, step) && (step.CreateTemp? || step.WriteSome? || step.PublishFails?) && ProcInv(c, s, step.pid)
    ensures LinkedKept(s, Do(c, s, step))
  {
  }

  lemma {:induction false} QuietStep(c: Codec, s: State, step: Step)
    requires Enabled(c, s, step) && !step.CreateTemp? && !step.WriteSome? && !step.PublishFails? && !step.Rename?
    ensures Do(c, s, step).data == s.data && Do(c, s, step).linked == s.linked
  {
  }

  lemma {:induction false} StepKeepsLinked(c: Codec, s: State, step: Step)
    requires Inv(c, s) && Enabled(c, s, step)
    ensures LinkedKept(s, Do(c, s, step))
  {
    if step.Rename? {
      RenameKeepsLinked(c, s, step.pid);
    } else if step.CreateTemp? || step.WriteSome? || step.PublishFails? {
      TempKeepsLinked(c, s, step);
    } else {
      QuietStep(c, s, step);
    }
  }

  ghost predicate FirstKept(s0: State, s: State) {
    forall i :: i in s.linked && s.linked[i] == 0 ==>
      s0.path == Some(i) && i in s0.data && i in s.data && s.data[i] == s0.data[i]
  }

  lemma {:induction false} FirstDocumentKept(c: Codec, s0: State, steps: seq<Step>)
    requires Faithful(c) && Init(c, s0) && After(c, s0, steps).Some?
    ensures FirstKept(s0, After(c, s0, steps).value)
  {
    if steps != [] {
      var prefix, step := steps[..|steps| - 1], steps[|steps| - 1];
      FirstDocumentKept(c, s0, prefix);
      AlwaysInv(c, s0, prefix);
      StepKeepsLinked(c, After(c, s0, prefix).value, step);
    }
  }

  /**
   What a lock-free reader that read to the end parses is whole: the bytes of
   the first document if that was current when it opened the file, and
   otherwise the document after the upserts published by then.
   */
  lemma {:induction false} NoTornRead(c: Codec, s0: State, steps: seq<Step>, r: nat)
    requires Faithful(c) && Init(c, s0) && After(c, s0, steps).Some?
    requires var s := After(c, s0, steps).value; r in s.readers && s.readers[r].closed
    ensures var s := After(c, s0, steps).value;
            var rd := s.readers[r];
            && rd.seen <= |s.published|
            && (rd.seen == 0 ==> s0.path.Some? && s0.path.value in s0.data && rd.got == s0.data[s0.path.value])
            && (rd.seen > 0 ==> ReadLock(c, rd.got).Some? && ReadLock(c, rd.got) == Replay(OnDisk(c, s0), s.published[..rd.seen]))
  {
    AlwaysInv(c, s0, steps);
    FirstDocumentKept(c, s0, steps);
    var s := After(c, s0, steps).value;
    assert ReaderInv(s, r);
  }

  // ----- what replaying means for records -----

  ghost predicate WrittenLater(log: seq<Upsertion>, k: int, id: string) {
    exists l :: 0 <= l < |log| && k < l && log[l].rec.id == id
  }

  lemma {:induction false} LaterInPrefix(log: seq<Upsertion>, k: int, id: string)
    requires log != [] && -1 <= k < |log| - 1
    ensures WrittenLater(log, k, id) <==> WrittenLater(log[..|log| - 1], k, id) || log[|log| - 1].rec.id == id
  {
    var prefix := log[..|log| - 1];
    if l :| 0 <= l < |prefix| && k < l && prefix[l].rec.id == id {
      assert log[l].rec.id == id;
    }
    if l :| 0 <= l < |log| && k < l && log[l].rec.id == id && l < |prefix| {
      assert prefix[l].rec.id == id;
    }
  }

  /** No lost update: an element is in the document iff nothing later wrote its id and it came from an upsert or from the start. */
  lemma {:induction false} ReplayContents(base: Doc, log: seq<Upsertion>, raw: Raw)
    ensures Replay(Some(base), log).Some?
    ensures raw in Replay(Some(base), log).value <==>
              || (raw in base && !(raw.id.Some? && WrittenLater(log, -1, raw.id.value)))
              || (exists k :: 0 <= k < |log| && raw == Encoded(log[k].rec) && !WrittenLater(log, k, log[k].rec.id))
  {
    if log != [] {
      var prefix, last := log[..|log| - 1], log[|log| - 1];
      ReplayContents(base, prefix, raw);
      var doc := Replay(Some(base), prefix).value;
      assert raw in Replay(Some(base), log).value <==> (raw in doc && raw.id != Some(last.rec.id)) || raw == Encoded(last.rec);
      if raw.id.Some? {
        LaterInPrefix(log, -1, raw.id.value);
      }
      forall k | 0 <= k < |prefix| ensures WrittenLater(log, k, log[k].rec.id) <==> WrittenLater(prefix, k, log[k].rec.id) || log[k].rec.id == last.rec.id {
        LaterInPrefix(log, k, log[k].rec.id);
      }
      if exists k :: 0 <= k < |prefix| && raw == Encoded(prefix[k].rec) && !WrittenLater(prefix, k, prefix[k].rec.id) {
        var k :| 0 <= k < |prefix| && raw == Encoded(prefix[k].rec) && !WrittenLater(prefix, k, prefix[k].rec.id);
        assert log[k] == prefix[k];
      }
      if k :| 0 <= k < |log| && raw == Encoded(log[k].rec) && !WrittenLater(log, k, log[k].rec.id) {
        if k < |prefix| {
          assert log[k] == prefix[k];
        }
      }
      assert !WrittenLater(log, |log| - 1, last.rec.id);
    }
  }

  lemma {:induction false} ReplayKeepsUnique(base: Doc, log: seq<Upsertion>)
    requires UniqueIds(base)
    ensures Replay(Some(base), log).Some? && UniqueIds(Replay(Some(base), log).value)
  {
    if log != [] {
      ReplayKeepsUnique(base, log[..|log| - 1]);
      UpsertProperties(Replay(Some(base), log[..|log| - 1]).value, log[|log| - 1].rec);
    }
  }

  /** If ids are unique in the first document, they are under every interleaving. */
  lemma {:induction false} IdsStayUnique(c: Codec, s0: State, steps: seq<Step>)
    requires Faithful(c) && Init(c, s0) && After(c, s0, steps).Some?
    requires OnDisk(c, s0).Some? && UniqueIds(OnDisk(c, s0).value)
    ensures var s := After(c, s0, steps).value;
            (s.path.Some? ==> s.path.value in s.data) && OnDisk(c, s).Some? && UniqueIds(OnDisk(c, s).value)
  {
    DocumentIsReplay(c, s0, steps);
    ReplayKeepsUnique(OnDisk(c, s0).value, After(c, s0, steps).value.published);
  }

  // ----- giving up -----

  /** How often this process found the lock taken. */
  function BusyCount(steps: seq<Step>, pid: Pid): nat {
    if steps == [] then 0
    else BusyCount(steps[..|steps| - 1], pid) + if steps[|steps| - 1] == LockBusy(pid) then 1 else 0
  }

  /** The attempt counter of a waiting process moves only when it finds the lock taken. */
  lemma {:induction false} StepAttempt(c: Codec, s: State, step: Step, pid: Pid)
    requires Enabled(c, s, step)
    ensures var s' := Do(c, s, step);
            && (At(s, pid) ==> At(s', pid))
            && (step == LockBusy(pid) ==> At(s, pid))
            && (At(s', pid) && s'.procs[pid].pc.Acquiring? ==>
                  if At(s, pid)
                  then && s.procs[pid].pc.Acquiring?
                       && s'.procs[pid].pc.attempt == s.procs[pid].pc.attempt + if step == LockBusy(pid) then 1 else 0
                  else s'.procs[pid].pc.attempt == 0)
  {
  }

  lemma {:induction false} AttemptsAreCounted(c: Codec, s0: State, steps: seq<Step>, pid: Pid)
    requires Init(c, s0) && After(c, s0, steps).Some?
    ensures var s := After(c, s0, steps).value;
            && (!At(s, pid) ==> BusyCount(steps, pid) == 0)
            && (At(s, pid) && s.procs[pid].pc.Acquiring? ==> s.procs[pid].pc.attempt == BusyCount(steps, pid))
  {
    if steps != [] {
      var prefix, step := steps[..|steps| - 1], steps[|steps| - 1];
      AttemptsAreCounted(c, s0, prefix, pid);
      StepAttempt(c, After(c, s0, prefix).value, step, pid);
    }
  }

  /** Finding the lock taken ends an upsert with an error the fiftieth time, and not before. */
  lemma {:induction false} GivesUpIff(c: Codec, s0: State, steps: seq<Step>, pid: Pid)
    requires Init(c, s0) && After(c, s0, steps).Some? && Enabled(c, After(c, s0, steps).value, LockBusy(pid))
    ensures var pc := Do(c, After(c, s0, steps).value, LockBusy(pid)).procs[pid].pc;
            && (pc == Finished(false) <==> BusyCount(steps, pid) == 49)
            && (pc.Acquiring? <==> BusyCount(steps, pid) < 49)
  {
    AttemptsAreCounted(c, s0, steps, pid);
  }

  // ----- a dead holder -----

  /** The lock directory is there, and nobody is left to remove it. */
  ghost predicate Orphaned(s: State) {
    s.owner.Some? && At(s, s.owner.value) && !Holds(s.procs[s.owner.value].pc) && !s.procs[s.owner.value].pc.Acquiring?
  }

  lemma {:induction false} OrphanedStays(c: Codec, s: State, step: Step)
    requires LockInv(s) && Orphaned(s) && Enabled(c, s, step)
    ensures Orphaned(Do(c, s, step))
    ensures Do(c, s, step).path == s.path && Do(c, s, step).published == s.published
  {
    if !step.Open? && !step.ReadChunk? && !step.CloseReader? && At(s, step.pid) {
      assert ProcLock(s.owner, step.pid, s.procs[step.pid]);
    }
  }

  /** Unless the lock is orphaned, whoever owns it is in its critical section. */
  lemma {:induction false} HolderIsOwner(s: State)
    requires LockInv(s) && LogInv(s) && !Orphaned(s) && s.owner.Some?
    ensures At(s, s.owner.value) && Holds(s.procs[s.owner.value].pc)
  {
    var p := s.owner.value;
    assert p in s.acquired;
    assert ProcLock(s.owner, p, s.procs[p]);
  }

  ghost predicate OwnerHolds(s: State) {
    s.owner.Some? ==> At(s, s.owner.value) && Holds(s.procs[s.owner.value].pc)
  }

  lemma {:induction false} OtherStepKeepsOwner(c: Codec, s: State, step: Step)
    requires LockInv(s) && Enabled(c, s, step) && OwnerHolds(s)
    requires !step.RemoveLock? && !step.RemoveLockFails? && !step.Crash?
    ensures OwnerHolds(Do(c, s, step))
  {
    if !step.Open? && !step.ReadChunk? && !step.CloseReader? && At(s, step.pid) {
      assert ProcLock(s.owner, step.pid, s.procs[step.pid]);
    }
  }

  lemma {:induction false} OrphanedStep(c: Codec, s: State, step: Step)
    requires LockInv(s) && Enabled(c, s, step) && OwnerHolds(s)
    ensures Orphaned(Do(c, s, step)) <==> step.RemoveLockFails? || (step.Crash? && Holds(s.procs[step.pid].pc))
  {
    if step.RemoveLock? || step.RemoveLockFails? || step.Crash? {
      assert ProcLock(s.owner, step.pid, s.procs[step.pid]);
    } else {
      OtherStepKeepsOwner(c, s, step);
    }
  }

  /** The lock is orphaned by the crash of its holder, or by a remove that fails, and by nothing else. */
  lemma {:induction false} OrphanedIff(c: Codec, s0: State, steps: seq<Step>, step: Step)
    requires Faithful(c) && Init(c, s0) && After(c, s0, steps).Some?
    requires Enabled(c, After(c, s0, steps).value, step) && !Orphaned(After(c, s0, steps).value)
    ensures var s := After(c, s0, steps).value;
            Orphaned(Do(c, s, step)) <==> step.RemoveLockFails? || (step.Crash? && Holds(s.procs[step.pid].pc))
  {
    AlwaysInv(c, s0, steps);
    if After(c, s0, steps).value.owner.Some? {
      HolderIsOwner(After(c, s0, steps).value);
    }
    OrphanedStep(c, After(c, s0, steps).value, step);
  }

  /** After a holder crashes, or fails to remove its lock, nothing is ever published again. */
  lemma {:induction false} CrashedHolderFreezesStore(c: Codec, s0: State, steps: seq<Step>, more: seq<Step>)
    requires Faithful(c) && Init(c, s0) && After(c, s0, steps).Some? && After(c, s0, steps + more).Some?
    requires Orphaned(After(c, s0, steps).value)
    ensures var s, s' := After(c, s0, steps).value, After(c, s0, steps + more).value;
            s'.lockDir && Orphaned(s') && s'.published == s.published && s'.path == s.path
  {
    if more == [] {
      assert steps + more == steps;
      AlwaysInv(c, s0, steps);
    } else {
      var m := more[..|more| - 1];
      assert (steps + more)[..|steps + more| - 1] == steps + m;
      CrashedHolderFreezesStore(c, s0, steps, m);
      AlwaysInv(c, s0, steps + m);
      AlwaysInv(c, s0, steps + more);
      OrphanedStays(c, After(c, s0, steps + m).value, more[|more| - 1]);
    }
  }
}
