/**
 When the lockfile store can still make progress: from any reachable state some
 continuation publishes a given record, unless the lock is orphaned or the first
 document cannot be read.
 */
module LockStoreProgress {
  import opened Basics
  import opened CiteRecords
  import opened LockStore
  import opened LockStoreInvariant
  import opened LockStoreRuns

  lemma {:induction false} AfterConcat(c: Codec, s0: State, steps: seq<Step>, more: seq<Step>)
    requires After(c, s0, steps).Some?
    ensures After(c, s0, steps + more) == After(c, After(c, s0, steps).value, more)
  {
    if more == [] {
      assert steps + more == steps;
    } else {
      AfterConcat(c, s0, steps, more[..|more| - 1]);
      assert (steps + more)[..|steps + more| - 1] == steps + more[..|more| - 1];
    }
  }

  /** `more` leads from s to the good state s'. */
  ghost predicate Leads(c: Codec, s: State, more: seq<Step>, s': State) {
    After(c, s, more) == Some(s') && Inv(c, s')
  }

  lemma Further(c: Codec, s: State, more: seq<Step>, mid: State, step: Step) returns (s': State)
    requires Faithful(c) && Leads(c, s, more, mid) && Enabled(c, mid, step)
    ensures s' == Do(c, mid, step) && Leads(c, s, more + [step], s')
  {
    s' := Do(c, mid, step);
    assert (more + [step])[..|more|] == more;
    StepKeepsInv(c, mid, step);
  }

  lemma PathReadable(c: Codec, s: State)
    requires Inv(c, s)
    ensures (s.path.Some? ==> s.path.value in s.data) && OnDisk(c, s) == Current(s)
  {
    assert s.published[..|s.published|] == s.published;
  }

  // ----- freeing the lock -----

  /** A holder that gives up has its lock to release. */
  lemma GiveUp(c: Codec, s: State, pid: Pid) returns (more: seq<Step>, s': State)
    requires Faithful(c) && Inv(c, s) && At(s, pid) && Holds(s.procs[pid].pc) && !s.procs[pid].pc.Unlinking?
    ensures Leads(c, s, more, s') && At(s', pid) && s'.procs[pid].pc.Releasing?
    ensures s'.published == s.published && s'.base == s.base
  {
    PathReadable(c, s);
    more, s' := [], s;
    if s.procs[pid].pc.Locked? {
      s' := Further(c, s, [], s, ReadFails(pid));
      more := [] + [ReadFails(pid)];
    } else if TempWork(s.procs[pid].pc) {
      s' := Further(c, s, [], s, PublishFails(pid, false));
      more := [] + [PublishFails(pid, false)];
    }
  }

  lemma CallReleases(c: Codec, s: State, pid: Pid)
    requires Inv(c, s) && At(s, pid) && s.procs[pid].pc.Releasing?
    ensures Enabled(c, s, CallRelease(pid)) && Do(c, s, CallRelease(pid)).procs[pid].pc.Unlinking?
  {
    PathReadable(c, s);
    assert ProcLock(s.owner, pid, s.procs[pid]);
  }

  lemma Release(c: Codec, s: State, first: seq<Step>, mid: State, pid: Pid) returns (more: seq<Step>, s': State)
    requires Faithful(c) && Leads(c, s, first, mid) && At(mid, pid)
    requires mid.procs[pid].pc.Releasing? || mid.procs[pid].pc.Unlinking?
    ensures Leads(c, s, more, s') && !s'.lockDir && s'.published == mid.published && s'.base == mid.base
  {
    more, s' := first, mid;
    if mid.procs[pid].pc.Releasing? {
      CallReleases(c, mid, pid);
      s' := Further(c, s, more, mid, CallRelease(pid));
      more := more + [CallRelease(pid)];
    }
    PathReadable(c, s');
    var last := s';
    s' := Further(c, s, more, last, RemoveLock(pid));
    more := more + [RemoveLock(pid)];
  }

  lemma FreeLock(c: Codec, s: State) returns (more: seq<Step>, s': State)
    requires Faithful(c) && Inv(c, s) && !Orphaned(s)
    ensures Leads(c, s, more, s') && !s'.lockDir && s'.published == s.published && s'.base == s.base
  {
    more, s' := [], s;
    if s.lockDir {
      HolderIsOwner(s);
      var pid := s.owner.value;
      if !s.procs[pid].pc.Unlinking? {
        more, s' := GiveUp(c, s, pid);
      }
      more, s' := Release(c, s, more, s', pid);
    }
  }

  // ----- publishing -----

  lemma {:induction false} FreshNat(used: set<nat>) returns (n: nat)
    ensures forall m :: m in used ==> m < n
    decreases |used|
  {
    if used == {} {
      n := 0;
    } else {
      var m :| m in used;
      var rest := used - {m};
      n := FreshNat(rest);
      n := if n <= m then m + 1 else n;
      forall k | k in used ensures k < n {
        assert k == m || k in rest;
      }
    }
  }

  /** A new process takes the free lock and reads the document. */
  lemma TakeAndRead(c: Codec, s: State, first: seq<Step>, mid: State, rec: Record) returns (more: seq<Step>, s': State, pid: Pid)
    requires Faithful(c) && Leads(c, s, first, mid) && !mid.lockDir && mid.base.Some?
    ensures Leads(c, s, more, s') && At(s', pid) && s'.procs[pid].pc.HaveDoc? && s'.procs[pid].rec == rec
    ensures s'.published == mid.published
  {
    pid := FreshNat(mid.procs.Keys);
    PathReadable(c, mid);
    var spawned := Further(c, s, first, mid, Spawn(pid, rec));
    more := first + [Spawn(pid, rec)];
    var locked := Further(c, s, more, spawned, Acquire(pid));
    more := more + [Acquire(pid)];
    PathReadable(c, locked);
    s' := Further(c, s, more, locked, ReadFile(pid));
    more := more + [ReadFile(pid)];
  }

  /** A process that has read the document publishes the next one. */
  lemma WriteAndRename(c: Codec, s: State, first: seq<Step>, mid: State, pid: Pid) returns (more: seq<Step>, s': State)
    requires Faithful(c) && Leads(c, s, first, mid) && At(mid, pid) && mid.procs[pid].pc.HaveDoc?
    ensures Leads(c, s, more, s')
    ensures s'.published == mid.published + [Upsertion(pid, mid.procs[pid].rec)]
  {
    var inode := FreshNat(mid.data.Keys);
    PathReadable(c, mid);
    var created := Further(c, s, first, mid, CreateTemp(pid, inode));
    more := first + [CreateTemp(pid, inode)];
    var n := |created.procs[pid].pc.out|;
    var written := Further(c, s, more, created, WriteSome(pid, n));
    more := more + [WriteSome(pid, n)];
    PathReadable(c, written);
    var closed := Further(c, s, more, written, CloseTemp(pid));
    more := more + [CloseTemp(pid)];
    s' := Further(c, s, more, closed, Rename(pid));
    more := more + [Rename(pid)];
  }

  /** The continuation publishes this record and nothing else. */
  ghost predicate Publishes(c: Codec, s: State, more: seq<Step>, pid: Pid, rec: Record) {
    After(c, s, more).Some? && After(c, s, more).value.published == s.published + [Upsertion(pid, rec)]
  }

  lemma CanPublish(c: Codec, s: State, rec: Record) returns (more: seq<Step>, pid: Pid)
    requires Faithful(c) && Inv(c, s) && !Orphaned(s) && s.base.Some?
    ensures Publishes(c, s, more, pid, rec)
  {
    var s1, s2, s3;
    more, s1 := FreeLock(c, s);
    more, s2, pid := TakeAndRead(c, s, more, s1, rec);
    more, s3 := WriteAndRename(c, s, more, s2, pid);
  }

  /**
   From a reachable state some continuation publishes a given record iff the
   lock is not orphaned and the first document could be read.
   */
  lemma {:induction false} CanPublishIff(c: Codec, s0: State, steps: seq<Step>, rec: Record)
    requires Faithful(c) && Init(c, s0) && After(c, s0, steps).Some?
    ensures var s := After(c, s0, steps).value;
            (exists more, pid :: Publishes(c, s, more, pid, rec)) <==> !Orphaned(s) && OnDisk(c, s0).Some?
  {
    var s := After(c, s0, steps).value;
    AlwaysInv(c, s0, steps);
    if !Orphaned(s) && OnDisk(c, s0).Some? {
      var more, pid := CanPublish(c, s, rec);
    } else {
      forall more, pid | Publishes(c, s, more, pid, rec) ensures false {
        AfterConcat(c, s0, steps, more);
        if Orphaned(s) {
          CrashedHolderFreezesStore(c, s0, steps, more);
        } else {
          DocumentIsReplay(c, s0, steps + more);
        }
      }
    }
  }
}
