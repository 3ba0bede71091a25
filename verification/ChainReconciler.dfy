/**
 The ChainRun reconciler itself: a working copy of the fetched object whose
 steps the loops update in place, and the store it is read from and written to.
 */
module ChainReconciler {
  import opened ChainGraph
  import opened ChainExecutor
  import ChainValidation

  /** The lookup maps of a pass: name to position. */
  ghost predicate IndexesChain(index: map<string, nat>, chain: seq<Step>) {
    && (forall n :: n in index ==> index[n] < |chain| && chain[index[n]].name == n)
    && (forall i :: 0 <= i < |chain| ==> chain[i].name in index && index[chain[i].name] == i)
  }

  method IndexSteps(chain: seq<Step>) returns (index: map<string, nat>)
    requires UniqueNames(chain)
    ensures IndexesChain(index, chain)
  {
    index := map[];
    for i := 0 to |chain|
      invariant forall n :: n in index ==> index[n] < i && chain[index[n]].name == n
      invariant forall k :: 0 <= k < i ==> chain[k].name in index && index[chain[k].name] == k
    {
      index := index[chain[i].name := i];
    }
  }

  method IndexStatuses(steps: seq<StepStatus>, ghost chain: seq<Step>) returns (index: map<string, nat>)
    requires UniqueNames(chain) && Matches(chain, steps)
    ensures IndexesChain(index, chain)
  {
    index := map[];
    for i := 0 to |steps|
      invariant forall n :: n in index ==> index[n] < i && chain[index[n]].name == n
      invariant forall k :: 0 <= k < i ==> chain[k].name in index && index[chain[k].name] == k
    {
      index := index[steps[i].name := i];
    }
  }

  /** Does every listed dependency have a status, and is it succeeded? */
  method DependenciesSucceeded(deps: seq<string>, index: map<string, nat>, steps: seq<StepStatus>)
    returns (ok: bool)
    requires forall n :: n in index ==> index[n] < |steps|
    ensures ok <==> forall d :: d in deps ==> d in index && steps[index[d]].phase == Succeeded
  {
    for k := 0 to |deps|
      invariant forall l :: 0 <= l < k ==> deps[l] in index && steps[index[deps[l]]].phase == Succeeded
    {
      if deps[k] !in index || steps[index[deps[k]]].phase != Succeeded {
        assert deps[k] in deps;
        return false;
      }
    }
    return true;
  }

  /** Is some listed dependency failed or skipped? */
  method SomeDependencyBad(deps: seq<string>, index: map<string, nat>, steps: seq<StepStatus>)
    returns (bad: bool)
    requires forall n :: n in index ==> index[n] < |steps|
    ensures bad <==> exists d :: d in deps && d in index && Bad(steps[index[d]].phase)
  {
    for k := 0 to |deps|
      invariant forall l :: 0 <= l < k && deps[l] in index ==> !Bad(steps[index[deps[l]]].phase)
    {
      if deps[k] in index && Bad(steps[index[deps[k]]].phase) {
        assert deps[k] in deps;
        return true;
      }
    }
    return false;
  }

  /** Dependency names and graph edges say the same about succeeded dependencies. */
  lemma {:induction false} ReadyByName(chain: seq<Step>, index: map<string, nat>, steps: seq<StepStatus>, i: nat)
    requires RefsDefined(chain) && IndexesChain(index, chain) && |steps| == |chain| && i < |chain|
    ensures (forall d :: d in chain[i].dependsOn ==> d in index && steps[index[d]].phase == Succeeded)
            <==> (forall j: nat :: j < |chain| && Edge(chain, i, j) ==> steps[j].phase == Succeeded)
  {
    assert RefsOk(chain, chain[i]);
    if forall j: nat :: j < |chain| && Edge(chain, i, j) ==> steps[j].phase == Succeeded {
      forall d | d in chain[i].dependsOn ensures d in index && steps[index[d]].phase == Succeeded {
        var j := DependencyHasEdge(chain, i, d);
      }
    }
  }

  lemma BadByName(chain: seq<Step>, index: map<string, nat>, steps: seq<StepStatus>, i: nat)
    requires RefsDefined(chain) && IndexesChain(index, chain) && |steps| == |chain| && i < |chain|
    ensures (exists d :: d in chain[i].dependsOn && d in index && Bad(steps[index[d]].phase))
            <==> (exists j: nat :: j < |chain| && Edge(chain, i, j) && Bad(steps[j].phase))
  {
    if j: nat :| j < |chain| && Edge(chain, i, j) && Bad(steps[j].phase) {
      var d := chain[j].name;
      assert d in chain[i].dependsOn && d in index && Bad(steps[index[d]].phase);
    }
    if d :| d in chain[i].dependsOn && d in index && Bad(steps[index[d]].phase) {
      assert Edge(chain, i, index[d]);
    }
  }

  /** Starting a step never makes or unmakes another step ready. */
  lemma ReadyIsStable(chain: seq<Step>, steps: seq<StepStatus>, env: Env, k: nat)
    requires |steps| == |chain| && k < |chain|
    ensures Ready(chain, StartedUpTo(chain, steps, env, k), k) <==> Ready(chain, steps, k)
  {
    var now := StartedUpTo(chain, steps, env, k);
    assert now[k] == steps[k];
    forall j: nat | j < |chain| ensures now[j].phase == Succeeded <==> steps[j].phase == Succeeded {
    }
  }

  /** The turn of step k, seen from the statuses the start loop began with. */
  lemma StartTurn(chain: seq<Step>, steps: seq<StepStatus>, env: Env, k: nat)
    requires |steps| == |chain| && k < |chain|
    ensures var now := StartedUpTo(chain, steps, env, k);
            var next := StartedUpTo(chain, steps, env, k + 1);
            && (Ready(chain, now, k) <==> Ready(chain, steps, k))
            && next == (if Ready(chain, now, k) then now[k := Launched(chain, now[k], env, k)] else now)
            && CreatedUpTo(chain, steps, env, k + 1) == CreatedUpTo(chain, steps, env, k)
               + (if Ready(chain, now, k) then CreatedFor(chain, now, env, k) else [])
  {
    ReadyIsStable(chain, steps, env, k);
  }

  /** Only steps doomed from the start are skipped, so far. */
  ghost predicate PartlySkipped(chain: seq<Step>, before: seq<StepStatus>, now: seq<StepStatus>)
    requires |before| == |chain|
  {
    && |now| == |before|
    && forall i {:trigger now[i]} :: 0 <= i < |now| ==>
         || now[i] == before[i]
         || (Doomed(chain, before, i) && before[i].phase == Pending && now[i] == before[i].(phase := Skipped))
  }

  ghost predicate Settled(chain: seq<Step>, steps: seq<StepStatus>, i: nat)
    requires |steps| == |chain|
  {
    forall j: nat {:trigger Edge(chain, i, j)} :: j < |chain| && Edge(chain, i, j) ==> !Bad(steps[j].phase)
  }

  /** Step i is not pending, or no dependency of it failed or was skipped. */
  ghost predicate SettledAt(chain: seq<Step>, steps: seq<StepStatus>, i: nat)
    requires |steps| == |chain| && i < |chain|
  {
    steps[i].phase == Pending ==> Settled(chain, steps, i)
  }

  ghost predicate AllSettled(chain: seq<Step>, steps: seq<StepStatus>, n: nat)
    requires |steps| == |chain| && n <= |chain|
  {
    forall k: nat :: k < n ==> SettledAt(chain, steps, k)
  }

  function PendingCount(steps: seq<StepStatus>): nat {
    if steps == [] then 0 else (if steps[0].phase == Pending then 1 else 0) + PendingCount(steps[1..])
  }

  lemma {:induction false} FewerPending(steps: seq<StepStatus>, i: nat)
    requires i < |steps| && steps[i].phase == Pending
    ensures PendingCount(steps[i := steps[i].(phase := Skipped)]) == PendingCount(steps) - 1
  {
    var after := steps[i := steps[i].(phase := Skipped)];
    if i == 0 {
      assert after[1..] == steps[1..];
    } else {
      FewerPending(steps[1..], i - 1);
      assert after[1..] == steps[1..][i - 1 := steps[i].(phase := Skipped)];
    }
  }

  lemma SkipIsDue(chain: seq<Step>, before: seq<StepStatus>, now: seq<StepStatus>, i: nat)
    requires |before| == |chain| && PartlySkipped(chain, before, now)
    requires Matches(chain, now) && i < |chain| && !SettledAt(chain, now, i)
    ensures var after := now[i := now[i].(phase := Skipped)];
            && PartlySkipped(chain, before, after)
            && Matches(chain, after)
            && PendingCount(after) < PendingCount(now)
  {
    FewerPending(now, i);
    var j: nat :| j < |chain| && Edge(chain, i, j) && Bad(now[j].phase);
    DoomSpreads(chain, before, i, j);
  }

  /** Once nothing more can be skipped, everything doomed has been. */
  lemma {:induction false} DoomReachesAll(chain: seq<Step>, before: seq<StepStatus>, now: seq<StepStatus>, p: seq<nat>, i: nat)
    requires |before| == |chain| && PartlySkipped(chain, before, now)
    requires AllSettled(chain, now, |chain|)
    requires DoomPath(chain, before, p, i)
    ensures now[i] == before[i].(phase := Skipped)
    decreases |p|
  {
    assert Edge(chain, p[0], p[1]);
    if |p| > 2 {
      assert DoomPath(chain, before, p[1..], p[1]);
      DoomReachesAll(chain, before, now, p[1..], p[1]);
    }
    assert Bad(now[p[1]].phase);
    assert SettledAt(chain, now, i);
  }

  lemma FixpointIsSkip(chain: seq<Step>, before: seq<StepStatus>, now: seq<StepStatus>)
    requires |before| == |chain| && PartlySkipped(chain, before, now)
    requires AllSettled(chain, now, |chain|)
    ensures now == Skip(chain, before)
  {
    forall i | 0 <= i < |now| ensures now[i] == Skip(chain, before)[i] {
      if Doomed(chain, before, i) {
        var p :| DoomPath(chain, before, p, i);
        DoomReachesAll(chain, before, now, p, i);
      }
    }
  }

  lemma BranchByName(chain: seq<Step>, index: map<string, nat>, steps: seq<StepStatus>, i: nat)
    requires UniqueNames(chain) && IndexesChain(index, chain) && |steps| == |chain| && i < |chain|
    ensures var from := chain[i].branchFrom;
            BranchFor(chain, steps, i) ==
            if from != "" && from in index then "aot/" + steps[index[from]].runID else ""
  {
    var from := chain[i].branchFrom;
    if from in index {
      assert chain[index[from]].name == from;
    }
  }

  /** The in-memory ChainRun of one pass. */
  class WorkingCopy {
    var phase: ChainPhase
    var steps: seq<StepStatus>
    var updated: bool

    constructor (phase: ChainPhase, steps: seq<StepStatus>)
      ensures this.phase == phase && this.steps == steps && !updated
    {
      this.phase, this.steps, updated := phase, steps, false;
    }

    method SyncRunning(env: Env)
      modifies this
      ensures steps == Sync(old(steps), env)
      ensures phase == old(phase)
      ensures !updated ==> steps == old(steps) && !old(updated)
    {
      ghost var before := steps;
      for i := 0 to |steps|
        invariant |steps| == |before| && phase == old(phase)
        invariant forall k :: 0 <= k < i ==> steps[k] == SyncOne(before[k], env)
        invariant forall k :: i <= k < |steps| ==> steps[k] == before[k]
        invariant !updated ==> steps == before && !old(updated)
      {
        var s := steps[i];
        if s.phase != Running || s.runID == "" || s.runID !in env.runs {
          continue;
        }
        match env.runs[s.runID] {
          case RunSucceeded =>
            steps, updated := steps[i := s.(phase := Succeeded)], true;
          case RunFailed =>
            steps, updated := steps[i := s.(phase := Failed)], true;
          case RunCancelled =>
            steps, updated := steps[i := s.(phase := Failed)], true;
          case _ =>
        }
      }
    }

    /** Give the step at position i its turn to start. */
    method StartStep(chain: seq<Step>, stepDef: map<string, nat>, stepStatus: map<string, nat>, env: Env, i: nat)
      returns (made: seq<AgentRun>)
      requires UniqueNames(chain) && RefsDefined(chain) && Matches(chain, steps) && i < |chain|
      requires IndexesChain(stepDef, chain) && IndexesChain(stepStatus, chain)
      modifies this
      ensures phase == old(phase)
      ensures Ready(chain, old(steps), i) ==>
                && updated
                && steps == old(steps)[i := Launched(chain, old(steps)[i], env, i)]
                && made == CreatedFor(chain, old(steps), env, i)
      ensures !Ready(chain, old(steps), i) ==> steps == old(steps) && updated == old(updated) && made == []
    {
      made := [];
      ReadyByName(chain, stepStatus, steps, i);
      BranchByName(chain, stepStatus, steps, i);
      var s := steps[i];
      if s.phase != Pending || s.name !in stepDef {
        return;
      }
      var def := chain[stepDef[s.name]];
      var allDepsOk := DependenciesSucceeded(def.dependsOn, stepStatus, steps);
      if !allDepsOk {
        return;
      }
      if (i, def.templateRef) !in env.templates {
        steps, updated := steps[i := s.(phase := Failed)], true;
        return;
      }
      var branch := "";
      if def.branchFrom != "" && def.branchFrom in stepStatus {
        branch := "aot/" + steps[stepStatus[def.branchFrom]].runID;
      }
      var repos := WithBranch(env.templates[(i, def.templateRef)].repos, branch);
      if i !in env.creates {
        steps, updated := steps[i := s.(phase := Failed)], true;
        return;
      }
      made := [AgentRun(env.creates[i], i, repos)];
      steps, updated := steps[i := s.(phase := Running, runID := env.creates[i])], true;
    }

    /** The turn of the step at position i in the start loop, which began at `before`. */
    method TakeTurn(chain: seq<Step>, stepDef: map<string, nat>, stepStatus: map<string, nat>, ghost before: seq<StepStatus>, env: Env, i: nat)
      returns (made: seq<AgentRun>)
      requires UniqueNames(chain) && RefsDefined(chain) && Matches(chain, before) && i < |chain|
      requires IndexesChain(stepDef, chain) && IndexesChain(stepStatus, chain)
      requires steps == StartedUpTo(chain, before, env, i)
      modifies this
      ensures phase == old(phase) && steps == StartedUpTo(chain, before, env, i + 1)
      ensures CreatedUpTo(chain, before, env, i + 1) == CreatedUpTo(chain, before, env, i) + made
      ensures !updated ==> steps == old(steps) && !old(updated)
    {
      StartTurn(chain, before, env, i);
      made := StartStep(chain, stepDef, stepStatus, env, i);
    }

    method StartReady(chain: seq<Step>, stepDef: map<string, nat>, stepStatus: map<string, nat>, env: Env)
      returns (created: seq<AgentRun>)
      requires UniqueNames(chain) && RefsDefined(chain) && Matches(chain, steps)
      requires IndexesChain(stepDef, chain) && IndexesChain(stepStatus, chain)
      modifies this
      ensures steps == Started(chain, old(steps), env)
      ensures created == CreatedUpTo(chain, old(steps), env, |chain|)
      ensures phase == old(phase) && Matches(chain, steps)
      ensures !updated ==> steps == old(steps) && !old(updated)
    {
      ghost var before := steps;
      created := [];
      for i := 0 to |chain|
        invariant phase == old(phase)
        invariant steps == StartedUpTo(chain, before, env, i)
        invariant created == CreatedUpTo(chain, before, env, i)
        invariant !updated ==> steps == before && !old(updated)
      {
        var made := TakeTurn(chain, stepDef, stepStatus, before, env, i);
        created := created + made;
      }
    }

    /** Skip the step at position i if a dependency of it failed or was skipped. */
    method SkipStep(chain: seq<Step>, stepDef: map<string, nat>, stepStatus: map<string, nat>, ghost before: seq<StepStatus>, i: nat)
      returns (skipped: bool)
      requires RefsDefined(chain) && Matches(chain, steps) && |before| == |chain| && i < |chain|
      requires IndexesChain(stepDef, chain) && IndexesChain(stepStatus, chain)
      requires PartlySkipped(chain, before, steps)
      modifies this
      ensures phase == old(phase) && Matches(chain, steps) && PartlySkipped(chain, before, steps)
      ensures skipped ==> updated && PendingCount(steps) < PendingCount(old(steps))
      ensures !skipped ==> steps == old(steps) && updated == old(updated) && SettledAt(chain, steps, i)
    {
      var s := steps[i];
      if s.phase != Pending || s.name !in stepDef {
        return false;
      }
      BadByName(chain, stepStatus, steps, i);
      skipped := SomeDependencyBad(chain[stepDef[s.name]].dependsOn, stepStatus, steps);
      if skipped {
        SkipIsDue(chain, before, steps, i);
        steps, updated := steps[i := s.(phase := Skipped)], true;
      }
    }

    /** One sweep over the pending steps; every skip it makes is already due. */
    method Sweep(chain: seq<Step>, stepDef: map<string, nat>, stepStatus: map<string, nat>, ghost before: seq<StepStatus>)
      returns (changed: bool)
      requires RefsDefined(chain) && Matches(chain, steps) && |before| == |chain|
      requires IndexesChain(stepDef, chain) && IndexesChain(stepStatus, chain)
      requires PartlySkipped(chain, before, steps)
      modifies this
      ensures phase == old(phase) && Matches(chain, steps) && PartlySkipped(chain, before, steps)
      ensures changed ==> updated && PendingCount(steps) < PendingCount(old(steps))
      ensures !changed ==> steps == old(steps) && updated == old(updated) && AllSettled(chain, steps, |chain|)
    {
      changed := false;
      for i := 0 to |chain|
        invariant phase == old(phase) && Matches(chain, steps) && PartlySkipped(chain, before, steps)
        invariant changed ==> updated && PendingCount(steps) < PendingCount(old(steps))
        invariant !changed ==> steps == old(steps) && updated == old(updated) && AllSettled(chain, steps, i)
      {
        var skipped := SkipStep(chain, stepDef, stepStatus, before, i);
        changed := changed || skipped;
      }
    }

    method PropagateSkips(chain: seq<Step>, stepDef: map<string, nat>, stepStatus: map<string, nat>)
      requires RefsDefined(chain) && Matches(chain, steps)
      requires IndexesChain(stepDef, chain) && IndexesChain(stepStatus, chain)
      modifies this
      ensures steps == Skip(chain, old(steps))
      ensures phase == old(phase) && Matches(chain, steps)
      ensures !updated ==> steps == old(steps) && !old(updated)
    {
      ghost var before := steps;
      var changed := true;
      while changed
        invariant phase == old(phase) && Matches(chain, steps) && PartlySkipped(chain, before, steps)
        invariant !updated ==> steps == before && !old(updated)
        invariant !changed ==> AllSettled(chain, steps, |chain|)
        decreases PendingCount(steps), changed
      {
        changed := Sweep(chain, stepDef, stepStatus, before);
      }
      FixpointIsSkip(chain, before, steps);
    }

    method Complete()
      modifies this
      ensures phase == Outcome(old(phase), steps) && steps == old(steps)
      ensures !updated ==> phase == old(phase) && !old(updated)
    {
      var allDone, anyFailed := true, false;
      for i := 0 to |steps|
        invariant steps == old(steps) && phase == old(phase) && updated == old(updated)
        invariant allDone <==> forall k :: 0 <= k < i ==> steps[k].phase != Pending && steps[k].phase != Running
        invariant anyFailed <==> exists k :: 0 <= k < i && steps[k].phase == Failed
      {
        if steps[i].phase == Pending || steps[i].phase == Running {
          allDone := false;
        }
        if steps[i].phase == Failed {
          anyFailed := true;
        }
      }
      if allDone {
        phase := if anyFailed then ChainFailed else ChainSucceeded;
        updated := true;
      }
    }
  }

  lemma SyncKeepsNames(chain: seq<Step>, steps: seq<StepStatus>, env: Env)
    requires Matches(chain, steps)
    ensures Matches(chain, Sync(steps, env))
  {
  }

  /** The API server's copy of one ChainRun, for a Chain that is not edited. */
  class Reconciler {
    const chain: seq<Step>
    var stored: ChainRun

    ghost predicate Valid()
      reads this
    {
      stored.steps != [] ==> Matches(chain, stored.steps)
    }

    constructor (chain: seq<Step>)
      ensures this.chain == chain && Valid()
      ensures stored == ChainRun(false, ChainPending, [], [])
    {
      this.chain := chain;
      stored := ChainRun(false, ChainPending, [], []);
    }

    method Reconcile(env: Env)
      requires Valid()
      modifies this
      ensures Valid()
      ensures stored == Pass(chain, old(stored), env)
    {
      var cr := stored;
      if !cr.finalizer {
        if env.writeOk {
          stored := cr.(finalizer := true);
        }
        return;
      }
      if cr.phase == ChainSucceeded || cr.phase == ChainFailed || cr.phase == ChainCancelled {
        return;
      }
      if !env.chainFound {
        if env.writeOk {
          stored := cr.(phase := ChainFailed);
        }
        return;
      }
      var verdict, _ := ChainValidation.ValidateChainDAG(chain);
      if !verdict.Accepted? {
        if env.writeOk {
          stored := cr.(phase := ChainFailed);
        }
        return;
      }
      if |cr.steps| == 0 {
        var steps := InitialStatuses();
        if env.writeOk {
          stored := cr.(phase := ChainRunning, steps := steps);
        }
        return;
      }
      var phase, steps, created, updated := Advance(cr, env);
      stored := stored.(created := cr.created + created);
      if updated && env.writeOk {
        stored := stored.(phase := phase, steps := steps);
      }
    }

    /** The body of a pass over an initialised run of a valid chain. */
    method Advance(cr: ChainRun, env: Env)
      returns (phase: ChainPhase, steps: seq<StepStatus>, created: seq<AgentRun>, updated: bool)
      requires ValidDag(chain) && Matches(chain, cr.steps)
      ensures steps == Advanced(chain, cr.steps, env) && Matches(chain, steps)
      ensures phase == Outcome(cr.phase, steps)
      ensures created == CreatedUpTo(chain, Sync(cr.steps, env), env, |chain|)
      ensures !updated ==> steps == cr.steps && phase == cr.phase
    {
      var stepStatus := IndexStatuses(cr.steps, chain);
      var stepDef := IndexSteps(chain);
      var work := new WorkingCopy(cr.phase, cr.steps);
      work.SyncRunning(env);
      SyncKeepsNames(chain, cr.steps, env);
      created := work.StartReady(chain, stepDef, stepStatus, env);
      work.PropagateSkips(chain, stepDef, stepStatus);
      work.Complete();
      return work.phase, work.steps, created, work.updated;
    }

    method InitialStatuses() returns (steps: seq<StepStatus>)
      ensures steps == Initial(chain)
    {
      steps := [];
      for i := 0 to |chain|
        invariant |steps| == i
        invariant forall k :: 0 <= k < i ==> steps[k] == StepStatus(chain[k].name, Pending, "")
      {
        steps := steps + [StepStatus(chain[i].name, Pending, "")];
      }
    }
  }
}
