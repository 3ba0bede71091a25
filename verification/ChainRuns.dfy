/**
 Whole runs of the chain executor: what holds in every state any sequence of
 reconcile passes can reach, whatever the cluster answers and whichever status
 writes are lost.
 */
module ChainRuns {
  import opened ChainGraph
  import opened ChainExecutor

  const FRESH := ChainRun(false, ChainPending, [], [])

  /** The stored ChainRun after the passes env[0], env[1], ... */
  ghost function Run(chain: seq<Step>, envs: seq<Env>): (cr: ChainRun)
    ensures cr.steps != [] ==> |cr.steps| == |chain|
  {
    if envs == [] then FRESH
    else Pass(chain, Run(chain, envs[..|envs| - 1]), envs[|envs| - 1])
  }

  lemma {:induction false} RunAppend(chain: seq<Step>, envs: seq<Env>, env: Env)
    ensures Run(chain, envs + [env]) == Pass(chain, Run(chain, envs), env)
  {
    assert (envs + [env])[..|envs|] == envs;
  }

  // ----- the step invariant -----

  /** The step was given its turn to start. */
  predicate Tried(p: StepPhase) {
    p == Running || p == Succeeded || p == Failed
  }

  ghost predicate HasBadDependency(chain: seq<Step>, steps: seq<StepStatus>, i: nat)
    requires |steps| == |chain|
  {
    exists j: nat :: Edge(chain, i, j) && Bad(steps[j].phase)
  }

  ghost predicate HasOpenDependency(chain: seq<Step>, steps: seq<StepStatus>, i: nat)
    requires |steps| == |chain|
  {
    exists j: nat :: Edge(chain, i, j) && steps[j].phase != Succeeded
  }

  ghost predicate StepsOk(chain: seq<Step>, steps: seq<StepStatus>) {
    && Matches(chain, steps)
    && (forall i: nat, j: nat :: Edge(chain, i, j) && Tried(steps[i].phase) ==> steps[j].phase == Succeeded)
    && (forall i: nat {:trigger HasBadDependency(chain, steps, i)} ::
          i < |steps| && steps[i].phase == Skipped ==> HasBadDependency(chain, steps, i))
  }

  /** No pending step is ready, and none is waiting in vain. */
  ghost predicate Quiet(chain: seq<Step>, steps: seq<StepStatus>)
    requires |steps| == |chain|
  {
    && (forall i: nat {:trigger HasOpenDependency(chain, steps, i)} ::
          i < |steps| && steps[i].phase == Pending ==> HasOpenDependency(chain, steps, i))
    && (forall i: nat {:trigger HasBadDependency(chain, steps, i)} ::
          i < |steps| && steps[i].phase == Pending ==> !HasBadDependency(chain, steps, i))
  }

  ghost predicate AllPending(steps: seq<StepStatus>) {
    forall i :: 0 <= i < |steps| ==> steps[i].phase == Pending
  }

  lemma {:induction false} SyncKeepsSteps(chain: seq<Step>, steps: seq<StepStatus>, env: Env)
    requires StepsOk(chain, steps)
    ensures StepsOk(chain, Sync(steps, env))
  {
    var r := Sync(steps, env);
    forall i: nat | i < |r| && r[i].phase == Skipped ensures HasBadDependency(chain, r, i) {
      assert HasBadDependency(chain, steps, i);
      var j: nat :| Edge(chain, i, j) && Bad(steps[j].phase);
      assert Bad(r[j].phase);
    }
  }

  lemma StartKeepsSteps(chain: seq<Step>, steps: seq<StepStatus>, env: Env)
    requires StepsOk(chain, steps)
    ensures StepsOk(chain, Started(chain, steps, env))
  {
    var r := Started(chain, steps, env);
    forall i: nat, j: nat | Edge(chain, i, j) && Tried(r[i].phase) ensures r[j].phase == Succeeded {
      assert steps[j].phase == Succeeded;
      assert !Ready(chain, steps, j);
    }
    forall i: nat | i < |r| && r[i].phase == Skipped ensures HasBadDependency(chain, r, i) {
      assert HasBadDependency(chain, steps, i);
      var j: nat :| Edge(chain, i, j) && Bad(steps[j].phase);
      assert !Ready(chain, steps, j) && r[j] == steps[j];
    }
  }

  /** What is left pending after the start loop waits for something. */
  lemma LeftPendingWaits(chain: seq<Step>, steps: seq<StepStatus>, env: Env, i: nat)
    requires Matches(chain, steps) && i < |steps|
    requires Started(chain, steps, env)[i].phase == Pending
    ensures HasOpenDependency(chain, Started(chain, steps, env), i)
  {
    var r := Started(chain, steps, env);
    assert !Ready(chain, steps, i) && steps[i].phase == Pending;
    var j: nat :| j < |chain| && Edge(chain, i, j) && steps[j].phase != Succeeded;
    assert r[j].phase != Succeeded;
  }

  /** A doomed step has a dependency that is bad after the skips. */
  lemma DoomedHasBadDependency(chain: seq<Step>, steps: seq<StepStatus>, i: nat)
    requires Matches(chain, steps) && Doomed(chain, steps, i)
    ensures i < |steps| && steps[i].phase == Pending && HasBadDependency(chain, Skip(chain, steps), i)
  {
    var p :| DoomPath(chain, steps, p, i);
    assert Edge(chain, p[0], p[1]);
    if |p| > 2 {
      assert DoomPath(chain, steps, p[1..], p[1]);
    }
    assert Bad(Skip(chain, steps)[p[1]].phase);
  }

  lemma SkipKeepsSteps(chain: seq<Step>, steps: seq<StepStatus>)
    requires StepsOk(chain, steps)
    ensures StepsOk(chain, Skip(chain, steps))
  {
    var r := Skip(chain, steps);
    forall i: nat, j: nat | Edge(chain, i, j) && Tried(r[i].phase) ensures r[j].phase == Succeeded {
      assert steps[j].phase == Succeeded;
      if Doomed(chain, steps, j) {
        DoomedHasBadDependency(chain, steps, j);
      }
    }
    forall i: nat | i < |r| && r[i].phase == Skipped ensures HasBadDependency(chain, r, i) {
      if Doomed(chain, steps, i) {
        DoomedHasBadDependency(chain, steps, i);
      } else {
        assert HasBadDependency(chain, steps, i);
        var j: nat :| Edge(chain, i, j) && Bad(steps[j].phase);
        assert Bad(r[j].phase);
      }
    }
  }

  lemma SkipMakesQuiet(chain: seq<Step>, steps: seq<StepStatus>)
    requires Matches(chain, steps)
    requires forall i: nat {:trigger HasOpenDependency(chain, steps, i)} ::
               i < |steps| && steps[i].phase == Pending ==> HasOpenDependency(chain, steps, i)
    ensures Quiet(chain, Skip(chain, steps))
  {
    var r := Skip(chain, steps);
    forall i: nat | i < |r| && r[i].phase == Pending
      ensures HasOpenDependency(chain, r, i) && !HasBadDependency(chain, r, i)
    {
      assert HasOpenDependency(chain, steps, i);
      var j: nat :| Edge(chain, i, j) && steps[j].phase != Succeeded;
      assert r[j].phase != Succeeded;
      if HasBadDependency(chain, r, i) {
        var k: nat :| Edge(chain, i, k) && Bad(r[k].phase);
        DoomSpreads(chain, steps, i, k);
      }
    }
  }

  /** A pass keeps the step invariant and leaves no pending step that could move. */
  lemma AdvanceSettles(chain: seq<Step>, steps: seq<StepStatus>, env: Env)
    requires StepsOk(chain, steps)
    ensures StepsOk(chain, Advanced(chain, steps, env)) && Quiet(chain, Advanced(chain, steps, env))
  {
    var synced := Sync(steps, env);
    var started := Started(chain, synced, env);
    SyncKeepsSteps(chain, steps, env);
    StartKeepsSteps(chain, synced, env);
    SkipKeepsSteps(chain, started);
    forall i: nat | i < |started| && started[i].phase == Pending ensures HasOpenDependency(chain, started, i) {
      LeftPendingWaits(chain, synced, env, i);
    }
    SkipMakesQuiet(chain, started);
  }

  // ----- deadlock freedom -----

  /**
   Without a running step, a settled state of an acyclic chain has no pending
   step either: pending steps could only wait for one another.
   */
  lemma NoDeadlock(chain: seq<Step>, steps: seq<StepStatus>)
    requires !Cyclic(chain) && Matches(chain, steps) && Quiet(chain, steps)
    requires forall i :: 0 <= i < |steps| ==> steps[i].phase != Running
    ensures AllDone(steps)
  {
    var waiting := set i: nat | i < |steps| && steps[i].phase == Pending;
    forall i | i in waiting ensures HasSuccessor(chain, waiting, i) {
      assert HasOpenDependency(chain, steps, i);
      assert !HasBadDependency(chain, steps, i);
      var j: nat :| Edge(chain, i, j) && steps[j].phase != Succeeded;
      assert j in waiting;
    }
    if waiting != {} {
      NoSinkMeansCycle(chain, waiting);
    }
    forall i | 0 <= i < |steps| ensures steps[i].phase != Pending {
      assert i !in waiting;
    }
  }

  // ----- closed form -----

  lemma {:induction false} TriedMeansAllSucceeded(chain: seq<Step>, steps: seq<StepStatus>, p: seq<nat>, k: nat)
    requires StepsOk(chain, steps) && IsPath(chain, p) && 1 <= k < |p|
    requires p[0] < |steps| && Tried(steps[p[0]].phase)
    ensures p[k] < |steps| && steps[p[k]].phase == Succeeded
  {
    assert Edge(chain, p[k - 1], p[k]);
    if k > 1 {
      TriedMeansAllSucceeded(chain, steps, p, k - 1);
    }
  }

  lemma {:induction false} FailureDooms(chain: seq<Step>, steps: seq<StepStatus>, p: seq<nat>, i: nat, j: nat)
    requires StepsOk(chain, steps) && Links(chain, p, i, j)
    requires AllPending(steps) || Quiet(chain, steps)
    requires j < |steps| && steps[j].phase == Failed
    ensures i < |steps| && steps[i].phase == Skipped
    decreases |p|
  {
    assert Edge(chain, p[0], p[1]);
    if |p| > 2 {
      assert Links(chain, p[1..], p[1], j);
      FailureDooms(chain, steps, p[1..], p[1], j);
    }
    assert HasBadDependency(chain, steps, i);
  }

  ghost predicate HasFailedTransitive(chain: seq<Step>, steps: seq<StepStatus>, i: nat)
    requires |steps| == |chain|
  {
    exists j: nat :: j < |steps| && Reaches(chain, i, j) && steps[j].phase == Failed
  }

  /** Blame for a skip ends at a failure: chasing it for ever would need a cycle. */
  lemma SkippedHasFailure(chain: seq<Step>, steps: seq<StepStatus>, i: nat)
    requires !Cyclic(chain) && StepsOk(chain, steps)
    requires i < |steps| && steps[i].phase == Skipped
    ensures HasFailedTransitive(chain, steps, i)
  {
    var blameless := set k: nat | k < |steps| && steps[k].phase == Skipped && !HasFailedTransitive(chain, steps, k);
    forall k | k in blameless ensures HasSuccessor(chain, blameless, k) {
      assert HasBadDependency(chain, steps, k);
      var j: nat :| Edge(chain, k, j) && Bad(steps[j].phase);
      EdgeReaches(chain, k, j);
      if HasFailedTransitive(chain, steps, j) {
        var f: nat :| f < |steps| && Reaches(chain, j, f) && steps[f].phase == Failed;
        ConsReaches(chain, k, j, f);
      }
      assert j in blameless;
    }
    if blameless != {} {
      NoSinkMeansCycle(chain, blameless);
    }
    assert i !in blameless;
  }

  ghost predicate ClosedForm(chain: seq<Step>, steps: seq<StepStatus>)
    requires |steps| == |chain|
  {
    && (forall i: nat :: i < |steps| ==> (steps[i].phase == Skipped <==> HasFailedTransitive(chain, steps, i)))
    && (forall i: nat, j: nat :: i < |steps| && j < |steps| && Tried(steps[i].phase) && Reaches(chain, i, j)
                                 ==> steps[j].phase == Succeeded)
  }

  lemma SettledClosedForm(chain: seq<Step>, steps: seq<StepStatus>)
    requires !Cyclic(chain) && StepsOk(chain, steps)
    requires AllPending(steps) || Quiet(chain, steps)
    ensures ClosedForm(chain, steps)
  {
    forall i: nat | i < |steps|
      ensures steps[i].phase == Skipped <==> HasFailedTransitive(chain, steps, i)
    {
      if steps[i].phase == Skipped {
        SkippedHasFailure(chain, steps, i);
      } else if HasFailedTransitive(chain, steps, i) {
        var j: nat :| j < |steps| && Reaches(chain, i, j) && steps[j].phase == Failed;
        var p :| Links(chain, p, i, j);
        FailureDooms(chain, steps, p, i, j);
      }
    }
    forall i: nat, j: nat | i < |steps| && j < |steps| && Tried(steps[i].phase) && Reaches(chain, i, j)
      ensures steps[j].phase == Succeeded
    {
      var p :| Links(chain, p, i, j);
      TriedMeansAllSucceeded(chain, steps, p, |p| - 1);
    }
  }

  // ----- the run invariant -----

  ghost predicate AllSucceeded(steps: seq<StepStatus>) {
    forall i :: 0 <= i < |steps| ==> steps[i].phase == Succeeded
  }

  ghost predicate RunOk(chain: seq<Step>, cr: ChainRun) {
    && (cr.steps != [] ==>
          && ValidDag(chain) && StepsOk(chain, cr.steps)
          && (AllPending(cr.steps) || Quiet(chain, cr.steps)))
    && (cr.phase == ChainSucceeded <==> cr.steps != [] && AllSucceeded(cr.steps))
    && (cr.steps != [] && AllDone(cr.steps) ==> Terminal(cr.phase))
    && cr.phase != ChainCancelled
  }

  /** The completion check may ignore skipped steps: one implies a failed one. */
  lemma OutcomeIsRight(chain: seq<Step>, phase: ChainPhase, steps: seq<StepStatus>)
    requires !Cyclic(chain) && StepsOk(chain, steps) && steps != [] && phase != ChainSucceeded
    ensures Outcome(phase, steps) == ChainSucceeded <==> AllSucceeded(steps)
  {
    if Outcome(phase, steps) == ChainSucceeded {
      forall i | 0 <= i < |steps| ensures steps[i].phase == Succeeded {
        if steps[i].phase == Skipped {
          SkippedHasFailure(chain, steps, i);
        }
      }
    } else if AllSucceeded(steps) {
      assert AllDone(steps);
    }
  }

  lemma PassKeepsRunOk(chain: seq<Step>, cr: ChainRun, env: Env)
    requires RunOk(chain, cr)
    ensures RunOk(chain, Pass(chain, cr, env))
  {
    if Advances(chain, cr, env) {
      AdvanceSettles(chain, cr.steps, env);
      OutcomeIsRight(chain, cr.phase, Advanced(chain, cr.steps, env));
    } else {
      var init := Initial(chain);
      assert AllPending(init) && StepsOk(chain, init);
      assert init != [] ==> init[0].phase == Pending;
    }
  }

  lemma {:induction false} RunIsOk(chain: seq<Step>, envs: seq<Env>)
    ensures RunOk(chain, Run(chain, envs))
  {
    if envs != [] {
      RunIsOk(chain, envs[..|envs| - 1]);
      PassKeepsRunOk(chain, Run(chain, envs[..|envs| - 1]), envs[|envs| - 1]);
    }
  }

  // ----- theorems -----

  /** In every reachable state: skipped iff some transitive dependency failed; tried means all dependencies succeeded. */
  lemma {:induction false} RunClosedForm(chain: seq<Step>, envs: seq<Env>)
    requires Run(chain, envs).steps != []
    ensures ClosedForm(chain, Run(chain, envs).steps)
  {
    RunIsOk(chain, envs);
    SettledClosedForm(chain, Run(chain, envs).steps);
  }

  /** In every reachable state the chain is marked succeeded iff every step succeeded. */
  lemma VerdictIsRight(chain: seq<Step>, envs: seq<Env>)
    ensures var cr := Run(chain, envs);
            && (cr.phase == ChainSucceeded <==> cr.steps != [] && AllSucceeded(cr.steps))
            && (cr.steps != [] && AllDone(cr.steps) && !AllSucceeded(cr.steps) ==> cr.phase == ChainFailed)
  {
    RunIsOk(chain, envs);
  }

  /**
   A pass that reaches the steps and whose write lands either leaves a run in
   flight or ends the chain in that same pass.
   */
  lemma DeadlockFreedom(chain: seq<Step>, envs: seq<Env>, env: Env)
    requires Advances(chain, Run(chain, envs), env) && env.writeOk
    ensures var cr := Run(chain, envs + [env]);
            || (exists i :: 0 <= i < |cr.steps| && cr.steps[i].phase == Running)
            || (AllDone(cr.steps) && (cr.phase == ChainSucceeded || cr.phase == ChainFailed))
  {
    RunIsOk(chain, envs);
    RunAppend(chain, envs, env);
    var cr := Run(chain, envs);
    AdvanceSettles(chain, cr.steps, env);
    var steps := Advanced(chain, cr.steps, env);
    if forall i :: 0 <= i < |steps| ==> steps[i].phase != Running {
      NoDeadlock(chain, steps);
    }
  }
}
