/**
 What becomes of each step in each pass, told from the stored statuses and the
 cluster's answers alone, and where every outcome and every AgentRun comes from.
 */
module ChainOutcomes {
  import opened ChainGraph
  import opened ChainExecutor
  import opened ChainRuns
  import opened ChainProgress

  // ----- one step in one pass -----

  predicate Reads(s: StepStatus, env: Env, phases: set<RunPhase>) {
    s.phase == Running && s.runID != "" && s.runID in env.runs && env.runs[s.runID] in phases
  }

  /** Every dependency has succeeded, or its run now reads as succeeded. */
  ghost predicate DependenciesMet(chain: seq<Step>, steps: seq<StepStatus>, env: Env, i: nat)
    requires |steps| == |chain|
  {
    forall j: nat :: Edge(chain, i, j) ==> steps[j].phase == Succeeded || Reads(steps[j], env, {RunSucceeded})
  }

  /** The step's template reads and its create works. */
  predicate StartWorks(chain: seq<Step>, env: Env, i: nat)
    requires i < |chain|
  {
    (i, chain[i].templateRef) in env.templates && i in env.creates
  }

  /** What step i is after a pass that began with these statuses and met these answers. */
  ghost predicate Becomes(chain: seq<Step>, steps: seq<StepStatus>, env: Env, i: nat, s: StepStatus)
    requires |steps| == |chain| && i < |chain|
  {
    && s.name == chain[i].name
    && match steps[i].phase
       case Pending =>
         if !DependenciesMet(chain, steps, env, i) then (s.phase == Pending || s.phase == Skipped) && s.runID == ""
         else if StartWorks(chain, env, i) then s.phase == Running && s.runID == env.creates[i]
         else s.phase == Failed && s.runID == ""
       case Running =>
         && s.runID == steps[i].runID
         && s.phase == (if Reads(steps[i], env, {RunSucceeded}) then Succeeded
                        else if Reads(steps[i], env, {RunFailed, RunCancelled}) then Failed
                        else Running)
       case _ => s == steps[i]
  }

  ghost predicate PendingUnnamed(steps: seq<StepStatus>) {
    forall i :: 0 <= i < |steps| && steps[i].phase == Pending ==> steps[i].runID == ""
  }

  lemma ReadyIff(chain: seq<Step>, steps: seq<StepStatus>, env: Env, i: nat)
    requires |steps| == |chain| && i < |chain|
    ensures Ready(chain, Sync(steps, env), i) <==> steps[i].phase == Pending && DependenciesMet(chain, steps, env, i)
  {
    var synced := Sync(steps, env);
    forall j: nat | Edge(chain, i, j)
      ensures synced[j].phase == Succeeded <==> steps[j].phase == Succeeded || Reads(steps[j], env, {RunSucceeded})
    {
    }
    if Ready(chain, synced, i) {
      forall j: nat | Edge(chain, i, j) ensures steps[j].phase == Succeeded || Reads(steps[j], env, {RunSucceeded}) {
        assert synced[j].phase == Succeeded;
      }
    }
  }

  lemma AdvanceDecides(chain: seq<Step>, steps: seq<StepStatus>, env: Env, i: nat)
    requires Matches(chain, steps) && i < |chain| && PendingUnnamed(steps)
    ensures Becomes(chain, steps, env, i, Advanced(chain, steps, env)[i])
  {
    var synced := Sync(steps, env);
    var started := Started(chain, synced, env);
    ReadyIff(chain, steps, env, i);
    if Doomed(chain, started, i) {
      DoomedHasBadDependency(chain, started, i);
    }
  }

  lemma {:induction false} PendingStaysUnnamed(chain: seq<Step>, envs: seq<Env>)
    ensures PendingUnnamed(Run(chain, envs).steps)
  {
    if envs != [] {
      var prefix, env := envs[..|envs| - 1], envs[|envs| - 1];
      var cr := Run(chain, prefix);
      PendingStaysUnnamed(chain, prefix);
      RunIsOk(chain, prefix);
      forall i | 0 <= i < |Run(chain, envs).steps| && Run(chain, envs).steps[i].phase == Pending
        ensures Run(chain, envs).steps[i].runID == ""
      {
        if cr.steps != [] && Advances(chain, cr, env) {
          AdvanceDecides(chain, cr.steps, env, i);
        }
      }
    }
  }

  /**
   In every reachable state, what a pass that finds the chain and lands its
   write makes of each step. A pending step whose dependencies are met runs
   under the name its create returned, or fails for want of its template or its
   create; a running step follows its run.
   */
  lemma PassDecidesSteps(chain: seq<Step>, envs: seq<Env>, env: Env, i: nat)
    requires var cr := Run(chain, envs); cr.finalizer && !Terminal(cr.phase) && i < |cr.steps|
    requires env.chainFound && env.writeOk
    ensures var steps, steps' := Run(chain, envs).steps, Run(chain, envs + [env]).steps;
            |steps'| == |steps| == |chain| && Becomes(chain, steps, env, i, steps'[i])
  {
    RunIsOk(chain, envs);
    PendingStaysUnnamed(chain, envs);
    RunAppend(chain, envs, env);
    AdvanceDecides(chain, Run(chain, envs).steps, env, i);
  }

  // ----- outcomes come from the runs -----

  /** Some pass read this run with one of these phases. */
  ghost predicate Saw(envs: seq<Env>, name: string, phases: set<RunPhase>) {
    exists k :: 0 <= k < |envs| && name in envs[k].runs && envs[k].runs[name] in phases
  }

  /** Pass k was to start step i, and its template or its create failed. */
  ghost predicate StartFailsAt(chain: seq<Step>, envs: seq<Env>, i: nat, k: nat) {
    k < |envs| &&
      var steps := Run(chain, envs[..k]).steps;
      && |steps| == |chain| && i < |chain| && steps[i].phase == Pending
      && DependenciesMet(chain, steps, envs[k], i) && !StartWorks(chain, envs[k], i)
  }

  ghost predicate StartFailed(chain: seq<Step>, envs: seq<Env>, i: nat) {
    exists k: nat :: StartFailsAt(chain, envs, i, k)
  }

  /** The status says what the run of the step was seen to end as, or that it could not be started. */
  ghost predicate Sourced(chain: seq<Step>, envs: seq<Env>, i: nat, s: StepStatus) {
    match s.phase
    case Pending => s.runID == ""
    case Skipped => s.runID == ""
    case Running => true
    case Succeeded => Saw(envs, s.runID, {RunSucceeded})
    case Failed => if s.runID == "" then StartFailed(chain, envs, i) else Saw(envs, s.runID, {RunFailed, RunCancelled})
  }

  lemma SawMore(envs: seq<Env>, env: Env, name: string, phases: set<RunPhase>)
    ensures Saw(envs, name, phases) ==> Saw(envs + [env], name, phases)
    ensures name in env.runs && env.runs[name] in phases ==> Saw(envs + [env], name, phases)
  {
    var all := envs + [env];
    assert all[|envs|] == env;
    if Saw(envs, name, phases) {
      var k :| 0 <= k < |envs| && name in envs[k].runs && envs[k].runs[name] in phases;
      assert all[k] == envs[k];
    }
  }

  lemma StartFailedMore(chain: seq<Step>, envs: seq<Env>, env: Env, i: nat)
    requires StartFailed(chain, envs, i)
    ensures StartFailed(chain, envs + [env], i)
  {
    var k: nat :| StartFailsAt(chain, envs, i, k);
    assert (envs + [env])[..k] == envs[..k] && (envs + [env])[k] == envs[k];
    assert StartFailsAt(chain, envs + [env], i, k);
  }

  lemma SourcedMore(chain: seq<Step>, envs: seq<Env>, env: Env, i: nat, s: StepStatus)
    requires Sourced(chain, envs, i, s)
    ensures Sourced(chain, envs + [env], i, s)
  {
    SawMore(envs, env, s.runID, {RunSucceeded});
    SawMore(envs, env, s.runID, {RunFailed, RunCancelled});
    if s.phase == Failed && s.runID == "" {
      StartFailedMore(chain, envs, env, i);
    }
  }

  lemma {:induction false} BecomesSourced(chain: seq<Step>, envs: seq<Env>, env: Env, i: nat, s: StepStatus)
    requires var steps := Run(chain, envs).steps;
             && |steps| == |chain| && i < |chain| && Sourced(chain, envs, i, steps[i])
             && Becomes(chain, steps, env, i, s)
    ensures Sourced(chain, envs + [env], i, s)
  {
    var steps := Run(chain, envs).steps;
    SourcedMore(chain, envs, env, i, steps[i]);
    SawMore(envs, env, s.runID, {RunSucceeded});
    SawMore(envs, env, s.runID, {RunFailed, RunCancelled});
    if steps[i].phase == Pending && s.phase == Failed {
      assert (envs + [env])[..|envs|] == envs && (envs + [env])[|envs|] == env;
      assert StartFailsAt(chain, envs + [env], i, |envs|);
    }
  }

  /**
   In every reachable state a succeeded step's own run was seen succeeded; a
   failed step's was seen failed or cancelled, or a pass that was to start the
   step could not; and steps that were not started have no run.
   */
  lemma {:induction false} OutcomesComeFromRuns(chain: seq<Step>, envs: seq<Env>, i: nat)
    requires i < |Run(chain, envs).steps|
    ensures Sourced(chain, envs, i, Run(chain, envs).steps[i])
  {
    if envs != [] {
      var prefix, env := envs[..|envs| - 1], envs[|envs| - 1];
      var cr := Run(chain, prefix);
      assert envs == prefix + [env];
      if cr.steps != [] {
        OutcomesComeFromRuns(chain, prefix, i);
        SourcedMore(chain, prefix, env, i, cr.steps[i]);
        RunIsOk(chain, prefix);
        if Advances(chain, cr, env) && env.writeOk {
          PassDecidesSteps(chain, prefix, env, i);
          BecomesSourced(chain, prefix, env, i, Run(chain, envs).steps[i]);
        }
      }
    }
  }

  // ----- what a new run carries -----

  /** The template's repositories, but for the branch of the first one. */
  predicate Copies(repos: seq<Repo>, template: seq<Repo>, branched: bool) {
    && |repos| == |template|
    && (forall k :: 0 <= k < |repos| ==> repos[k].url == template[k].url)
    && (forall k :: 0 <= k < |repos| && (k > 0 || !branched) ==> repos[k].branch == template[k].branch)
  }

  /** The run was created for its step by a pass that met these answers. */
  predicate MadeBy(chain: seq<Step>, env: Env, a: AgentRun) {
    && a.step < |chain| && StartWorks(chain, env, a.step) && a.name == env.creates[a.step]
    && Copies(a.repos, env.templates[(a.step, chain[a.step].templateRef)].repos, chain[a.step].branchFrom != "")
  }

  lemma {:induction false} CreatedAreMade(chain: seq<Step>, steps: seq<StepStatus>, env: Env, k: nat, a: AgentRun)
    requires |steps| == |chain| && k <= |chain| && a in CreatedUpTo(chain, steps, env, k)
    ensures MadeBy(chain, env, a)
  {
    if a in CreatedUpTo(chain, steps, env, k - 1) {
      CreatedAreMade(chain, steps, env, k - 1, a);
    }
  }

  /**
   Every AgentRun of a chain run was made by one of its passes: under the name
   that pass's create returned, with the repositories of the template it read,
   and with the template's branches unless the step takes its branch from
   another.
   */
  lemma {:induction false} RunsCarryTemplates(chain: seq<Step>, envs: seq<Env>, a: AgentRun)
    requires a in Run(chain, envs).created
    ensures exists k :: 0 <= k < |envs| && MadeBy(chain, envs[k], a)
  {
    var prefix, env := envs[..|envs| - 1], envs[|envs| - 1];
    var cr := Run(chain, prefix);
    if a in cr.created {
      RunsCarryTemplates(chain, prefix, a);
      var k :| 0 <= k < |prefix| && MadeBy(chain, prefix[k], a);
      assert envs[k] == prefix[k];
    } else {
      CreatedAreMade(chain, Sync(cr.steps, env), env, |chain|, a);
      assert MadeBy(chain, envs[|envs| - 1], a);
    }
  }

  // ----- chains that are refused -----

  /** A chain that is not found or not valid fails its run, and changes nothing else. */
  lemma RefusedChainFails(chain: seq<Step>, envs: seq<Env>, env: Env)
    requires var cr := Run(chain, envs); cr.finalizer && !Terminal(cr.phase)
    requires env.writeOk && (!env.chainFound || !ValidDag(chain))
    ensures Run(chain, envs + [env]) == Run(chain, envs).(phase := ChainFailed)
  {
    RunAppend(chain, envs, env);
  }

  ghost predicate TwoWritesLanded(envs: seq<Env>) {
    exists j, k :: 0 <= j < k < |envs| && envs[j].writeOk && envs[k].writeOk
  }

  lemma TwoWritesAppend(envs: seq<Env>, env: Env)
    ensures SomeWriteLanded(envs + [env]) <==> SomeWriteLanded(envs) || env.writeOk
    ensures TwoWritesLanded(envs + [env]) <==> TwoWritesLanded(envs) || (SomeWriteLanded(envs) && env.writeOk)
  {
    var all := envs + [env];
    MissingAppend(envs, env);
    assert forall j :: 0 <= j < |envs| ==> all[j] == envs[j];
    assert all[|envs|] == env;
    if TwoWritesLanded(envs) {
      var j, k :| 0 <= j < k < |envs| && envs[j].writeOk && envs[k].writeOk;
      assert all[j].writeOk && all[k].writeOk;
    }
    if SomeWriteLanded(envs) && env.writeOk {
      var j :| 0 <= j < |envs| && envs[j].writeOk;
      assert all[j].writeOk && all[|envs|].writeOk;
    }
  }

  /** A chain the validator rejects never gets a step or an AgentRun, and has failed once two writes landed. */
  lemma {:induction false} InvalidChainFailsIff(chain: seq<Step>, envs: seq<Env>)
    requires !ValidDag(chain)
    ensures var cr := Run(chain, envs);
            && cr.steps == [] && cr.created == []
            && (cr.finalizer <==> SomeWriteLanded(envs))
            && (Terminal(cr.phase) <==> TwoWritesLanded(envs))
            && (Terminal(cr.phase) ==> cr.phase == ChainFailed)
  {
    if envs != [] {
      var prefix, env := envs[..|envs| - 1], envs[|envs| - 1];
      assert envs == prefix + [env];
      InvalidChainFailsIff(chain, prefix);
      TwoWritesAppend(prefix, env);
    }
  }
}
