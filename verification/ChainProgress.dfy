/**
 Progress of chain runs: how phases move, how often, how many AgentRuns a step
 gets, which branch they start from, and that chains end.
 */
module ChainProgress {
  import opened ChainGraph
  import opened ChainExecutor
  import opened ChainRuns

  // ----- how phases move -----

  predicate LegalMove(p: StepPhase, q: StepPhase) {
    || p == q
    || (p == Pending && (q == Running || q == Failed || q == Skipped))
    || (p == Running && (q == Succeeded || q == Failed))
  }

  ghost predicate LegalMoves(a: seq<StepStatus>, b: seq<StepStatus>) {
    && |a| == |b|
    && (forall i :: 0 <= i < |a| ==> LegalMove(a[i].phase, b[i].phase))
    && (forall i :: 0 <= i < |a| && a[i].phase != Pending ==> b[i].runID == a[i].runID)
    && (forall i :: 0 <= i < |a| ==> b[i].name == a[i].name)
  }

  lemma AdvanceMovesLegally(chain: seq<Step>, steps: seq<StepStatus>, env: Env)
    requires Matches(chain, steps)
    ensures LegalMoves(steps, Advanced(chain, steps, env))
  {
    var synced := Sync(steps, env);
    var started := Started(chain, synced, env);
    var r := Skip(chain, started);
    forall i | 0 <= i < |steps|
      ensures LegalMove(steps[i].phase, r[i].phase)
      ensures steps[i].phase != Pending ==> r[i].runID == steps[i].runID
    {
      if Doomed(chain, started, i) {
        DoomedHasBadDependency(chain, started, i);
      }
    }
  }

  lemma {:induction false} PassMovesLegally(chain: seq<Step>, cr: ChainRun, env: Env)
    requires RunOk(chain, cr) && cr.steps != []
    ensures LegalMoves(cr.steps, Pass(chain, cr, env).steps)
  {
    if Advances(chain, cr, env) {
      AdvanceMovesLegally(chain, cr.steps, env);
    }
  }

  predicate StepTerminal(p: StepPhase) {
    p == Succeeded || p == Failed || p == Skipped
  }

  /** Once a step is terminal, no later pass changes it; once the chain is, nothing changes at all. */
  lemma {:induction false} TerminalIsFinal(chain: seq<Step>, envs: seq<Env>, more: seq<Env>, i: nat)
    requires i < |Run(chain, envs).steps|
    ensures |Run(chain, envs + more).steps| == |Run(chain, envs).steps|
    ensures var p := Run(chain, envs).steps[i].phase;
            StepTerminal(p) ==> Run(chain, envs + more).steps[i].phase == p
    ensures Terminal(Run(chain, envs).phase) ==>
              && Run(chain, envs + more).phase == Run(chain, envs).phase
              && Run(chain, envs + more).steps == Run(chain, envs).steps
              && Run(chain, envs + more).created == Run(chain, envs).created
  {
    if more == [] {
      assert envs + more == envs;
    } else {
      var m := more[..|more| - 1];
      var env := more[|more| - 1];
      TerminalIsFinal(chain, envs, m, i);
      assert envs + more == envs + m + [env];
      RunAppend(chain, envs + m, env);
      RunIsOk(chain, envs + m);
      PassMovesLegally(chain, Run(chain, envs + m), env);
    }
  }

  // ----- at most two moves a step -----

  function Weight(p: StepPhase): nat {
    if p == Pending then 2 else if p == Running then 1 else 0
  }

  function Measure(steps: seq<StepStatus>): nat {
    if steps == [] then 0 else Weight(steps[0].phase) + Measure(steps[1..])
  }

  /** Number of steps whose phase differs. */
  function Changes(a: seq<StepStatus>, b: seq<StepStatus>): nat
    requires |a| == |b|
  {
    if a == [] then 0 else (if a[0].phase == b[0].phase then 0 else 1) + Changes(a[1..], b[1..])
  }

  lemma {:induction false} ChangesCost(a: seq<StepStatus>, b: seq<StepStatus>)
    requires LegalMoves(a, b)
    ensures Measure(b) + Changes(a, b) <= Measure(a)
  {
    if a != [] {
      ChangesCost(a[1..], b[1..]);
    }
  }

  lemma {:induction false} NoChangesMeansSame(a: seq<StepStatus>, b: seq<StepStatus>)
    requires |a| == |b| && Changes(a, b) == 0
    ensures forall i :: 0 <= i < |a| ==> a[i].phase == b[i].phase
  {
    if a != [] {
      NoChangesMeansSame(a[1..], b[1..]);
      forall i | 0 <= i < |a| ensures a[i].phase == b[i].phase {
        assert i > 0 ==> a[i] == a[1..][i - 1] && b[i] == b[1..][i - 1];
      }
    }
  }

  lemma {:induction false} MeasureBounds(steps: seq<StepStatus>)
    ensures Measure(steps) <= 2 * |steps|
    ensures Measure(steps) == 0 ==> AllDone(steps)
  {
    if steps != [] {
      MeasureBounds(steps[1..]);
      assert forall i :: 0 < i < |steps| ==> steps[i] == steps[1..][i - 1];
    }
  }

  /** Step phase changes made by all passes of a run. */
  ghost function TotalChanges(chain: seq<Step>, envs: seq<Env>): nat {
    if envs == [] then 0
    else
      var before := Run(chain, envs[..|envs| - 1]).steps;
      var after := Run(chain, envs).steps;
      TotalChanges(chain, envs[..|envs| - 1]) +
      if before != [] && |before| == |after| then Changes(before, after) else 0
  }

  lemma {:induction false} ChangesPaidFor(chain: seq<Step>, envs: seq<Env>)
    ensures var cr := Run(chain, envs);
            if cr.steps == [] then TotalChanges(chain, envs) == 0
            else TotalChanges(chain, envs) + Measure(cr.steps) <= 2 * |chain|
  {
    if envs != [] {
      var prefix := envs[..|envs| - 1];
      ChangesPaidFor(chain, prefix);
      var cr := Run(chain, prefix);
      RunIsOk(chain, prefix);
      if cr.steps == [] {
        MeasureBounds(Run(chain, envs).steps);
      } else {
        PassMovesLegally(chain, cr, envs[|envs| - 1]);
        ChangesCost(cr.steps, Run(chain, envs).steps);
      }
    }
  }

  /** A run of n steps makes at most 2n phase changes, however many passes it takes. */
  lemma AtMostTwoChangesPerStep(chain: seq<Step>, envs: seq<Env>)
    ensures TotalChanges(chain, envs) <= 2 * |chain|
  {
    ChangesPaidFor(chain, envs);
  }

  // ----- chains end -----

  predicate RunEnded(p: RunPhase) {
    p == RunSucceeded || p == RunFailed || p == RunCancelled
  }

  /** The pass finds the chain, its write lands, and if runs are in flight it sees one of them ended. */
  ghost predicate Helpful(cr: ChainRun, env: Env) {
    && env.chainFound && env.writeOk
    && (forall i :: 0 <= i < |cr.steps| && cr.steps[i].phase == Running ==>
          exists k :: 0 <= k < |cr.steps| && cr.steps[k].phase == Running
                      && cr.steps[k].runID in env.runs && RunEnded(env.runs[cr.steps[k].runID]))
  }

  /** How many passes of the run were helpful; the others may be anything. */
  ghost function HelpfulCount(chain: seq<Step>, envs: seq<Env>): nat {
    if envs == [] then 0
    else
      var prefix, env := envs[..|envs| - 1], envs[|envs| - 1];
      HelpfulCount(chain, prefix) + if Helpful(Run(chain, prefix), env) then 1 else 0
  }

  /** The API server generates non-empty names for the runs it creates. */
  ghost predicate NamesRuns(envs: seq<Env>) {
    forall k, i :: 0 <= k < |envs| && i in envs[k].creates ==> envs[k].creates[i] != ""
  }

  ghost function Budget(chain: seq<Step>, cr: ChainRun): nat {
    if Terminal(cr.phase) then 0
    else if !cr.finalizer then 2 * |chain| + 2
    else if cr.steps == [] then 2 * |chain| + 1
    else Measure(cr.steps)
  }

  ghost predicate WasCreated(cr: ChainRun, name: string, i: nat) {
    exists a :: a in cr.created && a.name == name && a.step == i
  }

  /** Every run in flight, and every succeeded one, has a name, recorded when it was created. */
  ghost predicate RunsNamed(cr: ChainRun) {
    forall i :: 0 <= i < |cr.steps| && (cr.steps[i].phase == Running || cr.steps[i].phase == Succeeded) ==>
                  cr.steps[i].runID != "" && WasCreated(cr, cr.steps[i].runID, i)
  }

  lemma {:induction false} CreatedListsLaunch(chain: seq<Step>, steps: seq<StepStatus>, env: Env, k: nat, i: nat)
    requires |steps| == |chain| && i < k <= |chain| && Ready(chain, steps, i) && Launches(chain, env, i)
    ensures exists a :: a in CreatedUpTo(chain, steps, env, k) && a.name == env.creates[i] && a.step == i
  {
    if i == k - 1 {
      var made := CreatedFor(chain, StartedUpTo(chain, steps, env, i), env, i);
      assert made[0] in CreatedUpTo(chain, steps, env, k);
    } else {
      CreatedListsLaunch(chain, steps, env, k - 1, i);
      var a :| a in CreatedUpTo(chain, steps, env, k - 1) && a.name == env.creates[i] && a.step == i;
      assert a in CreatedUpTo(chain, steps, env, k);
    }
  }

  lemma {:induction false} PassKeepsRunsNamed(chain: seq<Step>, cr: ChainRun, env: Env)
    requires RunOk(chain, cr) && RunsNamed(cr)
    requires forall i :: i in env.creates ==> env.creates[i] != ""
    ensures RunsNamed(Pass(chain, cr, env))
  {
    var after := Pass(chain, cr, env);
    forall i | 0 <= i < |after.steps| && (after.steps[i].phase == Running || after.steps[i].phase == Succeeded)
      ensures after.steps[i].runID != "" && WasCreated(after, after.steps[i].runID, i)
    {
      if Advances(chain, cr, env) {
        var synced := Sync(cr.steps, env);
        var started := Started(chain, synced, env);
        if Ready(chain, synced, i) && env.writeOk {
          assert after.steps[i] == started[i];
          CreatedListsLaunch(chain, synced, env, |chain|, i);
        } else {
          assert after.steps[i].runID == cr.steps[i].runID;
          assert WasCreated(cr, cr.steps[i].runID, i);
        }
      } else {
        assert WasCreated(cr, cr.steps[i].runID, i);
      }
    }
  }

  lemma {:induction false} RunIsNamed(chain: seq<Step>, envs: seq<Env>)
    requires NamesRuns(envs)
    ensures RunsNamed(Run(chain, envs))
  {
    if envs != [] {
      var prefix := envs[..|envs| - 1];
      RunIsNamed(chain, prefix);
      RunIsOk(chain, prefix);
      PassKeepsRunsNamed(chain, Run(chain, prefix), envs[|envs| - 1]);
    }
  }

  lemma EndedRunMoves(chain: seq<Step>, steps: seq<StepStatus>, env: Env, k: nat)
    requires Matches(chain, steps) && k < |steps| && steps[k].phase == Running && steps[k].runID != ""
    requires steps[k].runID in env.runs && RunEnded(env.runs[steps[k].runID])
    ensures Advanced(chain, steps, env)[k].phase == if env.runs[steps[k].runID] == RunSucceeded then Succeeded else Failed
  {
    var synced := Sync(steps, env);
    assert synced[k].phase != Running && synced[k].phase != Pending;
    assert !Ready(chain, synced, k);
    assert Started(chain, synced, env)[k] == synced[k];
  }

  /** A helpful pass over a settled or fresh run moves a step or ends the chain. */
  lemma {:induction false} HelpfulPassSpends(chain: seq<Step>, cr: ChainRun, env: Env)
    requires chain != [] && ValidDag(chain) && RunOk(chain, cr) && RunsNamed(cr)
    requires Helpful(cr, env) && !Terminal(cr.phase)
    ensures Budget(chain, Pass(chain, cr, env)) < Budget(chain, cr)
  {
    if Advances(chain, cr, env) {
      var steps := Advanced(chain, cr.steps, env);
      AdvanceSettles(chain, cr.steps, env);
      AdvanceMovesLegally(chain, cr.steps, env);
      ChangesCost(cr.steps, steps);
      MeasureBounds(cr.steps);
      if Changes(cr.steps, steps) == 0 {
        NoChangesMeansSame(cr.steps, steps);
        if i :| 0 <= i < |cr.steps| && cr.steps[i].phase == Running {
          var k :| 0 <= k < |cr.steps| && cr.steps[k].phase == Running
                   && cr.steps[k].runID in env.runs && RunEnded(env.runs[cr.steps[k].runID]);
          EndedRunMoves(chain, cr.steps, env, k);
        }
        NoDeadlock(chain, steps);
      }
    } else {
      MeasureBounds(Initial(chain));
      MeasureBounds(cr.steps);
    }
  }

  /** No pass, whatever it meets, takes the run further from its end. */
  lemma PassNeverAddsBudget(chain: seq<Step>, cr: ChainRun, env: Env)
    requires RunOk(chain, cr)
    ensures Budget(chain, Pass(chain, cr, env)) <= Budget(chain, cr)
  {
    MeasureBounds(cr.steps);
    if Advances(chain, cr, env) {
      var steps := Advanced(chain, cr.steps, env);
      AdvanceMovesLegally(chain, cr.steps, env);
      ChangesCost(cr.steps, steps);
    } else {
      MeasureBounds(Initial(chain));
    }
  }

  lemma {:induction false} BudgetRunsDown(chain: seq<Step>, envs: seq<Env>)
    requires chain != [] && ValidDag(chain) && NamesRuns(envs)
    ensures var cr := Run(chain, envs);
            Terminal(cr.phase) || Budget(chain, cr) + HelpfulCount(chain, envs) <= 2 * |chain| + 2
  {
    if envs != [] {
      var prefix, env := envs[..|envs| - 1], envs[|envs| - 1];
      var cr := Run(chain, prefix);
      BudgetRunsDown(chain, prefix);
      RunIsOk(chain, prefix);
      RunIsNamed(chain, prefix);
      PassNeverAddsBudget(chain, cr, env);
      if !Terminal(cr.phase) && Helpful(cr, env) {
        HelpfulPassSpends(chain, cr, env);
      }
    }
  }

  /** A run that has not ended has something left to do. */
  lemma OpenHasBudget(chain: seq<Step>, cr: ChainRun)
    requires RunOk(chain, cr) && !Terminal(cr.phase)
    ensures Budget(chain, cr) > 0
  {
    MeasureBounds(cr.steps);
  }

  /**
   A validated, non-empty chain of n steps has ended once 2n + 2 of its passes
   were helpful, whatever other passes came in between.
   */
  lemma {:induction false} HelpfulRunsEnd(chain: seq<Step>, envs: seq<Env>)
    requires chain != [] && ValidDag(chain) && NamesRuns(envs)
    requires HelpfulCount(chain, envs) >= 2 * |chain| + 2
    ensures Terminal(Run(chain, envs).phase)
  {
    BudgetRunsDown(chain, envs);
    RunIsOk(chain, envs);
    if !Terminal(Run(chain, envs).phase) {
      OpenHasBudget(chain, Run(chain, envs));
    }
  }

  /** A pass whose write lands, after an earlier one that stored the finalizer, does not find the chain. */
  ghost predicate ChainGoneMissing(envs: seq<Env>) {
    exists j, k :: 0 <= j < k < |envs| && envs[j].writeOk && envs[k].writeOk && !envs[k].chainFound
  }

  ghost predicate SomeWriteLanded(envs: seq<Env>) {
    exists j :: 0 <= j < |envs| && envs[j].writeOk
  }

  lemma MissingAppend(envs: seq<Env>, env: Env)
    ensures SomeWriteLanded(envs + [env]) <==> SomeWriteLanded(envs) || env.writeOk
    ensures ChainGoneMissing(envs + [env])
            <==> ChainGoneMissing(envs) || (SomeWriteLanded(envs) && env.writeOk && !env.chainFound)
  {
    var all := envs + [env];
    assert forall j :: 0 <= j < |envs| ==> all[j] == envs[j];
    assert all[|envs|] == env;
    if SomeWriteLanded(envs) {
      var j :| 0 <= j < |envs| && envs[j].writeOk;
      assert all[j].writeOk;
    }
    if ChainGoneMissing(envs) {
      var j, k :| 0 <= j < k < |envs| && envs[j].writeOk && envs[k].writeOk && !envs[k].chainFound;
      assert all[j].writeOk && all[k].writeOk && !all[k].chainFound;
    }
  }

  /** The empty chain is accepted and never completes: it ends iff a pass fails to find it. */
  lemma {:induction false} EmptyChainEndsIff(envs: seq<Env>)
    ensures ValidDag([])
    ensures Terminal(Run([], envs).phase) <==> ChainGoneMissing(envs)
    ensures Run([], envs).phase != ChainSucceeded && Run([], envs).steps == []
    ensures Run([], envs).finalizer <==> SomeWriteLanded(envs)
  {
    RankedMeansAcyclic([], []);
    if envs != [] {
      var prefix, env := envs[..|envs| - 1], envs[|envs| - 1];
      assert envs == prefix + [env];
      EmptyChainEndsIff(prefix);
      MissingAppend(prefix, env);
    }
  }

  // ----- how many AgentRuns a step gets -----

  function RunsFor(created: seq<AgentRun>, i: nat): nat {
    if created == [] then 0 else (if created[0].step == i then 1 else 0) + RunsFor(created[1..], i)
  }

  lemma {:induction false} RunsForAppend(a: seq<AgentRun>, b: seq<AgentRun>, i: nat)
    ensures RunsFor(a + b, i) == RunsFor(a, i) + RunsFor(b, i)
  {
    if a == [] {
      assert a + b == b;
    } else {
      RunsForAppend(a[1..], b, i);
      assert (a + b)[1..] == a[1..] + b;
    }
  }

  lemma {:induction false} RunsForPass(chain: seq<Step>, steps: seq<StepStatus>, env: Env, k: nat, i: nat)
    requires |steps| == |chain| && k <= |chain|
    ensures RunsFor(CreatedUpTo(chain, steps, env, k), i)
            == if i < k && Ready(chain, steps, i) && Launches(chain, env, i) then 1 else 0
  {
    if k > 0 {
      RunsForPass(chain, steps, env, k - 1, i);
      var made := if Ready(chain, steps, k - 1)
                  then CreatedFor(chain, StartedUpTo(chain, steps, env, k - 1), env, k - 1) else [];
      RunsForAppend(CreatedUpTo(chain, steps, env, k - 1), made, i);
      assert made != [] ==> made[1..] == [];
    }
  }

  /** The pass creates an AgentRun for step i. */
  ghost predicate StartsStep(chain: seq<Step>, cr: ChainRun, env: Env, i: nat)
    requires cr.steps != [] ==> |cr.steps| == |chain|
  {
    i < |chain| && Advances(chain, cr, env) && Ready(chain, Sync(cr.steps, env), i) && Launches(chain, env, i)
  }

  lemma {:induction false} PassRuns(chain: seq<Step>, cr: ChainRun, env: Env, i: nat)
    requires cr.steps != [] ==> |cr.steps| == |chain|
    ensures RunsFor(Pass(chain, cr, env).created, i)
            == RunsFor(cr.created, i) + if StartsStep(chain, cr, env, i) then 1 else 0
  {
    if Advances(chain, cr, env) {
      var synced := Sync(cr.steps, env);
      RunsForPass(chain, synced, env, |chain|, i);
      RunsForAppend(cr.created, CreatedUpTo(chain, synced, env, |chain|), i);
    }
  }

  /** Passes that created a run of step i and lost the write that says so. */
  ghost function LostStarts(chain: seq<Step>, envs: seq<Env>, i: nat): nat {
    if envs == [] then 0
    else
      var prefix, env := envs[..|envs| - 1], envs[|envs| - 1];
      LostStarts(chain, prefix, i) + if StartsStep(chain, Run(chain, prefix), env, i) && !env.writeOk then 1 else 0
  }

  /** Some pass created a run of step i and its write landed. */
  ghost predicate Landed(chain: seq<Step>, envs: seq<Env>, i: nat) {
    envs != [] &&
      var prefix, env := envs[..|envs| - 1], envs[|envs| - 1];
      Landed(chain, prefix, i) || (StartsStep(chain, Run(chain, prefix), env, i) && env.writeOk)
  }

  predicate HasLeftPending(steps: seq<StepStatus>, i: nat) {
    i < |steps| && steps[i].phase != Pending
  }

  lemma {:induction false} LandedStartLeavesPending(chain: seq<Step>, cr: ChainRun, env: Env, i: nat)
    requires RunOk(chain, cr) && StartsStep(chain, cr, env, i) && env.writeOk
    ensures HasLeftPending(Pass(chain, cr, env).steps, i)
  {
    var synced := Sync(cr.steps, env);
    var started := Started(chain, synced, env);
    assert started[i].phase != Pending && !Doomed(chain, started, i);
  }

  lemma {:induction false} LeftPendingStays(chain: seq<Step>, cr: ChainRun, env: Env, i: nat)
    requires RunOk(chain, cr) && HasLeftPending(cr.steps, i)
    ensures HasLeftPending(Pass(chain, cr, env).steps, i) && !StartsStep(chain, cr, env, i)
  {
    PassMovesLegally(chain, cr, env);
  }

  lemma {:induction false} LandedLeftPending(chain: seq<Step>, envs: seq<Env>, i: nat)
    requires Landed(chain, envs, i)
    ensures HasLeftPending(Run(chain, envs).steps, i)
  {
    var prefix, env := envs[..|envs| - 1], envs[|envs| - 1];
    RunIsOk(chain, prefix);
    if Landed(chain, prefix, i) {
      LandedLeftPending(chain, prefix, i);
      LeftPendingStays(chain, Run(chain, prefix), env, i);
    } else {
      LandedStartLeavesPending(chain, Run(chain, prefix), env, i);
    }
  }

  /** In every run a step has one AgentRun for each start whose write was lost, and one if a start's write landed. */
  lemma {:induction false} RunCountIs(chain: seq<Step>, envs: seq<Env>, i: nat)
    ensures RunsFor(Run(chain, envs).created, i) == LostStarts(chain, envs, i) + if Landed(chain, envs, i) then 1 else 0
  {
    if envs != [] {
      var prefix, env := envs[..|envs| - 1], envs[|envs| - 1];
      RunCountIs(chain, prefix, i);
      PassRuns(chain, Run(chain, prefix), env, i);
      if Landed(chain, prefix, i) {
        RunIsOk(chain, prefix);
        LandedLeftPending(chain, prefix, i);
        LeftPendingStays(chain, Run(chain, prefix), env, i);
      }
    }
  }

  /** A step has at most one AgentRun iff no start of it lost its write, or one did and no start landed. */
  lemma {:induction false} AtMostOneRunIff(chain: seq<Step>, envs: seq<Env>, i: nat)
    ensures RunsFor(Run(chain, envs).created, i) <= 1
            <==> LostStarts(chain, envs, i) == 0 || (LostStarts(chain, envs, i) == 1 && !Landed(chain, envs, i))
  {
    RunCountIs(chain, envs, i);
  }

  predicate AllWritesLand(envs: seq<Env>) {
    forall k :: 0 <= k < |envs| ==> envs[k].writeOk
  }

  /** With every write landing, a step gets at most one AgentRun. */
  lemma {:induction false} NoLossNoDuplicate(chain: seq<Step>, envs: seq<Env>, i: nat)
    requires AllWritesLand(envs)
    ensures LostStarts(chain, envs, i) == 0 && RunsFor(Run(chain, envs).created, i) <= 1
  {
    if envs != [] {
      NoLossNoDuplicate(chain, envs[..|envs| - 1], i);
    }
    RunCountIs(chain, envs, i);
  }

  /** Nothing differs but the runs there are, and there are n more of step i. */
  ghost predicate OnlyRunsAdded(cr: ChainRun, cr': ChainRun, i: nat, n: nat) {
    cr' == cr.(created := cr'.created) && RunsFor(cr'.created, i) == RunsFor(cr.created, i) + n
  }

  /** A pass that starts the step and loses its write adds a run and changes nothing else. */
  lemma {:induction false} LostPass(chain: seq<Step>, cr: ChainRun, mid: ChainRun, env: Env, i: nat, n: nat)
    requires (cr.steps != [] ==> |cr.steps| == |chain|) && OnlyRunsAdded(cr, mid, i, n)
    requires StartsStep(chain, cr, env, i) && !env.writeOk
    ensures OnlyRunsAdded(cr, Pass(chain, mid, env), i, n + 1)
  {
    PassRuns(chain, mid, env, i);
  }

  /** Each of these passes would start the step in this state, and loses its write. */
  ghost predicate LostPasses(chain: seq<Step>, cr: ChainRun, lost: seq<Env>, i: nat)
    requires cr.steps != [] ==> |cr.steps| == |chain|
  {
    forall k :: 0 <= k < |lost| ==> !lost[k].writeOk && StartsStep(chain, cr, lost[k], i)
  }

  lemma {:induction false} RunOfMore(chain: seq<Step>, envs: seq<Env>, more: seq<Env>, env: Env)
    ensures Run(chain, envs + (more + [env])) == Pass(chain, Run(chain, envs + more), env)
  {
    assert envs + (more + [env]) == envs + more + [env];
    RunAppend(chain, envs + more, env);
  }

  /**
   Nothing stops the repetition: in any reachable state, each pass that starts
   the step and loses its write adds a run and leaves everything else as it was.
   */
  lemma {:induction false} LostStartsRepeat(chain: seq<Step>, envs: seq<Env>, lost: seq<Env>, i: nat)
    requires LostPasses(chain, Run(chain, envs), lost, i)
    ensures OnlyRunsAdded(Run(chain, envs), Run(chain, envs + lost), i, |lost|)
  {
    if lost == [] {
      assert envs + lost == envs;
    } else {
      var prefix, env := lost[..|lost| - 1], lost[|lost| - 1];
      var cr, mid := Run(chain, envs), Run(chain, envs + prefix);
      LostStartsRepeat(chain, envs, prefix, i);
      RunOfMore(chain, envs, prefix, env);
      assert envs + lost == envs + (prefix + [env]);
      LostPass(chain, cr, mid, env, i, |prefix|);
    }
  }

  /** What was seen ended reads the same again. */
  predicate StillReads(before: Env, after: Env) {
    forall r :: r in before.runs && RunEnded(before.runs[r]) ==> r in after.runs && after.runs[r] == before.runs[r]
  }

  lemma {:induction false} StartsAgain(chain: seq<Step>, cr: ChainRun, before: Env, after: Env, i: nat)
    requires (cr.steps != [] ==> |cr.steps| == |chain|) && StartsStep(chain, cr, before, i)
    requires after.chainFound && StillReads(before, after) && Launches(chain, after, i)
    ensures StartsStep(chain, cr, after, i)
  {
    var x, y := Sync(cr.steps, before), Sync(cr.steps, after);
    forall j: nat | j < |chain| && Edge(chain, i, j) ensures y[j].phase == Succeeded {
      assert x[j].phase == Succeeded;
    }
  }

  /**
   In any reachable state, for any step: if the pass that starts it loses its
   write, the next pass that finds the chain, reads the ended runs again and can
   create it starts it a second time.
   */
  lemma {:induction false} LostWriteStartsTwice(chain: seq<Step>, envs: seq<Env>, lost: Env, env: Env, i: nat)
    requires StartsStep(chain, Run(chain, envs), lost, i) && !lost.writeOk
    requires env.chainFound && StillReads(lost, env) && Launches(chain, env, i)
    ensures RunsFor(Run(chain, envs + [lost, env]).created, i) == RunsFor(Run(chain, envs).created, i) + 2
  {
    LostStartsRepeat(chain, envs, [lost], i);
    var cr := Run(chain, envs + [lost]);
    StartsAgain(chain, Run(chain, envs), lost, env, i);
    assert StartsStep(chain, cr, env, i);
    assert envs + [lost, env] == envs + [lost] + [env];
    RunAppend(chain, envs + [lost], env);
    PassRuns(chain, cr, env, i);
  }

  lemma {:induction false} TwoPasses(chain: seq<Step>, env: Env)
    requires ValidDag(chain) && env.chainFound && env.writeOk
    ensures Pass(chain, Pass(chain, FRESH, env), env) == ChainRun(true, ChainRunning, Initial(chain), [])
  {
  }

  lemma {:induction false} RunOfTwo(chain: seq<Step>, a: Env, b: Env)
    ensures Run(chain, [a, b]) == Pass(chain, Pass(chain, FRESH, a), b)
  {
    RunAppend(chain, [], a);
    RunAppend(chain, [a], b);
    assert [] + [a] == [a] && [a] + [b] == [a, b];
  }

  lemma {:induction false} RootIsReady(chain: seq<Step>, env: Env, i: nat)
    requires i < |chain| && chain[i].dependsOn == []
    ensures Ready(chain, Sync(Initial(chain), env), i)
  {
    assert Sync(Initial(chain), env)[i] == Initial(chain)[i];
  }

  /** Such a state is reached: two passes after creation, every root of a valid chain is about to start. */
  lemma {:induction false} RootsStart(chain: seq<Step>, env: Env, next: Env, i: nat)
    requires ValidDag(chain) && i < |chain| && chain[i].dependsOn == []
    requires env.chainFound && env.writeOk && next.chainFound && Launches(chain, next, i)
    ensures StartsStep(chain, Run(chain, [env, env]), next, i)
  {
    RunOfTwo(chain, env, env);
    TwoPasses(chain, env);
    RootIsReady(chain, next, i);
  }

  // ----- branch inheritance -----

  /** a starts from the branch of step j, a transitive dependency that was run. */
  ghost predicate Inherits(cr: ChainRun, a: AgentRun, j: nat) {
    && j < |cr.steps| && Tried(cr.steps[j].phase) && cr.steps[j].runID != ""
    && (a.repos != [] ==> a.repos[0].branch == "aot/" + cr.steps[j].runID)
  }

  ghost predicate WantsBranch(chain: seq<Step>, i: nat, j: nat) {
    && i < |chain| && j < |chain| && Reaches(chain, i, j)
    && chain[j].name != "" && chain[i].branchFrom == chain[j].name
  }

  ghost predicate BranchesOk(chain: seq<Step>, cr: ChainRun) {
    forall a, j: nat {:trigger Inherits(cr, a, j)} :: a in cr.created && WantsBranch(chain, a.step, j) ==> Inherits(cr, a, j)
  }

  /** Every transitive dependency of a ready step has succeeded. */
  lemma ReadyMeansAllSucceeded(chain: seq<Step>, steps: seq<StepStatus>, i: nat, j: nat)
    requires StepsOk(chain, steps) && i < |chain| && Ready(chain, steps, i) && Reaches(chain, i, j)
    ensures j < |steps| && steps[j].phase == Succeeded
  {
    var p :| Links(chain, p, i, j);
    assert Edge(chain, p[0], p[1]);
    if |p| > 2 {
      assert IsPath(chain, p[1..]);
      TriedMeansAllSucceeded(chain, steps, p[1..], |p| - 2);
    }
  }

  lemma {:induction false} LaunchInherits(chain: seq<Step>, steps: seq<StepStatus>, env: Env, i: nat, a: AgentRun, j: nat)
    requires UniqueNames(chain) && StepsOk(chain, steps) && i < |chain| && Ready(chain, steps, i)
    requires a in CreatedFor(chain, StartedUpTo(chain, steps, env, i), env, i) && WantsBranch(chain, i, j)
    ensures steps[j].phase == Succeeded
    ensures a.repos != [] ==> a.repos[0].branch == "aot/" + steps[j].runID
  {
    var now := StartedUpTo(chain, steps, env, i);
    ReadyMeansAllSucceeded(chain, steps, i, j);
    assert now[j] == steps[j];
    assert Defined(chain, chain[i].branchFrom) && PositionOf(chain, chain[i].branchFrom) == j;
    assert "aot/" + steps[j].runID != "" by {
      assert ("aot/" + steps[j].runID)[0] == 'a';
    }
  }

  lemma {:induction false} CreatedInherits(chain: seq<Step>, steps: seq<StepStatus>, env: Env, k: nat, a: AgentRun, j: nat)
    requires UniqueNames(chain) && StepsOk(chain, steps) && k <= |chain|
    requires a in CreatedUpTo(chain, steps, env, k) && WantsBranch(chain, a.step, j)
    ensures steps[j].phase == Succeeded
    ensures a.repos != [] ==> a.repos[0].branch == "aot/" + steps[j].runID
  {
    if a in CreatedUpTo(chain, steps, env, k - 1) {
      CreatedInherits(chain, steps, env, k - 1, a, j);
    } else {
      LaunchInherits(chain, steps, env, k - 1, a, j);
    }
  }

  lemma PassKeepsBranches(chain: seq<Step>, cr: ChainRun, env: Env)
    requires RunOk(chain, cr) && RunsNamed(cr) && BranchesOk(chain, cr)
    ensures BranchesOk(chain, Pass(chain, cr, env))
  {
    var after := Pass(chain, cr, env);
    if cr.steps != [] {
      PassMovesLegally(chain, cr, env);
    }
    forall a, j: nat | a in after.created && WantsBranch(chain, a.step, j) ensures Inherits(after, a, j) {
      if a in cr.created {
        assert Inherits(cr, a, j);
      } else {
        var synced := Sync(cr.steps, env);
        SyncKeepsSteps(chain, cr.steps, env);
        assert a in CreatedUpTo(chain, synced, env, |chain|);
        CreatedInherits(chain, synced, env, |chain|, a, j);
        assert synced[j].runID == cr.steps[j].runID;
      }
    }
  }

  lemma {:induction false} BranchesInherited(chain: seq<Step>, envs: seq<Env>)
    requires NamesRuns(envs)
    ensures BranchesOk(chain, Run(chain, envs))
  {
    if envs != [] {
      var prefix := envs[..|envs| - 1];
      BranchesInherited(chain, prefix);
      RunIsOk(chain, prefix);
      RunIsNamed(chain, prefix);
      PassKeepsBranches(chain, Run(chain, prefix), envs[|envs| - 1]);
    }
  }

  lemma {:induction false} CreatedWasReady(chain: seq<Step>, steps: seq<StepStatus>, env: Env, k: nat, a: AgentRun)
    requires |steps| == |chain| && k <= |chain| && a in CreatedUpTo(chain, steps, env, k)
    ensures a.step < k && Ready(chain, steps, a.step)
  {
    if a in CreatedUpTo(chain, steps, env, k - 1) {
      CreatedWasReady(chain, steps, env, k - 1, a);
    }
  }

  lemma {:induction false} NewRunWasTried(chain: seq<Step>, cr: ChainRun, env: Env, a: AgentRun)
    requires RunOk(chain, cr) && env.writeOk
    requires a in Pass(chain, cr, env).created && a !in cr.created
    ensures var steps := Pass(chain, cr, env).steps; a.step < |steps| && Tried(steps[a.step].phase)
  {
    var synced := Sync(cr.steps, env);
    CreatedWasReady(chain, synced, env, |chain|, a);
    var started := Started(chain, synced, env);
    assert Tried(started[a.step].phase) && !Doomed(chain, started, a.step);
  }

  lemma {:induction false} CreatedWasTried(chain: seq<Step>, envs: seq<Env>, a: AgentRun)
    requires AllWritesLand(envs) && a in Run(chain, envs).created
    ensures var cr := Run(chain, envs); a.step < |cr.steps| && Tried(cr.steps[a.step].phase)
  {
    var prefix, env := envs[..|envs| - 1], envs[|envs| - 1];
    RunIsOk(chain, prefix);
    var cr := Run(chain, prefix);
    if cr.steps != [] {
      PassMovesLegally(chain, cr, env);
    }
    if a in cr.created {
      CreatedWasTried(chain, prefix, a);
    } else {
      NewRunWasTried(chain, cr, env, a);
    }
  }

  /**
   Whenever branchFrom names a transitive dependency j, the first repository of
   the run created for the step is on aot/<run ID of j>; j's run exists, and
   when no write is lost, j succeeded.
   */
  lemma {:induction false} BranchInheritance(chain: seq<Step>, envs: seq<Env>, a: AgentRun, j: nat)
    requires NamesRuns(envs) && a in Run(chain, envs).created && WantsBranch(chain, a.step, j)
    ensures var cr := Run(chain, envs);
            && j < |cr.steps| && cr.steps[j].runID != ""
            && (a.repos != [] ==> a.repos[0].branch == "aot/" + cr.steps[j].runID)
            && (AllWritesLand(envs) ==> cr.steps[j].phase == Succeeded && WasCreated(cr, cr.steps[j].runID, j))
  {
    BranchesInherited(chain, envs);
    var cr := Run(chain, envs);
    assert Inherits(cr, a, j);
    if AllWritesLand(envs) {
      CreatedWasTried(chain, envs, a);
      RunClosedForm(chain, envs);
      RunIsNamed(chain, envs);
    }
  }
}
