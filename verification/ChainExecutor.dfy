/**
 What one reconcile pass does to a chain run, stated on values: sync the running
 steps, start the ready ones, skip what can no longer run, decide the outcome.
 */
module ChainExecutor {
  import opened ChainGraph

  datatype StepPhase = Pending | Running | Succeeded | Failed | Skipped

  datatype StepStatus = StepStatus(name: string, phase: StepPhase, runID: string)

  datatype ChainPhase = ChainPending | ChainRunning | ChainSucceeded | ChainFailed | ChainCancelled

  datatype RunPhase = RunPending | RunRunning | RunWaitingForInput | RunSucceeded | RunFailed | RunCancelled

  datatype Repo = Repo(url: string, branch: string)

  datatype Template = Template(repos: seq<Repo>)

  /** An AgentRun created for the step at position `step`. */
  datatype AgentRun = AgentRun(name: string, step: nat, repos: seq<Repo>)

  /** The stored ChainRun, and every AgentRun ever created for it. */
  datatype ChainRun = ChainRun(
    finalizer: bool,
    phase: ChainPhase,
    steps: seq<StepStatus>,
    created: seq<AgentRun>)

  /**
   What the cluster answers during one pass. A name outside `runs` means the
   read failed, and so does a position and name outside `templates`, where each
   step has its own read; a position outside `creates` means the create failed;
   `writeOk` says whether the pass's write to the ChainRun lands.
   */
  datatype Env = Env(
    chainFound: bool,
    runs: map<string, RunPhase>,
    templates: map<(nat, string), Template>,
    creates: map<nat, string>,
    writeOk: bool)

  predicate Terminal(p: ChainPhase) {
    p == ChainSucceeded || p == ChainFailed || p == ChainCancelled
  }

  predicate Bad(p: StepPhase) {
    p == Failed || p == Skipped
  }

  predicate Matches(chain: seq<Step>, steps: seq<StepStatus>) {
    |steps| == |chain| && forall i :: 0 <= i < |chain| ==> steps[i].name == chain[i].name
  }

  // ----- sync -----

  function SyncOne(s: StepStatus, env: Env): StepStatus {
    if s.phase == Running && s.runID != "" && s.runID in env.runs then
      match env.runs[s.runID]
      case RunSucceeded => s.(phase := Succeeded)
      case RunFailed => s.(phase := Failed)
      case RunCancelled => s.(phase := Failed)
      case _ => s
    else s
  }

  function Sync(steps: seq<StepStatus>, env: Env): (r: seq<StepStatus>)
    ensures |r| == |steps|
  {
    seq(|steps|, i requires 0 <= i < |steps| => SyncOne(steps[i], env))
  }

  // ----- start -----

  predicate Ready(chain: seq<Step>, steps: seq<StepStatus>, i: nat)
    requires |steps| == |chain| && i < |chain|
  {
    && steps[i].phase == Pending
    && forall j: nat :: j < |chain| && Edge(chain, i, j) ==> steps[j].phase == Succeeded
  }

  predicate Launches(chain: seq<Step>, env: Env, i: nat)
    requires i < |chain|
  {
    (i, chain[i].templateRef) in env.templates && i in env.creates
  }

  function Launched(chain: seq<Step>, s: StepStatus, env: Env, i: nat): StepStatus
    requires i < |chain|
  {
    if Launches(chain, env, i) then s.(phase := Running, runID := env.creates[i]) else s.(phase := Failed)
  }

  /** The statuses once the first k positions have had their turn to start. */
  function StartedUpTo(chain: seq<Step>, steps: seq<StepStatus>, env: Env, k: nat): (r: seq<StepStatus>)
    requires |steps| == |chain| && k <= |chain|
    ensures |r| == |steps|
    ensures k == 0 ==> r == steps
    ensures Matches(chain, steps) ==> Matches(chain, r)
  {
    seq(|steps|, i requires 0 <= i < |steps| =>
      if i < k && Ready(chain, steps, i) then Launched(chain, steps[i], env, i) else steps[i])
  }

  function Started(chain: seq<Step>, steps: seq<StepStatus>, env: Env): (r: seq<StepStatus>)
    requires |steps| == |chain|
    ensures |r| == |steps|
  {
    StartedUpTo(chain, steps, env, |chain|)
  }

  /** Position of the step with this name. */
  ghost function PositionOf(chain: seq<Step>, name: string): (i: nat)
    requires Defined(chain, name)
    ensures i < |chain| && chain[i].name == name
  {
    var i :| 0 <= i < |chain| && chain[i].name == name; i
  }

  /** The branch a new run starts from, given the statuses at that moment; "" for none. */
  ghost function BranchFor(chain: seq<Step>, steps: seq<StepStatus>, i: nat): string
    requires |steps| == |chain| && i < |chain|
  {
    if chain[i].branchFrom != "" && Defined(chain, chain[i].branchFrom)
    then "aot/" + steps[PositionOf(chain, chain[i].branchFrom)].runID
    else ""
  }

  function WithBranch(repos: seq<Repo>, branch: string): (r: seq<Repo>)
    ensures |r| == |repos|
    ensures branch != "" && repos != [] ==> r[0].branch == branch && r[1..] == repos[1..]
  {
    if branch != "" && |repos| > 0 then repos[0 := repos[0].(branch := branch)] else repos
  }

  /** The AgentRun created for step i when it starts, if its template and its create succeed. */
  ghost function CreatedFor(chain: seq<Step>, steps: seq<StepStatus>, env: Env, i: nat): seq<AgentRun>
    requires |steps| == |chain| && i < |chain|
  {
    if Launches(chain, env, i)
    then [AgentRun(env.creates[i], i,
                   WithBranch(env.templates[(i, chain[i].templateRef)].repos, BranchFor(chain, steps, i)))]
    else []
  }

  /** The AgentRuns created while the first k positions have their turn. */
  ghost function CreatedUpTo(chain: seq<Step>, steps: seq<StepStatus>, env: Env, k: nat): seq<AgentRun>
    requires |steps| == |chain| && k <= |chain|
  {
    if k == 0 then []
    else
      var i := k - 1;
      CreatedUpTo(chain, steps, env, i) +
      if Ready(chain, steps, i) then CreatedFor(chain, StartedUpTo(chain, steps, env, i), env, i) else []
  }

  // ----- skip -----

  /** p leads from i through pending steps to a step that failed or was skipped. */
  ghost predicate DoomPath(chain: seq<Step>, steps: seq<StepStatus>, p: seq<nat>, i: nat)
    requires |steps| == |chain|
  {
    && |p| >= 2 && p[0] == i && IsPath(chain, p)
    && (forall k :: 0 <= k < |p| ==> p[k] < |steps|)
    && (forall k :: 0 <= k < |p| - 1 ==> steps[p[k]].phase == Pending)
    && Bad(steps[p[|p| - 1]].phase)
  }

  ghost predicate Doomed(chain: seq<Step>, steps: seq<StepStatus>, i: nat)
    requires |steps| == |chain|
  {
    exists p :: DoomPath(chain, steps, p, i)
  }

  /** A pending step is doomed as soon as one of its dependencies is, or has failed or been skipped. */
  lemma DoomSpreads(chain: seq<Step>, steps: seq<StepStatus>, i: nat, j: nat)
    requires |steps| == |chain| && Edge(chain, i, j) && steps[i].phase == Pending
    requires Bad(steps[j].phase) || Doomed(chain, steps, j)
    ensures Doomed(chain, steps, i)
  {
    if Bad(steps[j].phase) {
      assert DoomPath(chain, steps, [i, j], i);
    } else {
      var p :| DoomPath(chain, steps, p, j);
      var q := [i] + p;
      assert forall k :: 0 <= k < |q| - 1 ==> q[k] == if k == 0 then i else p[k - 1];
      assert DoomPath(chain, steps, q, i);
    }
  }

  ghost function Skip(chain: seq<Step>, steps: seq<StepStatus>): (r: seq<StepStatus>)
    requires |steps| == |chain|
    ensures |r| == |steps|
  {
    seq(|steps|, i requires 0 <= i < |steps| =>
      if Doomed(chain, steps, i) then steps[i].(phase := Skipped) else steps[i])
  }

  // ----- outcome -----

  predicate AllDone(steps: seq<StepStatus>) {
    forall i :: 0 <= i < |steps| ==> steps[i].phase != Pending && steps[i].phase != Running
  }

  predicate AnyFailed(steps: seq<StepStatus>) {
    exists i :: 0 <= i < |steps| && steps[i].phase == Failed
  }

  function Outcome(phase: ChainPhase, steps: seq<StepStatus>): ChainPhase {
    if !AllDone(steps) then phase else if AnyFailed(steps) then ChainFailed else ChainSucceeded
  }

  // ----- one pass -----

  function Initial(chain: seq<Step>): (r: seq<StepStatus>)
    ensures |r| == |chain|
  {
    seq(|chain|, i requires 0 <= i < |chain| => StepStatus(chain[i].name, Pending, ""))
  }

  ghost function Advanced(chain: seq<Step>, steps: seq<StepStatus>, env: Env): (r: seq<StepStatus>)
    requires |steps| == |chain|
    ensures |r| == |steps|
  {
    Skip(chain, Started(chain, Sync(steps, env), env))
  }

  ghost predicate Advances(chain: seq<Step>, cr: ChainRun, env: Env) {
    cr.finalizer && !Terminal(cr.phase) && env.chainFound && ValidDag(chain) && cr.steps != []
  }

  /** The stored ChainRun after one reconcile pass. */
  ghost function Pass(chain: seq<Step>, cr: ChainRun, env: Env): ChainRun
    requires cr.steps != [] ==> |cr.steps| == |chain|
  {
    if Advances(chain, cr, env) then
      var synced := Sync(cr.steps, env);
      var steps := Advanced(chain, cr.steps, env);
      var created := cr.created + CreatedUpTo(chain, synced, env, |chain|);
      if env.writeOk then ChainRun(true, Outcome(cr.phase, steps), steps, created)
      else cr.(created := created)
    else if !env.writeOk then cr
    else if !cr.finalizer then cr.(finalizer := true)
    else if Terminal(cr.phase) then cr
    else if !env.chainFound || !ValidDag(chain) then cr.(phase := ChainFailed)
    else cr.(phase := ChainRunning, steps := Initial(chain))
  }
}
