/**
 The AgentRun reconciler as a bridge between a stored object and a workflow
 engine, with every Kubernetes and Temporal call free to fail.
 */
module AgentRunLifecycle {
  import opened Basics

  datatype Phase = Unset | Pending | Running | WaitingForInput | Succeeded | Failed | Cancelled

  predicate Terminal(p: Phase) {
    p == Succeeded || p == Failed || p == Cancelled
  }

  datatype Condition = Condition(status: bool, reason: string)

  /**
   The stored AgentRun, as far as the reconciler decides on it, and how often it
   asked for a workflow, whatever the answer.
   */
  datatype Object = Object(
    gone: bool,
    deleting: bool,
    finalizer: bool,
    workflowId: string,
    archived: bool,
    cleaned: bool,
    phase: Phase,
    startedAt: Option<int>,
    completedAt: Option<int>,
    workflowStarted: Option<Condition>,
    completed: Option<Condition>,
    starts: nat)

  datatype Start = Started | AlreadyStarted | StartFailed

  /** A workflow's execution status, as describing it tells. */
  datatype Execution = StillOpen | ExecCompleted | ExecFailed | ExecCanceled | ExecTerminated | ExecTimedOut

  /** What the calls of one pass return; every `...Ok` may be false. */
  datatype Env = Env(
    getOk: bool,
    finalizerOk: bool,
    cleanedOk: bool,
    projectReady: bool,
    projectOk: bool,
    start: Start,
    startFailedOk: bool,
    annotateOk: bool,
    refetchOk: bool,
    statusOk: bool,
    queryOk: bool,
    decodeOk: bool,
    workflowPhase: string,
    describeOk: bool,
    execution: Execution,
    closeTime: Option<int>,
    now: int)

  function MapPhase(p: string): (r: Phase)
    ensures r != Unset
    ensures Terminal(r) <==> p in {"Succeeded", "Failed", "Cancelled", "Cancelling"}
    ensures (r == Succeeded <==> p == "Succeeded") && (r == Failed <==> p == "Failed")
    ensures (r == Running <==> p == "Running") && (r == WaitingForInput <==> p == "WaitingForInput")
  {
    if p == "Pending" || p == "Creating" || p == "Hydrating" then Pending
    else if p == "Running" then Running
    else if p == "WaitingForInput" then WaitingForInput
    else if p == "Succeeded" then Succeeded
    else if p == "Failed" then Failed
    else if p == "Cancelled" || p == "Cancelling" then Cancelled
    else Pending
  }

  function ExecutionPhase(e: Execution): Phase
    requires !e.StillOpen?
  {
    if e.ExecCompleted? then Succeeded else if e.ExecCanceled? then Cancelled else Failed
  }

  function CompletedFor(p: Phase): Condition {
    if p == Failed then Condition(false, "Failed")
    else if p == Cancelled then Condition(false, "Cancelled")
    else Condition(true, "Succeeded")
  }

  const FRESH := Object(false, false, false, "", false, false, Unset, None, None, None, None, 0)

  // ----- what a pass stores -----

  /** The object completed in phase p, at time t unless it already has one. */
  function Finish(o: Object, p: Phase, t: int): Object {
    o.(phase := p, completedAt := if o.completedAt.Some? then o.completedAt else Some(t), completed := Some(CompletedFor(p)))
  }

  function AfterStart(name: string, env: Env, o: Object): Object {
    if !env.projectReady || !env.projectOk then o
    else
      var asked := o.(starts := o.starts + 1);
      if env.start.StartFailed? then
        if env.startFailedOk then asked.(workflowStarted := Some(Condition(false, "WorkflowStartFailed"))) else asked
      else if !env.annotateOk then asked
      else
        var annotated := asked.(workflowId := "agentrun-" + name);
        if env.refetchOk && env.statusOk
        then annotated.(phase := Running, startedAt := Some(env.now), workflowStarted := Some(Condition(true, "WorkflowStarted")))
        else annotated
  }

  function Described(env: Env, o: Object): Object {
    if env.execution.StillOpen? || !env.statusOk then o
    else Finish(o, ExecutionPhase(env.execution), if env.closeTime.Some? then env.closeTime.value else env.now)
  }

  /** The object with the start time that a lost status update left out, if phase p says it has started. */
  function StartedBy(o: Object, p: Phase, now: int): Object {
    if o.startedAt.None? && (p == Running || Terminal(p)) then o.(startedAt := Some(now)) else o
  }

  /** The object moved to phase p: started if p says so, completed if p is terminal. */
  function Advanced(o: Object, p: Phase, now: int): Object {
    var started := StartedBy(o, p, now);
    if Terminal(p) then Finish(started, p, now) else started.(phase := p)
  }

  function Queried(env: Env, o: Object): Object {
    if !env.decodeOk || !env.statusOk then o else Advanced(o, MapPhase(env.workflowPhase), env.now)
  }

  function AfterSync(env: Env, o: Object): Object {
    if env.queryOk then Queried(env, o) else if env.describeOk then Described(env, o) else o
  }

  function Pass(name: string, env: Env, o: Object): Object {
    if !env.getOk || o.gone then o
    else if o.deleting then if o.finalizer && env.finalizerOk then o.(finalizer := false, gone := true) else o
    else if !o.finalizer then o.(finalizer := env.finalizerOk)
    else if o.archived then o.(cleaned := o.cleaned || env.cleanedOk)
    else if o.workflowId == "" then AfterStart(name, env, o)
    else if Terminal(o.phase) then o
    else AfterSync(env, o)
  }

  // ----- the reconciler -----

  /** The switch both sync functions make the Completed condition with. */
  method CompletedCondition(p: Phase) returns (cond: Condition)
    ensures cond == CompletedFor(p)
    ensures Terminal(p) ==> (cond.status <==> p == Succeeded)
    ensures cond.reason == if p == Failed then "Failed" else if p == Cancelled then "Cancelled" else "Succeeded"
  {
    cond := Condition(true, "Succeeded");
    match p {
      case Failed => cond := Condition(false, "Failed");
      case Cancelled => cond := Condition(false, "Cancelled");
      case _ =>
    }
  }

  /** The completion time, unless the run has one, and the Completed condition of a run that just ended. */
  method Complete(o: Object, t: int) returns (run: Object)
    ensures run == Finish(o, o.phase, t)
  {
    run := o;
    if run.completedAt.None? {
      run := run.(completedAt := Some(t));
    }
    var cond := CompletedCondition(run.phase);
    run := run.(completed := Some(cond));
  }

  /** The phase and start time a queried phase brings, and whether they changed anything. */
  method EnterPhase(o: Object, p: Phase, now: int) returns (run: Object, updated: bool)
    ensures run == StartedBy(o, p, now).(phase := p)
    ensures updated || run == o
  {
    run, updated := o, false;
    if run.phase != p {
      run, updated := run.(phase := p), true;
    }
    if run.startedAt.None? && (p == Running || Terminal(p)) {
      run, updated := run.(startedAt := Some(now)), true;
    }
  }

  /** The fields a queried phase changes, and whether there is anything to store. */
  method Advance(o: Object, p: Phase, now: int) returns (run: Object, updated: bool)
    ensures run == Advanced(o, p, now)
    ensures updated || run == o
  {
    run, updated := EnterPhase(o, p, now);
    if Terminal(p) {
      run := Complete(run, now);
      updated := true;
    }
  }

  /** The reconciler against one stored object of the given name. */
  class Reconciler {
    const name: string
    var stored: Object

    constructor (name: string)
      ensures this.name == name && stored == FRESH
    {
      this.name, stored := name, FRESH;
    }

    /** A user or the API server asks for deletion or archiving. */
    method Request(delete: bool, archive: bool)
      modifies this
      ensures stored == old(stored).(deleting := old(stored).deleting || delete, archived := old(stored).archived || archive)
    {
      stored := stored.(deleting := stored.deleting || delete, archived := stored.archived || archive);
    }

    method Reconcile(env: Env)
      modifies this
      ensures stored == Pass(name, env, old(stored))
    {
      if !env.getOk || stored.gone {
        return;
      }
      if stored.deleting {
        if stored.finalizer {
          if env.finalizerOk {
            stored := stored.(finalizer := false, gone := true);
          }
        }
        return;
      }
      if !stored.finalizer {
        if env.finalizerOk {
          stored := stored.(finalizer := true);
        }
        return;
      }
      if stored.archived {
        if !stored.cleaned && env.cleanedOk {
          stored := stored.(cleaned := true);
        }
        return;
      }
      if stored.workflowId == "" {
        StartWorkflow(env);
        return;
      }
      if Terminal(stored.phase) {
        return;
      }
      SyncWorkflowState(env);
    }

    method StartWorkflow(env: Env)
      modifies this
      ensures stored == AfterStart(name, env, old(stored))
    {
      if !env.projectReady || !env.projectOk {
        return;
      }
      stored := stored.(starts := stored.starts + 1);
      if env.start.StartFailed? {
        if env.startFailedOk {
          stored := stored.(workflowStarted := Some(Condition(false, "WorkflowStartFailed")));
        }
        return;
      }
      if !env.annotateOk {
        return;
      }
      stored := stored.(workflowId := "agentrun-" + name);
      if !env.refetchOk {
        return;
      }
      var run := stored;
      run := run.(phase := Running, startedAt := Some(env.now));
      run := run.(workflowStarted := Some(Condition(true, "WorkflowStarted")));
      if env.statusOk {
        stored := run;
      }
    }

    method SyncWorkflowState(env: Env)
      modifies this
      ensures stored == AfterSync(env, old(stored))
    {
      if !env.queryOk {
        if !env.describeOk {
          return;
        }
        SyncFromDescription(env);
        return;
      }
      if !env.decodeOk {
        return;
      }
      var newPhase := MapPhase(env.workflowPhase);
      var run, updated := Advance(stored, newPhase, env.now);
      if updated && env.statusOk {
        stored := run;
      }
    }

    method SyncFromDescription(env: Env)
      modifies this
      ensures stored == Described(env, old(stored))
    {
      var phase := stored.phase;
      match env.execution {
        case ExecCompleted => phase := Succeeded;
        case ExecFailed => phase := Failed;
        case ExecCanceled => phase := Cancelled;
        case ExecTerminated => phase := Failed;
        case ExecTimedOut => phase := Failed;
        case StillOpen => return;
      }
      assert phase == ExecutionPhase(env.execution);
      var run := Complete(stored.(phase := phase), if env.closeTime.Some? then env.closeTime.value else env.now);
      if env.statusOk {
        stored := run;
      }
    }
  }

  // ----- the lifecycle -----

  /**
   CompletedAt and the Completed condition are there iff the phase is terminal,
   the condition says what the phase says, a phase or a start time is stored
   only after the annotation, and a workflow was asked for only under a stored
   finalizer.
   */
  ghost predicate Lifecycle(o: Object) {
    && (Terminal(o.phase) <==> o.completedAt.Some?)
    && o.completed == (if Terminal(o.phase) then Some(CompletedFor(o.phase)) else None)
    && (o.phase != Unset || o.startedAt.Some? ==> o.workflowId != "")
    && (o.workflowId != "" ==> o.starts > 0)
    && (o.starts > 0 ==> o.finalizer || o.gone)
  }

  /** A pass never undoes an ending, an annotation, a start time or, short of deletion, the finalizer. */
  ghost predicate Moves(o: Object, o': Object) {
    && (Terminal(o.phase) ==> o'.phase == o.phase && o'.completedAt == o.completedAt && o'.completed == o.completed)
    && (o.workflowId != "" ==> o'.workflowId == o.workflowId && o'.starts == o.starts)
    && (o.startedAt.Some? ==> o'.startedAt == o.startedAt)
    && (o.finalizer ==> o'.finalizer || o'.gone)
    && (o'.starts > o.starts ==> o.finalizer && o.workflowId == "" && !o.deleting)
    && (o.gone ==> o' == o)
  }

  lemma PassKeepsLifecycle(name: string, env: Env, o: Object)
    requires Lifecycle(o)
    ensures Lifecycle(Pass(name, env, o)) && Moves(o, Pass(name, env, o))
  {
  }

  // ----- whole runs -----

  datatype Event = Passed(env: Env) | Requested(delete: bool, archive: bool)

  function Apply(name: string, o: Object, e: Event): Object {
    match e
    case Passed(env) => Pass(name, env, o)
    case Requested(delete, archive) => o.(deleting := o.deleting || delete, archived := o.archived || archive)
  }

  function After(name: string, o: Object, events: seq<Event>): Object {
    if events == [] then o
    else Apply(name, After(name, o, events[..|events| - 1]), events[|events| - 1])
  }

  /** Every state any sequence of passes reaches, whatever calls fail, is well formed. */
  lemma {:induction false} LifecycleHolds(name: string, events: seq<Event>)
    ensures Lifecycle(After(name, FRESH, events))
  {
    if events != [] {
      LifecycleHolds(name, events[..|events| - 1]);
      var o := After(name, FRESH, events[..|events| - 1]);
      if events[|events| - 1].Passed? {
        PassKeepsLifecycle(name, events[|events| - 1].env, o);
      }
    }
  }

  /** A stored terminal phase, its time and its condition never change again. */
  lemma {:induction false} EndingIsFinal(name: string, events: seq<Event>, more: seq<Event>)
    requires Terminal(After(name, FRESH, events).phase)
    ensures var o, o' := After(name, FRESH, events), After(name, FRESH, events + more);
            o'.phase == o.phase && o'.completedAt == o.completedAt && o'.completed == o.completed && o'.starts == o.starts
    decreases |more|
  {
    if more == [] {
      assert events + more == events;
    } else {
      var m := more[..|more| - 1];
      EndingIsFinal(name, events, m);
      assert (events + more)[..|events + more| - 1] == events + m;
      LifecycleHolds(name, events + m);
      if more[|more| - 1].Passed? {
        PassKeepsLifecycle(name, more[|more| - 1].env, After(name, FRESH, events + m));
      }
    }
  }

  /** A stored start time is never rewritten. */
  lemma {:induction false} StartIsFinal(name: string, events: seq<Event>, more: seq<Event>)
    requires After(name, FRESH, events).startedAt.Some?
    ensures After(name, FRESH, events + more).startedAt == After(name, FRESH, events).startedAt
    decreases |more|
  {
    if more == [] {
      assert events + more == events;
    } else {
      var m := more[..|more| - 1];
      StartIsFinal(name, events, m);
      assert (events + more)[..|events + more| - 1] == events + m;
      LifecycleHolds(name, events + m);
      if more[|more| - 1].Passed? {
        PassKeepsLifecycle(name, more[|more| - 1].env, After(name, FRESH, events + m));
      }
    }
  }

  /** A pass asks for a workflow only when an earlier pass stored the finalizer and none stored the annotation. */
  lemma StartsUnderFinalizer(name: string, events: seq<Event>, env: Env)
    ensures var o, o' := After(name, FRESH, events), After(name, FRESH, events + [Passed(env)]);
            o'.starts != o.starts ==>
              && o.finalizer && o.workflowId == "" && !o.deleting && !o.gone
              && o'.starts == o.starts + 1
              && (o'.workflowId == "agentrun-" + name || (o'.workflowId == "" && !Terminal(o'.phase)))
  {
    assert (events + [Passed(env)])[..|events|] == events;
    LifecycleHolds(name, events);
  }

  // ----- the stored phase is the reported one -----

  /** The pass looks at the workflow of this object. */
  predicate Syncs(o: Object, env: Env) {
    && env.getOk && !o.gone && !o.deleting && o.finalizer && !o.archived && o.workflowId != ""
    && !(o.phase == Succeeded || o.phase == Failed || o.phase == Cancelled)
  }

  /** The query failed, so the description decides. */
  predicate Describes(env: Env, executions: set<Execution>) {
    !env.queryOk && env.describeOk && env.execution in executions
  }

  predicate Answers(env: Env, answers: set<string>) {
    env.queryOk && env.decodeOk && env.workflowPhase in answers
  }

  const FAILURES := {ExecFailed, ExecTerminated, ExecTimedOut}
  const OTHER_ANSWERS := {"Succeeded", "Failed", "Cancelled", "Cancelling", "Running", "WaitingForInput"}

  /** What a pass that syncs and lands its write stores as the phase. */
  predicate StoresPhase(o: Object, env: Env, p: Phase) {
    && (Answers(env, {"Succeeded"}) || Describes(env, {ExecCompleted}) ==> p == Succeeded)
    && (Answers(env, {"Failed"}) || Describes(env, FAILURES) ==> p == Failed)
    && (Answers(env, {"Cancelled", "Cancelling"}) || Describes(env, {ExecCanceled}) ==> p == Cancelled)
    && (Answers(env, {"Running"}) ==> p == Running)
    && (Answers(env, {"WaitingForInput"}) ==> p == WaitingForInput)
    && (env.queryOk && env.decodeOk && env.workflowPhase !in OTHER_ANSWERS ==> p == Pending)
    && (Describes(env, {StillOpen}) || (env.queryOk && !env.decodeOk) || (!env.queryOk && !env.describeOk) ==> p == o.phase)
  }

  /** The times such a pass stores. */
  predicate StoresTimes(o: Object, env: Env, o': Object) {
    && (env.queryOk && env.decodeOk && (o'.phase == Running || o'.completedAt.Some?) && o.startedAt.None? ==> o'.startedAt == Some(env.now))
    && (o'.completedAt.Some? ==>
          o'.completedAt == Some(if !env.queryOk && env.closeTime.Some? then env.closeTime.value else env.now))
  }

  lemma SyncStores(name: string, env: Env, o: Object)
    requires Lifecycle(o) && Syncs(o, env) && env.statusOk
    ensures var o' := Pass(name, env, o); StoresPhase(o, env, o'.phase) && StoresTimes(o, env, o')
  {
  }

  /**
   In every reachable state, a pass that looks at the workflow and lands its
   write stores exactly the phase the query answered, or else the description
   said, with the time of the ending.
   */
  lemma {:induction false} StoresReported(name: string, events: seq<Event>, env: Env)
    requires Syncs(After(name, FRESH, events), env) && env.statusOk
    ensures var o, o' := After(name, FRESH, events), After(name, FRESH, events + [Passed(env)]);
            StoresPhase(o, env, o'.phase) && StoresTimes(o, env, o')
  {
    assert (events + [Passed(env)])[..|events|] == events;
    LifecycleHolds(name, events);
    var o := After(name, FRESH, events);
    SyncStores(name, env, o);
  }

  /** Some pass had one of these answers, or one of these descriptions. */
  ghost predicate Reported(events: seq<Event>, answers: set<string>, executions: set<Execution>) {
    exists k :: 0 <= k < |events| && events[k].Passed? && (Answers(events[k].env, answers) || Describes(events[k].env, executions))
  }

  /** The stored ending was reported as such. */
  ghost predicate EndingReported(events: seq<Event>, p: Phase) {
    && (p == Succeeded ==> Reported(events, {"Succeeded"}, {ExecCompleted}))
    && (p == Failed ==> Reported(events, {"Failed"}, FAILURES))
    && (p == Cancelled ==> Reported(events, {"Cancelled", "Cancelling"}, {ExecCanceled}))
  }

  lemma ReportedMore(events: seq<Event>, e: Event, answers: set<string>, executions: set<Execution>)
    ensures Reported(events, answers, executions) ==> Reported(events + [e], answers, executions)
    ensures e.Passed? && (Answers(e.env, answers) || Describes(e.env, executions)) ==> Reported(events + [e], answers, executions)
  {
    var all := events + [e];
    assert all[|events|] == e;
    if Reported(events, answers, executions) {
      var k :| 0 <= k < |events| && events[k].Passed? && (Answers(events[k].env, answers) || Describes(events[k].env, executions));
      assert all[k] == events[k];
    }
  }

  /** A pass changes the phase to an ending only if it was told so. */
  lemma EndsAsTold(name: string, env: Env, o: Object)
    requires Lifecycle(o) && Pass(name, env, o).phase != o.phase
    ensures var p := Pass(name, env, o).phase;
            && (p == Succeeded ==> Answers(env, {"Succeeded"}) || Describes(env, {ExecCompleted}))
            && (p == Failed ==> Answers(env, {"Failed"}) || Describes(env, FAILURES))
            && (p == Cancelled ==> Answers(env, {"Cancelled", "Cancelling"}) || Describes(env, {ExecCanceled}))
  {
  }

  /** In every reachable state a stored ending is one that some pass was told of. */
  lemma {:induction false} EndingsAreReported(name: string, events: seq<Event>)
    ensures EndingReported(events, After(name, FRESH, events).phase)
  {
    if events != [] {
      var prefix, e := events[..|events| - 1], events[|events| - 1];
      var o := After(name, FRESH, prefix);
      assert events == prefix + [e];
      EndingsAreReported(name, prefix);
      ReportedMore(prefix, e, {"Succeeded"}, {ExecCompleted});
      ReportedMore(prefix, e, {"Failed"}, FAILURES);
      ReportedMore(prefix, e, {"Cancelled", "Cancelling"}, {ExecCanceled});
      if e.Passed? && Pass(name, e.env, o).phase != o.phase {
        LifecycleHolds(name, prefix);
        EndsAsTold(name, e.env, o);
      }
    }
  }

  /** What a pass stores about a start it asked for, depending on what failed. */
  lemma StartIsStored(name: string, env: Env, o: Object)
    requires env.getOk && !o.gone && !o.deleting && o.finalizer && !o.archived && o.workflowId == ""
    requires env.projectReady && env.projectOk
    ensures var o' := Pass(name, env, o);
            && (env.start.StartFailed? ==>
                  && o'.workflowId == "" && o'.phase == o.phase && o'.startedAt == o.startedAt
                  && (env.startFailedOk ==> o'.workflowStarted == Some(Condition(false, "WorkflowStartFailed"))))
            && (!env.start.StartFailed? ==> o'.workflowId == if env.annotateOk then "agentrun-" + name else "")
            && (!env.start.StartFailed? && env.annotateOk && env.refetchOk && env.statusOk ==>
                  && o'.phase == Running && o'.startedAt == Some(env.now)
                  && o'.workflowStarted == Some(Condition(true, "WorkflowStarted")))
            && (!(env.annotateOk && env.refetchOk && env.statusOk) ==> o'.phase == o.phase && o'.startedAt == o.startedAt)
  {
  }

  /** Deletion takes a request, the finalizer and its removal; a clean-up takes an archived object that is not being deleted. */
  ghost predicate OnRequest(events: seq<Event>, o: Object) {
    && (o.gone ==> o.deleting)
    && (o.deleting <==> exists k :: 0 <= k < |events| && events[k].Requested? && events[k].delete)
    && (o.archived <==> exists k :: 0 <= k < |events| && events[k].Requested? && events[k].archive)
    && (o.cleaned ==> o.archived)
  }

  lemma RequestedMore(events: seq<Event>, e: Event)
    ensures var all := events + [e];
            && ((exists k :: 0 <= k < |all| && all[k].Requested? && all[k].delete)
                <==> (exists k :: 0 <= k < |events| && events[k].Requested? && events[k].delete) || (e.Requested? && e.delete))
            && ((exists k :: 0 <= k < |all| && all[k].Requested? && all[k].archive)
                <==> (exists k :: 0 <= k < |events| && events[k].Requested? && events[k].archive) || (e.Requested? && e.archive))
  {
    var all := events + [e];
    assert all[|events|] == e;
    forall k | 0 <= k < |events| ensures all[k] == events[k] {
    }
    if k :| 0 <= k < |events| && events[k].Requested? && events[k].delete {
      assert all[k].delete;
    }
    if k :| 0 <= k < |events| && events[k].Requested? && events[k].archive {
      assert all[k].archive;
    }
  }

  /** In every reachable state the object is deleted or archived only on request, and gone only when being deleted. */
  lemma {:induction false} GoneOnRequest(name: string, events: seq<Event>)
    ensures OnRequest(events, After(name, FRESH, events))
  {
    if events != [] {
      var prefix, e := events[..|events| - 1], events[|events| - 1];
      assert events == prefix + [e];
      GoneOnRequest(name, prefix);
      RequestedMore(prefix, e);
    }
  }

  /** Exactly when a pass lets the object go, stores the finalizer, and marks the object cleaned up. */
  lemma HousekeepingIff(name: string, env: Env, o: Object)
    requires !o.gone
    ensures var o' := Pass(name, env, o);
            && (o'.gone <==> env.getOk && o.deleting && o.finalizer && env.finalizerOk)
            && (o'.finalizer <==> if o.finalizer then !o'.gone else env.getOk && !o.deleting && env.finalizerOk)
            && (o'.cleaned <==> o.cleaned || (env.getOk && !o.deleting && o.finalizer && o.archived && env.cleanedOk))
  {
  }

  // ----- how often a workflow is asked for -----

  /** The pass asks for a workflow. */
  predicate Asks(o: Object, env: Env) {
    && env.getOk && !o.gone && !o.deleting && o.finalizer && !o.archived && o.workflowId == ""
    && env.projectReady && env.projectOk
  }

  /** The start was accepted and the annotation that says so was stored. */
  predicate Recorded(env: Env) {
    !env.start.StartFailed? && env.annotateOk
  }

  /** Passes that asked for a workflow and stored no annotation: the start failed, or the write was lost. */
  function UnrecordedStarts(name: string, events: seq<Event>): nat {
    if events == [] then 0
    else
      var prefix, e := events[..|events| - 1], events[|events| - 1];
      UnrecordedStarts(name, prefix) + if e.Passed? && Asks(After(name, FRESH, prefix), e.env) && !Recorded(e.env) then 1 else 0
  }

  lemma PassAsks(name: string, env: Env, o: Object)
    ensures var o' := Pass(name, env, o);
            && o'.starts == o.starts + (if Asks(o, env) then 1 else 0)
            && (o'.workflowId != "" <==> o.workflowId != "" || (Asks(o, env) && Recorded(env)))
  {
  }

  /** In every run, a workflow was asked for once for each unrecorded start, and once more if the annotation is stored. */
  lemma {:induction false} StartCountIs(name: string, events: seq<Event>)
    ensures var o := After(name, FRESH, events);
            o.starts == UnrecordedStarts(name, events) + if o.workflowId != "" then 1 else 0
  {
    if events != [] {
      var prefix, e := events[..|events| - 1], events[|events| - 1];
      StartCountIs(name, prefix);
      if e.Passed? {
        PassAsks(name, e.env, After(name, FRESH, prefix));
      }
    }
  }

  /** A workflow was asked for at most once iff every start was recorded, or one was not and no annotation is stored. */
  lemma {:induction false} AtMostOneStartIff(name: string, events: seq<Event>)
    ensures var o := After(name, FRESH, events);
            o.starts <= 1
            <==> UnrecordedStarts(name, events) == 0 || (UnrecordedStarts(name, events) == 1 && o.workflowId == "")
  {
    StartCountIs(name, events);
  }

  // ----- which runs end -----

  /** Deleted, being deleted or archived: the reconciler no longer looks at the workflow. */
  predicate Abandoned(o: Object) {
    o.gone || o.deleting || o.archived
  }

  /** Every call works, and the workflow has ended. */
  predicate Helpful(env: Env) {
    && env.getOk && env.finalizerOk && env.projectReady && env.projectOk && !env.start.StartFailed?
    && env.annotateOk && env.statusOk
    && if env.queryOk then env.decodeOk && Terminal(MapPhase(env.workflowPhase))
       else env.describeOk && !env.execution.StillOpen?
  }

  /** Helpful passes until the ending: one each for finalizer, workflow and sync. */
  function PassesLeft(o: Object): nat {
    if Terminal(o.phase) then 0 else if o.workflowId != "" && o.finalizer then 1 else if o.finalizer then 2 else 3
  }

  /** Helpful passes among the events; the others may be anything. */
  function HelpfulCount(events: seq<Event>): nat {
    if events == [] then 0
    else
      var e := events[|events| - 1];
      HelpfulCount(events[..|events| - 1]) + if e.Passed? && Helpful(e.env) then 1 else 0
  }

  lemma HelpfulEvent(name: string, e: Event, o: Object)
    requires Lifecycle(o) && !Abandoned(Apply(name, o, e))
    ensures !Abandoned(o) && PassesLeft(Apply(name, o, e)) <= PassesLeft(o)
    ensures e.Passed? && Helpful(e.env) && PassesLeft(o) > 0 ==> PassesLeft(Apply(name, o, e)) < PassesLeft(o)
  {
  }

  lemma {:induction false} PassesRunDown(name: string, events: seq<Event>)
    requires !Abandoned(After(name, FRESH, events))
    ensures var o := After(name, FRESH, events); Terminal(o.phase) || PassesLeft(o) + HelpfulCount(events) <= 3
  {
    if events != [] {
      var prefix, e := events[..|events| - 1], events[|events| - 1];
      LifecycleHolds(name, prefix);
      HelpfulEvent(name, e, After(name, FRESH, prefix));
      PassesRunDown(name, prefix);
    }
  }

  /**
   A run that is not abandoned has ended once three of its passes were helpful,
   whatever other passes came in between.
   */
  lemma HelpfulPassesEnd(name: string, events: seq<Event>)
    requires !Abandoned(After(name, FRESH, events)) && HelpfulCount(events) >= 3
    ensures Terminal(After(name, FRESH, events).phase)
  {
    PassesRunDown(name, events);
  }

  lemma {:induction false} OneHelpful(name: string, events: seq<Event>, p: Event)
    requires p.Passed? && Helpful(p.env) && !Abandoned(After(name, FRESH, events))
    ensures HelpfulCount(events + [p]) == HelpfulCount(events) + 1 && !Abandoned(After(name, FRESH, events + [p]))
  {
    assert (events + [p])[..|events|] == events;
  }

  lemma ThreeHelpful(name: string, events: seq<Event>, p: Event)
    requires p.Passed? && Helpful(p.env) && !Abandoned(After(name, FRESH, events))
    ensures HelpfulCount(events + [p, p, p]) >= 3 && !Abandoned(After(name, FRESH, events + [p, p, p]))
  {
    OneHelpful(name, events, p);
    OneHelpful(name, events + [p], p);
    OneHelpful(name, events + [p] + [p], p);
    assert events + [p] + [p] + [p] == events + [p, p, p];
  }

  lemma {:induction false} AbandonedNeverEnds(name: string, events: seq<Event>, more: seq<Event>)
    requires Abandoned(After(name, FRESH, events)) && !Terminal(After(name, FRESH, events).phase)
    ensures Abandoned(After(name, FRESH, events + more)) && !Terminal(After(name, FRESH, events + more).phase)
    decreases |more|
  {
    if more == [] {
      assert events + more == events;
    } else {
      var m := more[..|more| - 1];
      AbandonedNeverEnds(name, events, m);
      assert (events + more)[..|events + more| - 1] == events + m;
    }
  }

  /** A reachable run can still end iff it has ended or is not abandoned; an archived one that has not ended never does. */
  lemma CanEndIff(name: string, events: seq<Event>)
    ensures var o := After(name, FRESH, events);
            (exists more :: Terminal(After(name, FRESH, events + more).phase)) <==> Terminal(o.phase) || !Abandoned(o)
  {
    var o := After(name, FRESH, events);
    if Terminal(o.phase) {
      assert events + [] == events;
      assert Terminal(After(name, FRESH, events + []).phase);
    } else if Abandoned(o) {
      forall more ensures !Terminal(After(name, FRESH, events + more).phase) {
        AbandonedNeverEnds(name, events, more);
      }
    } else {
      var p := Passed(Env(true, true, true, true, true, Started, true, true, true, true, false, true, "", true, ExecCompleted, None, 0));
      ThreeHelpful(name, events, p);
      HelpfulPassesEnd(name, events + [p, p, p]);
      assert Terminal(After(name, FRESH, events + [p, p, p]).phase);
    }
  }
}
