/**
 The schedule reconciler over an abstract cron. Times are integers, `SECOND`
 units to the second; stored timestamps keep whole seconds only.
 */
module Schedule {
  import opened Basics

  const SECOND: int := 1000000000

  /** A cron expression: which instants are ticks, and the least tick after an instant. */
  datatype Cron = Cron(isTick: int -> bool, next: int -> int)

  ghost predicate Sound(c: Cron) {
    && (forall t :: c.next(t) > t && c.isTick(c.next(t)))
    && (forall t, u :: t < u < c.next(t) ==> !c.isTick(u))
    && (forall t :: c.isTick(t) ==> t % SECOND == 0)
  }

  datatype Kind = Nothing | ChainRuns | AgentRuns

  datatype Policy = Allow | Forbid | Replace

  datatype Config = Config(cron: Cron, kind: Kind, policy: Policy, createdAt: int)

  /** One fire: the missed tick it answers, and the time it is recorded at. */
  datatype Fire = Fire(tick: int, now: int, stored: int)

  /**
   The stored schedule status and the runs in the namespace; a run maps to true
   when its phase is terminal. `mine` and `fires` are history.
   */
  datatype World = World(
    last: Option<int>,
    active: seq<string>,
    chainRuns: map<string, bool>,
    agentRuns: map<string, bool>,
    clock: int,
    mine: set<string>,
    fires: seq<Fire>)

  /**
   What one pass meets: two clock readings, the reads that fail while it prunes
   and while it replaces, failing deletes, and the create's result.
   */
  datatype Env = Env(
    suspended: bool,
    now: int,
    later: int,
    chainErrors: set<string>,
    agentErrors: set<string>,
    replaceChainErrors: set<string>,
    replaceAgentErrors: set<string>,
    deleteErrors: set<string>,
    templateFound: bool,
    created: Option<string>)

  function Truncate(t: int): int {
    t - t % SECOND
  }

  // ----- pruning -----

  /** Whether the prune keeps this id in the active list. */
  predicate Keeps(w: World, env: Env, id: string) {
    if id in w.chainRuns && id !in env.chainErrors then !w.chainRuns[id]
    else if id in env.agentErrors then true
    else if id in w.agentRuns then !w.agentRuns[id]
    else false
  }

  function Kept(w: World, env: Env, ids: seq<string>): seq<string> {
    if ids == [] then []
    else
      var rest, last := Kept(w, env, ids[..|ids| - 1]), ids[|ids| - 1];
      if Keeps(w, env, last) then rest + [last] else rest
  }

  lemma {:induction false} KeptMembers(w: World, env: Env, ids: seq<string>)
    ensures |Kept(w, env, ids)| <= |ids|
    ensures forall id :: id in Kept(w, env, ids) <==> id in ids && Keeps(w, env, id)
  {
    if ids != [] {
      KeptMembers(w, env, ids[..|ids| - 1]);
    }
  }

  // ----- one pass -----

  /** Delete one active run, looking for a ChainRun first. */
  function DeleteRun(w: World, env: Env, id: string): World {
    if id in w.chainRuns && id !in env.replaceChainErrors then
      if id in env.deleteErrors then w else w.(chainRuns := w.chainRuns - {id})
    else if id in w.agentRuns && id !in env.replaceAgentErrors then
      if id in env.deleteErrors then w else w.(agentRuns := w.agentRuns - {id})
    else w
  }

  function DeleteRuns(w: World, env: Env, ids: seq<string>): World {
    if ids == [] then w else DeleteRun(DeleteRuns(w, env, ids[..|ids| - 1]), env, ids[|ids| - 1])
  }

  function LastScheduled(cfg: Config, w: World): int {
    if w.last.Some? then w.last.value else cfg.createdAt
  }

  /** The active list the concurrency policy sees. */
  function Pruned(w: World, env: Env): seq<string> {
    Kept(w, env, w.active)
  }

  predicate Due(cfg: Config, w: World, env: Env) {
    cfg.cron.next(LastScheduled(cfg, w)) <= env.now
  }

  predicate Creates(cfg: Config, env: Env) {
    env.created.Some? && (cfg.kind.AgentRuns? ==> env.templateFound)
  }

  predicate Fires(cfg: Config, w: World, env: Env) {
    && !env.suspended && !cfg.kind.Nothing? && Due(cfg, w, env)
    && !(cfg.policy.Forbid? && Pruned(w, env) != [])
    && Creates(cfg, env)
  }

  function AddRun(cfg: Config, w: World, name: string): World {
    if cfg.kind.ChainRuns? then w.(chainRuns := w.chainRuns[name := false])
    else w.(agentRuns := w.agentRuns[name := false])
  }

  function Pass(cfg: Config, w0: World, env: Env): World {
    var w := w0.(clock := env.later);
    if env.suspended || cfg.kind.Nothing? then w
    else
      var active := Pruned(w, env);
      var pruned := w.(active := active);
      if !Due(cfg, w, env) || (cfg.policy.Forbid? && active != []) then pruned
      else
        var cleared := if cfg.policy.Replace? then DeleteRuns(pruned, env, active) else pruned;
        if !Creates(cfg, env) then cleared
        else
          var name := env.created.value;
          AddRun(cfg, cleared, name).(
            last := Some(Truncate(env.later)),
            active := (if cfg.policy.Replace? then [] else active) + [name],
            mine := w.mine + {name},
            fires := w.fires + [Fire(cfg.cron.next(LastScheduled(cfg, w)), env.now, Truncate(env.later))])
  }

  lemma {:induction false} DeletesKeepStatus(w: World, env: Env, ids: seq<string>)
    ensures var r := DeleteRuns(w, env, ids);
            r == w.(chainRuns := r.chainRuns, agentRuns := r.agentRuns)
    ensures DeleteRuns(w, env, ids).chainRuns.Keys <= w.chainRuns.Keys
    ensures DeleteRuns(w, env, ids).agentRuns.Keys <= w.agentRuns.Keys
  {
    if ids != [] {
      DeletesKeepStatus(w, env, ids[..|ids| - 1]);
    }
  }

  /** The schedule reconciler against one namespace. */
  class Reconciler {
    const cfg: Config
    var world: World

    constructor (cfg: Config, world: World)
      ensures this.cfg == cfg && this.world == world
    {
      this.cfg, this.world := cfg, world;
    }

    method PruneActiveList(env: Env) returns (remaining: seq<string>, changed: bool)
      ensures remaining == Pruned(world, env)
      ensures !changed ==> remaining == world.active
    {
      remaining, changed := [], false;
      for i := 0 to |world.active|
        invariant remaining == Kept(world, env, world.active[..i])
        invariant !changed ==> remaining == world.active[..i]
      {
        var id := world.active[i];
        assert world.active[..i + 1][..i] == world.active[..i];
        var keep := true;
        if id in world.chainRuns && id !in env.chainErrors {
          if world.chainRuns[id] {
            keep, changed := false, true;
          }
        } else if id in world.agentRuns && id !in env.agentErrors {
          if world.agentRuns[id] {
            keep, changed := false, true;
          }
        } else if id !in env.agentErrors {
          keep, changed := false, true;
        }
        if keep {
          remaining := remaining + [id];
        }
      }
      assert world.active[..|world.active|] == world.active;
    }

    method DeleteActive(env: Env, ids: seq<string>)
      modifies this
      ensures world == DeleteRuns(old(world), env, ids)
    {
      for i := 0 to |ids|
        invariant world == DeleteRuns(old(world), env, ids[..i])
      {
        assert ids[..i + 1][..i] == ids[..i];
        var id := ids[i];
        if id in world.chainRuns && id !in env.replaceChainErrors {
          if id !in env.deleteErrors {
            world := world.(chainRuns := world.chainRuns - {id});
          }
          continue;
        }
        if id in world.agentRuns && id !in env.replaceAgentErrors {
          if id !in env.deleteErrors {
            world := world.(agentRuns := world.agentRuns - {id});
          }
        }
      }
      assert ids[..|ids|] == ids;
    }

    method Reconcile(env: Env)
      modifies this
      ensures world == Pass(cfg, old(world), env)
    {
      world := world.(clock := env.later);
      if env.suspended {
        return;
      }
      if cfg.kind.Nothing? {
        return;
      }
      if |world.active| > 0 {
        var active, changed := PruneActiveList(env);
        if changed {
          world := world.(active := active);
        }
      }
      var lastScheduled := if world.last.Some? then world.last.value else cfg.createdAt;
      var missed := cfg.cron.next(lastScheduled);
      if missed > env.now {
        return;
      }
      if cfg.policy.Forbid? && |world.active| > 0 {
        return;
      }
      var active := world.active;
      if cfg.policy.Replace? && |world.active| > 0 {
        DeletesKeepStatus(world, env, active);
        DeleteActive(env, active);
        active := [];
      }
      if cfg.kind.AgentRuns? && !env.templateFound {
        return;
      }
      if env.created.None? {
        return;
      }
      var name := env.created.value;
      if cfg.kind.ChainRuns? {
        world := world.(chainRuns := world.chainRuns[name := false]);
      } else {
        world := world.(agentRuns := world.agentRuns[name := false]);
      }
      world := world.(
        last := Some(Truncate(env.later)), active := active + [name],
        mine := world.mine + {name},
        fires := world.fires + [Fire(missed, env.now, Truncate(env.later))]);
    }
  }

  // ----- whole runs -----

  datatype Step =
    | Reconciled(env: Env)
    | Elsewhere(chainRuns: map<string, bool>, agentRuns: map<string, bool>)

  /** Runs end and disappear; they do not come back to life. */
  ghost predicate Ages(mine: set<string>, before: map<string, bool>, after: map<string, bool>) {
    forall id :: id in mine && id in after && !after[id] ==> id in before && !before[id]
  }

  /** The clock does not go back, and generated names are new. */
  ghost predicate Possible(w: World, step: Step) {
    match step
    case Reconciled(env) =>
      && w.clock <= env.now <= env.later
      && (env.created.Some? ==> env.created.value !in w.mine && env.created.value !in w.chainRuns && env.created.value !in w.agentRuns)
    case Elsewhere(chainRuns, agentRuns) =>
      Ages(w.mine, w.chainRuns, chainRuns) && Ages(w.mine, w.agentRuns, agentRuns)
  }

  function Do(cfg: Config, w: World, step: Step): World {
    match step
    case Reconciled(env) => Pass(cfg, w, env)
    case Elsewhere(chainRuns, agentRuns) => w.(chainRuns := chainRuns, agentRuns := agentRuns)
  }

  ghost function After(cfg: Config, w0: World, steps: seq<Step>): Option<World> {
    if steps == [] then Some(w0)
    else
      var before := After(cfg, w0, steps[..|steps| - 1]);
      var step := steps[|steps| - 1];
      if before.Some? && Possible(before.value, step) then Some(Do(cfg, before.value, step)) else None
  }

  ghost predicate Fresh(cfg: Config, w: World) {
    && w.last == None && w.active == [] && w.mine == {} && w.fires == []
    && w.clock >= cfg.createdAt
  }

  // ----- fires and ticks -----

  lemma TruncateTick(c: Cron, tick: int, t: int)
    requires Sound(c) && c.isTick(tick) && tick <= t
    ensures tick <= Truncate(t) <= t
  {
    assert Truncate(t) <= t < Truncate(t) + SECOND;
  }

  ghost predicate FirstTickAfter(c: Cron, t: int, tick: int) {
    t < tick && c.isTick(tick) && forall u :: t < u < tick ==> !c.isTick(u)
  }

  /** The time fire k counts missed ticks from: the previous fire's stored time, or creation. */
  function Since(cfg: Config, fires: seq<Fire>, k: nat): int
    requires k <= |fires|
  {
    if k == 0 then cfg.createdAt else fires[k - 1].stored
  }

  /** A fire comes after the tick it answers, is stored by then, and every tick up to its pass's clock counts as spent. */
  ghost predicate FireOk(cfg: Config, clock: int, f: Fire) {
    && f.tick <= f.now <= clock && f.tick <= f.stored <= clock
    && forall u :: cfg.cron.isTick(u) && u <= f.now ==> u <= f.stored
  }

  /** Each fire answers the first tick since the one before it. */
  ghost predicate Collapsing(cfg: Config, clock: int, fires: seq<Fire>) {
    && (forall k :: 0 <= k < |fires| ==> FireOk(cfg, clock, fires[k]))
    && (forall k {:trigger Since(cfg, fires, k)} :: 0 <= k < |fires| ==> FirstTickAfter(cfg.cron, Since(cfg, fires, k), fires[k].tick))
  }

  ghost predicate FiresOk(cfg: Config, w: World) {
    && w.last == (if w.fires == [] then None else Some(w.fires[|w.fires| - 1].stored))
    && Collapsing(cfg, w.clock, w.fires)
  }

  lemma {:induction false} PassFireHistory(cfg: Config, w: World, env: Env)
    ensures var w' := Pass(cfg, w, env);
            if Fires(cfg, w.(clock := env.later), env)
            then && w'.last == Some(Truncate(env.later))
                 && w'.fires == w.fires + [Fire(cfg.cron.next(LastScheduled(cfg, w)), env.now, Truncate(env.later))]
            else w'.last == w.last && w'.fires == w.fires
    ensures Pass(cfg, w, env).clock == env.later
  {
    var pruned := w.(clock := env.later, active := Pruned(w.(clock := env.later), env));
    DeletesKeepStatus(pruned, env, pruned.active);
  }

  /** A new fire answers the first tick that no earlier fire has covered. */
  lemma {:induction false} NewFireOk(cfg: Config, w: World, env: Env)
    requires Sound(cfg.cron) && w.clock <= env.now <= env.later && Due(cfg, w, env)
    ensures var f := Fire(cfg.cron.next(LastScheduled(cfg, w)), env.now, Truncate(env.later));
            FireOk(cfg, env.later, f) && FirstTickAfter(cfg.cron, LastScheduled(cfg, w), f.tick)
  {
    var tick := cfg.cron.next(LastScheduled(cfg, w));
    TruncateTick(cfg.cron, tick, env.later);
    forall u | cfg.cron.isTick(u) && u <= env.now ensures u <= Truncate(env.later) {
      TruncateTick(cfg.cron, u, env.later);
    }
  }

  lemma LaterCollapses(cfg: Config, clock: int, later: int, fires: seq<Fire>)
    requires Collapsing(cfg, clock, fires) && clock <= later
    ensures Collapsing(cfg, later, fires)
  {
    forall k | 0 <= k < |fires| ensures FireOk(cfg, later, fires[k]) {
      assert FireOk(cfg, clock, fires[k]);
    }
  }

  lemma AppendCollapses(cfg: Config, clock: int, fires: seq<Fire>, f: Fire)
    requires Collapsing(cfg, clock, fires) && FireOk(cfg, clock, f)
    requires FirstTickAfter(cfg.cron, Since(cfg, fires, |fires|), f.tick)
    ensures Collapsing(cfg, clock, fires + [f])
  {
    var next := fires + [f];
    forall k | 0 <= k < |next| ensures FirstTickAfter(cfg.cron, Since(cfg, next, k), next[k].tick) {
      assert Since(cfg, next, k) == Since(cfg, fires, k);
    }
  }

  lemma PassKeepsFires(cfg: Config, w: World, env: Env)
    requires Sound(cfg.cron) && FiresOk(cfg, w) && w.clock <= env.now <= env.later
    ensures FiresOk(cfg, Pass(cfg, w, env))
  {
    PassFireHistory(cfg, w, env);
    LaterCollapses(cfg, w.clock, env.later, w.fires);
    if Fires(cfg, w.(clock := env.later), env) {
      NewFireOk(cfg, w, env);
      AppendCollapses(cfg, env.later, w.fires, Fire(cfg.cron.next(LastScheduled(cfg, w)), env.now, Truncate(env.later)));
    }
  }

  lemma {:induction false} FiresAlwaysOk(cfg: Config, w0: World, steps: seq<Step>)
    requires Sound(cfg.cron) && Fresh(cfg, w0) && After(cfg, w0, steps).Some?
    ensures var w := After(cfg, w0, steps).value; FiresOk(cfg, w) && cfg.createdAt <= w.clock
  {
    if steps != [] {
      FiresAlwaysOk(cfg, w0, steps[..|steps| - 1]);
      var w := After(cfg, w0, steps[..|steps| - 1]).value;
      var step := steps[|steps| - 1];
      if step.Reconciled? {
        PassKeepsFires(cfg, w, step.env);
        PassFireHistory(cfg, w, step.env);
      }
    }
  }

  /** The ticks since creation. */
  ghost function TicksUntil(cfg: Config, t: int): set<int> {
    set u | cfg.createdAt < u <= t && cfg.cron.isTick(u)
  }

  ghost function TicksOf(fires: seq<Fire>): set<int> {
    if fires == [] then {} else TicksOf(fires[..|fires| - 1]) + {fires[|fires| - 1].tick}
  }

  /** The tick a fire answers lies between the fire before it and its own stored time. */
  lemma FireTick(cfg: Config, clock: int, fires: seq<Fire>, k: nat)
    requires Collapsing(cfg, clock, fires) && k < |fires|
    ensures Since(cfg, fires, k) < fires[k].tick <= Since(cfg, fires, k + 1) <= clock && cfg.cron.isTick(fires[k].tick)
  {
    assert FireOk(cfg, clock, fires[k]);
  }

  /** The stored times never go back. */
  lemma {:induction false} SinceGrows(cfg: Config, clock: int, fires: seq<Fire>, k: nat, l: nat)
    requires Collapsing(cfg, clock, fires) && k <= l <= |fires|
    ensures Since(cfg, fires, k) <= Since(cfg, fires, l)
    decreases l
  {
    if k < l {
      SinceGrows(cfg, clock, fires, k, l - 1);
      FireTick(cfg, clock, fires, l - 1);
    }
  }

  lemma TicksOfAppend(fires: seq<Fire>, n: nat)
    requires n < |fires|
    ensures TicksOf(fires[..n + 1]) == TicksOf(fires[..n]) + {fires[n].tick}
  {
    assert fires[..n + 1][..n] == fires[..n];
  }

  lemma {:induction false} TicksOfFires(cfg: Config, clock: int, fires: seq<Fire>, n: nat)
    requires Collapsing(cfg, clock, fires) && n <= |fires|
    ensures TicksOf(fires[..n]) <= TicksUntil(cfg, clock) && |TicksOf(fires[..n])| == n
    ensures forall t :: t in TicksOf(fires[..n]) ==> t <= Since(cfg, fires, n)
  {
    if n > 0 {
      TicksOfFires(cfg, clock, fires, n - 1);
      TicksOfAppend(fires, n - 1);
      FireTick(cfg, clock, fires, n - 1);
      SinceGrows(cfg, clock, fires, 0, n - 1);
    }
  }

  /** Fire k covers the tick u: it is the first fire recorded at or after u. */
  predicate Covers(cfg: Config, fires: seq<Fire>, k: nat, u: int) {
    k < |fires| && Since(cfg, fires, k) < u <= fires[k].stored
  }

  lemma {:induction false} SomeFireCovers(cfg: Config, fires: seq<Fire>, n: nat, u: int)
    requires n <= |fires| && cfg.createdAt < u <= Since(cfg, fires, n)
    ensures exists k: nat :: Covers(cfg, fires, k, u)
  {
    if u <= Since(cfg, fires, n - 1) {
      SomeFireCovers(cfg, fires, n - 1, u);
    } else {
      assert Covers(cfg, fires, n - 1, u);
    }
  }

  lemma OneFireCovers(cfg: Config, clock: int, fires: seq<Fire>, k: nat, l: nat, u: int)
    requires Collapsing(cfg, clock, fires) && Covers(cfg, fires, k, u) && Covers(cfg, fires, l, u)
    ensures k == l
  {
    if k < l {
      SinceGrows(cfg, clock, fires, k + 1, l);
    } else if l < k {
      SinceGrows(cfg, clock, fires, l + 1, k);
    }
  }

  /**
   Over any run, each fire answers the first tick since the fire before it, and
   there are never more fires than ticks since creation.
   */
  lemma {:induction false} FiresInjectIntoTicks(cfg: Config, w0: World, steps: seq<Step>)
    requires Sound(cfg.cron) && Fresh(cfg, w0) && After(cfg, w0, steps).Some?
    ensures var w := After(cfg, w0, steps).value;
            Collapsing(cfg, w.clock, w.fires) && |w.fires| <= |TicksUntil(cfg, w.clock)|
  {
    FiresAlwaysOk(cfg, w0, steps);
    var w := After(cfg, w0, steps).value;
    TicksOfFires(cfg, w.clock, w.fires, |w.fires|);
    assert w.fires[..|w.fires|] == w.fires;
    SubsetSize(TicksOf(w.fires), TicksUntil(cfg, w.clock));
  }

  /**
   Missed windows collapse: over any run, every tick from creation up to the
   clock of the last fire's pass is covered by one fire and by no other.
   */
  lemma {:induction false} MissedTicksCollapse(cfg: Config, w0: World, steps: seq<Step>, u: int)
    requires Sound(cfg.cron) && Fresh(cfg, w0) && After(cfg, w0, steps).Some?
    requires var fires := After(cfg, w0, steps).value.fires;
             fires != [] && cfg.cron.isTick(u) && cfg.createdAt < u <= fires[|fires| - 1].now
    ensures var fires := After(cfg, w0, steps).value.fires;
            && (exists k: nat :: Covers(cfg, fires, k, u))
            && (forall k: nat, l: nat :: Covers(cfg, fires, k, u) && Covers(cfg, fires, l, u) ==> k == l)
  {
    FiresAlwaysOk(cfg, w0, steps);
    var w := After(cfg, w0, steps).value;
    assert FireOk(cfg, w.clock, w.fires[|w.fires| - 1]);
    SomeFireCovers(cfg, w.fires, |w.fires|, u);
    forall k: nat, l: nat | Covers(cfg, w.fires, k, u) && Covers(cfg, w.fires, l, u) ensures k == l {
      OneFireCovers(cfg, w.clock, w.fires, k, l, u);
    }
  }

  // ----- which runs stay active, and when a pass fires -----

  /**
   The id reads as unfinished: its ChainRun reads and has not ended; or that
   does not read, and its AgentRun has not ended or the read of it failed.
   */
  predicate StaysActive(w: World, env: Env, id: string) {
    || (id in w.chainRuns && id !in env.chainErrors && !w.chainRuns[id])
    || ((id !in w.chainRuns || id in env.chainErrors) && (id in env.agentErrors || (id in w.agentRuns && !w.agentRuns[id])))
  }

  lemma {:induction false} KeptConcat(w: World, env: Env, a: seq<string>, b: seq<string>)
    ensures Kept(w, env, a + b) == Kept(w, env, a) + Kept(w, env, b)
  {
    if b == [] {
      assert a + b == a;
    } else {
      KeptConcat(w, env, a, b[..|b| - 1]);
      assert (a + b)[..|a + b| - 1] == a + b[..|b| - 1];
    }
  }

  /** Pruning keeps exactly the ids that read as unfinished, in order and as often as they occur. */
  lemma PruneKeepsUnfinished(w: World, env: Env, before: seq<string>, id: string, after: seq<string>)
    ensures Kept(w, env, []) == []
    ensures Kept(w, env, before + [id] + after)
            == Kept(w, env, before) + (if StaysActive(w, env, id) then [id] else []) + Kept(w, env, after)
  {
    KeptConcat(w, env, before + [id], after);
    KeptConcat(w, env, before, [id]);
    assert [id][..0] == [];
  }

  lemma PrunedIff(w: World, env: Env)
    ensures forall id :: id in Pruned(w, env) <==> id in w.active && StaysActive(w, env, id)
    ensures Pruned(w, env) == [] <==> forall id :: id in w.active ==> !StaysActive(w, env, id)
  {
    KeptMembers(w, env, w.active);
    if Pruned(w, env) != [] {
      assert Pruned(w, env)[0] in Pruned(w, env);
    }
  }

  /** A tick has come since the last fire, or since creation. */
  ghost predicate TickMissed(cfg: Config, fires: seq<Fire>, now: int) {
    exists u :: cfg.cron.isTick(u) && Since(cfg, fires, |fires|) < u <= now
  }

  lemma DueIff(cfg: Config, w: World, env: Env)
    requires Sound(cfg.cron) && FiresOk(cfg, w)
    ensures Due(cfg, w, env) <==> TickMissed(cfg, w.fires, env.now)
  {
    var since := LastScheduled(cfg, w);
    assert since == Since(cfg, w.fires, |w.fires|);
    var tick := cfg.cron.next(since);
    if Due(cfg, w, env) {
      assert cfg.cron.isTick(tick) && since < tick <= env.now;
    }
    if u :| cfg.cron.isTick(u) && since < u <= env.now {
      assert !(since < u < tick);
    }
  }

  /** What a pass needs in order to fire. */
  ghost predicate ShouldFire(cfg: Config, w: World, env: Env) {
    && !env.suspended && !cfg.kind.Nothing? && TickMissed(cfg, w.fires, env.now)
    && (cfg.policy.Forbid? ==> forall id :: id in w.active ==> !StaysActive(w, env, id))
    && env.created.Some? && (cfg.kind.AgentRuns? ==> env.templateFound)
  }

  /**
   Over any run, a pass fires iff it is not suspended, has something to create
   and can create it, a tick has come since the last fire and, under Forbid,
   every active run reads as finished or absent.
   */
  lemma {:induction false} FiresIff(cfg: Config, w0: World, steps: seq<Step>, env: Env)
    requires Sound(cfg.cron) && Fresh(cfg, w0) && After(cfg, w0, steps).Some?
    ensures var w := After(cfg, w0, steps).value;
            |Pass(cfg, w, env).fires| == |w.fires| + if ShouldFire(cfg, w, env) then 1 else 0
  {
    var w := After(cfg, w0, steps).value;
    FiresAlwaysOk(cfg, w0, steps);
    DueIff(cfg, w, env);
    PrunedIff(w.(clock := env.later), env);
    PassFireHistory(cfg, w, env);
  }

  /** The run is of the schedule's kind, new and not finished. */
  predicate Added(cfg: Config, w: World, w': World, name: string) {
    if cfg.kind.ChainRuns? then name in w'.chainRuns && !w'.chainRuns[name] && w'.agentRuns.Keys <= w.agentRuns.Keys
    else name in w'.agentRuns && !w'.agentRuns[name] && w'.chainRuns.Keys <= w.chainRuns.Keys
  }

  lemma {:induction false} KeptIgnoresClock(w: World, env: Env, clock: int, ids: seq<string>)
    ensures Kept(w.(clock := clock), env, ids) == Kept(w, env, ids)
  {
    if ids != [] {
      KeptIgnoresClock(w, env, clock, ids[..|ids| - 1]);
    }
  }

  /**
   A fire creates one unfinished run of the schedule's kind, makes it active
   after those that stay active, or alone under Replace, and stores the time in
   whole seconds.
   */
  lemma {:induction false} FireAdds(cfg: Config, w: World, env: Env)
    requires Fires(cfg, w.(clock := env.later), env)
    ensures var w' := Pass(cfg, w, env);
            var name := env.created.value;
            && Added(cfg, w, w', name) && w'.mine == w.mine + {name}
            && w'.active == (if cfg.policy.Replace? then [name] else Kept(w, env, w.active) + [name])
            && w'.last.Some? && w'.last.value % SECOND == 0 && env.later - SECOND < w'.last.value <= env.later
  {
    var pruned := w.(clock := env.later, active := Pruned(w.(clock := env.later), env));
    DeletesKeepStatus(pruned, env, pruned.active);
    KeptIgnoresClock(w, env, env.later, w.active);
  }

  /** A pass that does not fire creates nothing; it prunes unless suspended, and deletes only when a Replace is due. */
  lemma {:induction false} NoFireAddsNothing(cfg: Config, w: World, env: Env)
    requires !Fires(cfg, w.(clock := env.later), env)
    ensures var w' := Pass(cfg, w, env);
            && w'.last == w.last && w'.fires == w.fires && w'.mine == w.mine && w'.clock == env.later
            && w'.active == (if env.suspended || cfg.kind.Nothing? then w.active else Kept(w, env, w.active))
            && (env.suspended || !cfg.policy.Replace? || !Due(cfg, w, env) ==> w'.chainRuns == w.chainRuns && w'.agentRuns == w.agentRuns)
            && w'.chainRuns.Keys <= w.chainRuns.Keys && w'.agentRuns.Keys <= w.agentRuns.Keys
  {
    var pruned := w.(clock := env.later, active := Pruned(w.(clock := env.later), env));
    DeletesKeepStatus(pruned, env, pruned.active);
    KeptIgnoresClock(w, env, env.later, w.active);
  }

  // ----- no overlap -----

  /** The run exists and is not finished. */
  predicate Live(w: World, id: string) {
    (id in w.chainRuns && !w.chainRuns[id]) || (id in w.agentRuns && !w.agentRuns[id])
  }

  /** Under Forbid and Replace, whatever fails, Active never holds more than one id. */
  lemma {:induction false} ActiveAtMostOne(cfg: Config, w0: World, steps: seq<Step>)
    requires !cfg.policy.Allow? && Fresh(cfg, w0) && After(cfg, w0, steps).Some?
    ensures |After(cfg, w0, steps).value.active| <= 1
  {
    if steps != [] {
      ActiveAtMostOne(cfg, w0, steps[..|steps| - 1]);
      var step := steps[|steps| - 1];
      if step.Reconciled? {
        var w := After(cfg, w0, steps[..|steps| - 1]).value;
        KeptMembers(w.(clock := step.env.later), step.env, w.active);
        var pruned := w.(clock := step.env.later, active := Pruned(w.(clock := step.env.later), step.env));
        DeletesKeepStatus(pruned, step.env, pruned.active);
      }
    }
  }

  /** Every name the schedule created is used by one kind of run only. */
  ghost predicate KindsApart(cfg: Config, w: World) {
    forall id :: id in w.mine ==> if cfg.kind.ChainRuns? then id !in w.agentRuns else id !in w.chainRuns
  }

  /** No live ChainRun fails to be read in a pass whose AgentRun lookup then succeeds in finding nothing. */
  ghost predicate ReadsTellAbsent(w: World, env: Env) {
    forall id :: id in w.active && id in env.chainErrors && id in w.chainRuns && !w.chainRuns[id] ==> id in env.agentErrors
  }

  /** A live run of the schedule is dropped from Active iff its ChainRun read failed and its AgentRun read did not. */
  lemma PruneDropsLiveIff(cfg: Config, w: World, env: Env, id: string)
    requires KindsApart(cfg, w) && id in w.mine && id in w.active && Live(w, id)
    ensures id !in Pruned(w, env) <==> cfg.kind.ChainRuns? && id in env.chainErrors && id !in env.agentErrors
  {
    KeptMembers(w, env, w.active);
  }

  ghost predicate Tracked(cfg: Config, w: World) {
    && KindsApart(cfg, w)
    && (forall id :: id in w.mine && Live(w, id) ==> id in w.active)
    && (forall id :: id in w.active ==> id in w.mine)
  }

  predicate Prunes(cfg: Config, env: Env) {
    !env.suspended && !cfg.kind.Nothing?
  }

  /** In every pass that prunes, the reads of live runs tell absent from unreadable. */
  ghost predicate WellRead(cfg: Config, w0: World, steps: seq<Step>) {
    forall k :: 0 <= k < |steps| && steps[k].Reconciled? && Prunes(cfg, steps[k].env) && After(cfg, w0, steps[..k]).Some?
                ==> ReadsTellAbsent(After(cfg, w0, steps[..k]).value, steps[k].env)
  }

  /** Names generated for one kind of run are not taken by the other kind. */
  ghost predicate NamesApart(cfg: Config, w0: World, steps: seq<Step>) {
    forall k :: 0 <= k < |steps| && steps[k].Elsewhere? && After(cfg, w0, steps[..k]).Some?
                ==> KindsApart(cfg, Do(cfg, After(cfg, w0, steps[..k]).value, steps[k]))
  }

  lemma PassKeepsTracked(cfg: Config, w: World, env: Env)
    requires cfg.policy.Forbid? && Tracked(cfg, w) && Possible(w, Reconciled(env))
    requires Prunes(cfg, env) ==> ReadsTellAbsent(w, env)
    ensures Tracked(cfg, Pass(cfg, w, env))
  {
    var w1 := w.(clock := env.later);
    KeptMembers(w1, env, w1.active);
    if Prunes(cfg, env) {
      forall id | id in w.mine && Live(w, id) ensures id in Pruned(w1, env) {
        PruneDropsLiveIff(cfg, w1, env, id);
      }
    }
  }

  lemma {:induction false} AlwaysTracked(cfg: Config, w0: World, steps: seq<Step>)
    requires cfg.policy.Forbid? && Fresh(cfg, w0) && After(cfg, w0, steps).Some?
    requires WellRead(cfg, w0, steps) && NamesApart(cfg, w0, steps)
    ensures Tracked(cfg, After(cfg, w0, steps).value)
  {
    if steps != [] {
      var prefix := steps[..|steps| - 1];
      assert forall k :: 0 <= k < |prefix| ==> prefix[..k] == steps[..k];
      AlwaysTracked(cfg, w0, prefix);
      var w := After(cfg, w0, prefix).value;
      var step := steps[|steps| - 1];
      if step.Reconciled? {
        PassKeepsTracked(cfg, w, step.env);
      }
    }
  }

  lemma OneElement(s: seq<string>, a: string, b: string)
    requires |s| <= 1 && a in s && b in s
    ensures a == b
  {
  }

  /** Two runs of the schedule are alive at once. */
  ghost predicate Overlaps(w: World) {
    exists a, b :: a in w.mine && b in w.mine && a != b && Live(w, a) && Live(w, b)
  }

  ghost predicate SomeLive(w: World) {
    exists id :: id in w.mine && Live(w, id)
  }

  /** Under Forbid a pass leaves the runs alone, but for the one it creates when it fires. */
  lemma ForbidPassLives(cfg: Config, w: World, env: Env, id: string)
    requires cfg.policy.Forbid? && Possible(w, Reconciled(env))
    ensures var w' := Pass(cfg, w, env);
            var fires := Fires(cfg, w.(clock := env.later), env);
            && w'.mine == (if fires then w.mine + {env.created.value} else w.mine)
            && (id in w'.mine && Live(w', id) <==> (id in w.mine && Live(w, id)) || (fires && id == env.created.value))
  {
  }

  /** From a state without an overlap, a pass makes one iff it fires while a run is alive. */
  lemma FireOverlapsIff(cfg: Config, w: World, env: Env)
    requires cfg.policy.Forbid? && Possible(w, Reconciled(env)) && !Overlaps(w)
    ensures Overlaps(Pass(cfg, w, env)) <==> Fires(cfg, w.(clock := env.later), env) && SomeLive(w)
  {
    var w' := Pass(cfg, w, env);
    forall id ensures id in w'.mine && Live(w', id)
                      <==> (id in w.mine && Live(w, id))
                           || (Fires(cfg, w.(clock := env.later), env) && id == env.created.value)
    {
      ForbidPassLives(cfg, w, env, id);
    }
    if Fires(cfg, w.(clock := env.later), env) && SomeLive(w) {
      var id :| id in w.mine && Live(w, id);
      assert id != env.created.value && Live(w', id) && Live(w', env.created.value);
    }
  }

  /** A live ChainRun of the schedule that this pass cannot read, while it reads the AgentRun of that name as absent. */
  ghost predicate LosesLive(cfg: Config, w: World, env: Env) {
    exists id :: id in w.mine && Live(w, id) && cfg.kind.ChainRuns? && id in env.chainErrors && id !in env.agentErrors
  }

  lemma TrackedFireIff(cfg: Config, w: World, env: Env)
    requires cfg.policy.Forbid? && Tracked(cfg, w) && |w.active| <= 1
    ensures Fires(cfg, w.(clock := env.later), env) && SomeLive(w)
            <==> !env.suspended && Due(cfg, w, env) && env.created.Some? && LosesLive(cfg, w, env)
  {
    var w1 := w.(clock := env.later);
    KeptMembers(w1, env, w1.active);
    if id :| id in w.mine && Live(w, id) {
      PruneDropsLiveIff(cfg, w1, env, id);
      forall x | x in w.mine && Live(w, x) ensures x == id {
        OneElement(w.active, x, id);
      }
      if id !in Pruned(w1, env) {
        forall x | x in Pruned(w1, env) ensures false {
          OneElement(w.active, x, id);
        }
        assert Pruned(w1, env) == [];
      }
    }
  }

  lemma TrackedNoOverlap(cfg: Config, w: World)
    requires Tracked(cfg, w) && |w.active| <= 1
    ensures !Overlaps(w)
  {
    forall a, b | a in w.mine && b in w.mine && Live(w, a) && Live(w, b) ensures a == b {
      OneElement(w.active, a, b);
    }
  }

  /**
   Under Forbid, with reads that tell an absent run from an unreadable one,
   every live run of the schedule is in Active and no two are ever alive at once.
   */
  lemma {:induction false} NoOverlap(cfg: Config, w0: World, steps: seq<Step>)
    requires cfg.policy.Forbid? && Fresh(cfg, w0) && After(cfg, w0, steps).Some?
    requires WellRead(cfg, w0, steps) && NamesApart(cfg, w0, steps)
    ensures var w := After(cfg, w0, steps).value;
            !Overlaps(w) && forall id :: id in w.mine && Live(w, id) ==> id in w.active
  {
    AlwaysTracked(cfg, w0, steps);
    ActiveAtMostOne(cfg, w0, steps);
    TrackedNoOverlap(cfg, After(cfg, w0, steps).value);
  }

  /**
   Exactly when the next pass makes the first overlap: it is due, not suspended
   and its create works, and a live ChainRun of the schedule cannot be read
   while the AgentRun of that name reads as absent.
   */
  lemma {:induction false} OverlapIff(cfg: Config, w0: World, steps: seq<Step>, env: Env)
    requires cfg.policy.Forbid? && Fresh(cfg, w0) && After(cfg, w0, steps).Some?
    requires WellRead(cfg, w0, steps) && NamesApart(cfg, w0, steps)
    requires Possible(After(cfg, w0, steps).value, Reconciled(env))
    ensures var w := After(cfg, w0, steps).value;
            Overlaps(Pass(cfg, w, env))
            <==> !env.suspended && Due(cfg, w, env) && env.created.Some? && LosesLive(cfg, w, env)
  {
    var w := After(cfg, w0, steps).value;
    AlwaysTracked(cfg, w0, steps);
    ActiveAtMostOne(cfg, w0, steps);
    TrackedNoOverlap(cfg, w);
    FireOverlapsIff(cfg, w, env);
    TrackedFireIff(cfg, w, env);
  }

  /** A pass that cannot read the one live ChainRun forgets it and starts another beside it. */
  lemma FailedReadStartsAnother(cfg: Config, w: World, env: Env, id: string)
    requires cfg.kind.ChainRuns? && cfg.policy.Forbid? && w.active == [id] && id in w.mine
    requires id in w.chainRuns && !w.chainRuns[id] && id !in w.agentRuns
    requires id in env.chainErrors && id !in env.agentErrors
    requires !env.suspended && Due(cfg, w, env) && env.created.Some? && env.created.value != id
    ensures var w' := Pass(cfg, w, env);
            && Live(w', id) && Live(w', env.created.value)
            && id in w'.mine && env.created.value in w'.mine
  {
    var w1 := w.(clock := env.later);
    KeptMembers(w1, env, w1.active);
    assert forall x :: x !in Pruned(w1, env);
  }

  lemma FirstFire(cfg: Config, w0: World, env: Env)
    requires cfg.kind.ChainRuns? && !cfg.policy.Allow? && Fresh(cfg, w0)
    requires !env.suspended && Due(cfg, w0, env) && env.created.Some?
    ensures var w := Pass(cfg, w0, env);
            var name := env.created.value;
            && w.active == [name] && w.mine == {name} && w.last == Some(Truncate(env.later)) && w.clock == env.later
            && w.chainRuns == w0.chainRuns[name := false] && w.agentRuns == w0.agentRuns
  {
  }

  lemma {:induction false} TwoPasses(cfg: Config, w0: World, env1: Env, env2: Env)
    requires Possible(w0, Reconciled(env1)) && Possible(Pass(cfg, w0, env1), Reconciled(env2))
    ensures After(cfg, w0, [Reconciled(env1), Reconciled(env2)]) == Some(Pass(cfg, Pass(cfg, w0, env1), env2))
  {
    var s1 := [Reconciled(env1)];
    assert s1[..0] == [];
    assert After(cfg, w0, s1) == Some(Pass(cfg, w0, env1));
    assert [Reconciled(env1), Reconciled(env2)][..1] == s1;
  }

  /**
   One failed read is enough for an overlap: whatever the cron, two passes of a
   Forbid schedule over an empty namespace can end with two of its runs alive.
   */
  lemma {:induction false} FailedReadOverlaps(cfg: Config, w0: World, env1: Env, env2: Env, a: string, b: string)
    requires Sound(cfg.cron) && cfg.kind.ChainRuns? && cfg.policy.Forbid? && Fresh(cfg, w0)
    requires w0.chainRuns == map[] && w0.agentRuns == map[]
    requires !env1.suspended && !env2.suspended
    requires a != b && env1.created == Some(a) && env2.created == Some(b)
    requires w0.clock <= env1.now <= env1.later <= env2.now <= env2.later
    requires cfg.cron.next(cfg.createdAt) <= env1.now && cfg.cron.next(Truncate(env1.later)) <= env2.now
    requires env2.chainErrors == {a} && env2.agentErrors == {}
    ensures var r := After(cfg, w0, [Reconciled(env1), Reconciled(env2)]);
            r.Some? && Overlaps(r.value)
  {
    var w1 := Pass(cfg, w0, env1);
    FirstFire(cfg, w0, env1);
    FailedReadStartsAnother(cfg, w1, env2, a);
    TwoPasses(cfg, w0, env1, env2);
  }

  // ----- replacing -----

  /** Which ChainRuns are left after deleting the listed runs. */
  lemma {:induction false} ChainRunsLeft(w: World, env: Env, ids: seq<string>, id: string)
    ensures var r := DeleteRuns(w, env, ids);
            && (id in r.chainRuns <==>
                  id in w.chainRuns && !(id in ids && id !in env.replaceChainErrors && id !in env.deleteErrors))
            && (id in r.chainRuns ==> r.chainRuns[id] == w.chainRuns[id])
  {
    if ids != [] {
      ChainRunsLeft(w, env, ids[..|ids| - 1], id);
    }
  }

  /** Which AgentRuns are left, for a name no ChainRun has. */
  lemma {:induction false} AgentRunsLeft(w: World, env: Env, ids: seq<string>, id: string)
    requires id !in w.chainRuns
    ensures var r := DeleteRuns(w, env, ids);
            && (id in r.agentRuns <==>
                  id in w.agentRuns && !(id in ids && id !in env.replaceAgentErrors && id !in env.deleteErrors))
            && (id in r.agentRuns ==> r.agentRuns[id] == w.agentRuns[id])
  {
    if ids != [] {
      AgentRunsLeft(w, env, ids[..|ids| - 1], id);
      ChainRunsLeft(w, env, ids[..|ids| - 1], id);
    }
  }

  lemma {:induction false} AgentRunsKept(w: World, env: Env, ids: seq<string>, id: string)
    requires id !in w.agentRuns
    ensures id !in DeleteRuns(w, env, ids).agentRuns
  {
    DeletesKeepStatus(w, env, ids);
  }

  /** The pass cannot delete this run: it cannot read it when it replaces, or its delete fails. */
  predicate CannotDelete(cfg: Config, env: Env, id: string) {
    id in env.deleteErrors || id in (if cfg.kind.ChainRuns? then env.replaceChainErrors else env.replaceAgentErrors)
  }

  /** The prune drops this run although it is alive. */
  predicate PrunedAlive(cfg: Config, env: Env, id: string) {
    cfg.kind.ChainRuns? && id in env.chainErrors && id !in env.agentErrors
  }

  lemma DeletedIff(cfg: Config, w: World, env: Env, ids: seq<string>, id: string)
    requires KindsApart(cfg, w) && id in w.mine && Live(w, id)
    ensures Live(DeleteRuns(w, env, ids), id) <==> !(id in ids && !CannotDelete(cfg, env, id))
  {
    ChainRunsLeft(w, env, ids, id);
    if id in w.chainRuns {
      AgentRunsKept(w, env, ids, id);
    } else {
      AgentRunsLeft(w, env, ids, id);
    }
  }

  /**
   A firing Replace pass ends with the new run as the only active one. A live
   run that was active stays alive, out of Active, iff the prune lost it or it
   could not be deleted.
   */
  lemma ReplaceLeavesAliveIff(cfg: Config, w: World, env: Env, id: string)
    requires cfg.policy.Replace? && Possible(w, Reconciled(env)) && Fires(cfg, w.(clock := env.later), env)
    requires KindsApart(cfg, w) && id in w.mine && id in w.active && Live(w, id)
    ensures var w' := Pass(cfg, w, env);
            && w'.active == [env.created.value] && id !in w'.active
            && (Live(w', id) <==> PrunedAlive(cfg, env, id) || CannotDelete(cfg, env, id))
  {
    var w1 := w.(clock := env.later);
    var pruned := w1.(active := Pruned(w1, env));
    PruneDropsLiveIff(cfg, w1, env, id);
    DeletedIff(cfg, pruned, env, pruned.active, id);
  }

  /**
   One failed delete is enough: whatever the cron, two passes of a Replace
   schedule over an empty namespace can end with two of its runs alive.
   */
  lemma {:induction false} FailedDeleteOverlaps(cfg: Config, w0: World, env1: Env, env2: Env, a: string, b: string)
    requires Sound(cfg.cron) && cfg.kind.ChainRuns? && cfg.policy.Replace? && Fresh(cfg, w0)
    requires w0.chainRuns == map[] && w0.agentRuns == map[]
    requires !env1.suspended && !env2.suspended
    requires a != b && env1.created == Some(a) && env2.created == Some(b)
    requires w0.clock <= env1.now <= env1.later <= env2.now <= env2.later
    requires cfg.cron.next(cfg.createdAt) <= env1.now && cfg.cron.next(Truncate(env1.later)) <= env2.now
    requires env2.deleteErrors == {a}
    ensures var w2 := Pass(cfg, Pass(cfg, w0, env1), env2);
            && After(cfg, w0, [Reconciled(env1), Reconciled(env2)]) == Some(w2)
            && w2.active == [b] && {a, b} <= w2.mine && Live(w2, a) && Live(w2, b)
  {
    var w1, w2 := Pass(cfg, w0, env1), Pass(cfg, Pass(cfg, w0, env1), env2);
    FirstFire(cfg, w0, env1);
    ReplaceLeavesAliveIff(cfg, w1, env2, a);
    TwoPasses(cfg, w0, env1, env2);
    assert a in w2.mine && b in w2.mine && Live(w2, a) && Live(w2, b);
  }
}
