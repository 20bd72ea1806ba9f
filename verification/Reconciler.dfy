/** The reconciler's poll, heal and delete loops (examples/reconciler/k8slib/k8slib.go). */
module Reconciler {
  import opened Entity
  import opened FakeCluster

  /** The kind's configuration; `digest` stands for the digest of the encoded manifest. */
  datatype Config<!T> = Config(
    ready: Option<T -> bool>,
    drifted: Option<(T, T) -> bool>,
    pollAttempts: int,
    digest: T -> string,
    zero: T)

  datatype ResourceState<T> = ResourceState(live: T, ready: bool, desiredDigest: string, drifted: bool, heals: nat)

  predicate IsReady<T>(cfg: Config<T>, live: T) {
    cfg.ready.None? || cfg.ready.value(live)
  }

  predicate Drifted<T>(cfg: Config<T>, desired: T, live: T) {
    if cfg.drifted.Some? then cfg.drifted.value(desired, live) else cfg.digest(desired) != cfg.digest(live)
  }

  // ----- polling until ready -----

  /** The live object as the `k`-th Get after an apply shows it. */
  function Observed<T>(converge: Option<T -> T>, applied: T, k: nat): T {
    if k == 0 then applied else Converged(converge, Observed(converge, applied, k - 1))
  }

  predicate ReadyAt<T>(cfg: Config<T>, converge: Option<T -> T>, applied: T, k: nat) {
    IsReady(cfg, Observed(converge, applied, k))
  }

  /** How many Gets the poll loop makes, after `done` unready ones. */
  function Polls<T>(cfg: Config<T>, converge: Option<T -> T>, applied: T, done: nat): (n: nat)
    requires done <= Limit(cfg)
    ensures done <= n <= Limit(cfg)
    ensures forall k: nat :: done < k < n ==> !ReadyAt(cfg, converge, applied, k)
    ensures n < Limit(cfg) ==> n > done && ReadyAt(cfg, converge, applied, n)
    decreases Limit(cfg) - done
  {
    if done == Limit(cfg) then done
    else if ReadyAt(cfg, converge, applied, done + 1) then done + 1
    else Polls(cfg, converge, applied, done + 1)
  }

  function Limit<T>(cfg: Config<T>): nat {
    if cfg.pollAttempts < 0 then 0 else cfg.pollAttempts
  }

  predicate Settles<T>(cfg: Config<T>, converge: Option<T -> T>, applied: T) {
    var n := Polls(cfg, converge, applied, 0);
    n > 0 && ReadyAt(cfg, converge, applied, n)
  }

  /** The poll loop succeeds exactly when one of the allowed observations is ready. */
  lemma {:induction false} SettlesIffReadyInTime<T>(cfg: Config<T>, converge: Option<T -> T>, applied: T)
    ensures Settles(cfg, converge, applied)
       <==> exists k: nat :: 0 < k <= cfg.pollAttempts && ReadyAt(cfg, converge, applied, k)
  {
    var n := Polls(cfg, converge, applied, 0);
    if Settles(cfg, converge, applied) {
      assert 0 < n <= cfg.pollAttempts && ReadyAt(cfg, converge, applied, n);
    }
    forall k: nat | 0 < k <= cfg.pollAttempts && ReadyAt(cfg, converge, applied, k)
      ensures Settles(cfg, converge, applied)
    {
      assert n <= k;
      assert n == Limit(cfg) ==> n == k;
    }
  }

  datatype Error =
    | ApplyError(text: string)
    | DeleteError(text: string)
    | NotReady
    | StillPresent
    | HealError(cause: Error)

  datatype Applied<T> = Applied(state: ResourceState<T>, objects: map<string, T>, err: Option<Error>)

  function AppliedAndWaited<T>(cfg: Config<T>, converge: Option<T -> T>, failure: Option<string>,
                               objects: map<string, T>, key: string, desired: T): Applied<T> {
    if failure.Some? then
      Applied(ResourceState(cfg.zero, false, "", false, 0), objects, Some(ApplyError(failure.value)))
    else
      var n := Polls(cfg, converge, desired, 0);
      var live := Observed(converge, desired, n);
      var settled := Settles(cfg, converge, desired);
      Applied(ResourceState(if n == 0 then cfg.zero else live, settled, cfg.digest(desired), false, 0),
              objects[key := live], if settled then None else Some(NotReady))
  }

  method ApplyAndWaitReady<T>(cluster: Cluster<T>, cfg: Config<T>, key: string, desired: T)
    returns (st: ResourceState<T>, err: Option<Error>)
    modifies cluster`objects
    ensures Applied(st, cluster.objects, err)
         == AppliedAndWaited(cfg, cluster.converge, Lookup(cluster.failApply, key), old(cluster.objects), key, desired)
  {
    st := ResourceState(cfg.zero, false, "", false, 0);
    var failed := cluster.Apply(key, desired);
    if failed.Some? {
      return st, Some(ApplyError(failed.value));
    }
    st := st.(desiredDigest := cfg.digest(desired));
    var attempt := 0;
    while attempt < cfg.pollAttempts
      invariant 0 <= attempt <= Limit(cfg)
      invariant Polls(cfg, cluster.converge, desired, attempt) == Polls(cfg, cluster.converge, desired, 0)
      invariant cluster.objects == old(cluster.objects)[key := Observed(cluster.converge, desired, attempt)]
      invariant st == ResourceState(if attempt == 0 then cfg.zero else Observed(cluster.converge, desired, attempt),
                                    false, cfg.digest(desired), false, 0)
      invariant attempt > 0 ==> !ReadyAt(cfg, cluster.converge, desired, attempt)
    {
      var got := cluster.Get(key);
      st := st.(live := got.value);
      if IsReady(cfg, got.value) {
        st := st.(ready := true);
        return st, None;
      }
      attempt := attempt + 1;
    }
    err := Some(NotReady);
  }

  /** Ready by the kind's own predicate, or as soon as the object is there. */
  predicate LooksReady<T>(cfg: Config<T>, live: T) {
    match cfg.ready
    case Some(ready) => ready(live)
    case None => true
  }

  /** One of the allowed looks at the object is ready. */
  ghost predicate ReadyInTime<T>(cfg: Config<T>, converge: Option<T -> T>, desired: T) {
    exists k: nat :: 0 < k <= cfg.pollAttempts && LooksReady(cfg, Observed(converge, desired, k))
  }

  /**
   What applying reports, for any kind and cluster: the cluster's refusal; or success iff one of the allowed looks is
   ready, with the ready object as seen and stored; or not ready, with what was seen last. A kind without a predicate
   succeeds at its first look.
   */
  lemma {:induction false} ApplyReports<T>(cfg: Config<T>, converge: Option<T -> T>, failure: Option<string>,
                                           objects: map<string, T>, key: string, desired: T)
    ensures var a := AppliedAndWaited(cfg, converge, failure, objects, key, desired);
      && (failure.Some? ==> a.err == Some(ApplyError(failure.value)) && a.objects == objects)
      && (failure == None ==>
            && a.objects - {key} == objects - {key} && key in a.objects && a.err in {None, Some(NotReady)}
            && (a.err == None <==> ReadyInTime(cfg, converge, desired))
            && (cfg.ready == None ==> (a.err == None <==> cfg.pollAttempts > 0)))
      && (a.err == None ==>
            && LooksReady(cfg, a.objects[key])
            && a.state == ResourceState(a.objects[key], true, cfg.digest(desired), false, 0))
      && (failure.Some? ==> a.state == ResourceState(cfg.zero, false, "", false, 0))
      && (a.err == Some(NotReady) ==>
            var live := if cfg.pollAttempts > 0 then a.objects[key] else cfg.zero;
            a.state == ResourceState(live, false, cfg.digest(desired), false, 0))
  {
    SettlesIffReadyInTime(cfg, converge, desired);
    if k: nat :| 0 < k <= cfg.pollAttempts && ReadyAt(cfg, converge, desired, k) {
      assert LooksReady(cfg, Observed(converge, desired, k));
    }
    if ReadyInTime(cfg, converge, desired) {
      var k: nat :| 0 < k <= cfg.pollAttempts && LooksReady(cfg, Observed(converge, desired, k));
      assert ReadyAt(cfg, converge, desired, k);
    }
    if cfg.ready == None && cfg.pollAttempts > 0 {
      assert ReadyAt(cfg, converge, desired, 1);
    }
  }

  // ----- the resource's entity state -----

  datatype View<T> = View(spec: T, state: ResourceState<T>, objects: map<string, T>)

  /** One tick of a ready entity: observe, compare, heal. */
  function AfterTick<T>(cfg: Config<T>, converge: Option<T -> T>, failure: Option<string>, key: string, v: View<T>)
    : (View<T>, Option<Error>)
  {
    var found := key in v.objects;
    var live := if found then Converged(converge, v.objects[key]) else v.state.live;
    var drifted := !found || Drifted(cfg, v.spec, live);
    var seen := v.(state := v.state.(live := live, drifted := drifted),
                   objects := if found then v.objects[key := live] else v.objects);
    if !drifted then (seen, None)
    else
      var healed := AppliedAndWaited(cfg, converge, failure, seen.objects, key, v.spec);
      if healed.err.Some? then (seen.(objects := healed.objects), Some(HealError(healed.err.value)))
      else (View(v.spec, healed.state.(heals := v.state.heals + 1), healed.objects), None)
  }

  /** Did the tick see drift? */
  predicate SawDrift<T>(cfg: Config<T>, converge: Option<T -> T>, key: string, v: View<T>) {
    key !in v.objects || Drifted(cfg, v.spec, Converged(converge, v.objects[key]))
  }

  /** What the Apply command answers. */
  datatype ApplyResult = ApplyResult(digest: string, ready: bool)

  /** The object a tick finds differs from the desired one, by the kind's own predicate or by digest. */
  predicate Differs<T>(cfg: Config<T>, desired: T, live: T) {
    match cfg.drifted
    case Some(drifted) => drifted(desired, live)
    case None => cfg.digest(desired) != cfg.digest(live)
  }

  /**
   What a tick reports, for any kind and cluster: it heals iff the object is gone or differs; without drift it keeps
   what it saw and counts nothing; a failed heal is reported, counts nothing and leaves the drift flag up; a heal
   counts once.
   */
  lemma {:induction false} TickReports<T>(cfg: Config<T>, converge: Option<T -> T>, failure: Option<string>,
                                          key: string, v: View<T>)
    ensures var (w, err) := AfterTick(cfg, converge, failure, key, v);
      var found := key in v.objects;
      var live := if !found then v.state.live
                  else if converge.Some? then converge.value(v.objects[key]) else v.objects[key];
      var drift := !found || Differs(cfg, v.spec, live);
      var seen := if found then v.objects[key := live] else v.objects;
      var healed := AppliedAndWaited(cfg, converge, failure, seen, key, v.spec);
      && w.spec == v.spec
      && (err == None <==> !drift || healed.err == None)
      && (!drift ==> w.objects == seen && w.state == v.state.(live := live, drifted := false))
      && (err.Some? ==>
            && err == Some(HealError(healed.err.value)) && w.objects == healed.objects
            && w.state == v.state.(live := live, drifted := true))
      && (drift && err == None ==>
            w.objects == healed.objects && w.state == healed.state.(heals := v.state.heals + 1))
  {
  }

  class Resource<T> {
    var phase: Phase
    var spec: T
    var state: ResourceState<T>

    constructor (phase: Phase, spec: T, state: ResourceState<T>)
      ensures this.phase == phase && this.spec == spec && this.state == state
    {
      this.phase, this.spec, this.state := phase, spec, state;
    }

    /**
     The built-in Apply command: the spec is replaced even if the cluster then refuses it. Success is reported with
     the digest of the desired object and always as ready; failure leaves the state alone.
     */
    method ApplyCommand(cluster: Cluster<T>, cfg: Config<T>, key: string, desired: T)
      returns (res: ApplyResult, err: Option<Error>)
      modifies this`spec, this`state, cluster`objects
      ensures spec == desired
      ensures var a := AppliedAndWaited(cfg, cluster.converge, Lookup(cluster.failApply, key),
                                        old(cluster.objects), key, desired);
        err == a.err && cluster.objects == a.objects && state == if err.None? then a.state else old(state)
      ensures res == if err.None? then ApplyResult(cfg.digest(desired), true) else ApplyResult("", false)
    {
      spec := desired;
      var st;
      st, err := ApplyAndWaitReady(cluster, cfg, key, desired);
      if err.Some? {
        return ApplyResult("", false), err;
      }
      state := st;
      res := ApplyResult(st.desiredDigest, st.ready);
    }

    /** The periodic health check; it does nothing outside the ready phase. */
    method ReconcileDrift(cluster: Cluster<T>, cfg: Config<T>, key: string) returns (err: Option<Error>)
      modifies this`state, cluster`objects
      ensures (View(spec, state, cluster.objects), err)
           == if phase != Ready then (View(spec, old(state), old(cluster.objects)), None)
              else AfterTick(cfg, cluster.converge, Lookup(cluster.failApply, key), key,
                             View(spec, old(state), old(cluster.objects)))
    {
      if phase != Ready {
        return None;
      }
      var got := cluster.Get(key);
      var drifted := got.None?;
      if got.Some? {
        state := state.(live := got.value);
        drifted := Drifted(cfg, spec, got.value);
      }
      state := state.(drifted := drifted);
      if !drifted {
        return None;
      }
      var healed;
      healed, err := ApplyAndWaitReady(cluster, cfg, key, spec);
      if err.Some? {
        return Some(HealError(err.value));
      }
      state := healed.(heals := state.heals + 1);
    }
  }

  /** After a successful delete, does the `k`-th look find the key, given what others do before each look? */
  predicate FoundAt<T>(others: nat -> Meddling<T>, k: nat) {
    match others(k)
    case LeaveAlone => k > 0 && FoundAt(others, k - 1)
    case Put(_) => true
    case Take => false
  }

  /**
   The finalizer, with `others(k)` done by someone else before the `k`-th look: it succeeds exactly when the delete
   went through and one of the allowed looks finds nothing; left alone, when it may look at all. Other keys are safe.
   */
  method DeleteAndWaitGone<T>(cluster: Cluster<T>, cfg: Config<T>, key: string, others: nat -> Meddling<T>)
    returns (err: Option<Error>)
    modifies cluster`objects
    ensures err == None <==>
      Lookup(cluster.failDelete, key).None? && exists k: nat :: k < Limit(cfg) && !FoundAt(others, k)
    ensures (forall k :: others(k) == LeaveAlone) ==>
      (err == None <==> Lookup(cluster.failDelete, key).None? && cfg.pollAttempts > 0)
    ensures err == None ==> cluster.objects == old(cluster.objects) - {key}
    ensures Lookup(cluster.failDelete, key).Some? ==> cluster.objects == old(cluster.objects)
    ensures cluster.objects - {key} == old(cluster.objects) - {key}
  {
    var failed := cluster.Delete(key);
    if failed.Some? {
      return Some(DeleteError(failed.value));
    }
    var attempt := 0;
    while attempt < cfg.pollAttempts
      invariant 0 <= attempt <= Limit(cfg)
      invariant cluster.objects - {key} == old(cluster.objects) - {key}
      invariant key in cluster.objects <==> attempt > 0
      invariant forall k: nat :: k < attempt ==> FoundAt(others, k)
    {
      cluster.Meddle(key, others(attempt));
      assert FoundAt(others, attempt) <==> key in cluster.objects;
      var got := cluster.Get(key);
      if got.None? {
        assert exists k: nat :: k < Limit(cfg) && !FoundAt(others, k);
        return None;
      }
      attempt := attempt + 1;
    }
    err := Some(StillPresent);
    assert cfg.pollAttempts > 0 ==> FoundAt(others, 0);
  }

  // ----- one deployment -----

  /** The user's type of the example, its readiness and drift, and the cluster that starts one replica per look. */
  datatype Deployment = Deployment(image: string, replicas: int, readyReplicas: int)

  function OneMoreReplica(d: Deployment): Deployment {
    if d.readyReplicas < d.replicas then d.(readyReplicas := d.readyReplicas + 1)
    else d.(readyReplicas := d.replicas)
  }

  const Gradually: Option<Deployment -> Deployment> := Some(OneMoreReplica)

  function DeploymentConfig(pollAttempts: int, digest: Deployment -> string): Config<Deployment> {
    Config(Some((live: Deployment) => live.readyReplicas >= live.replicas),
           Some((desired: Deployment, live: Deployment) =>
                  desired.image != live.image || desired.replicas != live.replicas),
           pollAttempts, digest, Deployment("", 0, 0))
  }

  /** How many looks a deployment needs before it is seen ready. */
  function LooksNeeded(d: Deployment): int {
    if d.replicas - d.readyReplicas > 1 then d.replicas - d.readyReplicas else 1
  }

  lemma {:induction false} ObservedDeployment(d: Deployment, k: nat)
    requires k > 0
    ensures Observed(Gradually, d, k) ==
      d.(readyReplicas := if d.readyReplicas + k < d.replicas then d.readyReplicas + k else d.replicas)
  {
    if k > 1 {
      ObservedDeployment(d, k - 1);
    } else {
      assert Observed(Gradually, d, 0) == d;
    }
  }

  lemma {:induction false} PollsDeployment(attempts: int, digest: Deployment -> string, d: Deployment)
    ensures var cfg := DeploymentConfig(attempts, digest);
      Settles(cfg, Gradually, d) <==> attempts >= LooksNeeded(d)
    ensures var cfg := DeploymentConfig(attempts, digest);
      Settles(cfg, Gradually, d) ==> Polls(cfg, Gradually, d, 0) == LooksNeeded(d)
  {
    var cfg := DeploymentConfig(attempts, digest);
    forall k: nat | k > 0 ensures ReadyAt(cfg, Gradually, d, k) <==> k >= LooksNeeded(d) {
      ObservedDeployment(d, k);
    }
    SettlesIffReadyInTime(cfg, Gradually, d);
    var need: nat := LooksNeeded(d);
    assert ReadyAt(cfg, Gradually, d, need);
  }

  /**
   Convergence with an exact bound: applying a deployment succeeds iff the cluster accepts it and the
   loop may look at least max(1, missing replicas) times; it is then live with every replica ready.
   */
  lemma {:induction false} DeploymentConverges(attempts: int, digest: Deployment -> string, failure: Option<string>,
                            objects: map<string, Deployment>, key: string, d: Deployment)
    ensures var a := AppliedAndWaited(DeploymentConfig(attempts, digest), Gradually, failure, objects, key, d);
      && (a.err == None <==> failure == None && attempts >= LooksNeeded(d))
      && (a.err == None ==>
            && a.objects == objects[key := d.(readyReplicas := d.replicas)]
            && a.state == ResourceState(d.(readyReplicas := d.replicas), true, digest(d), false, 0))
  {
    PollsDeployment(attempts, digest, d);
    var looks: nat := LooksNeeded(d);
    ObservedDeployment(d, looks);
  }

  /** The object under the key has the desired image and replica count. */
  predicate AsDesired(v: View<Deployment>, key: string) {
    key in v.objects && v.objects[key].image == v.spec.image && v.objects[key].replicas == v.spec.replicas
  }

  function AfterFaults<T>(objects: map<string, T>, key: string, faults: seq<Fault<T>>): map<string, T> {
    if faults == [] then objects
    else AfterFault(AfterFaults(objects, key, faults[..|faults| - 1]), key, faults[|faults| - 1])
  }

  /**
   Healing: after any sequence of corruptions and disappearances a tick succeeds iff it saw no drift or
   could re-apply; it then leaves the desired image and replicas, counts one heal iff it saw drift, and the
   next tick heals nothing.
   */
  lemma {:induction false} TickHealsOnce(attempts: int, digest: Deployment -> string, failure: Option<string>,
                                          key: string, before: View<Deployment>, faults: seq<Fault<Deployment>>)
    ensures var cfg := DeploymentConfig(attempts, digest);
      var v := before.(objects := AfterFaults(before.objects, key, faults));
      var (w, err) := AfterTick(cfg, Gradually, failure, key, v);
      var saw := SawDrift(cfg, Gradually, key, v);
      && (err == None <==> !saw || (failure == None && attempts >= LooksNeeded(v.spec)))
      && w.spec == v.spec
      && (err == None ==>
            && AsDesired(w, key) && !w.state.drifted
            && w.state.heals == v.state.heals + (if saw then 1 else 0)
            && !SawDrift(cfg, Gradually, key, w)
            && var (x, again) := AfterTick(cfg, Gradually, failure, key, w);
               again == None && AsDesired(x, key) && x.state.heals == w.state.heals)
  {
    var cfg := DeploymentConfig(attempts, digest);
    var v := before.(objects := AfterFaults(before.objects, key, faults));
    TickHealsOnceFrom(attempts, digest, failure, key, v);
    var (w, err) := AfterTick(cfg, Gradually, failure, key, v);
    if err == None {
      TickHealsOnceFrom(attempts, digest, failure, key, w);
    }
  }

  lemma {:induction false} TickHealsOnceFrom(attempts: int, digest: Deployment -> string, failure: Option<string>,
                                              key: string, v: View<Deployment>)
    ensures var cfg := DeploymentConfig(attempts, digest);
      var (w, err) := AfterTick(cfg, Gradually, failure, key, v);
      var saw := SawDrift(cfg, Gradually, key, v);
      && (err == None <==> !saw || (failure == None && attempts >= LooksNeeded(v.spec)))
      && w.spec == v.spec
      && (err == None ==>
            && AsDesired(w, key) && !w.state.drifted && !SawDrift(cfg, Gradually, key, w)
            && w.state.heals == v.state.heals + (if saw then 1 else 0))
  {
    var objects := if key in v.objects then v.objects[key := OneMoreReplica(v.objects[key])] else v.objects;
    DeploymentConverges(attempts, digest, failure, objects, key, v.spec);
  }
}
