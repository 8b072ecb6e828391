/** The negative timeout of Confirming: stamped once, never rewritten, never early, and exact. */
module ConfirmTimer {
  import opened Wrappers
  import opened Conditions
  import opened NodeTypes
  import opened DeploymentStep
  import opened DeploymentSafety
  import opened DeploymentRuns

  /**
   * A reconcile of a deployment in Confirming leaves the phase exactly in these cases; a stamp that does not parse
   * never times out.
   */
  lemma LeavesConfirmingExactlyWhen(key: Key, dep: Dep, deps: map<Key, Dep>, slot: Slot, env: Env)
    requires Shape(dep) && dep.status.phase == Confirming
    ensures var out := ReconcileOutcome(key, dep, deps, slot, env).dep;
            var v := if env.node.Some? then Some(env.node.value.vital) else None;
            && dep.stamp.Some?
            && (out.status.phase != Confirming <==>
                  && HasClient(env) && env.statusPatch
                  && (|| Confirms(v.value, dep.uid)
                      || v.value.state in {"failed", "rollback", "degraded"}
                      || (dep.stamp.value.At? && env.now > dep.stamp.value.time + CONFIRM_TIMEOUT)))
            && (out.status.phase == Deployed <==> HasClient(env) && env.statusPatch && Confirms(v.value, dep.uid))
            && (out.status.message == Failure("ConfirmTimeout") && out.status.phase == Failed ==>
                  TimedOut(dep.stamp, env.now))
  {
    hide PhaseConditions, FailedConditions;
  }

  predicate StampedNow(a: Dep, b: Dep, now: int) {
    b.stamp == a.stamp || b.stamp == Some(At(Truncated(now)))
  }

  lemma SetPhaseStamps(dep: Dep, phase: Phase, boundNode: string, msg: Message, env: Env)
    ensures StampedNow(dep, SetPhase(dep, phase, boundNode, msg, env), env.now)
  {
    hide PhaseConditions;
  }

  lemma FailStamps(dep: Dep, reason: string, landed: bool, now: int)
    ensures StampedNow(dep, Fail(dep, reason, landed), now) && Fail(dep, reason, landed).stamp == dep.stamp
  {
    hide FailedConditions;
  }

  lemma Unstamped(a: Dep, b: Dep, now: int)
    ensures a.stamp == b.stamp ==> StampedNow(a, b, now)
  {
  }

  lemma PrepareStamps(dep: Dep, slot: Slot, env: Env)
    ensures StampedNow(dep, PrepareOutcome(dep, slot, env).dep, env.now)
  {
    hide SetPhase, Fail, StampedNow;
    Unstamped(dep, dep, env.now);
    SetPhaseStamps(dep, Confirming, dep.status.boundNode, Blank, env);
    SetPhaseStamps(dep, Activating, dep.status.boundNode, Blank, env);
    SetPhaseStamps(dep, Writing, dep.status.boundNode, Blank, env);
    FailStamps(dep, "APIVersionUnsupported", env.statusPatch, env.now);
    if env.prepare.Rejected? {
      FailStamps(dep, env.prepare.reason, env.statusPatch, env.now);
    }
  }

  lemma PreparingStamps(dep: Dep, slot: Slot, env: Env)
    ensures StampedNow(dep, PreparingOutcome(dep, slot, env).dep, env.now)
  {
    hide PrepareOutcome, Fail, StampedNow, HasClient;
    Unstamped(dep, dep, env.now);
    PrepareStamps(dep, slot, env);
    if env.config.ConfigPermanent? {
      FailStamps(dep, env.config.reason, env.statusPatch, env.now);
    }
  }

  lemma BindingStamps(key: Key, dep: Dep, deps: map<Key, Dep>, env: Env)
    ensures StampedNow(dep, BindingOutcome(key, dep, deps, env), env.now)
  {
    hide SetPhase, Fail, StampedNow, Candidates, Busy;
    Unstamped(dep, dep, env.now);
    FailStamps(dep, "NoDeviceMatched", env.statusPatch, env.now);
    FailStamps(dep, "AmbiguousBinding", env.statusPatch, env.now);
    FailStamps(dep, "DeviceBusy", env.statusPatch, env.now);
    if env.nodes.Some? && |Candidates(dep.spec, env.nodes.value)| == 1 {
      SetPhaseStamps(dep, Pulling, Candidates(dep.spec, env.nodes.value)[0].name, Blank, env);
    }
  }

  lemma DeployedStamps(dep: Dep, env: Env)
    ensures DeployedOutcome(dep, env).dep.stamp == dep.stamp
  {
    hide Fail, HasClient, WithReady, With, Availability, PortInRange;
    if env.node.Some? && env.config.ConfigPermanent? {
      var cs := WithReady(With(dep.status.conditions, Availability(env.node.value.vital, env.now)));
      FailStamps(dep.(status := dep.status.(conditions := cs)), env.config.reason, env.secondPatch, env.now);
    }
  }

  lemma WorkingStamps(dep: Dep, slot: Slot, env: Env)
    ensures StampedNow(dep, WritingOutcome(dep, env).dep, env.now)
    ensures StampedNow(dep, ActivatingOutcome(dep, slot, env).dep, env.now)
    ensures StampedNow(dep, ConfirmingOutcome(dep, env), env.now)
  {
    hide SetPhase, Fail, StampedNow, HasClient, Confirms, TimedOut;
    Unstamped(dep, dep, env.now);
    SetPhaseStamps(dep, Activating, dep.status.boundNode, Blank, env);
    SetPhaseStamps(dep, Confirming, dep.status.boundNode, Blank, env);
    SetPhaseStamps(dep, Deployed, dep.status.boundNode, Note("confirmed by heartbeat"), env);
    FailStamps(dep, "APIVersionUnsupported", env.statusPatch, env.now);
    FailStamps(dep, "DeviceRollback", env.statusPatch, env.now);
    FailStamps(dep, "ConfirmTimeout", env.statusPatch, env.now);
  }

  /** Only entering Confirming stamps, and it stamps the current second. */
  lemma StampIsNow(key: Key, dep: Dep, deps: map<Key, Dep>, slot: Slot, env: Env)
    ensures StampedNow(dep, ReconcileOutcome(key, dep, deps, slot, env).dep, env.now)
  {
    hide BindingOutcome, PreparingOutcome, WritingOutcome, ActivatingOutcome, ConfirmingOutcome, DeployedOutcome;
    hide PhaseConditions;
    match dep.status.phase {
      case NoPhase => BindingStamps(key, dep, deps, env);
      case Binding => BindingStamps(key, dep, deps, env);
      case Preparing => PreparingStamps(dep, slot, env);
      case Deployed => DeployedStamps(dep, env);
      case _ => WorkingStamps(dep, slot, env);
    }
  }

  /** `first` stamps the deployment, a run follows, and `last` fails the same object in Confirming by timeout. */
  predicate StampedThenTimedOut(w: World, key: Key, first: Env, steps: seq<Step>, last: Env)
    requires key in w.deps
  {
    var w1 := Reconciled(w, key, first);
    && w.deps[key].stamp.None? && w1.deps[key].stamp.Some?
    && Legal(w1, steps)
    && var w2 := Run(w1, steps);
       && SameObject(w1, w2, key) && w2.deps[key].status.phase == Confirming
       && var s := Reconciled(w2, key, last).deps[key].status;
          s.phase == Failed && s.message == Failure("ConfirmTimeout")
  }

  /**
   * Between the reconcile that took the stamp and a ConfirmTimeout failure, with any run in between (including any
   * number of failed and retried patches), more than two minutes less one second have passed.
   */
  lemma TimeoutIsNeverEarly(w: World, key: Key, first: Env, steps: seq<Step>, last: Env)
    requires Inv(w) && NamedNodes(first) && key in w.deps
    ensures StampedThenTimedOut(w, key, first, steps, last) ==> last.now - first.now > CONFIRM_TIMEOUT - SECOND
  {
    hide Inv, Legal, Enabled, ReconcileOutcome, Shape, Evolves;
    if StampedThenTimedOut(w, key, first, steps, last) {
      var w1 := Reconciled(w, key, first);
      var w2 := Run(w1, steps);
      InvShape(w, key);
      StepKeepsInvAt(w, key, first);
      var node := Key(key.ns, w.deps[key].status.boundNode);
      StampIsNow(key, w.deps[key], w.deps, SlotOf(w, node), first);
      RunKeepsInv(w1, steps);
      RunEvolves(w1, steps, key);
      StampSurvives(w1.deps[key], w2.deps[key]);
      InvShape(w2, key);
      var node2 := Key(key.ns, w2.deps[key].status.boundNode);
      LeavesConfirmingExactlyWhen(key, w2.deps[key], w2.deps, SlotOf(w2, node2), last);
    }
  }

  lemma StepKeepsInvAt(w: World, key: Key, env: Env)
    requires Inv(w) && NamedNodes(env)
    ensures Inv(Reconciled(w, key, env))
  {
    hide Inv, Reconciled;
    StepKeepsInv(w, Reconcile(key, env));
  }

  lemma StampSurvives(a: Dep, b: Dep)
    requires Evolves(a, b) && a.stamp.Some?
    ensures b.stamp == a.stamp
  {
  }
}
