/** Runs from the empty cluster on which the two activation properties fail, so neither condition can be dropped. */
module ActivationGaps {
  import opened Wrappers
  import opened NodeTypes
  import opened DeploymentStep
  import opened DeploymentSafety
  import opened DeploymentRuns
  import opened Staging
  import opened DeploymentConditions
  import opened DeploymentProgress
  import opened Activation

  const KEY := Key("default", "blink")
  const DEP := Dep("uid-1", Spec("node", map[], "", 0), None, Status(NoPhase, "", "", Blank, "", 0, []))
  const VITAL := Vital("10.0.0.7", "running", "", "", true, 0, 0, 0, 0, 0.0, 0, false, None, [])
  const NODE := NodeStatus(VITAL, "esp32", "", 0, 0, 0, "", "", "")
  const CALM := Env(
    0, true, true, true, Some([NodeInfo("node", map[])]), true, Some(("sha256:1", 1)), Some(NODE), true,
    ConfigOk(false, false), Info("running", true), Accepted, true, true, true, true, true, true, Follow)

  lemma RunExtends(steps: seq<Step>, s: Step)
    requires Legal(START, steps) && Enabled(Run(START, steps), s)
    ensures Legal(START, steps + [s]) && Run(START, steps + [s]) == Next(Run(START, steps), s)
  {
    hide Enabled, Next;
    assert (steps + [s])[..|steps|] == steps;
  }

  lemma BindsInOneStep(w: World)
    requires w == Next(START, Create(KEY, DEP))
    ensures KEY in Next(w, Reconcile(KEY, CALM)).deps && Next(w, Reconcile(KEY, CALM)).deps[KEY].status.phase == Pulling
    ensures Next(w, Reconcile(KEY, CALM)).log == []
  {
    hide PhaseConditions, FailedConditions;
    assert Candidates(DEP.spec, CALM.nodes.value) == [NodeInfo("node", map[])] + Candidates(DEP.spec, []);
    assert !Busy(w.deps, KEY, "node");
  }

  lemma ReachesPulling() returns (steps: seq<Step>)
    ensures Legal(START, steps)
    ensures var w := Run(START, steps);
            && Inv(w) && StagingInv(w) && AllAgree(w) && w.log == []
            && KEY in w.deps && w.deps[KEY].status.phase == Pulling
  {
    hide Inv, StagingInv, AllAgree, Reconciled;
    var w := Next(START, Create(KEY, DEP));
    RunExtends([], Create(KEY, DEP));
    BindsInOneStep(w);
    assert [Create(KEY, DEP)] == [] + [Create(KEY, DEP)];
    RunExtends([Create(KEY, DEP)], Reconcile(KEY, CALM));
    steps := [Create(KEY, DEP)] + [Reconcile(KEY, CALM)];
    ReachableIsSafe(steps);
    ReachableIsStaged(steps);
    ReachableAgrees(steps);
  }

  lemma CalmIsUndisturbed()
    ensures NamedNodes(CALM) && Undisturbed(CALM) && CALM.slot == Follow
  {
  }

  lemma OneCalmStep(steps: seq<Step>) returns (more: seq<Step>)
    requires Legal(START, steps)
    requires var w := Run(START, steps);
             && Inv(w) && StagingInv(w) && AllAgree(w)
             && KEY in w.deps && Rank(Pulling) <= Rank(w.deps[KEY].status.phase) <= Rank(Writing)
    ensures Legal(START, more)
    ensures var w, w' := Run(START, steps), Run(START, more);
            && Inv(w') && StagingInv(w') && AllAgree(w')
            && SameObject(w, w', KEY) && w'.deps[KEY].status.phase == Successor(w.deps[KEY].status.phase)
            && w'.log == w.log + Entries(NodeOf(w, KEY), w.deps[KEY].uid, CommandsOf(w.deps[KEY].status.phase))
  {
    hide Inv, StagingInv, AllAgree, Next, Run, Legal, Undisturbed, NamedNodes;
    CalmIsUndisturbed();
    var r := Reconcile(KEY, CALM);
    assert Enabled(Run(START, steps), r);
    RunExtends(steps, r);
    more := steps + [r];
    var w' := WorldStep(Run(START, steps), KEY, CALM);
  }

  /** A run that writes, and has not activated yet. */
  lemma ReachesActivating() returns (steps: seq<Step>)
    ensures Legal(START, steps)
    ensures var w := Run(START, steps);
            && Inv(w) && StagingInv(w)
            && KEY in w.deps && w.deps[KEY].status.phase == Activating && !HasActivated(w, KEY)
            && forall e | e in w.log :: !e.cmd.Activate?
  {
    hide Inv, StagingInv, AllAgree, Run, Legal;
    steps := ReachesPulling();
    steps := OneCalmStep(steps);
    steps := OneCalmStep(steps);
    steps := OneCalmStep(steps);
  }

  /** A first rollout on a device that still verifies another image reaches Confirming without any activation. */
  lemma SkippingIsReachable() returns (steps: seq<Step>)
    ensures Legal(START, steps) && !AllActivated(Run(START, steps))
  {
    var before := ReachesActivating();
    var s := Reconcile(KEY, CALM.(info := Info("pending_verify", true)));
    RunExtends(before, s);
    steps := before + [s];
    hide Inv, StagingInv, Run, Legal, Next;
    if AllActivated(Run(START, before)) {
      StepActivatesExactlyWhen(Run(START, before), s);
    } else {
      steps := before;
    }
  }

  /** The reply to an activation is lost, and so is the staged slot. */
  const LOSSY := CALM.(activate := false, slot := Drop)

  lemma ActivationIsForgotten(w: World)
    requires Inv(w) && StagingInv(w) && KEY in w.deps && w.deps[KEY].status.phase == Activating && !HasActivated(w, KEY)
    ensures var w' := Reconciled(w, KEY, LOSSY);
            && KEY in w'.deps && w'.deps[KEY].status.phase == Activating
            && HasActivated(w', KEY) && SlotOf(w', NodeOf(w', KEY)) == NoSlot
  {
    hide Inv, StagingInv, Reconciled, ReconcileOutcome, Licensed, Shape, Entries;
    var node, out, slot := Moved(w, KEY, LOSSY);
    if slot == ActivatingSlot(w.deps[KEY].uid) {
      OwnSlotIsActivated(w, KEY);
    }
    ActivatingExactly(KEY, w.deps[KEY], w.deps, slot, LOSSY);
    assert Activate in out.cmds;
    assert out.dep.status.phase != Failed by {
      AnsweringNeverFails(KEY, w.deps[KEY], w.deps, slot);
    }
  }

  lemma AnsweringNeverFails(key: Key, dep: Dep, deps: map<Key, Dep>, slot: Slot)
    requires dep.status.phase == Activating
    ensures ReconcileOutcome(key, dep, deps, slot, LOSSY).dep.status.phase != Failed
  {
    hide PhaseConditions;
  }

  lemma LastRepeats(w: World, steps: seq<Step>, s: Step)
    requires Repeats(Run(w, steps), s)
    ensures !NeverRepeats(w, steps + [s])
  {
    hide Run, Repeats;
    assert (steps + [s])[..|steps|] == steps;
  }

  /** A device that loses its staged slot after the activation is activated twice. */
  lemma RepeatingIsReachable() returns (steps: seq<Step>)
    ensures Legal(START, steps) && !AtMostOnce(Run(START, steps).log)
  {
    hide Inv, StagingInv, Run, Legal, Next, NeverRepeats, AtMostOnce, HasActivated;
    CalmIsUndisturbed();
    StartIsClean();
    var before := ReachesActivating();
    var first, second := Reconcile(KEY, LOSSY), Reconcile(KEY, CALM);
    RunExtends(before, first);
    ActivationIsForgotten(Run(START, before));
    NextIsReconciled(Run(START, before), KEY, LOSSY);
    var mid := before + [first];
    RunExtends(mid, second);
    steps := mid + [second];
    LastRepeats(START, mid, second);
    RunActivatesOnceExactlyWhen(START, steps);
  }
}
