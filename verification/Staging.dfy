/** What is on the device when a deployment activates: staged slots, completed writes and resumption after a crash. */
module Staging {
  import opened DeploymentStep
  import opened DeploymentSafety
  import opened DeploymentRuns

  predicate Sent(log: seq<Entry>, node: Key, uid: string, complete: bool) {
    Entry(node, uid, Write(complete)) in log
  }

  /** A device only reports slots that deployments staged on it, under the ID of the deployment. */
  predicate SlotsAreStaged(w: World) {
    forall n | n in w.slots ::
      && (w.slots[n].WrittenSlot? ==> Sent(w.log, n, w.slots[n].id, true) || Sent(w.log, n, w.slots[n].id, false))
      && (w.slots[n].ActivatingSlot? ==> Entry(n, w.slots[n].id, Activate) in w.log)
  }

  /** Up to Preparing a deployment has staged nothing. */
  predicate NothingStaged(w: World) {
    forall k, e |
        k in w.deps && Rank(w.deps[k].status.phase) <= Rank(Preparing) && e in w.log && e.uid == w.deps[k].uid ::
      !e.cmd.Write? && !e.cmd.Activate?
  }

  /** In Writing it has activated nothing. */
  predicate NothingActivated(w: World) {
    forall k, e | k in w.deps && w.deps[k].status.phase == Writing && e in w.log && e.uid == w.deps[k].uid ::
      !e.cmd.Activate?
  }

  /** From Activating on it has completed a write on its node. */
  predicate WriteCompleted(w: World) {
    forall k | k in w.deps && w.deps[k].status.phase in {Activating, Confirming, Deployed} ::
      Sent(w.log, Key(k.ns, w.deps[k].status.boundNode), w.deps[k].uid, true)
  }

  /** Every activation comes after a completed write of the same deployment to the same node. */
  predicate WriteBeforeActivate(log: seq<Entry>) {
    forall j | 0 <= j < |log| && log[j].cmd.Activate? :: Sent(log[..j], log[j].node, log[j].uid, true)
  }

  predicate StagingInv(w: World) {
    SlotsAreStaged(w) && NothingStaged(w) && NothingActivated(w) && WriteCompleted(w) && WriteBeforeActivate(w.log)
  }

  lemma {:induction false} StagedBy(slot: Slot, cmds: seq<Command>, s: Status)
    ensures var r := Staged(slot, cmds, s);
            || r == slot || r == NoSlot
            || (r == WrittenSlot(s.digest, s.deploymentId) && (Write(true) in cmds || Write(false) in cmds))
            || (r == ActivatingSlot(s.deploymentId) && Activate in cmds)
    decreases cmds
  {
    if cmds != [] && !cmds[|cmds| - 1].Prepare? && !cmds[|cmds| - 1].Write? && !cmds[|cmds| - 1].Activate? {
      StagedBy(slot, cmds[..|cmds| - 1], s);
    } else if cmds != [] && cmds[|cmds| - 1].Write? {
      assert cmds[|cmds| - 1] == Write(true) || cmds[|cmds| - 1] == Write(false);
    }
  }

  /** Membership in the log after a reconcile. */
  lemma LogAfter(w: World, w': World, key: Key, node: Key, out: Outcome, slot: Slot)
    requires Transition(w, w', key, node, out, slot)
    ensures forall e: Entry ::
              e in w'.log <==> e in w.log || (e.node == node && e.uid == w.deps[key].uid && e.cmd in out.cmds)
  {
    hide Moves;
    var n := |w.log|;
    assert w'.log == w.log + w'.log[n..];
    forall e: Entry | e.node == node && e.uid == w.deps[key].uid && e.cmd in out.cmds
      ensures e in w'.log
    {
      var i :| 0 <= i < |out.cmds| && out.cmds[i] == e.cmd;
      assert w'.log[n + i] == e;
    }
  }

  /** A deployment in Preparing has staged nothing yet, so no slot carries its ID: the resume branches never fire. */
  lemma PreparingSeesNoOwnSlot(w: World, key: Key)
    requires Inv(w) && StagingInv(w) && key in w.deps && w.deps[key].status.phase == Preparing
    ensures var node := Key(key.ns, w.deps[key].status.boundNode);
            SlotOf(w, node) == NoSlot || SlotOf(w, node).id != w.deps[key].uid
  {
    hide Exclusive, Attributed, LastWord, Blocks, WriteBeforeActivate;
  }

  lemma TransitionStagesNothing(w: World, w': World, key: Key, node: Key, out: Outcome, slot: Slot)
    requires WellNamed(w) && NothingStaged(w) && Transition(w, w', key, node, out, slot)
    ensures NothingStaged(w')
  {
    hide Shape, Busy;
    LogAfter(w, w', key, node, out, slot);
  }

  lemma TransitionActivatesNothing(w: World, w': World, key: Key, node: Key, out: Outcome, slot: Slot)
    requires WellNamed(w) && NothingStaged(w) && NothingActivated(w) && Transition(w, w', key, node, out, slot)
    ensures NothingActivated(w')
  {
    hide Shape, Busy;
    LogAfter(w, w', key, node, out, slot);
  }

  lemma TransitionCompletesWrite(w: World, w': World, key: Key, node: Key, out: Outcome, slot: Slot)
    requires Inv(w) && StagingInv(w) && Transition(w, w', key, node, out, slot)
    ensures WriteCompleted(w')
  {
    if w.deps[key].status.phase == Preparing {
      PreparingSeesNoOwnSlot(w, key);
    }
    hide Exclusive, Attributed, LastWord, Blocks, Busy;
    hide WriteBeforeActivate, SlotsAreStaged, NothingStaged, NothingActivated;
    LogAfter(w, w', key, node, out, slot);
    forall k | k in w'.deps && w'.deps[k].status.phase in {Activating, Confirming, Deployed}
      ensures Sent(w'.log, Key(k.ns, w'.deps[k].status.boundNode), w'.deps[k].uid, true)
    {
      if k != key {
        assert w'.deps[k] == w.deps[k];
      } else if w.deps[k].status.phase in {Activating, Confirming, Deployed} {
        assert Sent(w.log, node, w.deps[k].uid, true);
      } else {
        assert Write(true) in out.cmds;
      }
    }
  }

  lemma TransitionKeepsSlots(w: World, w': World, key: Key, node: Key, out: Outcome, slot: Slot, change: SlotChange)
    requires Inv(w) && StagingInv(w) && Transition(w, w', key, node, out, slot)
    requires w'.slots == w.slots[node := SlotAfter(slot, out.cmds, w.deps[key].status, change)]
    ensures SlotsAreStaged(w')
  {
    hide Exclusive, Attributed, LastWord, Blocks, Busy, Staged, Evolves;
    hide WriteBeforeActivate, NothingStaged, NothingActivated, WriteCompleted;
    LogAfter(w, w', key, node, out, slot);
    StagedBy(slot, out.cmds, w.deps[key].status);
  }

  lemma TransitionKeepsOrder(w: World, w': World, key: Key, node: Key, out: Outcome, slot: Slot)
    requires Inv(w) && StagingInv(w) && Transition(w, w', key, node, out, slot)
    ensures WriteBeforeActivate(w'.log)
  {
    hide Exclusive, Attributed, LastWord, Blocks, SlotsAreStaged, Busy, Evolves, Shape;
    var n := |w.log|;
    forall j | 0 <= j < |w'.log| && w'.log[j].cmd.Activate?
      ensures Sent(w'.log[..j], w'.log[j].node, w'.log[j].uid, true)
    {
      if j < n {
        assert w'.log[j] == w'.log[..n][j] == w.log[j];
        assert w'.log[..j] == w'.log[..n][..j] == w.log[..j];
      } else {
        assert out.cmds[j - n] in out.cmds;
        assert Sent(w.log, node, w.deps[key].uid, true);
        assert w'.log[..j] == w.log + w'.log[n..j];
      }
    }
  }

  lemma CreateKeepsStaging(w: World, key: Key, d: Dep)
    requires Inv(w) && StagingInv(w) && Enabled(w, Create(key, d))
    ensures StagingInv(Next(w, Create(key, d)))
  {
    hide Exclusive, LastWord, Blocks, WellNamed, SlotsAreStaged, WriteBeforeActivate;
    var w' := Next(w, Create(key, d));
    assert SlotsAreStaged(w') by {
      SameSlots(w, w');
    }
  }

  lemma SameSlots(w: World, w': World)
    requires SlotsAreStaged(w) && w'.slots == w.slots && w'.log == w.log
    ensures SlotsAreStaged(w')
  {
  }

  lemma RespecKeepsStaging(w: World, key: Key, spec: Spec)
    requires StagingInv(w) && key in w.deps
    ensures StagingInv(Next(w, Respec(key, spec)))
  {
    hide SlotsAreStaged, WriteBeforeActivate;
    var w' := Next(w, Respec(key, spec));
    SameSlots(w, w');
    assert forall k | k in w.deps :: w'.deps[k].uid == w.deps[k].uid && w'.deps[k].status == w.deps[k].status;
  }

  lemma DeleteKeepsStaging(w: World, key: Key)
    requires StagingInv(w)
    ensures StagingInv(Next(w, Delete(key)))
  {
    hide SlotsAreStaged, WriteBeforeActivate;
    SameSlots(w, Next(w, Delete(key)));
  }

  lemma SlotLostKeepsStaging(w: World, node: Key)
    requires StagingInv(w)
    ensures StagingInv(Next(w, SlotLost(node)))
  {
    hide WriteBeforeActivate;
  }

  lemma ReconcileKeepsStaging(w: World, key: Key, env: Env)
    requires Inv(w) && StagingInv(w) && NamedNodes(env)
    ensures StagingInv(Reconciled(w, key, env))
  {
    hide Reconciled, SlotsAreStaged, NothingStaged, NothingActivated, WriteCompleted, WriteBeforeActivate;
    hide Exclusive, Attributed, LastWord, Blocks, Shape, Transition, WellNamed;
    if key in w.deps {
      var node, out, slot := ReconcileTransition(w, key, env);
      var w' := Reconciled(w, key, env);
      TransitionStagesNothing(w, w', key, node, out, slot);
      TransitionActivatesNothing(w, w', key, node, out, slot);
      TransitionCompletesWrite(w, w', key, node, out, slot);
      TransitionKeepsSlots(w, w', key, node, out, slot, env.slot);
      TransitionKeepsOrder(w, w', key, node, out, slot);
    } else {
      AbsentIsNoop(w, key, env);
    }
  }

  lemma StepKeepsStaging(w: World, s: Step)
    requires Inv(w) && StagingInv(w) && Enabled(w, s)
    ensures StagingInv(Next(w, s))
  {
    hide Inv, StagingInv, Reconciled;
    match s {
      case Reconcile(key, env) => ReconcileKeepsStaging(w, key, env);
      case Create(key, d) => CreateKeepsStaging(w, key, d);
      case Respec(key, spec) => RespecKeepsStaging(w, key, spec);
      case Delete(key) => DeleteKeepsStaging(w, key);
      case SlotLost(node) => SlotLostKeepsStaging(w, node);
    }
  }

  /**
   * Over every run: each Activate follows a completed Write of the same deployment on the same node, also across
   * crashes at any point between prepare and the Confirming patch.
   */
  lemma {:induction false} RunKeepsStaging(w: World, steps: seq<Step>)
    requires Inv(w) && StagingInv(w) && Legal(w, steps)
    ensures StagingInv(Run(w, steps))
    decreases steps
  {
    hide Inv, Enabled, Next, StagingInv;
    if steps != [] {
      RunKeepsStaging(w, steps[..|steps| - 1]);
      RunKeepsInv(w, steps[..|steps| - 1]);
      StepKeepsStaging(Run(w, steps[..|steps| - 1]), steps[|steps| - 1]);
    }
  }

  lemma ReachableIsStaged(steps: seq<Step>)
    requires Legal(START, steps)
    ensures StagingInv(Run(START, steps))
  {
    assert Inv(START) && StagingInv(START);
    hide Inv, StagingInv, Legal, Run;
    RunKeepsStaging(START, steps);
  }

  /**
   * Crash-safe resume. A reconcile of an Activating deployment sends an activation exactly when the device answers and
   * reports neither staged=activating for this deployment nor pending_verify; when the device has already activated
   * and the patches land, the deployment reaches Confirming, stamped, without a command.
   */
  lemma ResumesWithoutSecondActivate(key: Key, dep: Dep, deps: map<Key, Dep>, slot: Slot, env: Env)
    requires Shape(dep) && dep.status.phase == Activating
    ensures var out := ReconcileOutcome(key, dep, deps, slot, env);
            var answers := HasClient(env) && env.info.Info? && env.info.apiSupported;
            && (Activate in out.cmds <==>
                  answers && slot != ActivatingSlot(dep.uid) && env.info.state != "pending_verify")
            && (answers && (slot == ActivatingSlot(dep.uid) || env.info.state == "pending_verify")
                && env.metaPatch && env.statusPatch ==>
                  out.cmds == [] && out.dep.status.phase == Confirming && out.dep.stamp.Some?
                  && (dep.stamp.Some? ==> out.dep.stamp == dep.stamp))
  {
    hide PhaseConditions, FailedConditions;
  }
}
