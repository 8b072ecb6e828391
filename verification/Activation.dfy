/** Who activates what, and how often: each deployment its own firmware, once, with the exact conditions for both. */
module Activation {
  import opened DeploymentStep
  import opened DeploymentSafety
  import opened DeploymentRuns
  import opened Staging

  /** The device can be asked and answers with a supported version. */
  predicate Answers(env: Env) {
    HasClient(env) && env.info.Info? && env.info.apiSupported
  }

  function NodeOf(w: World, key: Key): Key
    requires key in w.deps
  {
    Key(key.ns, w.deps[key].status.boundNode)
  }

  /** The deployment at `key` has sent an activation to the node it is bound to. */
  predicate HasActivated(w: World, key: Key)
    requires key in w.deps
  {
    Entry(NodeOf(w, key), w.deps[key].uid, Activate) in w.log
  }

  /** What the proofs below use of one reconcile. */
  lemma Moved(w: World, key: Key, env: Env) returns (node: Key, out: Outcome, slot: Slot)
    requires Inv(w) && NamedNodes(env) && key in w.deps
    ensures node == NodeOf(w, key) && slot == SlotOf(w, node) && Shape(w.deps[key])
    ensures out == ReconcileOutcome(key, w.deps[key], w.deps, slot, env)
    ensures Licensed(key, w.deps[key], w.deps, slot, out)
    ensures out.dep.uid == w.deps[key].uid
    ensures out.dep.status.boundNode == w.deps[key].status.boundNode || w.deps[key].status.phase == NoPhase
    ensures var w' := Reconciled(w, key, env);
            && w'.deps == w.deps[key := out.dep]
            && w'.slots == w.slots[node := SlotAfter(slot, out.cmds, w.deps[key].status, env.slot)]
            && w'.log == w.log + Entries(node, w.deps[key].uid, out.cmds)
            && forall e: Entry ::
                 e in w'.log <==> e in w.log || (e.node == node && e.uid == w.deps[key].uid && e.cmd in out.cmds)
  {
    hide ReconcileOutcome, SlotAfter, Exclusive, Attributed, LastWord, Blocks, Moves, Shape, Licensed;
    node, out, slot := ReconcileTransition(w, key, env);
    LogAfter(w, Reconciled(w, key, env), key, node, out, slot);
    MovesAre(key, w.deps[key], w.deps, slot, env);
  }

  lemma MovesAre(key: Key, dep: Dep, deps: map<Key, Dep>, slot: Slot, env: Env)
    requires Shape(dep) && NamedNodes(env)
    ensures var out := ReconcileOutcome(key, dep, deps, slot, env);
            && Licensed(key, dep, deps, slot, out) && out.dep.uid == dep.uid
            && (out.dep.status.boundNode == dep.status.boundNode || dep.status.phase == NoPhase)
  {
    hide ReconcileOutcome, Shape, Busy;
    ReconcileMoves(key, dep, deps, slot, env);
  }

  /** One reconcile in Activating: the one command it may send, and when it moves on. */
  lemma ActivatingExactly(key: Key, dep: Dep, deps: map<Key, Dep>, slot: Slot, env: Env)
    requires Shape(dep) && dep.status.phase == Activating
    ensures var out := ReconcileOutcome(key, dep, deps, slot, env);
            var already := slot == ActivatingSlot(dep.uid) || (Answers(env) && env.info.state == "pending_verify");
            && out.cmds == (if Answers(env) && !already then [Activate] else [])
            && (out.dep.status.phase == Confirming <==>
                  && Answers(env) && (already || env.activate)
                  && env.statusPatch && (dep.stamp.Some? || env.metaPatch))
            && out.dep.status.phase in {Activating, Confirming, Failed}
  {
    hide PhaseConditions, FailedConditions;
  }

  // ---------------------------------------------------------------- confirming means activated

  /** Every deployment in Confirming or Deployed has sent its own activation. */
  predicate AllActivated(w: World) {
    forall k | k in w.deps && w.deps[k].status.phase in {Confirming, Deployed} :: HasActivated(w, k)
  }

  /**
   * The device reports pending_verify to a deployment that has never activated it, and the patches land. The code does
   * not ask which image is pending.
   */
  predicate Skips(w: World, s: Step) {
    && s.Reconcile? && s.key in w.deps
    && w.deps[s.key].status.phase == Activating && !HasActivated(w, s.key)
    && Answers(s.env) && s.env.info.state == "pending_verify"
    && s.env.statusPatch && (w.deps[s.key].stamp.Some? || s.env.metaPatch)
  }

  lemma UserStepActivates(w: World, w': World)
    requires AllActivated(w) && UserStep(w, w') && forall k | k in w'.deps :: Shape(w'.deps[k])
    ensures AllActivated(w')
  {
    forall k | k in w'.deps && w'.deps[k].status.phase in {Confirming, Deployed}
      ensures HasActivated(w', k)
    {
      assert k in w.deps && w'.deps[k].uid == w.deps[k].uid && w'.deps[k].status == w.deps[k].status;
      assert HasActivated(w, k);
    }
  }

  lemma OthersStayActivated(w: World, key: Key, env: Env)
    requires Inv(w) && AllActivated(w) && NamedNodes(env) && key in w.deps
    ensures var w' := Reconciled(w, key, env);
            key in w'.deps
            && (AllActivated(w') <==> w'.deps[key].status.phase in {Confirming, Deployed} ==> HasActivated(w', key))
  {
    hide Inv, Reconciled, ReconcileOutcome, Licensed, Shape, SlotAfter, Entries;
    var node, out, slot := Moved(w, key, env);
    var w' := Reconciled(w, key, env);
    forall k | k in w'.deps && k != key && w'.deps[k].status.phase in {Confirming, Deployed}
      ensures HasActivated(w', k)
    {
      assert k in w.deps && w'.deps[k] == w.deps[k] && HasActivated(w, k);
    }
  }

  lemma ActivatingActivates(w: World, key: Key, env: Env)
    requires Inv(w) && StagingInv(w) && NamedNodes(env) && key in w.deps && w.deps[key].status.phase == Activating
    ensures var w' := Reconciled(w, key, env);
            key in w'.deps
            && (w'.deps[key].status.phase in {Confirming, Deployed} && !HasActivated(w', key)
                <==> Skips(w, Reconcile(key, env)))
  {
    hide Inv, StagingInv, Reconciled, ReconcileOutcome, Licensed, Shape, SlotAfter, Answers, Entries;
    var node, out, slot := Moved(w, key, env);
    ActivatingExactly(key, w.deps[key], w.deps, slot, env);
    if slot == ActivatingSlot(w.deps[key].uid) {
      OwnSlotIsActivated(w, key);
    }
  }

  lemma OtherPhasesActivate(w: World, key: Key, env: Env)
    requires Inv(w) && StagingInv(w) && AllActivated(w) && NamedNodes(env) && key in w.deps
    requires w.deps[key].status.phase != Activating
    ensures var w' := Reconciled(w, key, env);
            key in w'.deps && (w'.deps[key].status.phase in {Confirming, Deployed} ==> HasActivated(w', key))
  {
    hide Inv, StagingInv, Reconciled, ReconcileOutcome, Shape, SlotAfter, Busy, Entries;
    var node, out, slot := Moved(w, key, env);
    var p, q := w.deps[key].status.phase, out.dep.status.phase;
    if q in {Confirming, Deployed} {
      if p == Preparing {
        PreparingSeesNoOwnSlot(w, key);
      }
      assert p in {Confirming, Deployed} && HasActivated(w, key);
    }
  }

  /** Entering Confirming without ever having activated is skipping. */
  lemma ReconcileActivatesExactlyWhen(w: World, key: Key, env: Env)
    requires Inv(w) && StagingInv(w) && AllActivated(w) && NamedNodes(env) && key in w.deps
    ensures AllActivated(Reconciled(w, key, env)) <==> !Skips(w, Reconcile(key, env))
  {
    hide Inv, StagingInv, AllActivated, Reconciled, HasActivated, Answers;
    OthersStayActivated(w, key, env);
    if w.deps[key].status.phase == Activating {
      ActivatingActivates(w, key, env);
    } else {
      OtherPhasesActivate(w, key, env);
    }
  }

  lemma OwnSlotIsActivated(w: World, key: Key)
    requires StagingInv(w) && key in w.deps && SlotOf(w, NodeOf(w, key)) == ActivatingSlot(w.deps[key].uid)
    ensures HasActivated(w, key)
  {
    hide NothingStaged, NothingActivated, WriteCompleted, WriteBeforeActivate;
  }

  lemma StepActivatesExactlyWhen(w: World, s: Step)
    requires Inv(w) && StagingInv(w) && AllActivated(w) && Enabled(w, s)
    ensures AllActivated(Next(w, s)) <==> !Skips(w, s)
  {
    hide StagingInv, AllActivated, Reconciled, HasActivated, Answers;
    match s {
      case Reconcile(key, env) =>
        hide Inv;
        if key in w.deps {
          ReconcileActivatesExactlyWhen(w, key, env);
        } else {
          AbsentIsNoop(w, key, env);
        }
      case _ =>
        hide Exclusive, Attributed, LastWord, Blocks, Shape;
        UserStepOf(w, s);
        UserStepActivates(w, Next(w, s));
    }
  }

  lemma UserStepOf(w: World, s: Step)
    requires WellNamed(w) && Enabled(w, s) && !s.Reconcile?
    ensures WellNamed(Next(w, s)) && UserStep(w, Next(w, s))
  {
    hide WellNamed, UserStep;
    match s {
      case Create(key, d) => CreateKeepsNames(w, key, d);
      case Respec(key, spec) => RespecKeepsNames(w, key, spec);
      case Delete(key) => DeleteKeepsNames(w, key);
      case SlotLost(node) => SlotLostKeepsNames(w, node);
    }
  }

  predicate NeverSkips(w: World, steps: seq<Step>) {
    steps == [] ||
    (NeverSkips(w, steps[..|steps| - 1]) && !Skips(Run(w, steps[..|steps| - 1]), steps[|steps| - 1]))
  }

  /** The property holds in every state of the run. */
  predicate AlwaysActivated(w: World, steps: seq<Step>) {
    AllActivated(Run(w, steps)) && (steps == [] || AlwaysActivated(w, steps[..|steps| - 1]))
  }

  /**
   * Over every run: each deployment in Confirming or Deployed has sent its own activation, in every state, exactly when
   * no reconcile takes somebody else's pending_verify for its own.
   */
  lemma {:induction false} RunActivatesExactlyWhen(w: World, steps: seq<Step>)
    requires Inv(w) && StagingInv(w) && AllActivated(w) && Legal(w, steps)
    ensures AlwaysActivated(w, steps) <==> NeverSkips(w, steps)
    decreases steps
  {
    hide Inv, StagingInv, AllActivated, Enabled, Next, Skips;
    if steps != [] {
      var mid := Run(w, steps[..|steps| - 1]);
      RunActivatesExactlyWhen(w, steps[..|steps| - 1]);
      RunKeepsInv(w, steps[..|steps| - 1]);
      RunKeepsStaging(w, steps[..|steps| - 1]);
      if AlwaysActivated(w, steps[..|steps| - 1]) {
        AlwaysEndsActivated(w, steps[..|steps| - 1]);
        StepActivatesExactlyWhen(mid, steps[|steps| - 1]);
      }
    }
  }

  lemma AlwaysEndsActivated(w: World, steps: seq<Step>)
    requires AlwaysActivated(w, steps)
    ensures AllActivated(Run(w, steps))
  {
  }

  // ---------------------------------------------------------------- activating once

  /** No deployment activates twice. */
  predicate AtMostOnce(log: seq<Entry>) {
    forall i, j | 0 <= i < j < |log| :: log[i].cmd.Activate? && log[j].cmd.Activate? ==> log[i].uid != log[j].uid
  }

  /** A device the deployment has activated answers, but reports neither its own staged slot nor pending_verify. */
  predicate Repeats(w: World, s: Step) {
    && s.Reconcile? && s.key in w.deps
    && w.deps[s.key].status.phase == Activating && HasActivated(w, s.key)
    && Answers(s.env) && s.env.info.state != "pending_verify"
    && SlotOf(w, NodeOf(w, s.key)) != ActivatingSlot(w.deps[s.key].uid)
  }

  /** Who has activated can be read off the log by UID alone. */
  lemma ActivationsAreOwn(w: World, key: Key, i: int)
    requires Inv(w) && key in w.deps && 0 <= i < |w.log|
    requires w.log[i].uid == w.deps[key].uid && w.log[i].cmd == Activate
    ensures HasActivated(w, key)
  {
    hide WellNamed, Exclusive, LastWord, Blocks;
    assert w.log[i] == Entry(NodeOf(w, key), w.deps[key].uid, Activate);
  }

  /** Appending activations of one deployment, or none. */
  lemma AppendOnce(log: seq<Entry>, more: seq<Entry>)
    requires AtMostOnce(log) && |more| <= 1
    requires forall e, f | e in log && f in more :: e.cmd.Activate? && f.cmd.Activate? ==> e.uid != f.uid
    ensures AtMostOnce(log + more)
  {
  }

  lemma AppendInert(log: seq<Entry>, more: seq<Entry>)
    requires AtMostOnce(log) && forall e | e in more :: !e.cmd.Activate?
    ensures AtMostOnce(log + more)
  {
    assert forall j | |log| <= j < |log + more| :: (log + more)[j] in more;
  }

  lemma AppendTwice(log: seq<Entry>, e: Entry)
    requires e.cmd.Activate? && e in log
    ensures !AtMostOnce(log + [e])
  {
    var i :| 0 <= i < |log| && log[i] == e;
    assert (log + [e])[i] == e == (log + [e])[|log|];
  }

  lemma ReconcileActivatesOnceExactlyWhen(w: World, key: Key, env: Env)
    requires Inv(w) && AtMostOnce(w.log) && NamedNodes(env) && key in w.deps
    ensures AtMostOnce(Reconciled(w, key, env).log) <==> !Repeats(w, Reconcile(key, env))
  {
    hide Inv, Reconciled, ReconcileOutcome, Shape, Answers, AtMostOnce, SlotAfter;
    var node, out, slot := Moved(w, key, env);
    var uid := w.deps[key].uid;
    var more := Entries(node, uid, out.cmds);
    EntriesAre(node, uid, out.cmds);
    if w.deps[key].status.phase != Activating {
      assert forall e | e in more :: e.cmd in out.cmds;
      AppendInert(w.log, more);
    } else {
      ActivatingExactly(key, w.deps[key], w.deps, slot, env);
      if Repeats(w, Reconcile(key, env)) {
        assert more == [Entry(node, uid, Activate)];
        AppendTwice(w.log, Entry(node, uid, Activate));
      } else {
        if out.cmds != [] {
          NotYetActivated(w, key);
        }
        AppendOnce(w.log, more);
      }
    }
  }

  lemma NotYetActivated(w: World, key: Key)
    requires Inv(w) && key in w.deps && !HasActivated(w, key)
    ensures forall e | e in w.log && e.cmd.Activate? :: e.uid != w.deps[key].uid
  {
    hide Inv, HasActivated;
    forall i | 0 <= i < |w.log| && w.log[i].cmd.Activate?
      ensures w.log[i].uid != w.deps[key].uid
    {
      if w.log[i].uid == w.deps[key].uid {
        ActivationsAreOwn(w, key, i);
      }
    }
  }

  lemma StepActivatesOnceExactlyWhen(w: World, s: Step)
    requires Inv(w) && AtMostOnce(w.log) && Enabled(w, s)
    ensures AtMostOnce(Next(w, s).log) <==> !Repeats(w, s)
    ensures w.log <= Next(w, s).log
  {
    hide Inv, Reconciled, AtMostOnce, HasActivated, Answers;
    if s.Reconcile? {
      if s.key in w.deps {
        ReconcileActivatesOnceExactlyWhen(w, s.key, s.env);
      } else {
        AbsentIsNoop(w, s.key, s.env);
      }
    }
    LogGrows(w, s);
  }

  lemma LogGrows(w: World, s: Step)
    ensures w.log <= Next(w, s).log
  {
    hide ReconcileOutcome, Entries, SlotAfter;
  }

  lemma PrefixActivatesOnce(a: seq<Entry>, b: seq<Entry>)
    requires a <= b && AtMostOnce(b)
    ensures AtMostOnce(a)
  {
  }

  predicate NeverRepeats(w: World, steps: seq<Step>) {
    steps == [] ||
    (NeverRepeats(w, steps[..|steps| - 1]) && !Repeats(Run(w, steps[..|steps| - 1]), steps[|steps| - 1]))
  }

  /**
   * Over every run, with crashes and failed patches anywhere: no deployment activates twice, exactly when no device
   * that it has activated answers as if it had not.
   */
  lemma {:induction false} RunActivatesOnceExactlyWhen(w: World, steps: seq<Step>)
    requires Inv(w) && AtMostOnce(w.log) && Legal(w, steps)
    ensures AtMostOnce(Run(w, steps).log) <==> NeverRepeats(w, steps)
    decreases steps
  {
    hide Inv, AtMostOnce, Enabled, Next, Repeats;
    if steps != [] {
      var mid, last := Run(w, steps[..|steps| - 1]), steps[|steps| - 1];
      RunActivatesOnceExactlyWhen(w, steps[..|steps| - 1]);
      RunKeepsInv(w, steps[..|steps| - 1]);
      LogGrows(mid, last);
      if AtMostOnce(mid.log) {
        StepActivatesOnceExactlyWhen(mid, last);
      } else if AtMostOnce(Run(w, steps).log) {
        PrefixActivatesOnce(mid.log, Run(w, steps).log);
      }
    }
  }

  // ---------------------------------------------------------------- devices that remember

  /** A deployment that has activated and is still in Activating finds its own slot. */
  predicate SlotsKept(w: World) {
    forall k | k in w.deps && w.deps[k].status.phase == Activating && HasActivated(w, k) ::
      SlotOf(w, NodeOf(w, k)) == ActivatingSlot(w.deps[k].uid)
  }

  /** Staged slots move as the commands ask, and are never lost. */
  predicate Follows(s: Step) {
    !s.SlotLost? && (s.Reconcile? ==> s.env.slot == Follow)
  }

  lemma OwnSlotKept(w: World, key: Key, env: Env)
    requires Inv(w) && StagingInv(w) && SlotsKept(w) && NamedNodes(env) && key in w.deps && env.slot == Follow
    ensures var w' := Reconciled(w, key, env);
            key in w'.deps && w'.deps[key].status.phase == Activating && HasActivated(w', key) ==>
              SlotOf(w', NodeOf(w', key)) == ActivatingSlot(w'.deps[key].uid)
  {
    hide Inv, StagingInv, SlotsKept, Reconciled, ReconcileOutcome, Answers, Busy, Shape, SlotAfter, Entries;
    var node, out, slot := Moved(w, key, env);
    if out.dep.status.phase == Activating {
      if w.deps[key].status.phase != Activating {
        NotActivatedBefore(w, key);
      } else if HasActivated(Reconciled(w, key, env), key) {
        hide Licensed;
        ActivatingExactly(key, w.deps[key], w.deps, slot, env);
        OwnSlotFollows(w, key, slot, out.cmds);
      }
    }
  }

  lemma OwnSlotFollows(w: World, key: Key, slot: Slot, cmds: seq<Command>)
    requires SlotsKept(w) && key in w.deps && w.deps[key].status.phase == Activating && Shape(w.deps[key])
    requires slot == SlotOf(w, NodeOf(w, key)) && (cmds == [] || cmds == [Activate])
    requires HasActivated(w, key) || cmds == [Activate]
    ensures SlotAfter(slot, cmds, w.deps[key].status, Follow) == ActivatingSlot(w.deps[key].uid)
  {
  }

  lemma NotActivatedBefore(w: World, key: Key)
    requires StagingInv(w) && key in w.deps && Rank(w.deps[key].status.phase) <= Rank(Writing)
    ensures !HasActivated(w, key)
  {
    hide SlotsAreStaged, WriteCompleted, WriteBeforeActivate;
  }

  lemma OnlyFailedElse(w: World, key: Key, k: Key)
    requires Inv(w) && key in w.deps && k in w.deps && k != key && w.deps[k].status.phase == Activating
    requires NodeOf(w, k) == NodeOf(w, key)
    ensures w.deps[key].status.phase == Failed
  {
    hide Attributed, LastWord, Blocks;
    assert Shape(w.deps[k]);
  }

  lemma OtherSlotsKept(w: World, key: Key, env: Env, k: Key)
    requires Inv(w) && NamedNodes(env) && key in w.deps && env.slot == Follow && k != key
    requires k in w.deps && w.deps[k].status.phase == Activating
    ensures var w' := Reconciled(w, key, env);
            k in w'.deps && w'.deps[k] == w.deps[k] && SlotOf(w', NodeOf(w, k)) == SlotOf(w, NodeOf(w, k))
            && (HasActivated(w', k) ==> HasActivated(w, k))
  {
    hide Inv, Reconciled, ReconcileOutcome, Busy, Shape, Entries;
    var node, out, slot := Moved(w, key, env);
    if NodeOf(w, k) == node {
      OnlyFailedElse(w, key, k);
      assert out.cmds == [];
    }
  }

  lemma UserStepKeepsSlots(w: World, s: Step)
    requires SlotsKept(w) && Enabled(w, s) && Follows(s) && !s.Reconcile?
    ensures SlotsKept(Next(w, s))
  {
    forall k | k in Next(w, s).deps && Next(w, s).deps[k].status.phase == Activating && HasActivated(Next(w, s), k)
      ensures SlotOf(Next(w, s), NodeOf(Next(w, s), k)) == ActivatingSlot(Next(w, s).deps[k].uid)
    {
      assert k in w.deps && HasActivated(w, k);
    }
  }

  lemma ReconcileKeepsSlots(w: World, key: Key, env: Env)
    requires Inv(w) && StagingInv(w) && SlotsKept(w) && NamedNodes(env) && key in w.deps && env.slot == Follow
    ensures SlotsKept(Reconciled(w, key, env))
  {
    hide Inv, StagingInv, Reconciled, HasActivated;
    var w' := Reconciled(w, key, env);
    OwnSlotKept(w, key, env);
    DomainKept(w, key, env);
    forall k | k in w'.deps && w'.deps[k].status.phase == Activating && HasActivated(w', k)
      ensures SlotOf(w', NodeOf(w', k)) == ActivatingSlot(w'.deps[k].uid)
    {
      if k != key {
        OtherSlotsKept(w, key, env, k);
      }
    }
  }

  lemma StepKeepsSlots(w: World, s: Step)
    requires Inv(w) && StagingInv(w) && SlotsKept(w) && Enabled(w, s) && Follows(s)
    ensures SlotsKept(Next(w, s))
  {
    hide Reconciled, StagingInv, Inv, SlotsKept;
    if !s.Reconcile? {
      UserStepKeepsSlots(w, s);
    } else if s.key in w.deps {
      ReconcileKeepsSlots(w, s.key, s.env);
    } else {
      AbsentIsNoop(w, s.key, s.env);
    }
  }

  lemma DomainKept(w: World, key: Key, env: Env)
    requires key in w.deps
    ensures Reconciled(w, key, env).deps.Keys == w.deps.Keys
    ensures forall k | k in w.deps && k != key :: Reconciled(w, key, env).deps[k] == w.deps[k]
  {
    hide ReconcileOutcome, Entries, SlotAfter;
  }

  lemma KeptSlotsNeverRepeat(w: World, s: Step)
    requires SlotsKept(w)
    ensures !Repeats(w, s)
  {
  }

  lemma {:induction false} RunKeepsSlots(w: World, steps: seq<Step>)
    requires Inv(w) && StagingInv(w) && SlotsKept(w) && Legal(w, steps) && forall s | s in steps :: Follows(s)
    ensures SlotsKept(Run(w, steps)) && NeverRepeats(w, steps)
    decreases steps
  {
    hide Inv, StagingInv, SlotsKept, Enabled, Next, Repeats, Follows;
    if steps != [] {
      var mid, last := Run(w, steps[..|steps| - 1]), steps[|steps| - 1];
      assert last in steps && forall s | s in steps[..|steps| - 1] :: s in steps;
      RunKeepsSlots(w, steps[..|steps| - 1]);
      RunKeepsInv(w, steps[..|steps| - 1]);
      RunKeepsStaging(w, steps[..|steps| - 1]);
      KeptSlotsNeverRepeat(mid, last);
      StepKeepsSlots(mid, last);
    }
  }

  lemma StartIsClean()
    ensures Inv(START) && StagingInv(START) && SlotsKept(START) && AllActivated(START) && AtMostOnce(START.log)
  {
  }

  /** From the empty cluster, when staged slots follow the commands, each deployment activates at most once. */
  lemma DevicesThatRememberAreActivatedOnce(steps: seq<Step>)
    requires Legal(START, steps) && forall s | s in steps :: Follows(s)
    ensures AtMostOnce(Run(START, steps).log)
  {
    hide Inv, StagingInv, SlotsKept, AtMostOnce, Legal, Run, NeverRepeats, Follows;
    StartIsClean();
    RunKeepsSlots(START, steps);
    RunActivatesOnceExactlyWhen(START, steps);
  }
}
