/** Progress of deployments: when binding succeeds, and what an undisturbed rollout does from start to Deployed. */
module DeploymentProgress {
  import opened Conditions
  import opened DeploymentStep
  import opened DeploymentSafety
  import opened DeploymentRuns
  import opened DeploymentConditions
  import opened Staging

  /** Node i is the only one listed that the deployment selects. */
  predicate OnlyMatch(spec: Spec, nodes: seq<NodeInfo>, i: nat) {
    i < |nodes| && Selects(spec, nodes[i]) && forall j | 0 <= j < |nodes| && j != i :: !Selects(spec, nodes[j])
  }

  lemma {:induction false} OneCandidate(spec: Spec, nodes: seq<NodeInfo>)
    ensures |Candidates(spec, nodes)| == 0 <==> forall j | 0 <= j < |nodes| :: !Selects(spec, nodes[j])
    ensures |Candidates(spec, nodes)| == 1 <==> exists i: nat :: OnlyMatch(spec, nodes, i)
    ensures forall i: nat :: OnlyMatch(spec, nodes, i) ==> Candidates(spec, nodes) == [nodes[i]]
    decreases nodes
  {
    if nodes != [] {
      hide Selects;
      var rest := nodes[1..];
      OneCandidate(spec, rest);
      assert forall j | 0 < j < |nodes| :: rest[j - 1] == nodes[j];
      assert forall j | 0 <= j < |rest| :: nodes[j + 1] == rest[j];
      if Selects(spec, nodes[0]) {
        if |Candidates(spec, rest)| == 0 {
          assert OnlyMatch(spec, nodes, 0);
        }
      } else {
        if i: nat :| OnlyMatch(spec, rest, i) {
          assert OnlyMatch(spec, nodes, i + 1);
        }
        forall i: nat | OnlyMatch(spec, nodes, i)
          ensures i > 0 && OnlyMatch(spec, rest, i - 1)
        {
        }
      }
    }
  }

  /** A deployment binds exactly when one node matches, that node is free, and the API server answers. */
  lemma BindsExactlyWhen(key: Key, dep: Dep, deps: map<Key, Dep>, slot: Slot, env: Env)
    requires Shape(dep) && NamedNodes(env) && dep.status.phase == NoPhase
    ensures var out := ReconcileOutcome(key, dep, deps, slot, env);
            && (out.dep.status.phase == Pulling <==>
                  && env.statusPatch && env.listDeployments && env.nodes.Some?
                  && exists i: nat ::
                       OnlyMatch(dep.spec, env.nodes.value, i) && !Busy(deps, key, env.nodes.value[i].name))
            && (out.dep.status.phase == Pulling ==>
                  forall i: nat :: OnlyMatch(dep.spec, env.nodes.value, i) ==>
                                     out.dep.status.boundNode == env.nodes.value[i].name)
  {
    hide Selects, PhaseConditions, FailedConditions, Busy, Candidates;
    if env.nodes.Some? {
      OneCandidate(dep.spec, env.nodes.value);
    }
  }

  /**
   * Why reads must see earlier writes: two unbound deployments that select the same free node, reconciled from the same
   * list, both bind to it.
   */
  lemma StaleListBindsTwice(w: World, a: Key, b: Key, slotA: Slot, slotB: Slot, env: Env, i: nat)
    requires Inv(w) && NamedNodes(env) && a in w.deps && b in w.deps && a != b && a.ns == b.ns
    requires w.deps[a].status.phase == w.deps[b].status.phase == NoPhase
    requires env.statusPatch && env.listDeployments && env.nodes.Some? && i < |env.nodes.value|
    requires OnlyMatch(w.deps[a].spec, env.nodes.value, i) && OnlyMatch(w.deps[b].spec, env.nodes.value, i)
    requires !Busy(w.deps, a, env.nodes.value[i].name) && !Busy(w.deps, b, env.nodes.value[i].name)
    ensures var outA := ReconcileOutcome(a, w.deps[a], w.deps, slotA, env).dep;
            var outB := ReconcileOutcome(b, w.deps[b], w.deps, slotB, env).dep;
            !Exclusive(w.(deps := w.deps[a := outA][b := outB]))
  {
    hide ReconcileOutcome, Inv, Shape, OnlyMatch, Busy;
    InvShape(w, a);
    InvShape(w, b);
    BindsExactlyWhen(a, w.deps[a], w.deps, slotA, env);
    BindsExactlyWhen(b, w.deps[b], w.deps, slotB, env);
    var outA := ReconcileOutcome(a, w.deps[a], w.deps, slotA, env).dep;
    var outB := ReconcileOutcome(b, w.deps[b], w.deps, slotB, env).dep;
    ReconcileMoves(a, w.deps[a], w.deps, slotA, env);
    PullingIsBound(outA);
    var d := w.deps[a := outA][b := outB];
    assert d[a] == outA && d[b] == outB && a in d && b in d;
  }

  lemma PullingIsBound(d: Dep)
    requires Shape(d) && d.status.phase == Pulling
    ensures d.status.boundNode != ""
  {
  }

  /** Every call of a rollout answers well and every patch lands. */
  predicate Undisturbed(env: Env) {
    && env.metaPatch && env.statusPatch && env.listDeployments && env.firmware.Some? && HasClient(env)
    && env.config.ConfigOk? && !env.config.pushed && env.info.Info? && env.info.apiSupported
    && env.info.state != "pending_verify" && env.prepare == Accepted
    && env.stream && env.write && env.digestOk && env.activate
  }

  function Successor(p: Phase): Phase {
    match p
    case Pulling => Preparing
    case Preparing => Writing
    case Writing => Activating
    case Activating => Confirming
    case _ => Deployed
  }

  function CommandsOf(p: Phase): seq<Command> {
    match p
    case Preparing => [Prepare(true)]
    case Writing => [Write(true)]
    case Activating => [Activate]
    case _ => []
  }

  predicate Own(slot: Slot, uid: string) {
    slot != NoSlot && slot.id == uid
  }

  /** One undisturbed reconcile of a bound deployment moves exactly one phase on, with that phase's command. */
  lemma UndisturbedStep(key: Key, dep: Dep, deps: map<Key, Dep>, slot: Slot, env: Env)
    requires Shape(dep) && Undisturbed(env) && Rank(Pulling) <= Rank(dep.status.phase) <= Rank(Confirming)
    requires dep.status.phase == Preparing ==> !Own(slot, dep.uid)
    requires dep.status.phase == Activating ==> slot != ActivatingSlot(dep.uid)
    requires dep.status.phase == Confirming ==> Confirms(env.node.value.vital, dep.uid)
    ensures var out := ReconcileOutcome(key, dep, deps, slot, env);
            && out.dep.status.phase == Successor(dep.status.phase)
            && out.cmds == CommandsOf(dep.status.phase)
            && (dep.status.phase == Pulling ==>
                  out.dep.status.deploymentId == dep.uid
                  && (out.dep.status.digest, out.dep.status.size) == env.firmware.value)
  {
    hide PhaseConditions, FailedConditions, Availability, BindingOutcome, DeployedOutcome, Fail;
  }

  /** What the world is after one undisturbed reconcile of `key`. */
  lemma WorldStep(w: World, key: Key, env: Env) returns (w': World)
    requires Inv(w) && StagingInv(w) && AllAgree(w) && key in w.deps && NamedNodes(env) && Undisturbed(env)
    requires Rank(Pulling) <= Rank(w.deps[key].status.phase) <= Rank(Confirming) && env.slot == Follow
    requires w.deps[key].status.phase == Activating ==>
               !SlotOf(w, Key(key.ns, w.deps[key].status.boundNode)).ActivatingSlot?
    requires w.deps[key].status.phase == Confirming ==> Confirms(env.node.value.vital, w.deps[key].uid)
    ensures w' == Next(w, Reconcile(key, env)) && Inv(w') && StagingInv(w') && AllAgree(w')
    ensures SameObject(w, w', key) && w'.deps[key].status.boundNode == w.deps[key].status.boundNode
    ensures w.deps[key].status.phase != Pulling ==>
              var s, s' := w.deps[key].status, w'.deps[key].status;
              s'.deploymentId == s.deploymentId && s'.digest == s.digest && s'.size == s.size
    ensures w'.deps[key].status.phase == Successor(w.deps[key].status.phase)
    ensures var node := Key(key.ns, w.deps[key].status.boundNode);
            w'.log == w.log + Entries(node, w.deps[key].uid, CommandsOf(w.deps[key].status.phase))
    ensures w.deps[key].status.phase == Pulling ==>
              && w'.deps[key].status.deploymentId == w.deps[key].uid
              && (w'.deps[key].status.digest, w'.deps[key].status.size) == env.firmware.value
  {
    var dep := w.deps[key];
    var node := Key(key.ns, dep.status.boundNode);
    w' := Next(w, Reconcile(key, env));
    hide ReconcileOutcome, Inv, StagingInv, AllAgree, Undisturbed, Confirms, Evolves, Shape, Entries, Successor;
    hide SlotAfter;
    UndisturbedOutcome(w, key, env);
    ReconcileKeepsAll(w, key, env);
    ReconcileMovesUid(w, key, env);
  }

  /** An undisturbed write leaves the slot staged. */
  lemma WritingStages(w: World, key: Key, env: Env)
    requires Inv(w) && StagingInv(w) && key in w.deps && NamedNodes(env) && Undisturbed(env) && env.slot == Follow
    requires w.deps[key].status.phase == Writing
    ensures SlotOf(Next(w, Reconcile(key, env)), Key(key.ns, w.deps[key].status.boundNode)).WrittenSlot?
  {
    hide ReconcileOutcome, Inv, StagingInv, Undisturbed, Evolves, Shape, Entries;
    UndisturbedOutcome(w, key, env);
  }

  lemma ReconcileKeepsAll(w: World, key: Key, env: Env)
    requires Inv(w) && StagingInv(w) && AllAgree(w) && NamedNodes(env)
    ensures var w' := Reconciled(w, key, env);
            Inv(w') && StagingInv(w') && AllAgree(w')
  {
    hide Reconciled, Inv, StagingInv, AllAgree;
    StepKeepsInv(w, Reconcile(key, env));
    StepKeepsStaging(w, Reconcile(key, env));
    StepAgrees(w, Reconcile(key, env));
  }

  /** UndisturbedStep and the kept fields, at the place in the world where the step happens. */
  lemma UndisturbedOutcome(w: World, key: Key, env: Env)
    requires Inv(w) && StagingInv(w) && key in w.deps && NamedNodes(env) && Undisturbed(env)
    requires Rank(Pulling) <= Rank(w.deps[key].status.phase) <= Rank(Confirming)
    requires w.deps[key].status.phase == Activating ==>
               !SlotOf(w, Key(key.ns, w.deps[key].status.boundNode)).ActivatingSlot?
    requires w.deps[key].status.phase == Confirming ==> Confirms(env.node.value.vital, w.deps[key].uid)
    ensures var dep := w.deps[key];
            var out := ReconcileOutcome(key, dep, w.deps, SlotOf(w, Key(key.ns, dep.status.boundNode)), env);
            && out.dep.status.phase == Successor(dep.status.phase)
            && out.cmds == CommandsOf(dep.status.phase)
            && out.dep.status.boundNode == dep.status.boundNode
            && (dep.status.phase == Pulling ==>
                  out.dep.status.deploymentId == dep.uid
                  && (out.dep.status.digest, out.dep.status.size) == env.firmware.value)
            && (dep.status.phase != Pulling ==>
                  && out.dep.status.deploymentId == dep.status.deploymentId
                  && out.dep.status.digest == dep.status.digest && out.dep.status.size == dep.status.size)
  {
    var dep := w.deps[key];
    var slot := SlotOf(w, Key(key.ns, dep.status.boundNode));
    if dep.status.phase == Preparing {
      PreparingSeesNoOwnSlot(w, key);
    }
    hide ReconcileOutcome, Inv, StagingInv, Undisturbed, Confirms, Evolves, Shape;
    InvShape(w, key);
    UndisturbedStep(key, dep, w.deps, slot, env);
    ReconcileMoves(key, dep, w.deps, slot, env);
    BoundFieldsKept(dep, ReconcileOutcome(key, dep, w.deps, slot, env).dep);
  }

  lemma BoundFieldsKept(a: Dep, b: Dep)
    requires Shape(a) && Evolves(a, b) && Rank(Pulling) <= Rank(a.status.phase) <= Rank(Confirming)
    ensures b.status.boundNode == a.status.boundNode
    ensures a.status.phase != Pulling ==>
              && b.status.deploymentId == a.status.deploymentId
              && b.status.digest == a.status.digest && b.status.size == a.status.size
  {
  }

  lemma ReconcileMovesUid(w: World, key: Key, env: Env)
    requires Inv(w) && key in w.deps && NamedNodes(env)
    ensures SameObject(w, Reconciled(w, key, env), key)
  {
    hide ReconcileOutcome;
    ReconcileMoves(key, w.deps[key], w.deps, SlotOf(w, Key(key.ns, w.deps[key].status.boundNode)), env);
  }

  /** Entering Deployed makes the deployment Ready. */
  lemma DeployedStartsReady(w: World, key: Key, env: Env)
    requires AllAgree(w) && key in w.deps && w.deps[key].status.phase == Confirming
    requires Reconciled(w, key, env).deps[key].status.phase == Deployed
    ensures Has(Reconciled(w, key, env).deps[key].status.conditions, Ready, True)
  {
    hide With, Has, OnePerKind, WithReady, FailedConditions, HasClient, Entries, SlotAfter, Confirms;
    AllAgreeAt(w, key);
    TwoThenReady(w.deps[key].status.conditions, Condition(Progressing, False, "DeploymentComplete"),
                 Condition(Available, True, "WorkloadReady"));
  }

  /**
   * Main progress result: five undisturbed reconciles of a bound deployment, the last one reading a confirming
   * heartbeat, take it to Deployed and Ready; the node received prepare, one completed write and one activation.
   */
  lemma UndisturbedRollout(w: World, key: Key, env: Env, confirm: Env)
    requires Inv(w) && StagingInv(w) && AllAgree(w) && key in w.deps && w.deps[key].status.phase == Pulling
    requires NamedNodes(env) && Undisturbed(env) && env.slot == Follow
    requires NamedNodes(confirm) && Undisturbed(confirm) && confirm.slot == Follow
    requires Confirms(confirm.node.value.vital, w.deps[key].uid)
    ensures var r := Reconcile(key, env);
            var end := Next(Next(Next(Next(Next(w, r), r), r), r), Reconcile(key, confirm));
            var s := end.deps[key].status;
            && SameObject(w, end, key)
            && s.phase == Deployed && s.boundNode == w.deps[key].status.boundNode && s.deploymentId == w.deps[key].uid
            && (s.digest, s.size) == env.firmware.value
            && Agree(s) && Has(s.conditions, Ready, True)
            && end.log == w.log + Entries(Key(key.ns, s.boundNode), w.deps[key].uid,
                                          [Prepare(true), Write(true), Activate])
  {
    hide Inv, StagingInv, AllAgree, Undisturbed, Confirms, Next, Agree, Reconciled, Has, Evolves, Shape;
    var w1 := WorldStep(w, key, env);
    var w2 := WorldStep(w1, key, env);
    var w3 := WorldStep(w2, key, env);
    WritingStages(w2, key, env);
    var w4 := WorldStep(w3, key, env);
    var w5 := WorldStep(w4, key, confirm);
    AllAgreeAt(w5, key);
    assert Next(w4, Reconcile(key, confirm)) == Reconciled(w4, key, confirm) by {
      NextIsReconciled(w4, key, confirm);
    }
    DeployedStartsReady(w4, key, confirm);
    ThreeEntries(Key(key.ns, w.deps[key].status.boundNode), w.deps[key].uid);
  }

  lemma NextIsReconciled(w: World, key: Key, env: Env)
    ensures Next(w, Reconcile(key, env)) == Reconciled(w, key, env)
  {
  }

  lemma AllAgreeAt(w: World, key: Key)
    requires AllAgree(w) && key in w.deps
    ensures Agree(w.deps[key].status)
  {
  }

  lemma ThreeEntries(node: Key, uid: string)
    ensures Entries(node, uid, [Prepare(true), Write(true), Activate])
            == Entries(node, uid, [Prepare(true)]) + Entries(node, uid, [Write(true)]) + Entries(node, uid, [Activate])
    ensures Entries(node, uid, []) == []
  {
    EntriesAre(node, uid, [Prepare(true), Write(true), Activate]);
    EntriesAre(node, uid, [Prepare(true)]);
    EntriesAre(node, uid, [Write(true)]);
    EntriesAre(node, uid, [Activate]);
  }
}
