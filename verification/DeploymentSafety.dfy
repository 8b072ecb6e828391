/** What one reconcile of a deployment may change: any number of deployments and nodes, any failing call or patch. */
module DeploymentSafety {
  import opened Conditions
  import opened DeploymentStep

  // ---------------------------------------------------------------- one reconcile

  /** What never goes back in the life of one deployment object. */
  predicate Evolves(a: Dep, b: Dep) {
    && a.uid == b.uid
    && Rank(a.status.phase) <= Rank(b.status.phase)
    && (a.status.boundNode != "" ==> b.status.boundNode == a.status.boundNode)
    && (a.status.deploymentId != "" ==> b.status.deploymentId == a.status.deploymentId)
    && (Rank(a.status.phase) >= Rank(Preparing) ==>
          b.status.digest == a.status.digest && b.status.size == a.status.size)
    && (a.stamp.Some? ==> b.stamp == a.stamp)
  }

  /** The shape every stored deployment has; NoPhase is the only unbound phase besides Failed. */
  predicate Shape(d: Dep) {
    var s := d.status;
    && d.uid != ""
    && s.phase != Binding
    && (s.phase == NoPhase ==> s.boundNode == "" && s.deploymentId == "" && s.conditions == [])
    && (Rank(Pulling) <= Rank(s.phase) <= Rank(Deployed) ==> s.boundNode != "")
    && (Rank(Preparing) <= Rank(s.phase) <= Rank(Deployed) ==> s.deploymentId == d.uid)
    && (s.deploymentId == "" || s.deploymentId == d.uid)
    && (s.phase == Confirming ==> d.stamp.Some?)
  }

  /** Kubernetes never lists an object without a name. */
  predicate NamedNodes(env: Env) {
    env.nodes.Some? ==> forall n | n in env.nodes.value :: n.name != ""
  }

  lemma {:induction false} CandidatesAreListed(spec: Spec, nodes: seq<NodeInfo>)
    ensures forall n :: n in Candidates(spec, nodes) <==> n in nodes && Selects(spec, n)
    decreases nodes
  {
    if nodes != [] {
      CandidatesAreListed(spec, nodes[1..]);
    }
  }

  /** Which commands a phase may send, and which reports and commands let it move on. */
  predicate Licensed(key: Key, dep: Dep, deps: map<Key, Dep>, slot: Slot, out: Outcome) {
    var p, q := dep.status.phase, out.dep.status.phase;
    && (out.cmds != [] ==> p in {Preparing, Writing, Activating, Deployed})
    && (forall c | c in out.cmds ::
          (c.Prepare? ==> p == Preparing) && (c.Write? ==> p == Writing) && (c.Activate? ==> p == Activating))
    && (p != q && q == Writing ==> p == Preparing && Prepare(true) in out.cmds)
    && (p != q && q == Activating ==>
          || (p == Writing && out.cmds == [Write(true)])
          || (p == Preparing && slot == WrittenSlot(dep.status.digest, dep.uid)))
    && (p != q && q == Confirming ==> p == Activating || (p == Preparing && slot == ActivatingSlot(dep.uid)))
    && (p != q && q == Deployed ==> p == Confirming)
    && (out.dep.status.boundNode != dep.status.boundNode ==>
          p == NoPhase && q == Pulling && !Busy(deps, key, out.dep.status.boundNode))
  }

  /** All that the later proofs use about one reconcile. */
  predicate Moves(key: Key, dep: Dep, deps: map<Key, Dep>, slot: Slot, out: Outcome) {
    Evolves(dep, out.dep) && Shape(out.dep) && out.dep.spec == dep.spec && Licensed(key, dep, deps, slot, out)
  }

  lemma BindingMoves(key: Key, dep: Dep, deps: map<Key, Dep>, slot: Slot, env: Env)
    requires Shape(dep) && NamedNodes(env) && dep.status.phase == NoPhase
    ensures Moves(key, dep, deps, slot, Outcome(BindingOutcome(key, dep, deps, env), []))
  {
    hide PhaseConditions, FailedConditions, Candidates, Selects, Busy;
    if env.nodes.Some? {
      var found := Candidates(dep.spec, env.nodes.value);
      CandidatesAreListed(dep.spec, env.nodes.value);
      assert |found| == 1 ==> found[0] in found;
    }
  }

  /** A step to a later phase of the same bound deployment, whichever of its patches land. */
  predicate Later(a: Dep, b: Dep, phase: Phase) {
    && Evolves(a, b) && Shape(b) && b.spec == a.spec
    && b.status.boundNode == a.status.boundNode
    && (b.status.phase == a.status.phase || b.status.phase == phase)
  }

  lemma SetPhaseLater(dep: Dep, phase: Phase, msg: Message, env: Env)
    requires Shape(dep) && Rank(Preparing) <= Rank(dep.status.phase) < Rank(phase) <= Rank(Deployed)
    ensures Later(dep, SetPhase(dep, phase, dep.status.boundNode, msg, env), phase)
  {
    hide PhaseConditions;
  }

  lemma FailLater(dep: Dep, reason: string, landed: bool)
    requires Shape(dep)
    ensures Later(dep, Fail(dep, reason, landed), Failed)
  {
    hide FailedConditions;
  }

  lemma LeavingPreparing(
      key: Key, dep: Dep, deps: map<Key, Dep>, slot: Slot, next: Dep, phase: Phase, cmds: seq<Command>)
    requires Shape(dep) && dep.status.phase == Preparing && Later(dep, next, phase)
    requires cmds == [] || cmds == [Prepare(phase == Writing)]
    requires phase == Writing ==> cmds != []
    requires phase == Activating ==> slot == WrittenSlot(dep.status.digest, dep.uid)
    requires phase == Confirming ==> slot == ActivatingSlot(dep.uid)
    requires phase != Deployed
    ensures Moves(key, dep, deps, slot, Outcome(next, cmds))
  {
    hide Shape, Evolves, Busy;
  }

  lemma PrepareMoves(key: Key, dep: Dep, deps: map<Key, Dep>, slot: Slot, env: Env)
    requires Shape(dep) && dep.status.phase == Preparing
    ensures Moves(key, dep, deps, slot, PrepareOutcome(dep, slot, env))
  {
    hide Moves, SetPhase, Fail, Later;
    var s := dep.status;
    if env.info.NoInfo? {
      Stays(dep, Preparing);
      LeavingPreparing(key, dep, deps, slot, dep, Preparing, []);
    } else if !env.info.apiSupported {
      FailLater(dep, "APIVersionUnsupported", env.statusPatch);
      LeavingPreparing(key, dep, deps, slot, Fail(dep, "APIVersionUnsupported", env.statusPatch), Failed, []);
    } else if slot == ActivatingSlot(s.deploymentId) {
      SetPhaseLater(dep, Confirming, Blank, env);
      LeavingPreparing(key, dep, deps, slot, SetPhase(dep, Confirming, s.boundNode, Blank, env), Confirming, []);
    } else if slot == WrittenSlot(s.digest, s.deploymentId) {
      SetPhaseLater(dep, Activating, Blank, env);
      LeavingPreparing(key, dep, deps, slot, SetPhase(dep, Activating, s.boundNode, Blank, env), Activating, []);
    } else {
      match env.prepare {
        case NoAnswer =>
          Stays(dep, Preparing);
          LeavingPreparing(key, dep, deps, slot, dep, Preparing, [Prepare(false)]);
        case Rejected(reason) =>
          FailLater(dep, reason, env.statusPatch);
          LeavingPreparing(key, dep, deps, slot, Fail(dep, reason, env.statusPatch), Failed, [Prepare(false)]);
        case Accepted =>
          SetPhaseLater(dep, Writing, Blank, env);
          LeavingPreparing(key, dep, deps, slot, SetPhase(dep, Writing, s.boundNode, Blank, env), Writing,
                          [Prepare(true)]);
      }
    }
  }

  lemma Stays(dep: Dep, phase: Phase)
    requires Shape(dep)
    ensures Later(dep, dep, phase)
  {
  }

  lemma PreparingMoves(key: Key, dep: Dep, deps: map<Key, Dep>, slot: Slot, env: Env)
    requires Shape(dep) && dep.status.phase == Preparing
    ensures Moves(key, dep, deps, slot, PreparingOutcome(dep, slot, env))
  {
    hide PrepareOutcome, Fail, Busy, HasClient;
    PrepareMoves(key, dep, deps, slot, env);
    if env.config.ConfigPermanent? {
      FailLater(dep, env.config.reason, env.statusPatch);
    }
  }

  lemma WritingMoves(key: Key, dep: Dep, deps: map<Key, Dep>, slot: Slot, env: Env)
    requires Shape(dep) && dep.status.phase == Writing
    ensures Moves(key, dep, deps, slot, WritingOutcome(dep, env))
  {
    hide PhaseConditions, FailedConditions, Busy;
  }

  lemma ActivatingMoves(key: Key, dep: Dep, deps: map<Key, Dep>, slot: Slot, env: Env)
    requires Shape(dep) && dep.status.phase == Activating
    ensures Moves(key, dep, deps, slot, ActivatingOutcome(dep, slot, env))
  {
    hide SetPhase, Fail, Busy, HasClient;
    SetPhaseLater(dep, Confirming, Blank, env);
    FailLater(dep, "APIVersionUnsupported", env.statusPatch);
  }

  lemma ConfirmingMoves(key: Key, dep: Dep, deps: map<Key, Dep>, slot: Slot, env: Env)
    requires Shape(dep) && dep.status.phase == Confirming
    ensures Moves(key, dep, deps, slot, Outcome(ConfirmingOutcome(dep, env), []))
  {
    hide PhaseConditions, FailedConditions, Busy;
  }

  /** The configuration step of a deployed object: it stays or fails, and never writes or activates. */
  lemma ConfigOnlyMoves(dep: Dep, env: Env)
    requires Shape(dep)
    ensures var out := ConfigOnlyOutcome(dep, env);
            Later(dep, out.dep, Failed) && forall c | c in out.cmds :: !c.Prepare? && !c.Write? && !c.Activate?
  {
    hide Fail, Later, HasClient;
    Stays(dep, Failed);
    if env.config.ConfigPermanent? {
      FailLater(dep, env.config.reason, env.secondPatch);
    }
  }

  lemma ConditionsAreLater(dep: Dep, cs: seq<Condition>, next: Dep)
    requires Shape(dep) && dep.status.phase == Deployed
    requires Later(dep.(status := dep.status.(conditions := cs)), next, Failed)
    ensures Later(dep, next, Failed)
  {
  }

  lemma DeployedLater(dep: Dep, env: Env)
    requires Shape(dep) && dep.status.phase == Deployed
    ensures var out := DeployedOutcome(dep, env);
            Later(dep, out.dep, Failed) && forall c | c in out.cmds :: !c.Prepare? && !c.Write? && !c.Activate?
  {
    hide ConfigOnlyOutcome, Later, HasClient, WithReady, With, Availability, PortInRange;
    Stays(dep, Failed);
    if env.node.Some? {
      var cs := WithReady(With(dep.status.conditions, Availability(env.node.value.vital, env.now)));
      var d := dep.(status := dep.status.(conditions := cs));
      Stays(d, Failed);
      ConditionsAreLater(dep, cs, d);
      ConfigOnlyMoves(d, env);
      ConditionsAreLater(dep, cs, ConfigOnlyOutcome(d, env).dep);
    }
  }

  lemma DeployedMoves(key: Key, dep: Dep, deps: map<Key, Dep>, slot: Slot, env: Env)
    requires Shape(dep) && dep.status.phase == Deployed
    ensures Moves(key, dep, deps, slot, DeployedOutcome(dep, env))
  {
    hide DeployedOutcome, Shape, Evolves, Busy;
    DeployedLater(dep, env);
  }

  /**
   * Every reconcile keeps the phase or raises its rank, and keeps the write-once fields: the bound node, the
   * deployment ID, digest and size from Preparing on, and the confirm stamp. No patch failure changes that.
   */
  lemma ReconcileMoves(key: Key, dep: Dep, deps: map<Key, Dep>, slot: Slot, env: Env)
    requires Shape(dep) && NamedNodes(env)
    ensures Moves(key, dep, deps, slot, ReconcileOutcome(key, dep, deps, slot, env))
  {
    hide BindingOutcome, PreparingOutcome, WritingOutcome, ActivatingOutcome, ConfirmingOutcome, DeployedOutcome;
    hide PhaseConditions, Busy;
    match dep.status.phase {
      case NoPhase => BindingMoves(key, dep, deps, slot, env);
      case Preparing => PreparingMoves(key, dep, deps, slot, env);
      case Writing => WritingMoves(key, dep, deps, slot, env);
      case Activating => ActivatingMoves(key, dep, deps, slot, env);
      case Confirming => ConfirmingMoves(key, dep, deps, slot, env);
      case Deployed => DeployedMoves(key, dep, deps, slot, env);
      case _ =>
    }
  }
}
