/** The conditions of a deployment always agree with each other and with its phase. */
module DeploymentConditions {
  import opened Conditions
  import opened NodeTypes
  import opened DeploymentStep
  import opened DeploymentRuns

  /**
   * One condition per type; Ready is True exactly when Progressing is False and Available is True; Ready implies
   * Deployed; only Deployed and Failed have stopped progressing; Failed is never available.
   */
  predicate Agree(s: Status) {
    var cs := s.conditions;
    && OnePerKind(cs)
    && (s.phase == NoPhase <==> cs == [])
    && (cs != [] ==> (Has(cs, Ready, True) <==> Has(cs, Progressing, False) && Has(cs, Available, True)))
    && (cs != [] ==> (Has(cs, Progressing, False) <==> s.phase == Deployed || s.phase == Failed))
    && (s.phase == Failed ==> !Has(cs, Available, True))
    && (Has(cs, Ready, True) ==> s.phase == Deployed)
  }

  lemma HasWith(cs: seq<Condition>, c: Condition, kind: Kind, status: Truth)
    ensures Has(With(cs, c), kind, status) <==> if kind == c.kind then status == c.status else Has(cs, kind, status)
    ensures OnePerKind(cs) ==> OnePerKind(With(cs, c))
    ensures With(cs, c) != []
  {
    FindWith(cs, c, kind);
    if OnePerKind(cs) {
      WithKeepsOnePerKind(cs, c);
    }
  }

  /** The derived Ready condition, whatever Ready was before. */
  lemma WithReadyDerives(cs: seq<Condition>)
    ensures var r := WithReady(cs);
            && (Has(r, Ready, True) <==> Has(cs, Progressing, False) && Has(cs, Available, True))
            && (Has(r, Progressing, False) <==> Has(cs, Progressing, False))
            && (Has(r, Available, True) <==> Has(cs, Available, True))
            && (OnePerKind(cs) ==> OnePerKind(r)) && r != []
  {
    hide With, Has, OnePerKind;
    forall c: Condition | c.kind == Ready
      ensures Has(With(cs, c), Ready, True) <==> c.status == True
      ensures Has(With(cs, c), Progressing, False) <==> Has(cs, Progressing, False)
      ensures Has(With(cs, c), Available, True) <==> Has(cs, Available, True)
      ensures OnePerKind(cs) ==> OnePerKind(With(cs, c))
      ensures With(cs, c) != []
    {
      HasWith(cs, c, Ready, True);
      HasWith(cs, c, Progressing, False);
      HasWith(cs, c, Available, True);
    }
  }

  /** Both conditions set, then Ready derived: what every phase change amounts to. */
  lemma TwoThenReady(cs: seq<Condition>, p: Condition, a: Condition)
    requires OnePerKind(cs) && p.kind == Progressing && a.kind == Available
    ensures var r := WithReady(With(With(cs, p), a));
            && OnePerKind(r) && r != []
            && (Has(r, Progressing, False) <==> p.status == False)
            && (Has(r, Available, True) <==> a.status == True)
            && (Has(r, Ready, True) <==> p.status == False && a.status == True)
  {
    hide With, Has, OnePerKind, WithReady;
    HasWith(cs, p, Progressing, False);
    HasWith(With(cs, p), a, Progressing, False);
    HasWith(With(cs, p), a, Available, True);
    WithReadyDerives(With(With(cs, p), a));
  }

  lemma OneThenReady(cs: seq<Condition>, c: Condition)
    requires OnePerKind(cs)
    ensures var r := WithReady(With(cs, c));
            && OnePerKind(r) && r != []
            && (Has(r, Progressing, False) <==>
                  if c.kind == Progressing then c.status == False else Has(cs, Progressing, False))
            && (Has(r, Available, True) <==> if c.kind == Available then c.status == True else Has(cs, Available, True))
            && (Has(r, Ready, True) <==> Has(r, Progressing, False) && Has(r, Available, True))
  {
    hide With, Has, OnePerKind, WithReady;
    HasWith(cs, c, Progressing, False);
    HasWith(cs, c, Available, True);
    WithReadyDerives(With(cs, c));
  }

  lemma PhaseAgrees(s: Status, phase: Phase)
    requires Agree(s) && phase != NoPhase && phase != Failed
    ensures Agree(s.(phase := phase, conditions := PhaseConditions(s.conditions, phase)))
  {
    hide With, Has, OnePerKind, WithReady;
    var cs := s.conditions;
    TwoThenReady(cs, Condition(Progressing, False, "DeploymentComplete"), Condition(Available, True, "WorkloadReady"));
    TwoThenReady(cs, Condition(Progressing, True, "OTAInProgress"), Condition(Available, False, "PendingVerification"));
    OneThenReady(cs, Condition(Progressing, True, "OTAInProgress"));
  }

  lemma SetPhaseAgrees(dep: Dep, phase: Phase, boundNode: string, msg: Message, env: Env)
    requires Agree(dep.status) && phase != NoPhase && phase != Failed
    ensures Agree(SetPhase(dep, phase, boundNode, msg, env).status)
  {
    hide PhaseConditions, Has, OnePerKind;
    PhaseAgrees(dep.status, phase);
  }

  lemma FailAgrees(dep: Dep, reason: string, landed: bool)
    requires Agree(dep.status)
    ensures Agree(Fail(dep, reason, landed).status)
  {
    hide With, Has, OnePerKind, WithReady;
    TwoThenReady(dep.status.conditions, Condition(Progressing, False, "OTAFailed"),
                 Condition(Available, False, "DeviceDegraded"));
  }

  lemma AvailabilityAgrees(s: Status, v: Vital, now: int)
    requires Agree(s) && s.phase == Deployed
    ensures Agree(s.(conditions := WithReady(With(s.conditions, Availability(v, now)))))
  {
    hide With, Has, OnePerKind, WithReady;
    OneThenReady(s.conditions, Availability(v, now));
  }

  lemma DeployedAgrees(dep: Dep, env: Env)
    requires Agree(dep.status) && dep.status.phase == Deployed
    ensures Agree(DeployedOutcome(dep, env).dep.status)
  {
    hide Agree, Fail, HasClient, ConfigCommands;
    if env.node.Some? {
      AvailabilityAgrees(dep.status, env.node.value.vital, env.now);
      if env.config.ConfigPermanent? {
        var cs := WithReady(With(dep.status.conditions, Availability(env.node.value.vital, env.now)));
        FailAgrees(dep.(status := dep.status.(conditions := cs)), env.config.reason, env.secondPatch);
      }
    }
  }

  lemma PreparingAgrees(dep: Dep, slot: Slot, env: Env)
    requires Agree(dep.status)
    ensures Agree(PreparingOutcome(dep, slot, env).dep.status)
  {
    hide Agree, Fail, SetPhase, HasClient, ConfigCommands;
    var bound := dep.status.boundNode;
    SetPhaseAgrees(dep, Confirming, bound, Blank, env);
    SetPhaseAgrees(dep, Activating, bound, Blank, env);
    SetPhaseAgrees(dep, Writing, bound, Blank, env);
    FailAgrees(dep, "APIVersionUnsupported", env.statusPatch);
    if env.config.ConfigPermanent? {
      FailAgrees(dep, env.config.reason, env.statusPatch);
    }
    if env.prepare.Rejected? {
      FailAgrees(dep, env.prepare.reason, env.statusPatch);
    }
  }

  lemma BindingAgrees(key: Key, dep: Dep, deps: map<Key, Dep>, env: Env)
    requires Agree(dep.status)
    ensures Agree(BindingOutcome(key, dep, deps, env).status)
  {
    hide Agree, Fail, SetPhase, Busy, Candidates;
    FailAgrees(dep, "NoDeviceMatched", env.statusPatch);
    FailAgrees(dep, "AmbiguousBinding", env.statusPatch);
    FailAgrees(dep, "DeviceBusy", env.statusPatch);
    if env.nodes.Some? && |Candidates(dep.spec, env.nodes.value)| == 1 {
      SetPhaseAgrees(dep, Pulling, Candidates(dep.spec, env.nodes.value)[0].name, Blank, env);
    }
  }

  lemma ConfirmingAgrees(dep: Dep, env: Env)
    requires Agree(dep.status)
    ensures Agree(ConfirmingOutcome(dep, env).status)
  {
    hide Agree, Fail, SetPhase, HasClient;
    SetPhaseAgrees(dep, Deployed, dep.status.boundNode, Note("confirmed by heartbeat"), env);
    FailAgrees(dep, "DeviceRollback", env.statusPatch);
    FailAgrees(dep, "ConfirmTimeout", env.statusPatch);
  }

  lemma OtherPhasesAgree(dep: Dep, slot: Slot, env: Env)
    requires Agree(dep.status)
    ensures Agree(PullingOutcome(dep, env).status)
    ensures Agree(WritingOutcome(dep, env).dep.status)
    ensures Agree(ActivatingOutcome(dep, slot, env).dep.status)
  {
    hide Agree, Fail, SetPhase, HasClient, PhaseConditions;
    PhaseAgrees(dep.status, Preparing);
    AgreeIgnoresRest(dep.status.(phase := Preparing, conditions := PhaseConditions(dep.status.conditions, Preparing)),
                     PullingOutcome(dep, env).status);
    SetPhaseAgrees(dep, Activating, dep.status.boundNode, Blank, env);
    SetPhaseAgrees(dep, Confirming, dep.status.boundNode, Blank, env);
    FailAgrees(dep, "APIVersionUnsupported", env.statusPatch);
  }

  lemma AgreeIgnoresRest(a: Status, b: Status)
    ensures Agree(a) && a.phase == b.phase && a.conditions == b.conditions ==> Agree(b)
  {
  }

  lemma ReconcileAgrees(key: Key, dep: Dep, deps: map<Key, Dep>, slot: Slot, env: Env)
    requires Agree(dep.status)
    ensures Agree(ReconcileOutcome(key, dep, deps, slot, env).dep.status)
  {
    hide Agree, BindingOutcome, PullingOutcome, PreparingOutcome, WritingOutcome, ActivatingOutcome, ConfirmingOutcome;
    hide DeployedOutcome;
    match dep.status.phase {
      case NoPhase => BindingAgrees(key, dep, deps, env);
      case Binding => BindingAgrees(key, dep, deps, env);
      case Preparing => PreparingAgrees(dep, slot, env);
      case Confirming => ConfirmingAgrees(dep, env);
      case Deployed => DeployedAgrees(dep, env) by {
        assert Agree(dep.status);
      }
      case Failed =>
      case _ => OtherPhasesAgree(dep, slot, env);
    }
  }

  predicate AllAgree(w: World) {
    forall k | k in w.deps :: Agree(w.deps[k].status)
  }

  lemma StepAgrees(w: World, s: Step)
    requires Inv(w) && AllAgree(w) && Enabled(w, s)
    ensures AllAgree(Next(w, s))
  {
    match s {
      case Reconcile(key, env) =>
        hide Agree, ReconcileOutcome, Inv, Staged, Entries;
        if key in w.deps {
          var node := Key(key.ns, w.deps[key].status.boundNode);
          ReconcileAgrees(key, w.deps[key], w.deps, SlotOf(w, node), env);
        }
      case Create(key, d) => hide Inv;
      case _ => hide Agree, Inv;
    }
  }

  /** In every state of every run the conditions of every deployment agree. */
  lemma {:induction false} RunAgrees(w: World, steps: seq<Step>)
    requires Inv(w) && AllAgree(w) && Legal(w, steps)
    ensures AllAgree(Run(w, steps))
    decreases steps
  {
    hide Inv, Enabled, Next, AllAgree;
    if steps != [] {
      RunAgrees(w, steps[..|steps| - 1]);
      RunKeepsInv(w, steps[..|steps| - 1]);
      StepAgrees(Run(w, steps[..|steps| - 1]), steps[|steps| - 1]);
    }
  }

  /** So the conditions agree in every reachable state. */
  lemma ReachableAgrees(steps: seq<Step>)
    requires Legal(START, steps)
    ensures AllAgree(Run(START, steps))
  {
    assert Inv(START) && AllAgree(START);
    hide Inv, AllAgree, Legal, Run;
    RunAgrees(START, steps);
  }
}
