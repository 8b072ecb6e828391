/**
 * What each phase of the deployment reconciler does, exactly, in terms of the stored objects and the answers alone
 * (internal/controller/mcudeployment_controller.go). Names, labels, limits and reasons are spelled out here once more,
 * independently of the step functions.
 */
module DeploymentExactly {
  import opened Wrappers
  import opened Conditions
  import opened NodeTypes
  import opened DeploymentStep
  import opened DeploymentProgress

  // ---------------------------------------------------------------- conditions

  function ProgressingOf(q: Phase): Condition {
    if q == Deployed then Condition(Progressing, False, "DeploymentComplete")
    else if q == Failed then Condition(Progressing, False, "OTAFailed")
    else Condition(Progressing, True, "OTAInProgress")
  }

  function AvailableOf(q: Phase, before: Option<Condition>): Option<Condition> {
    match q
    case Deployed => Some(Condition(Available, True, "WorkloadReady"))
    case Confirming => Some(Condition(Available, False, "PendingVerification"))
    case Failed => Some(Condition(Available, False, "DeviceDegraded"))
    case _ => before
  }

  /** The three conditions a deployment shows right after it has entered phase q. */
  predicate Shows(q: Phase, before: seq<Condition>, cs: seq<Condition>) {
    && Find(cs, Progressing) == Some(ProgressingOf(q))
    && Find(cs, Available) == AvailableOf(q, Find(before, Available))
    && Find(cs, Ready) == Some(if q == Deployed then Condition(Ready, True, "DeploymentReady")
                               else Condition(Ready, False, "DeploymentNotReady"))
  }

  lemma ReadyShows(cs: seq<Condition>, kind: Kind)
    ensures Find(WithReady(cs), kind) ==
            if kind != Ready then Find(cs, kind)
            else if && Find(cs, Progressing).Some? && Find(cs, Progressing).value.status == False
                    && Find(cs, Available).Some? && Find(cs, Available).value.status == True
            then Some(Condition(Ready, True, "DeploymentReady"))
            else Some(Condition(Ready, False, "DeploymentNotReady"))
  {
    hide With, Find;
    FindWith(cs, Condition(Ready, True, "DeploymentReady"), kind);
    FindWith(cs, Condition(Ready, False, "DeploymentNotReady"), kind);
  }

  lemma TwoShow(cs: seq<Condition>, p: Condition, a: Condition, kind: Kind)
    requires p.kind == Progressing && a.kind == Available
    ensures Find(With(With(cs, p), a), kind) ==
            if kind == Available then Some(a) else if kind == Progressing then Some(p) else Find(cs, kind)
  {
    hide With, Find;
    FindWith(cs, p, kind);
    FindWith(With(cs, p), a, kind);
  }

  lemma PhaseShows(cs: seq<Condition>, q: Phase)
    requires q != Failed
    ensures Shows(q, cs, PhaseConditions(cs, q))
  {
    hide With, Find, WithReady;
    var p := ProgressingOf(q);
    if q == Deployed || q == Confirming {
      var two := With(With(cs, p), AvailableOf(q, None).value);
      forall kind | kind in {Progressing, Available, Ready}
        ensures Find(WithReady(two), kind) == if kind == Ready then Find(WithReady(two), Ready) else Find(two, kind)
      {
        ReadyShows(two, kind);
      }
      TwoShow(cs, p, AvailableOf(q, None).value, Progressing);
      TwoShow(cs, p, AvailableOf(q, None).value, Available);
      ReadyShows(two, Ready);
    } else {
      ReadyShows(With(cs, p), Progressing);
      ReadyShows(With(cs, p), Available);
      ReadyShows(With(cs, p), Ready);
      FindWith(cs, p, Progressing);
      FindWith(cs, p, Available);
    }
  }

  lemma FailureShows(cs: seq<Condition>)
    ensures Shows(Failed, cs, FailedConditions(cs))
  {
    hide With, Find, WithReady;
    var p, a := ProgressingOf(Failed), AvailableOf(Failed, None).value;
    var two := With(With(cs, p), a);
    TwoShow(cs, p, a, Progressing);
    TwoShow(cs, p, a, Available);
    ReadyShows(two, Progressing);
    ReadyShows(two, Available);
    ReadyShows(two, Ready);
  }

  // ---------------------------------------------------------------- the two patches

  /** Nothing but the phase, the message and the conditions of a deployment has changed. */
  predicate OnlyMoved(a: Dep, b: Dep) {
    && b.uid == a.uid && b.spec == a.spec
    && b.status.deploymentId == a.status.deploymentId
    && b.status.digest == a.status.digest && b.status.size == a.status.size
  }

  /** It has entered q on the same node. */
  predicate Entered(a: Dep, b: Dep, q: Phase, msg: Message) {
    && OnlyMoved(a, b) && b.status.boundNode == a.status.boundNode && b.status.phase == q && b.status.message == msg
    && Shows(q, a.status.conditions, b.status.conditions)
  }

  predicate FailedFor(a: Dep, b: Dep, reason: string) {
    Entered(a, b, Failed, Failure(reason)) && b.stamp == a.stamp
  }

  /** Which patches must land for a deployment to enter q. */
  predicate Lands(a: Dep, q: Phase, env: Env) {
    env.statusPatch && (q == Confirming ==> a.stamp.Some? || env.metaPatch)
  }

  /** The stamp is taken once, on the way to Confirming, truncated to the second. */
  predicate StampedFor(a: Dep, b: Dep, q: Phase, env: Env) {
    b.stamp == if q == Confirming && a.stamp.None? && env.metaPatch
               then Some(At(env.now - env.now % 1_000_000_000)) else a.stamp
  }

  lemma SetPhaseExactly(dep: Dep, q: Phase, msg: Message, env: Env)
    requires q != Failed
    ensures var next := SetPhase(dep, q, dep.status.boundNode, msg, env);
            && (Lands(dep, q, env) ==> Entered(dep, next, q, msg))
            && (!Lands(dep, q, env) ==> next.status == dep.status)
            && StampedFor(dep, next, q, env) && OnlyMoved(dep, next)
            && next.status.phase == if Lands(dep, q, env) then q else dep.status.phase
  {
    hide PhaseConditions, Shows;
    PhaseShows(dep.status.conditions, q);
  }

  lemma FailExactly(dep: Dep, reason: string, landed: bool)
    ensures landed ==> FailedFor(dep, Fail(dep, reason, landed), reason)
    ensures !landed ==> Fail(dep, reason, landed) == dep
    ensures Fail(dep, reason, landed).status.phase == if landed then Failed else dep.status.phase
  {
    hide FailedConditions, Shows;
    FailureShows(dep.status.conditions);
  }

  // ---------------------------------------------------------------- binding

  /** Another deployment of the namespace is bound to the node and has not failed. */
  predicate Taken(deps: map<Key, Dep>, key: Key, node: string) {
    exists k | k in deps ::
      && k.ns == key.ns && k.name != key.name
      && deps[k].status.boundNode == node && deps[k].status.phase != Failed
  }

  /** The list has exactly one wanted node, at i. */
  predicate OnlyWanted(nodes: seq<NodeInfo>, wanted: NodeInfo -> bool, i: nat) {
    i < |nodes| && wanted(nodes[i]) && forall j | 0 <= j < |nodes| && j != i :: !wanted(nodes[j])
  }

  /** A reconcile of an unbound deployment that wants certain nodes: it binds to the only one, or says why it cannot. */
  ghost predicate BindsTo(key: Key, dep: Dep, deps: map<Key, Dep>, env: Env, wanted: NodeInfo -> bool, next: Dep) {
    if env.nodes.None? || !env.statusPatch then next == dep
    else
      var nodes := env.nodes.value;
      && ((forall j | 0 <= j < |nodes| :: !wanted(nodes[j])) ==> FailedFor(dep, next, "NoDeviceMatched"))
      && (forall i, j | 0 <= i < j < |nodes| && wanted(nodes[i]) && wanted(nodes[j]) ::
            FailedFor(dep, next, "AmbiguousBinding"))
      && (forall i: nat | OnlyWanted(nodes, wanted, i) ::
            if env.listDeployments && !Taken(deps, key, nodes[i].name)
            then Entered(dep.(status := dep.status.(boundNode := nodes[i].name)), next, Pulling, Blank)
            else FailedFor(dep, next, "DeviceBusy"))
  }

  lemma PullingExactlyAt(dep: Dep, node: string, env: Env)
    ensures var next := SetPhase(dep, Pulling, node, Blank, env);
            && (env.statusPatch ==> Entered(dep.(status := dep.status.(boundNode := node)), next, Pulling, Blank))
            && (!env.statusPatch ==> next == dep)
  {
    hide PhaseConditions, Shows;
    PhaseShows(dep.status.conditions, Pulling);
  }

  lemma WantedAreCandidates(spec: Spec, nodes: seq<NodeInfo>, wanted: NodeInfo -> bool)
    requires forall n | n in nodes :: wanted(n) <==> Selects(spec, n)
    ensures var found := Candidates(spec, nodes);
            && (|found| == 0 <==> forall j | 0 <= j < |nodes| :: !wanted(nodes[j]))
            && (forall i, j | 0 <= i < j < |nodes| && wanted(nodes[i]) && wanted(nodes[j]) :: |found| > 1)
            && (forall i: nat | OnlyWanted(nodes, wanted, i) :: found == [nodes[i]])
  {
    hide Selects, Candidates;
    var found := Candidates(spec, nodes);
    OneCandidate(spec, nodes);
    forall i: nat
      ensures OnlyWanted(nodes, wanted, i) <==> OnlyMatch(spec, nodes, i)
    {
    }
    assert forall j | 0 <= j < |nodes| :: nodes[j] in nodes;
    forall i, j | 0 <= i < j < |nodes| && wanted(nodes[i]) && wanted(nodes[j])
      ensures |found| > 1
    {
      assert Selects(spec, nodes[i]) && Selects(spec, nodes[j]);
    }
  }

  lemma BindingExactly(key: Key, dep: Dep, deps: map<Key, Dep>, env: Env, wanted: NodeInfo -> bool)
    requires env.nodes.Some? ==> forall n | n in env.nodes.value :: wanted(n) <==> Selects(dep.spec, n)
    ensures BindsTo(key, dep, deps, env, wanted, BindingOutcome(key, dep, deps, env))
  {
    hide Selects, SetPhase, Fail, Entered, FailedFor, Candidates, OnlyWanted;
    FailExactly(dep, "NoDeviceMatched", env.statusPatch);
    FailExactly(dep, "AmbiguousBinding", env.statusPatch);
    FailExactly(dep, "DeviceBusy", env.statusPatch);
    if env.nodes.Some? {
      var found := Candidates(dep.spec, env.nodes.value);
      WantedAreCandidates(dep.spec, env.nodes.value, wanted);
      if |found| == 1 {
        PullingExactlyAt(dep, found[0].name, env);
        assert Taken(deps, key, found[0].name) <==> Busy(deps, key, found[0].name);
      }
    }
  }

  function Named(name: string): NodeInfo -> bool {
    (n: NodeInfo) => n.name == name
  }

  function Carrying(selector: map<string, string>): NodeInfo -> bool {
    (n: NodeInfo) => forall k | k in selector :: (if k in n.labels then n.labels[k] else "") == selector[k]
  }

  /** A deployment with a node name wants exactly the node of that name. */
  lemma BindsByName(key: Key, dep: Dep, deps: map<Key, Dep>, slot: Slot, env: Env)
    requires dep.status.phase in {NoPhase, Binding} && dep.spec.nodeName != ""
    ensures var out := ReconcileOutcome(key, dep, deps, slot, env);
            out.cmds == [] && BindsTo(key, dep, deps, env, Named(dep.spec.nodeName), out.dep)
  {
    hide BindingOutcome, BindsTo;
    BindingExactly(key, dep, deps, env, Named(dep.spec.nodeName));
  }

  /** Without a name it wants the nodes that carry every pair of its selector; a missing label reads as empty. */
  lemma BindsByLabels(key: Key, dep: Dep, deps: map<Key, Dep>, slot: Slot, env: Env)
    requires dep.status.phase in {NoPhase, Binding} && dep.spec.nodeName == ""
    ensures var out := ReconcileOutcome(key, dep, deps, slot, env);
            out.cmds == [] && BindsTo(key, dep, deps, env, Carrying(dep.spec.nodeSelector), out.dep)
  {
    hide BindingOutcome, BindsTo;
    BindingExactly(key, dep, deps, env, Carrying(dep.spec.nodeSelector));
  }

  // ---------------------------------------------------------------- pulling

  lemma PullingExactly(key: Key, dep: Dep, deps: map<Key, Dep>, slot: Slot, env: Env)
    requires dep.status.phase == Pulling
    ensures var out := ReconcileOutcome(key, dep, deps, slot, env);
            var s, t := dep.status, out.dep.status;
            && out.cmds == [] && out.dep.stamp == dep.stamp && out.dep.uid == dep.uid && out.dep.spec == dep.spec
            && (env.firmware.Some? && env.statusPatch ==>
                  && t.phase == Preparing && t.boundNode == s.boundNode && t.message == s.message
                  && t.deploymentId == (if s.deploymentId == "" then dep.uid else s.deploymentId)
                  && (t.digest, t.size) == env.firmware.value
                  && Shows(Preparing, s.conditions, t.conditions))
            && (env.firmware.None? || !env.statusPatch ==> t == s)
  {
    hide PhaseConditions, Shows;
    PhaseShows(dep.status.conditions, Preparing);
  }

  // ---------------------------------------------------------------- preparing

  /** The bound node has an address and a token. */
  predicate Reachable(env: Env) {
    env.node.Some? && env.node.value.vital.ip != "" && env.token
  }

  /** The device was reached, and the push of a configuration, if there is one, gave `config`. */
  predicate ConfigSettled(dep: Dep, env: Env) {
    Reachable(env) && (dep.spec.configMapRef == "" || env.config.ConfigOk?)
  }

  predicate ConfigRefused(dep: Dep, env: Env) {
    Reachable(env) && dep.spec.configMapRef != "" && env.config.ConfigPermanent?
  }

  /** The device answered GET /info, with a version the Core speaks or not. */
  predicate Informed(dep: Dep, env: Env, supported: bool) {
    ConfigSettled(dep, env) && env.info.Info? && env.info.apiSupported == supported
  }

  predicate ResumesFrom(dep: Dep, slot: Slot) {
    slot == ActivatingSlot(dep.status.deploymentId) || slot == WrittenSlot(dep.status.digest, dep.status.deploymentId)
  }

  /** POST /ota/prepare is sent. */
  predicate Asks(dep: Dep, slot: Slot, env: Env) {
    Informed(dep, env, true) && !ResumesFrom(dep, slot)
  }

  /** What follows a settled configuration. */
  predicate PrepareIs(dep: Dep, slot: Slot, env: Env, out: Outcome) {
    var q := out.dep.status.phase;
    && (q == Writing <==> Asks(dep, slot, env) && env.prepare == Accepted && env.statusPatch)
    && (q == Activating <==>
          && Informed(dep, env, true) && env.statusPatch
          && slot == WrittenSlot(dep.status.digest, dep.status.deploymentId))
    && (q == Confirming <==>
          Informed(dep, env, true) && Lands(dep, Confirming, env) && slot == ActivatingSlot(dep.status.deploymentId))
    && (q == Failed <==>
          && env.statusPatch
          && (ConfigRefused(dep, env) || Informed(dep, env, false)
              || (Asks(dep, slot, env) && env.prepare.Rejected?)))
    && (q == Failed ==>
          FailedFor(dep, out.dep,
                    if ConfigRefused(dep, env) then env.config.reason
                    else if Informed(dep, env, false) then "APIVersionUnsupported"
                    else if env.prepare.Rejected? then env.prepare.reason else ""))
    && (q in {Writing, Activating, Confirming} ==> Entered(dep, out.dep, q, Blank))
    && (q !in {Writing, Activating, Confirming, Failed} ==> out.dep.status == dep.status)
    && (Prepare(true) in out.cmds <==> Asks(dep, slot, env) && env.prepare == Accepted)
    && (Prepare(false) in out.cmds <==> Asks(dep, slot, env) && env.prepare != Accepted)
  }

  lemma SettledIsNotRefused(dep: Dep, env: Env)
    ensures !(ConfigSettled(dep, env) && ConfigRefused(dep, env))
  {
  }

  lemma PrepareExactly(dep: Dep, slot: Slot, env: Env)
    requires dep.status.phase == Preparing && ConfigSettled(dep, env)
    ensures var out := PrepareOutcome(dep, slot, env);
            PrepareIs(dep, slot, env, out) && forall c | c in out.cmds :: c.Prepare?
  {
    hide SetPhase, Fail, Entered, FailedFor, OnlyMoved, StampedFor, ConfigSettled, ConfigRefused;
    SettledIsNotRefused(dep, env);
    SetPhaseExactly(dep, Confirming, Blank, env);
    SetPhaseExactly(dep, Activating, Blank, env);
    SetPhaseExactly(dep, Writing, Blank, env);
    FailExactly(dep, "APIVersionUnsupported", env.statusPatch);
    if env.prepare.Rejected? {
      FailExactly(dep, env.prepare.reason, env.statusPatch);
    }
  }

  /**
   * Preparing, exactly: a deployment starts to write only if the device accepted it; it fails for a configuration that
   * can never be pushed, for a version the Core does not speak, or for the reason the device gives when it refuses.
   */
  lemma PreparingExactly(key: Key, dep: Dep, deps: map<Key, Dep>, slot: Slot, env: Env)
    requires dep.status.phase == Preparing
    ensures var out := ReconcileOutcome(key, dep, deps, slot, env);
            && PrepareIs(dep, slot, env, out)
            && (PushConfig in out.cmds <==>
                  && Reachable(env) && dep.spec.configMapRef != ""
                  && (env.config.ConfigOk? || env.config.ConfigTransient?) && env.config.pushed)
            && forall c | c in out.cmds :: c.PushConfig? || c.Prepare?
  {
    hide PrepareOutcome, Fail, Entered, FailedFor;
    if ConfigSettled(dep, env) {
      PrepareExactly(dep, slot, env);
    }
    if env.config.ConfigPermanent? {
      FailExactly(dep, env.config.reason, env.statusPatch);
    }
  }

  // ---------------------------------------------------------------- writing, activating, confirming

  lemma WritingExactly(key: Key, dep: Dep, deps: map<Key, Dep>, slot: Slot, env: Env)
    requires dep.status.phase == Writing
    ensures var out := ReconcileOutcome(key, dep, deps, slot, env);
            var complete := env.write && env.digestOk;
            && out.cmds == (if Reachable(env) && env.stream then [Write(complete)] else [])
            && (if Reachable(env) && env.stream && complete && env.statusPatch
                then Entered(dep, out.dep, Activating, Blank) else out.dep.status == dep.status)
            && out.dep.stamp == dep.stamp
  {
    hide SetPhase, Shows;
    SetPhaseExactly(dep, Activating, Blank, env);
  }

  lemma ActivatingExactly(key: Key, dep: Dep, deps: map<Key, Dep>, slot: Slot, env: Env)
    requires dep.status.phase == Activating
    ensures var out := ReconcileOutcome(key, dep, deps, slot, env);
            var answers := Reachable(env) && env.info.Info?;
            var already := slot == ActivatingSlot(dep.status.deploymentId)
                           || (env.info.Info? && env.info.state == "pending_verify");
            && out.cmds == (if answers && env.info.apiSupported && !already then [Activate] else [])
            && (if answers && !env.info.apiSupported && env.statusPatch
                then FailedFor(dep, out.dep, "APIVersionUnsupported")
                else if answers && env.info.apiSupported && (already || env.activate) && Lands(dep, Confirming, env)
                then Entered(dep, out.dep, Confirming, Blank)
                else out.dep.status == dep.status)
  {
    hide SetPhase, Fail, Shows;
    SetPhaseExactly(dep, Confirming, Blank, env);
    FailExactly(dep, "APIVersionUnsupported", env.statusPatch);
  }

  /** Confirming, exactly: a confirmation wins over a rollback, a rollback over the timeout of two minutes. */
  lemma ConfirmingExactly(key: Key, dep: Dep, deps: map<Key, Dep>, slot: Slot, env: Env)
    requires dep.status.phase == Confirming
    ensures var out := ReconcileOutcome(key, dep, deps, slot, env);
            && out.cmds == [] && out.dep.stamp == dep.stamp
            && (!Reachable(env) || !env.statusPatch ==> out.dep == dep)
            && (Reachable(env) && env.statusPatch ==>
                  var v := env.node.value.vital;
                  if v.state == "running" && v.otaValidated && v.deploymentId == dep.status.deploymentId
                  then Entered(dep, out.dep, Deployed, Note("confirmed by heartbeat"))
                  else if v.state == "failed" || v.state == "rollback" || v.state == "degraded"
                  then FailedFor(dep, out.dep, "DeviceRollback")
                  else if && dep.stamp.Some? && dep.stamp.value.At?
                          && env.now > dep.stamp.value.time + 120_000_000_000
                  then FailedFor(dep, out.dep, "ConfirmTimeout")
                  else out.dep == dep)
  {
    hide SetPhase, Fail, Shows;
    SetPhaseExactly(dep, Deployed, Note("confirmed by heartbeat"), env);
    FailExactly(dep, "DeviceRollback", env.statusPatch);
    FailExactly(dep, "ConfirmTimeout", env.statusPatch);
  }

  // ---------------------------------------------------------------- deployed

  /** What the availability of a deployed object says about its node. */
  function AvailabilityOf(v: Vital, now: int): Condition {
    if v.lastHeartbeat.None? || now > v.lastHeartbeat.value + 10_000_000_000
    then Condition(Available, False, "HeartbeatTimeout")
    else if v.state == "degraded" || v.state == "rollback" || v.state == "failed"
    then Condition(Available, False, "DeviceDegraded")
    else Condition(Available, True, "WorkloadReady")
  }

  /** The three conditions after an availability patch: Progressing stays, Ready follows. */
  predicate Available3(before: seq<Condition>, cs: seq<Condition>, a: Condition) {
    && Find(cs, Progressing) == Find(before, Progressing)
    && Find(cs, Available) == Some(a)
    && Find(cs, Ready) == Some(
      if Find(before, Progressing).Some? && Find(before, Progressing).value.status == False && a.status == True
      then Condition(Ready, True, "DeploymentReady") else Condition(Ready, False, "DeploymentNotReady"))
  }

  lemma AvailabilityShows(cs: seq<Condition>, v: Vital, now: int)
    ensures Available3(cs, WithReady(With(cs, Availability(v, now))), AvailabilityOf(v, now))
  {
    hide With, Find, WithReady;
    var a := Availability(v, now);
    assert a == AvailabilityOf(v, now);
    FindWith(cs, a, Progressing);
    FindWith(cs, a, Available);
    ReadyShows(With(cs, a), Progressing);
    ReadyShows(With(cs, a), Available);
    ReadyShows(With(cs, a), Ready);
  }

  predicate PortWanted(dep: Dep, env: Env) {
    env.node.Some? && dep.spec.appPort != 0 && dep.spec.appPort != env.node.value.appPort
  }

  /** The port of the application is posted: it differs, is allowed, and the device can be reached. */
  predicate PortPosted(dep: Dep, env: Env) {
    PortWanted(dep, env) && env.statusPatch && Reachable(env) && 1024 <= dep.spec.appPort <= 65535
  }

  /** The configuration is looked at: there is one, the port is right or was just set, and the device can be reached. */
  predicate ConfigTurn(dep: Dep, env: Env) {
    && env.statusPatch && Reachable(env) && dep.spec.configMapRef != ""
    && (PortWanted(dep, env) ==> PortPosted(dep, env) && env.port)
  }

  lemma DeployedCommands(dep: Dep, env: Env)
    ensures DeployedOutcome(dep, env).cmds
            == (if PortPosted(dep, env) then [SetPort] else [])
               + (if ConfigTurn(dep, env) && !env.config.ConfigPermanent? && env.config.pushed
                  then [PushConfig] else [])
               + (if ConfigTurn(dep, env) && env.config.ConfigOk? && env.config.reboot then [Reboot] else [])
  {
    hide Fail, WithReady, With, Availability;
  }

  /** The object is `d` after the availability patch, and fails from there or stays. */
  lemma DeployedObject(dep: Dep, env: Env)
    requires env.node.Some? && env.statusPatch
    ensures var cs := WithReady(With(dep.status.conditions, Availability(env.node.value.vital, env.now)));
            var d := dep.(status := dep.status.(conditions := cs));
            DeployedOutcome(dep, env).dep
            == if ConfigTurn(dep, env) && env.config.ConfigPermanent? then Fail(d, env.config.reason, env.secondPatch)
               else d
  {
    hide Fail, WithReady, With, Availability;
  }

  /** Deployed, exactly. */
  lemma DeployedExactly(key: Key, dep: Dep, deps: map<Key, Dep>, slot: Slot, env: Env)
    requires dep.status.phase == Deployed
    ensures var out := ReconcileOutcome(key, dep, deps, slot, env);
            var fails := ConfigTurn(dep, env) && env.config.ConfigPermanent? && env.secondPatch;
            && (env.node.None? || !env.statusPatch ==> out == Outcome(dep, []))
            && (fails ==> FailedFor(dep, out.dep, env.config.reason))
            && (env.node.Some? && env.statusPatch && !fails ==>
                  && out.dep == dep.(status := dep.status.(conditions := out.dep.status.conditions))
                  && Available3(dep.status.conditions, out.dep.status.conditions,
                                AvailabilityOf(env.node.value.vital, env.now)))
            && out.cmds == (if PortPosted(dep, env) then [SetPort] else [])
                           + (if ConfigTurn(dep, env) && !env.config.ConfigPermanent? && env.config.pushed
                              then [PushConfig] else [])
                           + (if ConfigTurn(dep, env) && env.config.ConfigOk? && env.config.reboot
                              then [Reboot] else [])
  {
    DeployedCommands(dep, env);
    if env.node.Some? && env.statusPatch {
      hide DeployedOutcome, Fail, WithReady, With, Availability, AvailabilityOf, Available3, ConfigTurn, PortPosted;
      DeployedObject(dep, env);
      AvailabilityShows(dep.status.conditions, env.node.value.vital, env.now);
      if env.config.ConfigPermanent? {
        var cs := WithReady(With(dep.status.conditions, Availability(env.node.value.vital, env.now)));
        FailExactly(dep.(status := dep.status.(conditions := cs)), env.config.reason, env.secondPatch);
      }
    }
  }
}
