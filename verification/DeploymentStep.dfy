/**
 * One reconcile of a McuDeployment (internal/controller/mcudeployment_controller.go) as a function of the stored
 * objects and of everything outside the controller: the answers of the API server, the registry and the device, and
 * whether each patch lands. A crash is an answer that never comes or a patch that does not land.
 */
module DeploymentStep {
  import opened Wrappers
  import opened Conditions
  import opened NodeTypes

  datatype Phase =
    NoPhase | Binding | Pulling | Preparing | Writing | Activating | Confirming | Deployed | Failed

  function Rank(p: Phase): nat {
    match p
    case NoPhase => 0 case Binding => 1 case Pulling => 2 case Preparing => 3 case Writing => 4
    case Activating => 5 case Confirming => 6 case Deployed => 7 case Failed => 8
  }

  datatype Message = Blank | Note(text: string) | Failure(reason: string)

  datatype Status = Status(
    phase: Phase,
    boundNode: string,
    deploymentId: string,
    message: Message,
    digest: string,
    size: int,
    conditions: seq<Condition>)

  datatype Spec = Spec(nodeName: string, nodeSelector: map<string, string>, configMapRef: string, appPort: int)

  /** The confirming-since annotation: a parsed RFC 3339 time, or text that does not parse. */
  datatype Stamp = At(time: int) | Garbled

  datatype Dep = Dep(uid: string, spec: Spec, stamp: Option<Stamp>, status: Status)

  /** A namespaced name. */
  datatype Key = Key(ns: string, name: string)

  datatype NodeInfo = NodeInfo(name: string, labels: map<string, string>)

  /** The slot a device reports as staged, with the deployment ID it was staged for. */
  datatype Slot = NoSlot | WrittenSlot(digest: string, id: string) | ActivatingSlot(id: string)

  /**
   * Commands sent to a device; `accepted` marks a prepare the device agreed to, `complete` a write that returned nil
   * and passed the digest check.
   */
  datatype Command =
    | PushConfig
    | Prepare(accepted: bool)
    | Write(complete: bool)
    | Activate
    | Reboot
    | SetPort

  datatype ConfigAnswer =
    | ConfigOk(pushed: bool, reboot: bool)
    | ConfigPermanent(reason: string)
    | ConfigTransient(pushed: bool)

  datatype InfoAnswer = NoInfo | Info(state: string, apiSupported: bool)

  datatype PrepareAnswer = NoAnswer | Accepted | Rejected(reason: string)

  /** How a device's staged slot moves: as the commands ask, not at all, or lost. */
  datatype SlotChange = Follow | Keep | Drop

  datatype Env = Env(
    now: int,
    metaPatch: bool,
    statusPatch: bool,
    secondPatch: bool,
    nodes: Option<seq<NodeInfo>>,
    listDeployments: bool,
    firmware: Option<(string, int)>,
    node: Option<NodeStatus>,
    token: bool,
    config: ConfigAnswer,
    info: InfoAnswer,
    prepare: PrepareAnswer,
    stream: bool,
    write: bool,
    digestOk: bool,
    activate: bool,
    reboot: bool,
    port: bool,
    slot: SlotChange)

  /** What one reconcile leaves behind: the stored object and the commands it sent to the bound node. */
  datatype Outcome = Outcome(dep: Dep, cmds: seq<Command>)

  // ---------------------------------------------------------------- conditions

  function WithReady(cs: seq<Condition>): seq<Condition> {
    if Has(cs, Progressing, False) && Has(cs, Available, True)
    then With(cs, Condition(Ready, True, "DeploymentReady"))
    else With(cs, Condition(Ready, False, "DeploymentNotReady"))
  }

  function PhaseConditions(cs: seq<Condition>, phase: Phase): seq<Condition> {
    WithReady(
      match phase
      case Deployed =>
        With(With(cs, Condition(Progressing, False, "DeploymentComplete")), Condition(Available, True, "WorkloadReady"))
      case Confirming =>
        With(With(cs, Condition(Progressing, True, "OTAInProgress")),
             Condition(Available, False, "PendingVerification"))
      case _ =>
        With(cs, Condition(Progressing, True, "OTAInProgress")))
  }

  function FailedConditions(cs: seq<Condition>): seq<Condition> {
    WithReady(With(With(cs, Condition(Progressing, False, "OTAFailed")), Condition(Available, False, "DeviceDegraded")))
  }

  function Availability(v: Vital, now: int): Condition {
    if Expired(v, now) then Condition(Available, False, "HeartbeatTimeout")
    else if v.state in {"degraded", "rollback", "failed"} then Condition(Available, False, "DeviceDegraded")
    else Condition(Available, True, "WorkloadReady")
  }

  // ---------------------------------------------------------------- the two patches

  function PhaseStatus(s: Status, phase: Phase, boundNode: string, msg: Message): Status {
    s.(phase := phase, boundNode := boundNode, message := msg, conditions := PhaseConditions(s.conditions, phase))
  }

  /** Entering Confirming stamps the time first, once, in a patch of its own. */
  function SetPhase(dep: Dep, phase: Phase, boundNode: string, msg: Message, env: Env): Dep {
    if phase == Confirming && dep.stamp.None? && !env.metaPatch then dep
    else
      var stamped :=
        if phase == Confirming && dep.stamp.None? then dep.(stamp := Some(At(Truncated(env.now)))) else dep;
      if env.statusPatch then stamped.(status := PhaseStatus(dep.status, phase, boundNode, msg)) else stamped
  }

  function Fail(dep: Dep, reason: string, landed: bool): Dep {
    if !landed then dep
    else dep.(status := dep.status.(phase := Failed, message := Failure(reason),
                                    conditions := FailedConditions(dep.status.conditions)))
  }

  // ---------------------------------------------------------------- phases

  function Label(labels: map<string, string>, k: string): string {
    if k in labels then labels[k] else ""
  }

  predicate Selects(spec: Spec, n: NodeInfo) {
    if spec.nodeName != "" then n.name == spec.nodeName
    else forall k | k in spec.nodeSelector :: Label(n.labels, k) == spec.nodeSelector[k]
  }

  function Candidates(spec: Spec, nodes: seq<NodeInfo>): seq<NodeInfo> {
    if nodes == [] then []
    else (if Selects(spec, nodes[0]) then [nodes[0]] else []) + Candidates(spec, nodes[1..])
  }

  /** Another deployment of the namespace is bound to the node and has not failed. */
  predicate Busy(deps: map<Key, Dep>, key: Key, node: string) {
    exists k | k in deps ::
      k.ns == key.ns && k.name != key.name && deps[k].status.boundNode == node && deps[k].status.phase != Failed
  }

  function BindingOutcome(key: Key, dep: Dep, deps: map<Key, Dep>, env: Env): Dep {
    if env.nodes.None? then dep
    else
      var found := Candidates(dep.spec, env.nodes.value);
      if |found| == 0 then Fail(dep, "NoDeviceMatched", env.statusPatch)
      else if |found| > 1 then Fail(dep, "AmbiguousBinding", env.statusPatch)
      else if !env.listDeployments || Busy(deps, key, found[0].name) then Fail(dep, "DeviceBusy", env.statusPatch)
      else SetPhase(dep, Pulling, found[0].name, Blank, env)
  }

  function PullingOutcome(dep: Dep, env: Env): Dep {
    if env.firmware.None? || !env.statusPatch then dep
    else
      var s := dep.status;
      dep.(status := s.(phase := Preparing,
                        deploymentId := if s.deploymentId == "" then dep.uid else s.deploymentId,
                        digest := env.firmware.value.0,
                        size := env.firmware.value.1,
                        conditions := PhaseConditions(s.conditions, Preparing)))
  }

  /** nodeClient: the node object, its IP and its token are all there. */
  predicate HasClient(env: Env) {
    env.node.Some? && env.node.value.vital.ip != "" && env.token
  }

  function ConfigCommands(answer: ConfigAnswer): seq<Command> {
    if (answer.ConfigOk? || answer.ConfigTransient?) && answer.pushed then [PushConfig] else []
  }

  predicate UsesConfigMap(dep: Dep) {
    dep.spec.configMapRef != ""
  }

  /** What is left of Preparing once the configuration is in place: resume from the staged slot, or prepare anew. */
  function PrepareOutcome(dep: Dep, slot: Slot, env: Env): Outcome {
    var s := dep.status;
    if env.info.NoInfo? then Outcome(dep, [])
    else if !env.info.apiSupported then Outcome(Fail(dep, "APIVersionUnsupported", env.statusPatch), [])
    else if slot == ActivatingSlot(s.deploymentId) then Outcome(SetPhase(dep, Confirming, s.boundNode, Blank, env), [])
    else if slot == WrittenSlot(s.digest, s.deploymentId) then
      Outcome(SetPhase(dep, Activating, s.boundNode, Blank, env), [])
    else
      match env.prepare
      case NoAnswer => Outcome(dep, [Prepare(false)])
      case Rejected(reason) => Outcome(Fail(dep, reason, env.statusPatch), [Prepare(false)])
      case Accepted => Outcome(SetPhase(dep, Writing, s.boundNode, Blank, env), [Prepare(true)])
  }

  function PreparingOutcome(dep: Dep, slot: Slot, env: Env): Outcome {
    if !HasClient(env) then Outcome(dep, [])
    else if !UsesConfigMap(dep) then PrepareOutcome(dep, slot, env)
    else
      match env.config
      case ConfigPermanent(reason) => Outcome(Fail(dep, reason, env.statusPatch), [])
      case ConfigTransient(_) => Outcome(dep, ConfigCommands(env.config))
      case ConfigOk(_, _) =>
        var rest := PrepareOutcome(dep, slot, env);
        Outcome(rest.dep, ConfigCommands(env.config) + rest.cmds)
  }

  function WritingOutcome(dep: Dep, env: Env): Outcome {
    if !HasClient(env) || !env.stream then Outcome(dep, [])
    else if !env.write || !env.digestOk then Outcome(dep, [Write(false)])
    else Outcome(SetPhase(dep, Activating, dep.status.boundNode, Blank, env), [Write(true)])
  }

  /** The device already took the activation: nothing must be sent a second time. */
  predicate AlreadyActivated(dep: Dep, slot: Slot, env: Env)
    requires env.info.Info?
  {
    slot == ActivatingSlot(dep.status.deploymentId) || env.info.state == "pending_verify"
  }

  function ActivatingOutcome(dep: Dep, slot: Slot, env: Env): Outcome {
    if !HasClient(env) || env.info.NoInfo? then Outcome(dep, [])
    else if !env.info.apiSupported then Outcome(Fail(dep, "APIVersionUnsupported", env.statusPatch), [])
    else
      var cmds := if AlreadyActivated(dep, slot, env) then [] else [Activate];
      if cmds != [] && !env.activate then Outcome(dep, cmds)
      else Outcome(SetPhase(dep, Confirming, dep.status.boundNode, Blank, env), cmds)
  }

  /** The three fields a confirmation needs, all read from one copy of the node. */
  predicate Confirms(v: Vital, deploymentId: string) {
    v.state == "running" && v.otaValidated && v.deploymentId == deploymentId
  }

  predicate TimedOut(stamp: Option<Stamp>, now: int) {
    stamp.Some? && stamp.value.At? && now - stamp.value.time > CONFIRM_TIMEOUT
  }

  function ConfirmingOutcome(dep: Dep, env: Env): Dep {
    if !HasClient(env) then dep
    else
      var v := env.node.value.vital;
      if Confirms(v, dep.status.deploymentId) then
        SetPhase(dep, Deployed, dep.status.boundNode, Note("confirmed by heartbeat"), env)
      else if v.state in {"failed", "rollback", "degraded"} then Fail(dep, "DeviceRollback", env.statusPatch)
      else if TimedOut(dep.stamp, env.now) then Fail(dep, "ConfirmTimeout", env.statusPatch)
      else dep
  }

  predicate PortInRange(port: int) {
    1024 <= port <= 65535
  }

  function ConfigOnlyOutcome(dep: Dep, env: Env): Outcome {
    if !HasClient(env) then Outcome(dep, [])
    else
      match env.config
      case ConfigPermanent(reason) => Outcome(Fail(dep, reason, env.secondPatch), [])
      case ConfigTransient(_) => Outcome(dep, ConfigCommands(env.config))
      case ConfigOk(_, reboot) => Outcome(dep, ConfigCommands(env.config) + if reboot then [Reboot] else [])
  }

  function DeployedOutcome(dep: Dep, env: Env): Outcome {
    if env.node.None? then Outcome(dep, [])
    else
      var node := env.node.value;
      var cs := WithReady(With(dep.status.conditions, Availability(node.vital, env.now)));
      if !env.statusPatch then Outcome(dep, [])
      else
        var d := dep.(status := dep.status.(conditions := cs));
        var portDiffers := d.spec.appPort != 0 && d.spec.appPort != node.appPort;
        if portDiffers && !HasClient(env) then Outcome(d, [])
        else
          var ports := if portDiffers && PortInRange(d.spec.appPort) then [SetPort] else [];
          if portDiffers && (!PortInRange(d.spec.appPort) || !env.port) then Outcome(d, ports)
          else if d.spec.configMapRef == "" then Outcome(d, ports)
          else
            var rest := ConfigOnlyOutcome(d, env);
            Outcome(rest.dep, ports + rest.cmds)
  }

  function ReconcileOutcome(key: Key, dep: Dep, deps: map<Key, Dep>, slot: Slot, env: Env): Outcome {
    match dep.status.phase
    case Failed => Outcome(dep, [])
    case Deployed => DeployedOutcome(dep, env)
    case NoPhase => Outcome(BindingOutcome(key, dep, deps, env), [])
    case Binding => Outcome(BindingOutcome(key, dep, deps, env), [])
    case Pulling => Outcome(PullingOutcome(dep, env), [])
    case Preparing => PreparingOutcome(dep, slot, env)
    case Writing => WritingOutcome(dep, env)
    case Activating => ActivatingOutcome(dep, slot, env)
    case Confirming => Outcome(ConfirmingOutcome(dep, env), [])
  }

  // ---------------------------------------------------------------- the world

  /** One command in the order sent: the node it went to and the deployment object that sent it. */
  datatype Entry = Entry(node: Key, uid: string, cmd: Command)

  /** `slots`: the staged slot of each device. `born`: every deployment UID ever assigned. */
  datatype World = World(deps: map<Key, Dep>, slots: map<Key, Slot>, log: seq<Entry>, born: set<string>)

  function SlotOf(w: World, node: Key): Slot {
    if node in w.slots then w.slots[node] else NoSlot
  }

  function Entries(node: Key, uid: string, cmds: seq<Command>): seq<Entry> {
    if cmds == [] then [] else [Entry(node, uid, cmds[0])] + Entries(node, uid, cmds[1..])
  }

  /** The staged slot after the commands of one reconcile: the last staging command decides. */
  function Staged(slot: Slot, cmds: seq<Command>, s: Status): Slot {
    if cmds == [] then slot
    else
      match cmds[|cmds| - 1]
      case Prepare(_) => NoSlot
      case Write(_) => WrittenSlot(s.digest, s.deploymentId)
      case Activate => ActivatingSlot(s.deploymentId)
      case _ => Staged(slot, cmds[..|cmds| - 1], s)
  }

  function SlotAfter(slot: Slot, cmds: seq<Command>, s: Status, change: SlotChange): Slot {
    match change
    case Keep => slot
    case Drop => NoSlot
    case Follow => Staged(slot, cmds, s)
  }

  /** The world after Reconcile(key): an absent object is no error and changes nothing. */
  function Reconciled(w: World, key: Key, env: Env): World {
    if key !in w.deps then w
    else
      var dep := w.deps[key];
      var node := Key(key.ns, dep.status.boundNode);
      var out := ReconcileOutcome(key, dep, w.deps, SlotOf(w, node), env);
      w.(deps := w.deps[key := out.dep],
         slots := w.slots[node := SlotAfter(SlotOf(w, node), out.cmds, dep.status, env.slot)],
         log := w.log + Entries(node, dep.uid, out.cmds))
  }
}
