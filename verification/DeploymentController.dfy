/**
 * The deployment reconciler as it runs (internal/controller/mcudeployment_controller.go): it reads an object, changes
 * the copy in place, and patches it back. Every method is tied to the step functions of DeploymentStep.
 */
module DeploymentController {
  import opened Wrappers
  import opened Conditions
  import opened NodeTypes
  import opened DeploymentStep

  /** The in-memory copy of one McuDeployment. */
  class DepObject {
    const uid: string
    const spec: Spec
    var stamp: Option<Stamp>
    var status: Status

    constructor (d: Dep)
      ensures View() == d
    {
      uid, spec, stamp, status := d.uid, d.spec, d.stamp, d.status;
    }

    function View(): Dep
      reads this
    {
      Dep(uid, spec, stamp, status)
    }

    method SetCondition(c: Condition)
      modifies this`status
      ensures status == old(status).(conditions := With(old(status.conditions), c))
    {
      var cs := SetStatusCondition(status.conditions, c);
      status := status.(conditions := cs);
    }

    method SetReadyCondition()
      modifies this`status
      ensures status == old(status).(conditions := WithReady(old(status.conditions)))
    {
      var progressing := FindStatusCondition(status.conditions, Progressing);
      var available := FindStatusCondition(status.conditions, Available);
      if progressing.Some? && available.Some? && progressing.value.status == False && available.value.status == True {
        SetCondition(Condition(Ready, True, "DeploymentReady"));
      } else {
        SetCondition(Condition(Ready, False, "DeploymentNotReady"));
      }
    }

    method SetDeploymentConditions(phase: Phase)
      modifies this`status
      ensures status == old(status).(conditions := PhaseConditions(old(status.conditions), phase))
    {
      match phase {
        case Deployed =>
          SetCondition(Condition(Progressing, False, "DeploymentComplete"));
          SetCondition(Condition(Available, True, "WorkloadReady"));
        case Confirming =>
          SetCondition(Condition(Progressing, True, "OTAInProgress"));
          SetCondition(Condition(Available, False, "PendingVerification"));
        case _ =>
          SetCondition(Condition(Progressing, True, "OTAInProgress"));
      }
      SetReadyCondition();
    }
  }

  /** Whether every label of the selector has its value; a missing label reads as the empty string. */
  method MatchesSelector(selector: map<string, string>, labels: map<string, string>) returns (matches: bool)
    ensures matches <==> forall k | k in selector :: Label(labels, k) == selector[k]
  {
    var rest := selector.Keys;
    while rest != {}
      invariant rest <= selector.Keys
      invariant forall k | k in selector && k !in rest :: Label(labels, k) == selector[k]
      decreases rest
    {
      var k :| k in rest;
      if Label(labels, k) != selector[k] {
        return false;
      }
      rest := rest - {k};
    }
    return true;
  }

  method IsSelected(spec: Spec, n: NodeInfo) returns (selected: bool)
    ensures selected == Selects(spec, n)
  {
    if spec.nodeName != "" {
      return n.name == spec.nodeName;
    }
    selected := MatchesSelector(spec.nodeSelector, n.labels);
  }

  /** Keeps the nodes that match the name, or else every label of the selector. */
  method CandidateNodes(spec: Spec, nodes: seq<NodeInfo>) returns (found: seq<NodeInfo>)
    ensures found == Candidates(spec, nodes)
  {
    hide Selects;
    found := [];
    var i := 0;
    while i < |nodes|
      invariant 0 <= i <= |nodes|
      invariant Candidates(spec, nodes) == found + Candidates(spec, nodes[i..])
    {
      assert nodes[i..][1..] == nodes[i + 1..];
      var selected := IsSelected(spec, nodes[i]);
      if selected {
        found := found + [nodes[i]];
      }
      i := i + 1;
    }
  }

  /** The API server's objects, the devices' staged slots, and the commands sent. */
  class Controller {
    var deps: map<Key, Dep>
    var slots: map<Key, Slot>
    var log: seq<Entry>
    var outbox: seq<Command>  // the commands of the running reconcile, in the order sent
    ghost var born: set<string>

    constructor ()
      ensures Objects() == World(map[], map[], [], {})
    {
      deps, slots, log, outbox, born := map[], map[], [], [], {};
    }

    ghost function Objects(): World
      reads this
    {
      World(deps, slots, log, born)
    }

    method Send(c: Command)
      modifies this`outbox
      ensures outbox == old(outbox) + [c]
    {
      outbox := outbox + [c];
    }

    /** True when another deployment of the namespace holds the node and has not failed. */
    method CheckNotBusy(key: Key, node: string) returns (busy: bool)
      ensures busy <==> Busy(deps, key, node)
    {
      var rest := deps.Keys;
      while rest != {}
        invariant rest <= deps.Keys
        invariant forall k | k in deps && k !in rest ::
                    !(&& k.ns == key.ns && k.name != key.name
                      && deps[k].status.boundNode == node && deps[k].status.phase != Failed)
        decreases rest
      {
        var k :| k in rest;
        rest := rest - {k};
        if k.ns != key.ns || k.name == key.name {
          continue;
        }
        if deps[k].status.boundNode == node && deps[k].status.phase != Failed {
          return true;
        }
      }
      return false;
    }

    method SetPhase(key: Key, dep: DepObject, phase: Phase, boundNode: string, msg: Message, env: Env)
      requires key in deps && deps[key] == dep.View()
      modifies this`deps, dep
      ensures deps == old(deps)[key := DeploymentStep.SetPhase(old(dep.View()), phase, boundNode, msg, env)]
    {
      if phase == Confirming && dep.stamp == None {
        dep.stamp := Some(At(Truncated(env.now)));
        if !env.metaPatch {
          return;
        }
        deps := deps[key := deps[key].(stamp := dep.stamp)];
      }
      dep.status := dep.status.(phase := phase, boundNode := boundNode, message := msg);
      dep.SetDeploymentConditions(phase);
      if env.statusPatch {
        deps := deps[key := deps[key].(status := dep.status)];
      }
    }

    method Fail(key: Key, dep: DepObject, reason: string, landed: bool)
      requires key in deps && deps[key] == dep.View()
      modifies this`deps, dep
      ensures deps == old(deps)[key := DeploymentStep.Fail(old(dep.View()), reason, landed)]
    {
      dep.status := dep.status.(phase := Failed, message := Failure(reason));
      dep.SetCondition(Condition(Progressing, False, "OTAFailed"));
      dep.SetCondition(Condition(Available, False, "DeviceDegraded"));
      dep.SetReadyCondition();
      if landed {
        deps := deps[key := deps[key].(status := dep.status)];
      }
    }

    method PhaseBinding(key: Key, dep: DepObject, env: Env)
      requires key in deps && deps[key] == dep.View()
      modifies this`deps, dep
      ensures deps == old(deps)[key := BindingOutcome(key, old(dep.View()), old(deps), env)]
    {
      if env.nodes == None {
        return;
      }
      var found := CandidateNodes(dep.spec, env.nodes.value);
      if |found| == 0 {
        Fail(key, dep, "NoDeviceMatched", env.statusPatch);
      } else if |found| == 1 {
        var busy := true;
        if env.listDeployments {
          busy := CheckNotBusy(key, found[0].name);
        }
        if busy {
          Fail(key, dep, "DeviceBusy", env.statusPatch);
        } else {
          SetPhase(key, dep, Pulling, found[0].name, Blank, env);
        }
      } else {
        Fail(key, dep, "AmbiguousBinding", env.statusPatch);
      }
    }

    method PhasePulling(key: Key, dep: DepObject, env: Env)
      requires key in deps && deps[key] == dep.View()
      modifies this`deps, dep
      ensures deps == old(deps)[key := PullingOutcome(old(dep.View()), env)]
    {
      if env.firmware == None {
        return;
      }
      dep.status := dep.status.(phase := Preparing);
      if dep.status.deploymentId == "" {
        dep.status := dep.status.(deploymentId := dep.uid);
      }
      dep.status := dep.status.(digest := env.firmware.value.0, size := env.firmware.value.1);
      dep.SetDeploymentConditions(Preparing);
      if env.statusPatch {
        deps := deps[key := deps[key].(status := dep.status)];
      }
    }

    /** What follows the configuration in phasePreparing: resume from the staged slot, or prepare anew. */
    method ResumeOrPrepare(key: Key, dep: DepObject, slot: Slot, env: Env)
      requires key in deps && deps[key] == dep.View()
      modifies this`deps, this`outbox, dep
      ensures var out := PrepareOutcome(old(dep.View()), slot, env);
              deps == old(deps)[key := out.dep] && outbox == old(outbox) + out.cmds
    {
      hide DeploymentStep.SetPhase, DeploymentStep.Fail;
      if env.info == NoInfo {
        return;
      }
      if !env.info.apiSupported {
        Fail(key, dep, "APIVersionUnsupported", env.statusPatch);
        return;
      }
      if slot == ActivatingSlot(dep.status.deploymentId) {
        SetPhase(key, dep, Confirming, dep.status.boundNode, Blank, env);
        return;
      }
      if slot == WrittenSlot(dep.status.digest, dep.status.deploymentId) {
        SetPhase(key, dep, Activating, dep.status.boundNode, Blank, env);
        return;
      }
      Send(Prepare(env.prepare == Accepted));
      match env.prepare {
        case NoAnswer =>
        case Rejected(reason) => Fail(key, dep, reason, env.statusPatch);
        case Accepted => SetPhase(key, dep, Writing, dep.status.boundNode, Blank, env);
      }
    }

    method PhasePreparing(key: Key, dep: DepObject, slot: Slot, env: Env)
      requires key in deps && deps[key] == dep.View() && outbox == []
      modifies this`deps, this`outbox, dep
      ensures var out := PreparingOutcome(old(dep.View()), slot, env);
              deps == old(deps)[key := out.dep] && outbox == out.cmds
    {
      hide DeploymentStep.Fail, PrepareOutcome, HasClient;
      if !HasClient(env) {
        return;
      }
      if dep.spec.configMapRef != "" {
        match env.config {
          case ConfigPermanent(reason) =>
            Fail(key, dep, reason, env.statusPatch);
            return;
          case ConfigTransient(pushed) =>
            if pushed {
              Send(PushConfig);
            }
            return;
          case ConfigOk(pushed, _) =>
            if pushed {
              Send(PushConfig);
            }
        }
      }
      ResumeOrPrepare(key, dep, slot, env);
    }

    method PhaseWriting(key: Key, dep: DepObject, env: Env)
      requires key in deps && deps[key] == dep.View() && outbox == []
      modifies this`deps, this`outbox, dep
      ensures var out := WritingOutcome(old(dep.View()), env);
              deps == old(deps)[key := out.dep] && outbox == out.cmds
    {
      hide DeploymentStep.SetPhase;
      if !HasClient(env) || !env.stream {
        return;
      }
      Send(Write(env.write && env.digestOk));
      if !env.write || !env.digestOk {
        return;
      }
      SetPhase(key, dep, Activating, dep.status.boundNode, Blank, env);
    }

    method PhaseActivating(key: Key, dep: DepObject, slot: Slot, env: Env)
      requires key in deps && deps[key] == dep.View() && outbox == []
      modifies this`deps, this`outbox, dep
      ensures var out := ActivatingOutcome(old(dep.View()), slot, env);
              deps == old(deps)[key := out.dep] && outbox == out.cmds
    {
      hide DeploymentStep.SetPhase, DeploymentStep.Fail;
      if !HasClient(env) || env.info == NoInfo {
        return;
      }
      if !env.info.apiSupported {
        Fail(key, dep, "APIVersionUnsupported", env.statusPatch);
        return;
      }
      var alreadyActivated := slot == ActivatingSlot(dep.status.deploymentId) || env.info.state == "pending_verify";
      if !alreadyActivated {
        Send(Activate);
        if !env.activate {
          return;
        }
      }
      SetPhase(key, dep, Confirming, dep.status.boundNode, Blank, env);
    }

    method PhaseConfirming(key: Key, dep: DepObject, env: Env)
      requires key in deps && deps[key] == dep.View()
      modifies this`deps, dep
      ensures deps == old(deps)[key := ConfirmingOutcome(old(dep.View()), env)]
    {
      hide DeploymentStep.SetPhase, DeploymentStep.Fail;
      if !HasClient(env) {
        return;
      }
      var v := env.node.value.vital;
      if v.state == "running" && v.otaValidated && v.deploymentId == dep.status.deploymentId {
        SetPhase(key, dep, Deployed, dep.status.boundNode, Note("confirmed by heartbeat"), env);
        return;
      }
      if v.state == "failed" || v.state == "rollback" || v.state == "degraded" {
        Fail(key, dep, "DeviceRollback", env.statusPatch);
        return;
      }
      if dep.stamp.Some? && dep.stamp.value.At? && env.now - dep.stamp.value.time > CONFIRM_TIMEOUT {
        Fail(key, dep, "ConfirmTimeout", env.statusPatch);
      }
    }

    method ReconcileConfigOnly(key: Key, dep: DepObject, env: Env)
      requires key in deps && deps[key] == dep.View()
      modifies this`deps, this`outbox, dep
      ensures var out := ConfigOnlyOutcome(old(dep.View()), env);
              deps == old(deps)[key := out.dep] && outbox == old(outbox) + out.cmds
    {
      if !HasClient(env) {
        return;
      }
      match env.config {
        case ConfigPermanent(reason) =>
          Fail(key, dep, reason, env.secondPatch);
        case ConfigTransient(pushed) =>
          if pushed {
            Send(PushConfig);
          }
        case ConfigOk(pushed, reboot) =>
          if pushed {
            Send(PushConfig);
          }
          if reboot {
            Send(Reboot);
          }
      }
    }

    method ReconcileDeployed(key: Key, dep: DepObject, env: Env)
      requires key in deps && deps[key] == dep.View() && outbox == []
      modifies this`deps, this`outbox, dep
      ensures var out := DeployedOutcome(old(dep.View()), env);
              deps == old(deps)[key := out.dep] && outbox == out.cmds
    {
      hide ConfigOnlyOutcome, With, WithReady;
      if env.node == None {
        return;
      }
      var node := env.node.value;
      if Expired(node.vital, env.now) {
        dep.SetCondition(Condition(Available, False, "HeartbeatTimeout"));
      } else if node.vital.state in {"degraded", "rollback", "failed"} {
        dep.SetCondition(Condition(Available, False, "DeviceDegraded"));
      } else {
        dep.SetCondition(Condition(Available, True, "WorkloadReady"));
      }
      dep.SetReadyCondition();
      if !env.statusPatch {
        return;
      }
      deps := deps[key := deps[key].(status := dep.status)];
      if dep.spec.appPort != 0 && dep.spec.appPort != node.appPort {
        if !HasClient(env) {
          return;
        }
        if !PortInRange(dep.spec.appPort) {
          return;
        }
        Send(SetPort);
        if !env.port {
          return;
        }
      }
      if dep.spec.configMapRef != "" {
        ReconcileConfigOnly(key, dep, env);
      }
    }

    /** Reconcile: dispatch on the stored phase; the commands sent reach the bound node's log and staged slot. */
    method Reconcile(key: Key, env: Env)
      modifies this
      ensures Objects() == Reconciled(old(Objects()), key, env)
    {
      hide BindingOutcome, PullingOutcome, PreparingOutcome, WritingOutcome, ActivatingOutcome, ConfirmingOutcome;
      hide DeployedOutcome, Entries, SlotAfter;
      outbox := [];
      if key !in deps {
        return;
      }
      var stored := deps[key];
      var dep := new DepObject(stored);
      var node := Key(key.ns, stored.status.boundNode);
      var slot := if node in slots then slots[node] else NoSlot;
      match stored.status.phase {
        case Failed =>
        case Deployed => ReconcileDeployed(key, dep, env);
        case NoPhase => PhaseBinding(key, dep, env);
        case Binding => PhaseBinding(key, dep, env);
        case Pulling => PhasePulling(key, dep, env);
        case Preparing => PhasePreparing(key, dep, slot, env);
        case Writing => PhaseWriting(key, dep, env);
        case Activating => PhaseActivating(key, dep, slot, env);
        case Confirming => PhaseConfirming(key, dep, env);
      }
      log := log + Entries(node, stored.uid, outbox);
      slots := slots[node := SlotAfter(slot, outbox, stored.status, env.slot)];
    }
  }
}
