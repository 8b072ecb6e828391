/** The configuration push inside the deployment controller: its answers, commands and effect on the device. */
module ConfigRollout {
  import opened Wrappers
  import opened DeploymentStep
  import Conditions
  import ConfigSync

  type Config = ConfigSync.Config

  /** The answer a push gives to the deployment controller. */
  function AnswerOf(cm: Option<Config>, d: ConfigSync.Device, c: ConfigSync.Calls): ConfigAnswer {
    match ConfigSync.Push(cm, d, c).needsReboot
    case Ok(reboot) => ConfigOk(ConfigSync.Posts(cm, d, c), reboot)
    case Err(Permanent(reason)) => ConfigPermanent(reason)
    case Err(Transient) => ConfigTransient(ConfigSync.Posts(cm, d, c))
  }

  /** What the commands of one reconcile do to the configuration of the device, under the fates of its calls. */
  function Effect(
      d: ConfigSync.Device, cmds: seq<Command>, cm: Option<Config>, c: ConfigSync.Calls): ConfigSync.Device
  {
    if cmds == [] then d
    else
      var before := Effect(d, cmds[..|cmds| - 1], cm, c);
      match cmds[|cmds| - 1]
      case PushConfig =>
        if cm.Some? && (c.post || c.postApplied) then ConfigSync.Posted(before, ConfigSync.Filtered(cm.value))
        else before
      case Reboot => if c.reboot || c.rebootApplied then ConfigSync.Rebooted(before) else before
      case _ => before
  }

  lemma {:induction false} EffectAppend(
      d: ConfigSync.Device, a: seq<Command>, b: seq<Command>, cm: Option<Config>, c: ConfigSync.Calls)
    ensures Effect(d, a + b, cm, c) == Effect(Effect(d, a, cm, c), b, cm, c)
    decreases b
  {
    hide ConfigSync.Posted, ConfigSync.Rebooted, ConfigSync.Filtered;
    if b == [] {
      assert a + b == a;
    } else {
      assert (a + b)[..|a + b| - 1] == a + b[..|b| - 1];
      EffectAppend(d, a, b[..|b| - 1], cm, c);
    }
  }

  /** The commands a push makes, and the reboot it asks for. */
  function PushCommands(cm: Option<Config>, d: ConfigSync.Device, c: ConfigSync.Calls): seq<Command> {
    if ConfigSync.Posts(cm, d, c) then [PushConfig] else []
  }

  function RebootCommands(cm: Option<Config>, d: ConfigSync.Device, c: ConfigSync.Calls): seq<Command> {
    if ConfigSync.Push(cm, d, c).needsReboot == Ok(true) then [Reboot] else []
  }

  lemma PushEffect(cm: Option<Config>, d: ConfigSync.Device, c: ConfigSync.Calls)
    ensures Effect(d, PushCommands(cm, d, c), cm, c) == ConfigSync.Push(cm, d, c).device
    ensures Effect(d, PushCommands(cm, d, c) + RebootCommands(cm, d, c), cm, c) == ConfigSync.Reconciled(cm, d, c)
  {
    hide ConfigSync.Posted, ConfigSync.Rebooted, ConfigSync.Filtered, ConfigSync.WithinLimits, ConfigSync.Diverges;
    assert [PushConfig][..0] == [] && [Reboot][..0] == [];
    EffectAppend(d, PushCommands(cm, d, c), RebootCommands(cm, d, c), cm, c);
  }

  /**
   * Deployed: the controller posts exactly when the push makes its POST, reboots exactly when the push asks for it,
   * fails for the reason of the push, and leaves the device as the configuration protocol says.
   */
  lemma ConfigOnlyIsPush(dep: Dep, env: Env, cm: Option<Config>, d: ConfigSync.Device, c: ConfigSync.Calls)
    requires HasClient(env) && env.config == AnswerOf(cm, d, c)
    ensures var out := ConfigOnlyOutcome(dep, env);
            && out.cmds == PushCommands(cm, d, c) + RebootCommands(cm, d, c)
            && Effect(d, out.cmds, cm, c) == ConfigSync.Reconciled(cm, d, c)
            && out.dep == match ConfigSync.Push(cm, d, c).needsReboot
                          case Err(Permanent(reason)) => Fail(dep, reason, env.secondPatch)
                          case _ => dep
  {
    hide Fail, ConfigSync.WithinLimits, ConfigSync.Diverges, Effect, ConfigSync.Reconciled;
    PushEffect(cm, d, c);
  }

  /** What follows the push in Preparing asks the device at most to prepare, which leaves its configuration alone. */
  lemma PrepareIsNeutral(dep: Dep, slot: Slot, env: Env, d: ConfigSync.Device, cm: Option<Config>, c: ConfigSync.Calls)
    ensures var cmds := PrepareOutcome(dep, slot, env).cmds;
            (cmds == [] || cmds == [Prepare(true)] || cmds == [Prepare(false)]) && Effect(d, cmds, cm, c) == d
  {
    hide Fail, SetPhase;
    assert [Prepare(true)][..0] == [] && [Prepare(false)][..0] == [];
  }

  /**
   * Preparing: the POST comes before anything else of the rollout, no reboot is sent, and a permanent configuration
   * error fails the deployment before the device is asked to prepare.
   */
  lemma PreparingIsPush(
      dep: Dep, slot: Slot, env: Env, cm: Option<Config>, d: ConfigSync.Device, c: ConfigSync.Calls)
    requires HasClient(env) && UsesConfigMap(dep) && env.config == AnswerOf(cm, d, c)
    ensures var out := PreparingOutcome(dep, slot, env);
            && PushCommands(cm, d, c) <= out.cmds
            && (PushConfig in out.cmds <==> ConfigSync.Posts(cm, d, c)) && Reboot !in out.cmds
            && Effect(d, out.cmds, cm, c) == ConfigSync.Push(cm, d, c).device
            && match ConfigSync.Push(cm, d, c).needsReboot
               case Err(Permanent(reason)) => out == Outcome(Fail(dep, reason, env.statusPatch), [])
               case Err(Transient) => out == Outcome(dep, PushCommands(cm, d, c))
               case Ok(_) => out.dep == PrepareOutcome(dep, slot, env).dep
  {
    hide Fail, PrepareOutcome, Effect, HasClient, ConfigSync.WithinLimits, ConfigSync.Diverges, ConfigSync.Reconciled;
    PushEffect(cm, d, c);
    PrepareIsNeutral(dep, slot, env, ConfigSync.Push(cm, d, c).device, cm, c);
    EffectAppend(d, PushCommands(cm, d, c), PrepareOutcome(dep, slot, env).cmds, cm, c);
  }

  /** The configuration step of a deployed object is reached: the availability patch lands and the port is settled. */
  predicate ReachesConfig(dep: Dep, env: Env) {
    && dep.status.phase == Deployed && UsesConfigMap(dep) && HasClient(env) && env.statusPatch
    && (dep.spec.appPort == 0 || dep.spec.appPort == env.node.value.appPort)
  }

  lemma DeployedIsConfigOnly(key: Key, dep: Dep, deps: map<Key, Dep>, slot: Slot, env: Env) returns (d: Dep)
    requires ReachesConfig(dep, env)
    ensures d.status.phase == Deployed
    ensures ReconcileOutcome(key, dep, deps, slot, env) == ConfigOnlyOutcome(d, env)
  {
    hide WithReady, Availability, ConfigOnlyOutcome;
    var cs := WithReady(Conditions.With(dep.status.conditions, Availability(env.node.value.vital, env.now)));
    d := dep.(status := dep.status.(conditions := cs));
    assert [] + ConfigOnlyOutcome(d, env).cmds == ConfigOnlyOutcome(d, env).cmds;
  }

  /**
   * Main result: one undisturbed reconcile of a deployed object leaves the device with the desired configuration stored
   * and active, exactly when the device can store it, whatever state earlier crashes left it in.
   */
  lemma DeployedConverges(
      key: Key, dep: Dep, deps: map<Key, Dep>, slot: Slot, env: Env, data: Config, d: ConfigSync.Device)
    requires ReachesConfig(dep, env) && env.config == AnswerOf(Some(data), d, ConfigSync.CLEAN)
    requires ConfigSync.Consistent(d) && ConfigSync.WithinLimits(data)
    ensures var out := ReconcileOutcome(key, dep, deps, slot, env);
            && out.dep.status.phase == Deployed
            && (ConfigSync.Converged(data, Effect(d, out.cmds, Some(data), ConfigSync.CLEAN))
                <==> ConfigSync.Storable(data, d))
  {
    hide ReconcileOutcome, ConfigOnlyOutcome, ConfigSync.Converged, ConfigSync.Storable, Effect, ConfigSync.Reconciled;
    hide ConfigSync.Diverges, ConfigSync.WithinLimits, ConfigSync.Consistent;
    var e := DeployedIsConfigOnly(key, dep, deps, slot, env);
    ConfigOnlyIsPush(e, env, Some(data), d, ConfigSync.CLEAN);
    ConfigSync.ConvergesExactlyWhen(data, d);
  }

  /** After that, whatever happens to the calls, a reconcile neither posts nor reboots, and stays Deployed. */
  lemma ConvergedIsLeftAlone(
      key: Key, dep: Dep, deps: map<Key, Dep>, slot: Slot, env: Env, data: Config, d: ConfigSync.Device,
      c: ConfigSync.Calls)
    requires ReachesConfig(dep, env) && env.config == AnswerOf(Some(data), d, c)
    requires ConfigSync.Converged(data, d) && ConfigSync.WithinLimits(data)
    ensures var out := ReconcileOutcome(key, dep, deps, slot, env);
            out.cmds == [] && out.dep.status.phase == Deployed
  {
    hide ReconcileOutcome, ConfigOnlyOutcome, Effect, ConfigSync.Reconciled, ConfigSync.WithinLimits;
    var e := DeployedIsConfigOnly(key, dep, deps, slot, env);
    ConfigOnlyIsPush(e, env, Some(data), d, c);
    ConfigSync.ConvergedIsQuiet(data, d, c);
  }

  /** A deployed object whose port is settled fails exactly when its map is missing or over the limits. */
  lemma ConfigFailsExactlyWhen(
      key: Key, dep: Dep, deps: map<Key, Dep>, slot: Slot, env: Env, cm: Option<Config>, d: ConfigSync.Device,
      c: ConfigSync.Calls)
    requires ReachesConfig(dep, env) && env.config == AnswerOf(cm, d, c)
    ensures var out := ReconcileOutcome(key, dep, deps, slot, env);
            && (out.dep.status.phase == Failed <==>
                  env.secondPatch && c.read && (cm.None? || ConfigSync.TooLong(cm.value)))
            && (out.dep.status.phase == Failed ==>
                  out.cmds == []
                  && out.dep.status.message == Failure(if cm.None? then "ConfigMapNotFound" else "ConfigInvalid"))
  {
    assert cm.Some? ==> (ConfigSync.TooLong(cm.value) <==> !ConfigSync.WithinLimits(cm.value));
    hide ReconcileOutcome, ConfigOnlyOutcome, FailedConditions, Effect, ConfigSync.Reconciled, ConfigSync.WithinLimits;
    hide ConfigSync.Diverges, ConfigSync.TooLong;
    var e := DeployedIsConfigOnly(key, dep, deps, slot, env);
    ConfigOnlyIsPush(e, env, cm, d, c);
  }
}
