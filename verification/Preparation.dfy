/** The order of a rollout on a node: an accepted prepare, then writes, then the activation, all of one deployment. */
module Preparation {
  import opened DeploymentStep
  import opened DeploymentSafety
  import opened DeploymentRuns
  import opened Staging
  import opened Activation

  /** A deployment in Writing was accepted by the device it is bound to. */
  predicate AllPrepared(w: World) {
    forall k | k in w.deps && w.deps[k].status.phase == Writing ::
      Entry(NodeOf(w, k), w.deps[k].uid, Prepare(true)) in w.log
  }

  /** Every write comes after a prepare of the same deployment that the same device accepted. */
  predicate PrepareBeforeWrite(log: seq<Entry>) {
    forall j | 0 <= j < |log| && log[j].cmd.Write? :: Entry(log[j].node, log[j].uid, Prepare(true)) in log[..j]
  }

  lemma TransitionKeepsPrepared(w: World, key: Key, env: Env)
    requires Inv(w) && AllPrepared(w) && NamedNodes(env) && key in w.deps
    ensures AllPrepared(Reconciled(w, key, env))
  {
    hide Inv, Reconciled, ReconcileOutcome, Shape, SlotAfter, Entries, Busy;
    var node, out, slot := Moved(w, key, env);
    var w' := Reconciled(w, key, env);
    forall k | k in w'.deps && w'.deps[k].status.phase == Writing
      ensures Entry(NodeOf(w', k), w'.deps[k].uid, Prepare(true)) in w'.log
    {
      if k != key {
        assert w'.deps[k] == w.deps[k] && Entry(NodeOf(w, k), w.deps[k].uid, Prepare(true)) in w.log;
      } else if w.deps[k].status.phase == Writing {
        assert Entry(node, w.deps[k].uid, Prepare(true)) in w.log;
      } else {
        assert Prepare(true) in out.cmds;
      }
    }
  }

  lemma TransitionKeepsPrepareOrder(w: World, key: Key, env: Env)
    requires Inv(w) && AllPrepared(w) && PrepareBeforeWrite(w.log) && NamedNodes(env) && key in w.deps
    ensures PrepareBeforeWrite(Reconciled(w, key, env).log)
  {
    hide Inv, Reconciled, ReconcileOutcome, Shape, SlotAfter, Busy;
    var node, out, slot := Moved(w, key, env);
    var w' := Reconciled(w, key, env);
    var n := |w.log|;
    EntriesAre(node, w.deps[key].uid, out.cmds);
    forall j | 0 <= j < |w'.log| && w'.log[j].cmd.Write?
      ensures Entry(w'.log[j].node, w'.log[j].uid, Prepare(true)) in w'.log[..j]
    {
      if j < n {
        assert w'.log[j] == w.log[j] && w'.log[..j] == w.log[..j];
      } else {
        assert w'.log[j].cmd == out.cmds[j - n] && out.cmds[j - n] in out.cmds;
        assert Entry(node, w.deps[key].uid, Prepare(true)) in w.log;
        assert w.log <= w'.log[..j];
      }
    }
  }

  lemma UserStepKeepsPrepared(w: World, w': World)
    requires AllPrepared(w) && UserStep(w, w') && forall k | k in w'.deps :: Shape(w'.deps[k])
    ensures AllPrepared(w')
  {
    forall k | k in w'.deps && w'.deps[k].status.phase == Writing
      ensures Entry(NodeOf(w', k), w'.deps[k].uid, Prepare(true)) in w'.log
    {
      assert k in w.deps && w'.deps[k].uid == w.deps[k].uid && w'.deps[k].status == w.deps[k].status;
      assert Entry(NodeOf(w, k), w.deps[k].uid, Prepare(true)) in w.log;
    }
  }

  lemma StepKeepsPrepared(w: World, s: Step)
    requires Inv(w) && AllPrepared(w) && PrepareBeforeWrite(w.log) && Enabled(w, s)
    ensures AllPrepared(Next(w, s)) && PrepareBeforeWrite(Next(w, s).log)
  {
    hide AllPrepared, PrepareBeforeWrite, Reconciled;
    match s {
      case Reconcile(key, env) =>
        hide Inv;
        if key in w.deps {
          TransitionKeepsPrepared(w, key, env);
          TransitionKeepsPrepareOrder(w, key, env);
        } else {
          AbsentIsNoop(w, key, env);
        }
      case _ =>
        hide Exclusive, Attributed, LastWord, Blocks, Shape;
        UserStepOf(w, s);
        UserStepKeepsPrepared(w, Next(w, s));
    }
  }

  /** Over every run: a device refuses or accepts first, and only an accepted deployment writes to it. */
  lemma {:induction false} RunKeepsPrepared(w: World, steps: seq<Step>)
    requires Inv(w) && AllPrepared(w) && PrepareBeforeWrite(w.log) && Legal(w, steps)
    ensures AllPrepared(Run(w, steps)) && PrepareBeforeWrite(Run(w, steps).log)
    decreases steps
  {
    hide Inv, AllPrepared, PrepareBeforeWrite, Enabled, Next;
    if steps != [] {
      RunKeepsPrepared(w, steps[..|steps| - 1]);
      RunKeepsInv(w, steps[..|steps| - 1]);
      StepKeepsPrepared(Run(w, steps[..|steps| - 1]), steps[|steps| - 1]);
    }
  }

  /** In every reachable state an activation has a completed write before it, and that an accepted prepare. */
  lemma ReachableIsOrdered(steps: seq<Step>, j: int)
    requires Legal(START, steps)
    requires 0 <= j < |Run(START, steps).log| && Run(START, steps).log[j].cmd.Activate?
    ensures var log := Run(START, steps).log;
            exists h, i ::
              0 <= h < i < j && log[h] == Entry(log[j].node, log[j].uid, Prepare(true))
              && log[i] == Entry(log[j].node, log[j].uid, Write(true))
  {
    assert Inv(START) && AllPrepared(START) && PrepareBeforeWrite(START.log);
    hide Inv, AllPrepared, Legal, Run, SlotsAreStaged, NothingStaged, NothingActivated, WriteCompleted;
    RunKeepsPrepared(START, steps);
    ReachableIsStaged(steps);
    var log := Run(START, steps).log;
    assert Sent(log[..j], log[j].node, log[j].uid, true);
    var i :| 0 <= i < j && log[i] == Entry(log[j].node, log[j].uid, Write(true));
    var h :| 0 <= h < i && log[h] == Entry(log[j].node, log[j].uid, Prepare(true));
  }
}
