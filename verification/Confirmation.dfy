/** A deployment is confirmed by one heartbeat: the deployment controller on top of the concurrent node status. */
module Confirmation {
  import opened NodeStep
  import opened NodeRuns
  import opened DeploymentStep
  import opened DeploymentSafety
  import ConfirmTimer

  /**
   * In every interleaving of heartbeats, node reconciles and plain patches: a deployment that reads the node status at
   * any point of the run and enters Deployed was confirmed by one committed heartbeat that carried state=running,
   * ota_validated=true and its deployment ID together.
   */
  lemma DeployedNeedsOneHeartbeat(
      s: Sys, steps: seq<NodeRuns.Step>, key: Key, dep: Dep, deps: map<Key, Dep>, slot: Slot, env: Env)
    requires Refines(s) && NodeRuns.Legal(s, steps) && Shape(dep) && NamedNodes(env)
    ensures
      && (env.node.Some? ==> env.node.value == NodeRuns.Run(s, steps).obj.status)
      && dep.status.phase != Deployed && ReconcileOutcome(key, dep, deps, slot, env).dep.status.phase == Deployed
      ==> exists op | op in NodeRuns.Run(s, steps).ops ::
            op.BeatOp? && op.beat.state == "running" && op.beat.otaValidated && op.beat.deploymentId == dep.uid
  {
    hide ReconcileOutcome, Fold, NodeRuns.Run, NodeRuns.Legal;
    if && (env.node.Some? ==> env.node.value == NodeRuns.Run(s, steps).obj.status)
       && dep.status.phase != Deployed && ReconcileOutcome(key, dep, deps, slot, env).dep.status.phase == Deployed {
      ReconcileMoves(key, dep, deps, slot, env);
      ConfirmTimer.LeavesConfirmingExactlyWhen(key, dep, deps, slot, env);
      RunRefines(s, steps);
      var ops := NodeRuns.Run(s, steps).ops;
      var i := FieldsComeFromOneBeat(ops);
      assert ops[i] in ops;
    }
  }
}
