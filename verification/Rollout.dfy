/** What the Activating phase may rely on: the deployment controller on top of the transfer. */
module Rollout {
  import opened BlobReader
  import opened OtaTransfer
  import opened WritingPhase
  import opened DeploymentStep
  import opened DeploymentSafety

  /** The answers of the write and of the digest check in `env` are those of a transfer of this deployment. */
  ghost predicate AnswersOf(env: Env, dep: Dep, w: Wire, dev: OtaTransfer.Device, tick: nat, source: Source) {
    && w.digest == dep.status.digest
    && (env.write && env.digestOk <==> Advances(w, dev, tick, source, dep.status.size))
  }

  /**
   * A deployment leaves Writing only for Activating, and only when the device holds exactly Status.Size bytes of the
   * blob; if the blob ended with its last byte or the firmware is one range, they hash to Status.Digest.
   */
  lemma ActivatesExactBytes(
      key: Key, dep: Dep, deps: map<Key, Dep>, slot: Slot, env: Env, w: Wire, dev: OtaTransfer.Device, tick: nat,
      source: Source)
    requires Shape(dep) && NamedNodes(env) && dep.status.phase == DeploymentStep.Writing && dep.status.size > 0
    requires AnswersOf(env, dep, w, dev, tick, source)
    ensures var out := ReconcileOutcome(key, dep, deps, slot, env).dep;
            var data := Flatten(source.pieces);
            var size := dep.status.size;
            out.status.phase != DeploymentStep.Writing ==>
              && out.status.phase == Activating
              && HoldsExactly(w, TransferRun(w, dev, tick, data, size, 0, ATTEMPTS).dev, data, size)
              && (EndsExactly(source, size) || size <= CHUNK ==> Sum(w.hasher, data[..size]) == dep.status.digest)
  {
    hide ChunkRun, TransferRun, ReconcileOutcome, PhaseConditions, Flatten, Sum, EndsOnBytes;
    var data := Flatten(source.pieces);
    var size := dep.status.size;
    WritingLeavesExactlyWhen(key, dep, deps, slot, env);
    if Advances(w, dev, tick, source, size) {
      TransferSafe(w, dev, tick, data, size, 0, ATTEMPTS);
      if EndsExactly(source, size) {
        assert data[..size] == data;
      } else if size <= CHUNK {
        OneRangeIsVerdict(w, dev, tick, data, size);
      }
    }
  }

  lemma WritingLeavesExactlyWhen(key: Key, dep: Dep, deps: map<Key, Dep>, slot: Slot, env: Env)
    requires dep.status.phase == DeploymentStep.Writing
    ensures var out := ReconcileOutcome(key, dep, deps, slot, env).dep;
            && (out.status.phase == Activating <==>
                  HasClient(env) && env.stream && env.write && env.digestOk && env.statusPatch)
            && (out.status.phase != DeploymentStep.Writing ==> out.status.phase == Activating)
  {
    hide PhaseConditions;
  }

  lemma OneRangeIsVerdict(w: Wire, dev: OtaTransfer.Device, tick: nat, data: Bytes, size: int)
    requires 0 < size <= CHUNK && size <= |data|
    requires TransferRun(w, dev, tick, data, size, 0, ATTEMPTS).result == Written
    ensures Sum(w.hasher, data[..size]) == w.digest
  {
    hide ChunkRun, Sum;
    FirstRangeVerdict(w, dev, tick, data, size, ATTEMPTS);
  }
}
