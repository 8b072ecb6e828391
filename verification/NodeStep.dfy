/**
 * Writers of McuNode.Status (internal/heartbeat/server.go, internal/controller/mcunode_controller.go and the hardware
 * patches of internal/controller/mcudeployment_controller.go): what each writes, and how patches commit.
 */
module NodeStep {
  import opened Wrappers
  import opened Conditions
  import opened NodeTypes

  /** POST /heartbeat. */
  datatype Beat = Beat(
    nodeId: string,
    ip: string,
    ts: int,
    state: string,
    deploymentId: string,
    firmwareDigest: string,
    otaValidated: bool,
    uptimeMs: int,
    heapFree: int,
    rssi: int,
    configGeneration: int,
    tempCelsius: real,
    taskHwmMin: int,
    reason: string)

  const CLOCK_UNSYNCED := "clock_unsynced"
  const NO_TEMPERATURE: real := -127.0

  predicate ValidState(state: string) {
    state in {"booting", "pending_verify", "running", "degraded", "rollback", "failed", "offline"}
  }

  predicate BeatReady(b: Beat) {
    b.state == "running" && b.otaValidated && b.reason != CLOCK_UNSYNCED
  }

  function BeatCondition(b: Beat): Condition {
    if BeatReady(b) then Condition(Ready, True, "HeartbeatOK")
    else if b.reason == CLOCK_UNSYNCED then Condition(Ready, False, "ClockUnsynced")
    else Condition(Ready, False, "DeviceNotReady")
  }

  /** What an accepted heartbeat makes of the heartbeat fields. */
  function ApplyBeat(v: Vital, b: Beat, sourceIp: string, now: int): Vital {
    v.(ip := sourceIp, state := b.state, firmwareDigest := b.firmwareDigest, deploymentId := b.deploymentId,
       otaValidated := b.otaValidated, heapFree := b.heapFree, rssi := b.rssi, uptimeMs := b.uptimeMs,
       configGeneration := b.configGeneration, taskHwmMin := b.taskHwmMin, ready := BeatReady(b),
       lastHeartbeat := Some(Truncated(now)),
       tempCelsius := if b.tempCelsius != NO_TEMPERATURE then b.tempCelsius else v.tempCelsius,
       conditions := With(With(v.conditions, Condition(Provisioned, True, "ProvisioningComplete")), BeatCondition(b)))
  }

  /** What the node reconciler makes of them at time `now`. */
  function ApplyTimeout(v: Vital, now: int): Vital {
    var expired := Expired(v, now);
    v.(ready := !expired && v.state == "running" && v.otaValidated,
       state := if expired && v.state != "offline" && v.lastHeartbeat.Some? then "offline" else v.state,
       conditions :=
         if v.lastHeartbeat.None? then
           With(With(v.conditions, Condition(Provisioned, False, "ProvisioningPending")),
                Condition(Ready, Unknown, "NotProvisioned"))
         else if expired then With(v.conditions, Condition(Ready, False, "HeartbeatTimeout"))
         else v.conditions)
  }

  /** The two operations on the heartbeat fields. */
  datatype Op = BeatOp(beat: Beat, sourceIp: string, now: int) | TimeoutOp(now: int)

  function Apply(v: Vital, op: Op): Vital {
    match op
    case BeatOp(b, ip, now) => ApplyBeat(v, b, ip, now)
    case TimeoutOp(now) => ApplyTimeout(v, now)
  }

  const FRESH := Vital("", "", "", "", false, 0, 0, 0, 0, 0.0, 0, false, None, [])

  function Fold(ops: seq<Op>): Vital {
    if ops == [] then FRESH else Apply(Fold(ops[..|ops| - 1]), ops[|ops| - 1])
  }

  // ---------------------------------------------------------------- merge patches

  /** The stored object: its resource version and its status. */
  datatype Object = Object(version: nat, status: NodeStatus)

  /** A merge patch: the fields that differ from the copy read before (section 2 of RFC 7396). */
  datatype Patch = Patch(
    vital: Option<Vital>,
    chip: Option<string>,
    idfVersion: Option<string>,
    flashSize: Option<int>,
    ramSize: Option<int>,
    appPort: Option<int>,
    apiVersion: Option<string>,
    tlsCertDigest: Option<string>,
    lastReboot: Option<string>)

  function Changed<T(==)>(base: T, next: T): Option<T> {
    if base == next then None else Some(next)
  }

  function Over<T>(current: T, change: Option<T>): T {
    if change.Some? then change.value else current
  }

  function Diff(base: NodeStatus, next: NodeStatus): Patch {
    Patch(Changed(base.vital, next.vital), Changed(base.chip, next.chip), Changed(base.idfVersion, next.idfVersion),
          Changed(base.flashSize, next.flashSize), Changed(base.ramSize, next.ramSize),
          Changed(base.appPort, next.appPort), Changed(base.apiVersion, next.apiVersion),
          Changed(base.tlsCertDigest, next.tlsCertDigest), Changed(base.lastReboot, next.lastReboot))
  }

  function Merge(s: NodeStatus, p: Patch): NodeStatus {
    NodeStatus(Over(s.vital, p.vital), Over(s.chip, p.chip), Over(s.idfVersion, p.idfVersion),
               Over(s.flashSize, p.flashSize), Over(s.ramSize, p.ramSize), Over(s.appPort, p.appPort),
               Over(s.apiVersion, p.apiVersion), Over(s.tlsCertDigest, p.tlsCertDigest),
               Over(s.lastReboot, p.lastReboot))
  }

  /** A three-way merge of one field: the writer's value where the writer changed it, the current value elsewhere. */
  predicate Merged<T(==)>(base: T, next: T, current: T, result: T) {
    result == if next == base then current else next
  }

  /** A patch restores the changed copy on its own base; on any other status every field is merged three ways. */
  lemma MergeOfDiff(base: NodeStatus, next: NodeStatus, current: NodeStatus)
    ensures Merge(base, Diff(base, next)) == next
    ensures var m := Merge(current, Diff(base, next));
            && Merged(base.vital, next.vital, current.vital, m.vital)
            && Merged(base.chip, next.chip, current.chip, m.chip)
            && Merged(base.idfVersion, next.idfVersion, current.idfVersion, m.idfVersion)
            && Merged(base.flashSize, next.flashSize, current.flashSize, m.flashSize)
            && Merged(base.ramSize, next.ramSize, current.ramSize, m.ramSize)
            && Merged(base.appPort, next.appPort, current.appPort, m.appPort)
            && Merged(base.apiVersion, next.apiVersion, current.apiVersion, m.apiVersion)
            && Merged(base.tlsCertDigest, next.tlsCertDigest, current.tlsCertDigest, m.tlsCertDigest)
            && Merged(base.lastReboot, next.lastReboot, current.lastReboot, m.lastReboot)
  {
  }

  /** Committing a patch; `locked` carries the version of the base and is refused when the object has moved on. */
  function Commit(o: Object, base: Object, next: NodeStatus, locked: bool): Object {
    if locked && base.version != o.version then o
    else Object(o.version + 1, Merge(o.status, Diff(base.status, next)))
  }
}
