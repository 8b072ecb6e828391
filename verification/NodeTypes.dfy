/** McuNode status (api/v1alpha1/mcunode_types.go), grouped by writer, and the time constants of the controllers. */
module NodeTypes {
  import opened Wrappers
  import opened Conditions

  const SECOND: int := 1_000_000_000
  const HEARTBEAT_TIMEOUT: int := 10 * SECOND
  const CONFIRM_TIMEOUT: int := 120 * SECOND

  /** Times are stored with one-second resolution. */
  function Truncated(t: int): int {
    t - t % SECOND
  }

  /** The fields written by heartbeats and by the heartbeat timeout. */
  datatype Vital = Vital(
    ip: string,
    state: string,
    firmwareDigest: string,
    deploymentId: string,
    otaValidated: bool,
    heapFree: int,
    rssi: int,
    uptimeMs: int,
    configGeneration: int,
    tempCelsius: real,
    taskHwmMin: int,
    ready: bool,
    lastHeartbeat: Option<int>,
    conditions: seq<Condition>)

  /** Status = the heartbeat fields, the capabilities read from GET /info, and the two marks of the node controller. */
  datatype NodeStatus = NodeStatus(
    vital: Vital,
    chip: string,
    idfVersion: string,
    flashSize: int,
    ramSize: int,
    appPort: int,
    apiVersion: string,
    tlsCertDigest: string,
    lastReboot: string)

  predicate Expired(v: Vital, now: int) {
    v.lastHeartbeat.None? || now - v.lastHeartbeat.value > HEARTBEAT_TIMEOUT
  }
}
