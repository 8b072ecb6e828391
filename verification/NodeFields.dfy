/**
 * Where every heartbeat field of a node comes from, over every schedule (internal/heartbeat/server.go,
 * internal/controller/mcunode_controller.go): the last committed heartbeat, and the timeouts after it.
 */
module NodeFields {
  import opened Wrappers
  import opened Conditions
  import opened NodeTypes
  import opened NodeStep
  import opened NodeApi
  import NodeRuns

  /** The heartbeat at i is the last one. */
  predicate LastBeat(ops: seq<Op>, i: nat) {
    i < |ops| && ops[i].BeatOp? && forall j | i < j < |ops| :: ops[j].TimeoutOp?
  }

  /** A node reconcile after the heartbeat at i found it more than ten seconds old. */
  predicate WentSilent(ops: seq<Op>, i: nat)
    requires LastBeat(ops, i)
  {
    exists j | i < j < |ops| :: ops[j].now > Stamp(ops[i].now) + 10_000_000_000
  }

  /** Times are kept to the second. */
  function Stamp(now: int): int {
    now - now % 1_000_000_000
  }

  function ReadyCondition(b: Beat, silent: bool): Condition {
    if silent then Condition(Ready, False, "HeartbeatTimeout")
    else if b.state == "running" && b.otaValidated && b.reason != "clock_unsynced"
    then Condition(Ready, True, "HeartbeatOK")
    else if b.reason == "clock_unsynced" then Condition(Ready, False, "ClockUnsynced")
    else Condition(Ready, False, "DeviceNotReady")
  }

  /** The status shows this heartbeat, and whether the node went silent after it. */
  predicate ShowsBeat(v: Vital, op: Op, silent: bool)
    requires op.BeatOp?
  {
    var b := op.beat;
    && v.ip == op.sourceIp && v.firmwareDigest == b.firmwareDigest && v.deploymentId == b.deploymentId
    && v.otaValidated == b.otaValidated && v.heapFree == b.heapFree && v.rssi == b.rssi && v.uptimeMs == b.uptimeMs
    && v.configGeneration == b.configGeneration && v.taskHwmMin == b.taskHwmMin
    && v.lastHeartbeat == Some(Stamp(op.now))
    && v.state == (if silent then "offline" else b.state)
    && Find(v.conditions, Provisioned) == Some(Condition(Provisioned, True, "ProvisioningComplete"))
    && Find(v.conditions, Ready) == Some(ReadyCondition(b, silent))
  }

  lemma BeatShows(v: Vital, op: Op)
    requires op.BeatOp?
    ensures ShowsBeat(Apply(v, op), op, false)
    ensures Apply(v, op).ready <==>
            op.beat.state == "running" && op.beat.otaValidated && op.beat.reason != "clock_unsynced"
  {
    hide With, Find;
    var p := Condition(Provisioned, True, "ProvisioningComplete");
    FindWith(v.conditions, p, Provisioned);
    FindWith(With(v.conditions, p), BeatCondition(op.beat), Provisioned);
    FindWith(With(v.conditions, p), BeatCondition(op.beat), Ready);
  }

  lemma TimeoutShows(v: Vital, op: Op, silent: bool, now: int)
    requires op.BeatOp? && ShowsBeat(v, op, silent)
    ensures var w := Apply(v, TimeoutOp(now));
            && ShowsBeat(w, op, silent || now > Stamp(op.now) + 10_000_000_000)
            && (w.ready <==> w.state == "running" && w.otaValidated && now <= Stamp(op.now) + 10_000_000_000)
  {
    hide With, Find;
    var t := Condition(Ready, False, "HeartbeatTimeout");
    FindWith(v.conditions, t, Provisioned);
    FindWith(v.conditions, t, Ready);
  }

  /** Status.Ready after the last operation: a heartbeat decides for itself, a node reconcile by the age as well. */
  predicate ReadyFollows(v: Vital, ops: seq<Op>, i: nat)
    requires LastBeat(ops, i)
  {
    var last := ops[|ops| - 1];
    v.ready <==>
    && v.state == "running" && v.otaValidated
    && if last.BeatOp? then last.beat.reason != "clock_unsynced"
       else last.now <= Stamp(ops[i].now) + 10_000_000_000
  }

  lemma SilenceGrows(ops: seq<Op>, i: nat)
    requires LastBeat(ops, i) && i < |ops| - 1
    ensures var n := |ops| - 1;
            WentSilent(ops, i) <==> WentSilent(ops[..n], i) || ops[n].now > Stamp(ops[i].now) + 10_000_000_000
  {
    var n := |ops| - 1;
    assert forall j | i < j < n :: ops[..n][j] == ops[j];
  }

  /** Main result: the whole status after any sequence of operations that holds a heartbeat. */
  lemma {:induction false} FoldShowsLastBeat(ops: seq<Op>, i: nat)
    requires LastBeat(ops, i)
    ensures ShowsBeat(Fold(ops), ops[i], WentSilent(ops, i)) && ReadyFollows(Fold(ops), ops, i)
    decreases ops
  {
    hide Apply, ShowsBeat;
    var n := |ops| - 1;
    var before := ops[..n];
    if i == n {
      BeatShows(Fold(before), ops[n]);
      BeatState(Fold(ops), ops[n]);
    } else {
      FoldShowsLastBeat(before, i);
      TimeoutShows(Fold(before), ops[i], WentSilent(before, i), ops[n].now);
      SilenceGrows(ops, i);
    }
  }

  lemma BeatState(v: Vital, op: Op)
    requires op.BeatOp? && ShowsBeat(v, op, false)
    ensures v.state == op.beat.state && v.otaValidated == op.beat.otaValidated
  {
  }

  /** Without any heartbeat nothing is known of the device. */
  lemma {:induction false} NothingBeforeBeat(ops: seq<Op>)
    requires forall op | op in ops :: op.TimeoutOp?
    ensures var v := Fold(ops);
            && v.ip == "" && v.state == "" && !v.ready && v.lastHeartbeat == None && v.deploymentId == ""
            && (ops != [] ==>
                  && Find(v.conditions, Provisioned) == Some(Condition(Provisioned, False, "ProvisioningPending"))
                  && Find(v.conditions, Ready) == Some(Condition(Ready, Unknown, "NotProvisioned")))
    decreases ops
  {
    hide With, Find;
    if ops != [] {
      var n := |ops| - 1;
      assert ops[n] in ops && forall op | op in ops[..n] :: op in ops;
      NothingBeforeBeat(ops[..n]);
      var cs := Fold(ops[..n]).conditions;
      var p := Condition(Provisioned, False, "ProvisioningPending");
      FindWith(cs, p, Provisioned);
      FindWith(With(cs, p), Condition(Ready, Unknown, "NotProvisioned"), Provisioned);
      FindWith(With(cs, p), Condition(Ready, Unknown, "NotProvisioned"), Ready);
    }
  }

  /** A heartbeat with a temperature; -127 stands for a sensor that could not be read. */
  predicate Measures(op: Op) {
    op.BeatOp? && op.beat.tempCelsius != -127.0
  }

  /** The temperature is the last one measured. */
  lemma {:induction false} LastTemperatureKept(ops: seq<Op>, m: nat)
    requires m < |ops| && Measures(ops[m]) && forall j | m < j < |ops| :: !Measures(ops[j])
    ensures Fold(ops).tempCelsius == ops[m].beat.tempCelsius
    decreases ops
  {
    hide With;
    var n := |ops| - 1;
    if m < n {
      LastTemperatureKept(ops[..n], m);
    }
  }

  /** In every reachable state with a committed heartbeat: the status shows the last one. */
  lemma ReachableShowsLastBeat(o: Object, steps: seq<NodeRuns.Step>, i: nat)
    requires o.status.vital == FRESH && NodeRuns.Legal(NodeRuns.Created(o), steps)
    requires LastBeat(NodeRuns.Run(NodeRuns.Created(o), steps).ops, i)
    ensures var s := NodeRuns.Run(NodeRuns.Created(o), steps);
            ShowsBeat(s.obj.status.vital, s.ops[i], WentSilent(s.ops, i)) && ReadyFollows(s.obj.status.vital, s.ops, i)
  {
    hide NodeRuns.Run, NodeRuns.Legal, Fold, ShowsBeat, ReadyFollows;
    NodeRuns.ReachableIsReady(o, steps);
    FoldShowsLastBeat(NodeRuns.Run(NodeRuns.Created(o), steps).ops, i);
  }

  /**
   * After a node reconcile that succeeds, traffic goes to the address of the last heartbeat, on the application's port
   * or 8080, and only while the device runs a validated image and is at most ten seconds silent.
   */
  lemma EndpointHasLastAddress(
      o: Object, ops: seq<Op>, now: int, t: Try, lands: bool, before: Option<Endpoint>, i: nat)
    requires o.status.vital == Fold(ops)
    requires var out := Attempts(o, ops, TimeoutOp(now), _ => t, 0, 1);
             out.ok && lands && LastBeat(out.ops, i) && out.ops[i].sourceIp != ""
    ensures var out := Attempts(o, ops, TimeoutOp(now), _ => t, 0, 1);
            var e := Published(out, lands, before);
            var port := out.obj.status.appPort;
            && e.Some? && e.value.ip == out.ops[i].sourceIp && e.value.port == (if port > 0 then port else 8080)
            && (e.value.ready <==>
                  && out.ops[i].beat.state == "running" && out.ops[i].beat.otaValidated
                  && !WentSilent(out.ops, i))
  {
    hide Attempts, Fold, Apply;
    AttemptsRefine(o, ops, TimeoutOp(now), _ => t, 0, 1);
    var out := Attempts(o, ops, TimeoutOp(now), _ => t, 0, 1);
    FoldShowsLastBeat(out.ops, i);
  }
}
