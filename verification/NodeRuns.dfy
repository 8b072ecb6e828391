/** Concurrent writers of one McuNode: every schedule of reads and patches refines a sequence of atomic operations. */
module NodeRuns {
  import opened Conditions
  import opened NodeTypes
  import opened NodeStep

  /** `copies`: what each writer in flight has read. `ops`: the committed heartbeat and timeout operations, in order. */
  datatype Sys = Sys(obj: Object, copies: map<int, Object>, ops: seq<Op>)

  datatype Step =
    | Get(writer: int)
    | PatchLocked(writer: int, op: Op)                 // heartbeat handler and node reconciler
    | PatchPlain(writer: int, next: NodeStatus)        // hardware info, app port, TLS digest, reboot nonce
    | Touch                                            // metadata or spec written by anyone

  predicate Enabled(s: Sys, step: Step) {
    match step
    case Get(_) => true
    case PatchLocked(writer, op) => writer in s.copies && (op.BeatOp? ==> ValidState(op.beat.state))
    case PatchPlain(writer, next) => writer in s.copies && next.vital == s.copies[writer].status.vital
    case Touch => true
  }

  function Next(s: Sys, step: Step): Sys
    requires Enabled(s, step)
  {
    match step
    case Get(writer) => s.(copies := s.copies[writer := s.obj])
    case PatchLocked(writer, op) =>
      var base := s.copies[writer];
      var next := base.status.(vital := Apply(base.status.vital, op));
      s.(obj := Commit(s.obj, base, next, true),
         ops := if base.version == s.obj.version then s.ops + [op] else s.ops)
    case PatchPlain(writer, next) => s.(obj := Commit(s.obj, s.copies[writer], next, false))
    case Touch => s.(obj := s.obj.(version := s.obj.version + 1))
  }

  predicate Legal(s: Sys, steps: seq<Step>)
    decreases steps
  {
    steps == [] || (Enabled(s, steps[0]) && Legal(Next(s, steps[0]), steps[1..]))
  }

  function Run(s: Sys, steps: seq<Step>): Sys
    requires Legal(s, steps)
    decreases steps
  {
    if steps == [] then s else Run(Next(s, steps[0]), steps[1..])
  }

  /**
   * The heartbeat fields are the fold of the committed operations, and a copy of the current version is the current
   * status.
   */
  predicate Refines(s: Sys) {
    && s.obj.status.vital == Fold(s.ops)
    && (forall op | op in s.ops :: op.BeatOp? ==> ValidState(op.beat.state))
    && forall p | p in s.copies ::
         s.copies[p].version <= s.obj.version
         && (s.copies[p].version == s.obj.version ==> s.copies[p].status == s.obj.status)
  }

  lemma StepRefines(s: Sys, step: Step)
    requires Refines(s) && Enabled(s, step)
    ensures Refines(Next(s, step))
    ensures s.ops <= Next(s, step).ops
  {
    hide Apply;
    match step {
      case PatchLocked(writer, op) =>
        var base := s.copies[writer];
        var next := base.status.(vital := Apply(base.status.vital, op));
        MergeOfDiff(base.status, next, s.obj.status);
        assert (s.ops + [op])[..|s.ops|] == s.ops;
      case PatchPlain(writer, next) => MergeOfDiff(s.copies[writer].status, next, s.obj.status);
      case _ =>
    }
  }

  /**
   * Main result: for every schedule of any number of writers, the heartbeat fields equal the sequential fold of the
   * operations that succeeded, in commit order. A reconcile that read before a heartbeat never overwrites it, and
   * patches without the lock leave those fields alone.
   */
  lemma {:induction false} RunRefines(s: Sys, steps: seq<Step>)
    requires Refines(s) && Legal(s, steps)
    ensures Refines(Run(s, steps))
    ensures s.ops <= Run(s, steps).ops
    decreases steps
  {
    hide Next, Refines;
    if steps != [] {
      StepRefines(s, steps[0]);
      RunRefines(Next(s, steps[0]), steps[1..]);
    }
  }

  /** A locked patch on an object that has moved on changes nothing. */
  lemma StalePatchIsRefused(s: Sys, writer: int, op: Op)
    requires Refines(s) && Enabled(s, PatchLocked(writer, op))
    ensures s.copies[writer].version < s.obj.version <==> Next(s, PatchLocked(writer, op)) == s
  {
    var base := s.copies[writer];
    if base.version == s.obj.version {
      assert Next(s, PatchLocked(writer, op)).ops == s.ops + [op] != s.ops;
    }
  }

  // ---------------------------------------------------------------- readiness

  /** Running, validated and heard of: what readiness needs apart from being recent. */
  predicate Fit(v: Vital) {
    v.state == "running" && v.otaValidated && v.lastHeartbeat.Some?
  }

  predicate ReadyIsClockUnsynced(v: Vital) {
    Find(v.conditions, Ready).Some? && Find(v.conditions, Ready).value.reason == "ClockUnsynced"
  }

  predicate Readiness(v: Vital) {
    && OnePerKind(v.conditions)
    && (v.ready ==> Fit(v))
    && (Has(v.conditions, Ready, True) ==> v.ready)
    && (Fit(v) ==> Has(v.conditions, Ready, True) || ReadyIsClockUnsynced(v))
  }

  lemma BeatKeepsReadiness(v: Vital, b: Beat, ip: string, now: int)
    requires Readiness(v)
    ensures Readiness(ApplyBeat(v, b, ip, now))
  {
    var p := Condition(Provisioned, True, "ProvisioningComplete");
    hide With, OnePerKind;
    WithKeepsOnePerKind(v.conditions, p);
    WithKeepsOnePerKind(With(v.conditions, p), BeatCondition(b));
    FindWith(With(v.conditions, p), BeatCondition(b), Ready);
  }

  lemma TimeoutKeepsReadiness(v: Vital, now: int)
    requires Readiness(v)
    ensures Readiness(ApplyTimeout(v, now))
  {
    hide With, OnePerKind;
    var p := Condition(Provisioned, False, "ProvisioningPending");
    var u := Condition(Ready, Unknown, "NotProvisioned");
    var t := Condition(Ready, False, "HeartbeatTimeout");
    WithKeepsOnePerKind(v.conditions, p);
    WithKeepsOnePerKind(With(v.conditions, p), u);
    WithKeepsOnePerKind(v.conditions, t);
    FindWith(With(v.conditions, p), u, Ready);
    FindWith(v.conditions, t, Ready);
  }

  /**
   * From a fresh node on: Status.Ready implies running, validated and a recorded heartbeat; condition Ready=True
   * implies Status.Ready; Status.Ready implies condition Ready is True or says ClockUnsynced.
   */
  lemma {:induction false} FoldKeepsReadiness(ops: seq<Op>)
    ensures Readiness(Fold(ops))
    decreases ops
  {
    if ops != [] {
      FoldKeepsReadiness(ops[..|ops| - 1]);
      match ops[|ops| - 1] {
        case BeatOp(b, ip, now) => BeatKeepsReadiness(Fold(ops[..|ops| - 1]), b, ip, now);
        case TimeoutOp(now) => TimeoutKeepsReadiness(Fold(ops[..|ops| - 1]), now);
      }
    }
  }

  /** A node object as it is created: nobody has read it, no heartbeat has arrived. */
  function Created(o: Object): Sys {
    Sys(o, map[], [])
  }

  /** In every state of every schedule, from the creation of the node on: the fold of its operations, and readiness. */
  lemma ReachableIsReady(o: Object, steps: seq<Step>)
    requires o.status.vital == FRESH && Legal(Created(o), steps)
    ensures var s := Run(Created(o), steps);
            s.obj.status.vital == Fold(s.ops) && Readiness(s.obj.status.vital)
  {
    assert Refines(Created(o));
    hide Readiness, Run, Legal, Fold;
    RunRefines(Created(o), steps);
    FoldKeepsReadiness(Run(Created(o), steps).ops);
  }

  /** Right after a node reconcile at `now`, Ready holds exactly when running, validated and heard of within 10 s. */
  lemma ReadyExactlyAfterReconcile(v: Vital, now: int)
    ensures var r := ApplyTimeout(v, now);
            r.ready <==> Fit(r) && now - r.lastHeartbeat.value <= HEARTBEAT_TIMEOUT
  {
  }

  /**
   * A clock_unsynced heartbeat is never ready itself, but the next node reconcile forgets the reason: it sets
   * Status.Ready exactly as for any other heartbeat, while the Ready condition keeps saying False.
   */
  lemma ClockUnsyncedTurnsReadyExactlyWhen(v: Vital, b: Beat, ip: string, at: int, now: int)
    requires Readiness(v) && b.reason == CLOCK_UNSYNCED
    ensures var beat := ApplyBeat(v, b, ip, at);
            var r := ApplyTimeout(beat, now);
            && !beat.ready && !Has(beat.conditions, Ready, True)
            && (r.ready <==> b.state == "running" && b.otaValidated && now - Truncated(at) <= HEARTBEAT_TIMEOUT)
            && !Has(r.conditions, Ready, True)
  {
    hide With, OnePerKind;
    var p := Condition(Provisioned, True, "ProvisioningComplete");
    var beat := ApplyBeat(v, b, ip, at);
    FindWith(With(v.conditions, p), BeatCondition(b), Ready);
    FindWith(beat.conditions, Condition(Ready, False, "HeartbeatTimeout"), Ready);
  }

  // ---------------------------------------------------------------- where the fields come from

  /** The state, validation and deployment ID of a node that is not offline all come from its last heartbeat. */
  lemma {:induction false} FieldsComeFromOneBeat(ops: seq<Op>) returns (i: nat)
    requires Fold(ops).state != "offline" && Fold(ops).state != ""
    ensures i < |ops| && ops[i].BeatOp?
    ensures var v, b := Fold(ops), ops[i].beat;
            b.state == v.state && b.otaValidated == v.otaValidated && b.deploymentId == v.deploymentId
    ensures forall j | i < j < |ops| :: ops[j].TimeoutOp?
    decreases ops
  {
    hide With, BeatCondition, Expired;
    var n := |ops| - 1;
    if ops[n].BeatOp? {
      i := n;
    } else {
      i := FieldsComeFromOneBeat(ops[..n]);
    }
  }
}
