/**
 * The two optimistic-lock writers as they run against a shared object: the heartbeat handler with its retry loop
 * (internal/heartbeat/server.go) and the node reconciler (internal/controller/mcunode_controller.go).
 */
module NodeApi {
  import opened Wrappers
  import opened Conditions
  import opened NodeTypes
  import opened NodeStep

  const RETRY_STEPS: nat := 4  // retry.DefaultBackoff

  /** A write by somebody else that lands between our Get and our Patch. */
  datatype Foreign = Locked(op: Op) | Plain(patch: Patch) | Touch

  /**
   * The fate of one attempt: whether Get answers, the older copy a cache that lags behind serves, who writes in
   * between, whether the patch reaches the server.
   */
  datatype Try = Try(get: bool, behind: Option<Object>, between: seq<Foreign>, patch: bool)

  predicate Lags(o: Object, t: Try) {
    t.behind.Some? && t.behind.value.version < o.version
  }

  /** The copy an attempt works on. */
  function Base(o: Object, t: Try): Object {
    if Lags(o, t) then t.behind.value else o
  }

  function AfterOne(o: Object, f: Foreign): Object {
    Object(o.version + 1,
           match f
           case Locked(op) => o.status.(vital := Apply(o.status.vital, op))
           case Plain(p) => Merge(o.status, p.(vital := None))
           case Touch => o.status)
  }

  function After(o: Object, fs: seq<Foreign>): (r: Object)
    ensures r.version == o.version + |fs|
    decreases fs
  {
    if fs == [] then o else After(AfterOne(o, fs[0]), fs[1..])
  }

  function OpsOf(fs: seq<Foreign>): seq<Op> {
    if fs == [] then [] else (if fs[0].Locked? then [fs[0].op] else []) + OpsOf(fs[1..])
  }

  datatype Outcome = Outcome(obj: Object, ops: seq<Op>, ok: bool)

  function CommitOp(o: Object, op: Op): Object {
    Object(o.version + 1, o.status.(vital := Apply(o.status.vital, op)))
  }

  /** Up to `left` attempts; only a conflict is retried, any other failure ends the attempts. */
  function Attempts(o: Object, ops: seq<Op>, op: Op, tries: nat -> Try, i: nat, left: nat): Outcome
    decreases left
  {
    if left == 0 || !tries(i).get then Outcome(o, ops, false)
    else
      var t := tries(i);
      var o1, ops1 := After(o, t.between), ops + OpsOf(t.between);
      if !t.patch then Outcome(o1, ops1, false)
      else if t.between != [] || Lags(o, t) then Attempts(o1, ops1, op, tries, i + 1, left - 1)
      else Outcome(CommitOp(o1, op), ops1 + [op], true)
  }

  lemma OneForeign(o: Object, f: Foreign)
    ensures AfterOne(o, f).status.vital == if f.Locked? then Apply(o.status.vital, f.op) else o.status.vital
  {
    hide Apply;
  }

  lemma FoldPush(ops: seq<Op>, op: Op)
    ensures Fold(ops + [op]) == Apply(Fold(ops), op)
  {
    hide Apply;
    assert (ops + [op])[..|ops|] == ops;
  }

  lemma {:induction false} ForeignFolds(o: Object, ops: seq<Op>, fs: seq<Foreign>)
    requires o.status.vital == Fold(ops)
    ensures After(o, fs).status.vital == Fold(ops + OpsOf(fs))
    decreases fs
  {
    hide Apply, AfterOne, Fold;
    if fs == [] {
      assert ops + [] == ops;
    } else {
      OneForeign(o, fs[0]);
      if fs[0].Locked? {
        FoldPush(ops, fs[0].op);
        assert ops + [fs[0].op] + OpsOf(fs[1..]) == ops + OpsOf(fs);
        ForeignFolds(AfterOne(o, fs[0]), ops + [fs[0].op], fs[1..]);
      } else {
        assert [] + OpsOf(fs[1..]) == OpsOf(fs[1..]);
        ForeignFolds(AfterOne(o, fs[0]), ops, fs[1..]);
      }
    }
  }

  predicate Undisturbed(o: Object, t: Try) {
    t.get && t.patch && t.between == [] && !Lags(o, t)
  }

  predicate Conflicts(o: Object, t: Try) {
    t.get && t.patch && (t.between != [] || Lags(o, t))
  }

  /** The object before attempt n, when all attempts from i on have conflicted. */
  function ObjectAt(o: Object, tries: nat -> Try, i: nat, n: nat): Object
    decreases n - i
  {
    if n <= i then o else ObjectAt(After(o, tries(i).between), tries, i + 1, n)
  }

  /** Attempt n reads the current object and nobody writes into it; all before it, from i on, conflicted. */
  predicate CleanAt(o: Object, tries: nat -> Try, i: nat, n: nat) {
    && Undisturbed(ObjectAt(o, tries, i, n), tries(n))
    && forall k: nat | i <= k < n :: Conflicts(ObjectAt(o, tries, i, k), tries(k))
  }

  /** The retry loop commits its operation at most once, last, on top of everything that landed before. */
  lemma {:induction false} AttemptsRefine(o: Object, ops: seq<Op>, op: Op, tries: nat -> Try, i: nat, left: nat)
    requires o.status.vital == Fold(ops)
    ensures var out := Attempts(o, ops, op, tries, i, left);
            && out.obj.status.vital == Fold(out.ops)
            && ops <= out.ops
            && (out.ok ==> |out.ops| > |ops| && out.ops[|out.ops| - 1] == op)
    decreases left
  {
    hide Apply, After, OpsOf, Fold;
    if left > 0 && tries(i).get {
      var t := tries(i);
      var o1, ops1 := After(o, t.between), ops + OpsOf(t.between);
      ForeignFolds(o, ops, t.between);
      if t.patch && (t.between != [] || Lags(o, t)) {
        AttemptsRefine(o1, ops1, op, tries, i + 1, left - 1);
      } else if t.patch {
        FoldPush(ops1, op);
      }
    }
  }

  /** When the loop gives up, its operation has not been committed. */
  lemma {:induction false} FailureCommitsNothing(o: Object, ops: seq<Op>, op: Op, tries: nat -> Try, i: nat, left: nat)
    requires op !in ops && forall k: nat :: op !in OpsOf(tries(k).between)
    ensures var out := Attempts(o, ops, op, tries, i, left);
            out.ok <==> op in out.ops
    decreases left
  {
    hide Apply, After, OpsOf;
    if left > 0 && tries(i).get {
      var t := tries(i);
      if t.patch && (t.between != [] || Lags(o, t)) {
        FailureCommitsNothing(After(o, t.between), ops + OpsOf(t.between), op, tries, i + 1, left - 1);
      }
    }
  }

  /** It succeeds exactly when some attempt is undisturbed and all before it conflicted, by a write or a stale copy. */
  lemma {:induction false} SucceedsExactlyWhen(o: Object, ops: seq<Op>, op: Op, tries: nat -> Try, i: nat, left: nat)
    ensures Attempts(o, ops, op, tries, i, left).ok <==> exists n: nat :: i <= n < i + left && CleanAt(o, tries, i, n)
    decreases left
  {
    hide Apply, CommitOp, After, OpsOf, Lags;
    if left > 0 {
      var t := tries(i);
      if Undisturbed(o, t) {
        assert CleanAt(o, tries, i, i);
      } else if Conflicts(o, t) {
        var o1 := After(o, t.between);
        SucceedsExactlyWhen(o1, ops + OpsOf(t.between), op, tries, i + 1, left - 1);
        if n: nat :| i <= n < i + left && CleanAt(o, tries, i, n) {
          assert n != i && CleanAt(o1, tries, i + 1, n);
        }
        var j := i + 1;
        if n: nat :| j <= n < i + left && CleanAt(o1, tries, j, n) {
          assert CleanAt(o, tries, i, n);
        }
      }
    }
  }

  /** The handler's write has four attempts. */
  lemma WriteSucceedsExactlyWhen(o: Object, ops: seq<Op>, op: Op, tries: nat -> Try)
    ensures Attempts(o, ops, op, tries, 0, RETRY_STEPS).ok <==> exists n: nat :: n < 4 && CleanAt(o, tries, 0, n)
  {
    hide Attempts, CleanAt;
    SucceedsExactlyWhen(o, ops, op, tries, 0, RETRY_STEPS);
  }

  datatype PatchResult = Landed | Conflict | Unreachable

  /** The EndpointSlice of a node: address, readiness and port. */
  datatype Endpoint = Endpoint(ip: string, ready: bool, port: int)

  /** The endpoint after one node reconcile; without an address, or when a call fails, it stays what it was. */
  function Published(out: Outcome, lands: bool, before: Option<Endpoint>): Option<Endpoint> {
    var s := out.obj.status;
    if out.ok && s.vital.ip != "" && lands
    then Some(Endpoint(s.vital.ip, s.vital.ready, if s.appPort > 0 then s.appPort else 8080))
    else before
  }

  /** Running, validated and heard of within the heartbeat timeout. */
  predicate Routable(v: Vital, now: int) {
    v.state == "running" && v.otaValidated && v.lastHeartbeat.Some? && now - v.lastHeartbeat.value <= HEARTBEAT_TIMEOUT
  }

  /** A node reconcile that succeeds publishes the device's address, ready exactly when the device is routable. */
  lemma EndpointFollowsReadiness(
      o: Object, ops: seq<Op>, now: int, t: Try, lands: bool, before: Option<Endpoint>)
    ensures var out := Attempts(o, ops, TimeoutOp(now), _ => t, 0, 1);
            var v := out.obj.status.vital;
            var e := Published(out, lands, before);
            && (out.ok && v.ip != "" && lands ==>
                  e.Some? && e.value.ip == v.ip && (e.value.ready <==> Routable(v, now)))
            && (!out.ok ==> e == before)
  {
    hide With;
  }

  lemma CommitIsOp(o: Object, op: Op)
    ensures Commit(o, o, o.status.(vital := Apply(o.status.vital, op)), true) == CommitOp(o, op)
  {
    hide Apply;
    MergeOfDiff(o.status, o.status.(vital := Apply(o.status.vital, op)), o.status);
  }

  lemma OneAttempt(o: Object, ops: seq<Op>, op: Op, t: Try)
    ensures Attempts(o, ops, op, _ => t, 0, 1) ==
            if !t.get then Outcome(o, ops, false)
            else if t.patch && t.between == [] && !Lags(o, t) then Outcome(CommitOp(o, op), ops + [op], true)
            else Outcome(After(o, t.between), ops + OpsOf(t.between), false)
    ensures t.between == [] ==> After(o, t.between) == o && ops + OpsOf(t.between) == ops
  {
    hide Apply;
    assert ops + [] == ops;
  }

  class Server {
    var obj: Object
    var endpoint: Option<Endpoint>
    ghost var ops: seq<Op>

    constructor (obj: Object)
      ensures this.obj == obj && endpoint == None && ops == []
    {
      this.obj, endpoint, ops := obj, None, [];
    }

    method Others(fs: seq<Foreign>)
      modifies this`obj, this`ops
      ensures obj == After(old(obj), fs) && ops == old(ops) + OpsOf(fs)
    {
      hide AfterOne;
      var i := 0;
      while i < |fs|
        invariant 0 <= i <= |fs|
        invariant After(old(obj), fs) == After(obj, fs[i..])
        invariant old(ops) + OpsOf(fs) == ops + OpsOf(fs[i..])
      {
        assert fs[i..][1..] == fs[i + 1..];
        ghost var one := if fs[i].Locked? then [fs[i].op] else [];
        assert ops + OpsOf(fs[i..]) == ops + one + OpsOf(fs[i + 1..]);
        obj := AfterOne(obj, fs[i]);
        ops := ops + one;
        i := i + 1;
      }
    }

    /** A status patch computed against `base`; a locked one is refused when the object has moved on. */
    method StatusPatch(base: Object, next: NodeStatus, reaches: bool, ghost op: Op) returns (r: PatchResult)
      modifies this`obj, this`ops
      ensures r == if !reaches then Unreachable else if base.version != old(obj.version) then Conflict else Landed
      ensures obj == if r == Landed then Commit(old(obj), base, next, true) else old(obj)
      ensures ops == if r == Landed then old(ops) + [op] else old(ops)
    {
      if !reaches {
        return Unreachable;
      }
      if base.version != obj.version {
        return Conflict;
      }
      obj := Commit(obj, base, next, true);
      ops := ops + [op];
      r := Landed;
    }

    /** retry.RetryOnConflict around Get, overwrite, Patch. */
    method WriteBeat(b: Beat, sourceIp: string, now: int, tries: nat -> Try) returns (ok: bool)
      modifies this`obj, this`ops
      ensures Outcome(obj, ops, ok) == Attempts(old(obj), old(ops), BeatOp(b, sourceIp, now), tries, 0, RETRY_STEPS)
    {
      var op := BeatOp(b, sourceIp, now);
      var steps := RETRY_STEPS;
      for attempt := 0 to steps
        invariant Attempts(old(obj), old(ops), op, tries, 0, steps)
                  == Attempts(obj, ops, op, tries, attempt, steps - attempt)
      {
        hide Apply, With, Merge, Diff;
        if !tries(attempt).get {
          return false;
        }
        var base := Base(obj, tries(attempt));
        Others(tries(attempt).between);
        var cs := base.status.vital.conditions;
        cs := SetStatusCondition(cs, Condition(Provisioned, True, "ProvisioningComplete"));
        cs := SetStatusCondition(cs, BeatCondition(b));
        var v := Overwritten(base.status.vital, b, sourceIp, now, cs);
        var next := base.status.(vital := v);
        assert v == Apply(base.status.vital, op) by {
          OverwrittenIsApply(base.status.vital, b, sourceIp, now);
        }
        var r := StatusPatch(base, next, tries(attempt).patch, op);
        MergeOfDiff(base.status, next, base.status);
        match r {
          case Landed =>
            return true;
          case Unreachable => return false;
          case Conflict =>
        }
      }
      return false;
    }

    /** The status part of the node reconcile: one locked patch, then the endpoint follows Status.Ready. */
    method ReconcileStatus(now: int, t: Try, endpointLands: bool) returns (ok: bool)
      modifies this
      ensures Outcome(obj, ops, ok) == Attempts(old(obj), old(ops), TimeoutOp(now), _ => t, 0, 1)
      ensures endpoint == Published(Outcome(obj, ops, ok), endpointLands, old(endpoint))
      ensures ok && obj.status.vital.ip != "" && endpointLands ==>
                endpoint.Some? && (endpoint.value.ready <==> Routable(obj.status.vital, now))
    {
      hide Attempts, Apply, Commit, CommitOp, After, OpsOf, With, Expired, Published, Routable;
      OneAttempt(obj, ops, TimeoutOp(now), t);
      CommitIsOp(obj, TimeoutOp(now));
      EndpointFollowsReadiness(obj, ops, now, t, endpointLands, endpoint);
      if !t.get {
        PublishedMeans(Outcome(obj, ops, false), endpointLands, endpoint);
        return false;
      }
      var base := Base(obj, t);
      var v := base.status.vital;
      Others(t.between);
      var expired := Expired(v, now);
      var wantReady := !expired && v.state == "running" && v.otaValidated;
      var wantState := v.state;
      if expired && v.state != "offline" && v.lastHeartbeat != None {
        wantState := "offline";
      }
      var cs := v.conditions;
      if v.lastHeartbeat == None {
        cs := SetStatusCondition(cs, Condition(Provisioned, False, "ProvisioningPending"));
        cs := SetStatusCondition(cs, Condition(Ready, Unknown, "NotProvisioned"));
      } else if expired {
        cs := SetStatusCondition(cs, Condition(Ready, False, "HeartbeatTimeout"));
      }
      var next := base.status.(vital := v.(ready := wantReady, state := wantState, conditions := cs));
      TimeoutMeans(v, now);
      var r := StatusPatch(base, next, t.patch, TimeoutOp(now));
      PublishedMeans(Outcome(obj, ops, r == Landed), endpointLands, endpoint);
      if r != Landed {
        return false;
      }
      if obj.status.vital.ip != "" && endpointLands {
        endpoint := Some(Endpoint(obj.status.vital.ip, obj.status.vital.ready,
                                  if obj.status.appPort > 0 then obj.status.appPort else 8080));
      }
      ok := true;
    }
  }

  lemma PublishedMeans(out: Outcome, lands: bool, before: Option<Endpoint>)
    ensures var v := out.obj.status.vital;
            Published(out, lands, before) ==
            if out.ok && v.ip != "" && lands
            then Some(Endpoint(v.ip, v.ready, if out.obj.status.appPort > 0 then out.obj.status.appPort else 8080))
            else before
  {
  }

  lemma TimeoutMeans(v: Vital, now: int)
    ensures var expired := Expired(v, now);
            Apply(v, TimeoutOp(now)) ==
            v.(ready := !expired && v.state == "running" && v.otaValidated,
               state := if expired && v.state != "offline" && v.lastHeartbeat.Some? then "offline" else v.state,
               conditions :=
                 if v.lastHeartbeat.None? then
                   With(With(v.conditions, Condition(Provisioned, False, "ProvisioningPending")),
                        Condition(Ready, Unknown, "NotProvisioned"))
                 else if expired then With(v.conditions, Condition(Ready, False, "HeartbeatTimeout"))
                 else v.conditions)
  {
  }

  function Overwritten(v: Vital, b: Beat, sourceIp: string, now: int, cs: seq<Condition>): Vital {
    Vital(sourceIp, b.state, b.firmwareDigest, b.deploymentId, b.otaValidated, b.heapFree, b.rssi, b.uptimeMs,
          b.configGeneration, if b.tempCelsius != NO_TEMPERATURE then b.tempCelsius else v.tempCelsius, b.taskHwmMin,
          b.state == "running" && b.otaValidated && b.reason != CLOCK_UNSYNCED, Some(Truncated(now)), cs)
  }

  lemma OverwrittenIsApply(v: Vital, b: Beat, sourceIp: string, now: int)
    ensures var cs := With(With(v.conditions, Condition(Provisioned, True, "ProvisioningComplete")), BeatCondition(b));
            Overwritten(v, b, sourceIp, now, cs) == Apply(v, BeatOp(b, sourceIp, now))
  {
  }
}
