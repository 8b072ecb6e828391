/** POST /heartbeat from end to end (internal/heartbeat/server.go): node, token, state, write and metrics. */
module HeartbeatServer {
  import opened Wrappers
  import opened NodeStep
  import opened NodeApi
  import opened TokenRotation
  import Metrics

  datatype NodeRecord = NodeRecord(ns: string, name: string, nodeId: string)

  datatype FindError = NotFound | Duplicate(count: nat)

  function Matching(nodes: seq<NodeRecord>, id: string): seq<NodeRecord> {
    if nodes == [] then [] else (if nodes[0].nodeId == id then [nodes[0]] else []) + Matching(nodes[1..], id)
  }

  /** Exactly one record has the ID. */
  predicate Unique(nodes: seq<NodeRecord>, id: string, i: nat) {
    i < |nodes| && nodes[i].nodeId == id && forall j | 0 <= j < |nodes| && j != i :: nodes[j].nodeId != id
  }

  lemma {:induction false} MatchingIsUnique(nodes: seq<NodeRecord>, id: string)
    ensures |Matching(nodes, id)| == 0 <==> forall j | 0 <= j < |nodes| :: nodes[j].nodeId != id
    ensures |Matching(nodes, id)| == 1 <==> exists i: nat :: Unique(nodes, id, i)
    ensures forall i: nat :: Unique(nodes, id, i) ==> Matching(nodes, id) == [nodes[i]]
    decreases nodes
  {
    if nodes != [] {
      var rest := nodes[1..];
      MatchingIsUnique(rest, id);
      assert forall j | 0 < j < |nodes| :: rest[j - 1] == nodes[j];
      if nodes[0].nodeId == id {
        assert forall j | 0 <= j < |rest| :: nodes[j + 1] == rest[j];
        if |Matching(rest, id)| == 0 {
          assert Unique(nodes, id, 0);
        }
      } else {
        if i: nat :| Unique(rest, id, i) {
          assert Unique(nodes, id, i + 1);
        }
        forall i: nat | Unique(nodes, id, i)
          ensures Unique(rest, id, i - 1) && i > 0
        {
        }
      }
    }
  }

  /** A node ID claimed by several nodes is refused, never attached to the first one found. */
  method FindNode(nodes: seq<NodeRecord>, id: string) returns (r: Result<NodeRecord, FindError>)
    ensures r.Ok? <==> exists i: nat :: Unique(nodes, id, i)
    ensures forall i: nat :: Unique(nodes, id, i) ==> r == Ok(nodes[i])
    ensures r == Err(NotFound) <==> forall j | 0 <= j < |nodes| :: nodes[j].nodeId != id
  {
    hide Unique;
    MatchingIsUnique(nodes, id);
    var matches: seq<NodeRecord> := [];
    for i := 0 to |nodes|
      invariant Matching(nodes, id) == matches + Matching(nodes[i..], id)
    {
      assert nodes[i..][1..] == nodes[i + 1..];
      if nodes[i].nodeId == id {
        matches := matches + [nodes[i]];
      }
    }
    assert matches == Matching(nodes, id);
    if |matches| == 0 {
      return Err(NotFound);
    } else if |matches| == 1 {
      return Ok(matches[0]);
    } else {
      return Err(Duplicate(|matches|));
    }
  }

  /** The HTTP status, and whether the heartbeat was committed (and so published as metrics). */
  datatype Reply = Reply(code: int, accepted: bool)

  /** What reaches the handler; `beat` is absent when the body cannot be read or parsed. */
  datatype Request = Request(isPost: bool, beat: Option<Beat>, header: string, tcpIp: string)

  /** The readings a committed heartbeat publishes, under the chip of the stored node. */
  function Readings(b: Beat, chip: string): Metrics.Data {
    Metrics.Data(b.nodeId, b.deploymentId, chip, b.heapFree, b.rssi, b.uptimeMs, b.tempCelsius, b.taskHwmMin,
                 b.configGeneration, b.ts, b.otaValidated)
  }

  /** A gauge shows this value under these labels. */
  predicate Exposes(kind: Metrics.Kind, history: seq<Metrics.Op>, l: Metrics.Labels, value: real) {
    l in Metrics.GaugeAfter(kind, history) && Metrics.GaugeAfter(kind, history)[l] == value
  }

  /**
   * What is exposed after a heartbeat: each of its readings in its own gauge, under the node, the deployment and the
   * chip, and nothing else under that node. A missing sensor and an unset clock expose nothing new.
   */
  lemma BeatIsExposed(history: seq<Metrics.Op>, b: Beat, chip: string)
    ensures var h := history + [Metrics.Update(Readings(b, chip))];
            var l := Metrics.Labels(b.nodeId, b.deploymentId, chip);
            && Exposes(Metrics.HeapFree, h, l, b.heapFree as real)
            && Exposes(Metrics.Rssi, h, l, b.rssi as real)
            && Exposes(Metrics.Uptime, h, l, b.uptimeMs as real / 1000.0)
            && (b.tempCelsius != -127.0 ==> Exposes(Metrics.Temperature, h, l, b.tempCelsius))
            && Exposes(Metrics.TaskHwm, h, l, b.taskHwmMin as real)
            && (b.ts != 0 ==> Exposes(Metrics.Timestamp, h, l, b.ts as real))
            && Exposes(Metrics.Generation, h, l, b.configGeneration as real)
            && Exposes(Metrics.Validated, h, l, if b.otaValidated then 1.0 else 0.0)
            && (b.tempCelsius == -127.0 && l !in Metrics.GaugeAfter(Metrics.Temperature, history) ==>
                  l !in Metrics.GaugeAfter(Metrics.Temperature, h))
            && (b.ts == 0 && l !in Metrics.GaugeAfter(Metrics.Timestamp, history) ==>
                  l !in Metrics.GaugeAfter(Metrics.Timestamp, h))
            && forall kind, m | m in Metrics.GaugeAfter(kind, h) && m.nodeId == b.nodeId :: m == l
  {
    hide Metrics.GaugeAfter, Metrics.IndexAfter;
    var d := Readings(b, chip);
    var h := history + [Metrics.Update(d)];
    var l := Metrics.Labels(b.nodeId, b.deploymentId, chip);
    Metrics.OneMoreUpdate(history, d);
    forall kind
      ensures Metrics.GaugeAfter(kind, h) == Metrics.Updated(
          Metrics.GaugeAfter(kind, history), Metrics.IndexAfter(history), d, Metrics.Reading(kind, d))
    {
    }
    forall kind, m | m in Metrics.GaugeAfter(kind, h) && m.nodeId == b.nodeId
      ensures m == l
    {
      Metrics.SeriesAreExact(kind, h, m);
    }
  }

  ghost predicate Known(q: Request, nodes: Option<seq<NodeRecord>>) {
    q.isPost && q.beat.Some? && nodes.Some? && exists i: nat :: Unique(nodes.value, q.beat.value.nodeId, i)
  }

  /** The request bears this token, and the Secret could be read. */
  predicate Bears(q: Request, secretRead: bool, token: string) {
    secretRead && q.header == "Bearer " + token
  }

  /** It bears the token stored under the key of the node. */
  predicate BearsCurrent(q: Request, secretRead: bool, data: map<string, string>, tokenKey: string) {
    tokenKey in data && Bears(q, secretRead, TrimSpace(data[tokenKey]))
  }

  /** It bears the previous token of a Secret per node. */
  predicate BearsPrevious(q: Request, secretRead: bool, data: map<string, string>, tokenKey: string) {
    && tokenKey == "token" && "previousToken" in data && data["previousToken"] != ""
    && Bears(q, secretRead, TrimSpace(data["previousToken"]))
  }

  lemma BearsIsMatch(q: Request, data: map<string, string>, tokenKey: string)
    ensures var m := if "Bearer " <= q.header then MatchToken(data, tokenKey, q.header[7..]) else NoMatch;
            && (m == Current <==> BearsCurrent(q, true, data, tokenKey))
            && (m == NoMatch <==> !BearsCurrent(q, true, data, tokenKey) && !BearsPrevious(q, true, data, tokenKey))
  {
    hide TrimSpace;
    if "Bearer " <= q.header {
      assert q.header == "Bearer " + q.header[7..];
      forall t: string
        ensures q.header == "Bearer " + t <==> t == q.header[7..]
      {
        assert ("Bearer " + t)[7..] == t;
      }
    }
  }

  /**
   * The whole handler. Anything but a readable POST is refused; an unknown or ambiguous node, or a failed listing, is
   * answered 200 and ignored; a bad token is 401 and changes nothing; a token that matches as current ends an open
   * rotation; a state outside the enumeration is 400 after that. Metrics are published exactly when the write landed.
   */
  method HandleHeartbeat(
      q: Request, nodes: Option<seq<NodeRecord>>, tokenKey: string, secretRead: bool, clearLands: bool, now: int,
      tries: nat -> Try, server: Server, store: SecretStore, registry: Metrics.Registry)
    returns (r: Reply)
    requires registry.Valid()
    modifies server, store`data, registry
    ensures !q.isPost ==> r == Reply(405, false)
    ensures q.isPost && q.beat == None ==> r == Reply(400, false)
    ensures q.isPost && q.beat.Some? && !Known(q, nodes) ==> r == Reply(200, false)
    ensures var current := BearsCurrent(q, secretRead, store.cached, tokenKey);
            var accepted := current || BearsPrevious(q, secretRead, store.cached, tokenKey);
            var valid := q.beat.Some? && q.beat.value.state in {
              "booting", "pending_verify", "running", "degraded", "rollback", "failed", "offline"};
            var clears := current && "previousToken" in store.cached && store.cached["previousToken"] != "";
            var heard := Known(q, nodes) && accepted && valid;
            && (Known(q, nodes) && !accepted ==> r == Reply(401, false))
            && (Known(q, nodes) && accepted && !valid ==> r == Reply(400, false))
            && store.data == (if Known(q, nodes) && clears && clearLands
                              then old(store.data) - {"previousToken"} else old(store.data))
            && (if heard
                then
                  var b := q.beat.value;
                  var op := BeatOp(b, if b.ip == "" then q.tcpIp else b.ip, now);
                  r.code == 200 && Outcome(server.obj, server.ops, r.accepted)
                                   == Attempts(old(server.obj), old(server.ops), op, tries, 0, RETRY_STEPS)
                else !r.accepted && server.obj == old(server.obj) && server.ops == old(server.ops))
    ensures registry.Valid()
    ensures registry.history == old(registry.history) +
            if r.accepted then [Metrics.Update(Readings(q.beat.value, server.obj.status.chip))] else []
  {
    hide Attempts, NodeStep.Apply, TrimSpace, MatchToken, Unique, Metrics.Registry.Valid;
    if !q.isPost {
      return Reply(405, false);
    }
    if q.beat == None {
      return Reply(400, false);
    }
    var b := q.beat.value;
    if nodes == None {
      return Reply(200, false);
    }
    var found := FindNode(nodes.value, b.nodeId);
    if found.Err? {
      return Reply(200, false);
    }
    BearsIsMatch(q, store.cached, tokenKey);
    var m := NoMatch;
    if secretRead {
      m := store.ValidateToken(q.header, tokenKey);
    }
    if m == NoMatch {
      return Reply(401, false);
    }
    if m == Current && "previousToken" in store.cached && |store.cached["previousToken"]| > 0 {
      store.ClearPreviousToken(clearLands);
    }
    if !ValidState(b.state) {
      return Reply(400, false);
    }
    var sourceIp := b.ip;
    if sourceIp == "" {
      sourceIp := q.tcpIp;
    }
    var ok := server.WriteBeat(b, sourceIp, now, tries);
    if !ok {
      return Reply(200, false);
    }
    registry.UpdateFromHeartbeat(Readings(b, server.obj.status.chip));
    r := Reply(200, true);
  }
}
