/** The per-node gauges and the index of their labels (internal/metrics/metrics.go), updated one call at a time. */
module Metrics {
  import opened Wrappers

  datatype Labels = Labels(nodeId: string, workload: string, chip: string)

  datatype Data = Data(
    nodeId: string, workload: string, chip: string, heapFree: int, rssi: int, uptimeMs: int, temperature: real,
    taskHwm: int, configGeneration: int, ts: int, otaValidated: bool)

  datatype Kind = HeapFree | Rssi | Uptime | Temperature | TaskHwm | Timestamp | Generation | Validated

  type Gauge = map<Labels, real>

  function LabelsOf(d: Data): Labels {
    Labels(d.nodeId, d.workload, d.chip)
  }

  /** The value a heartbeat gives to a gauge; a missing sensor and an unset clock give none. */
  function Reading(kind: Kind, d: Data): Option<real> {
    match kind
    case HeapFree => Some(d.heapFree as real)
    case Rssi => Some(d.rssi as real)
    case Uptime => Some(d.uptimeMs as real / 1000.0)
    case Temperature => if d.temperature != -127.0 then Some(d.temperature) else None
    case TaskHwm => Some(d.taskHwm as real)
    case Timestamp => if d.ts != 0 then Some(d.ts as real) else None
    case Generation => Some(d.configGeneration as real)
    case Validated => Some(if d.otaValidated then 1.0 else 0.0)
  }

  /** The index: the labels in use for each node. */
  type Index = map<string, Labels>

  predicate Relabelled(index: Index, d: Data) {
    d.nodeId in index && (index[d.nodeId].workload != d.workload || index[d.nodeId].chip != d.chip)
  }

  function Updated(g: Gauge, index: Index, d: Data, reading: Option<real>): Gauge {
    var kept := if Relabelled(index, d) then g - {index[d.nodeId]} else g;
    Written(kept, LabelsOf(d), reading)
  }

  function Written(g: Gauge, l: Labels, reading: Option<real>): Gauge {
    if reading.Some? then g[l := reading.value] else g
  }

  function Removed(g: Gauge, index: Index, nodeId: string): Gauge {
    if nodeId in index then g - {index[nodeId]} else g
  }

  // ---------------------------------------------------------------- histories

  datatype Op = Update(d: Data) | Remove(nodeId: string)

  function IndexAfter(ops: seq<Op>): Index {
    if ops == [] then map[]
    else
      match ops[|ops| - 1]
      case Update(d) => IndexAfter(ops[..|ops| - 1])[d.nodeId := LabelsOf(d)]
      case Remove(id) => IndexAfter(ops[..|ops| - 1]) - {id}
  }

  function GaugeAfter(kind: Kind, ops: seq<Op>): Gauge {
    if ops == [] then map[]
    else
      var before := ops[..|ops| - 1];
      match ops[|ops| - 1]
      case Update(d) => Updated(GaugeAfter(kind, before), IndexAfter(before), d, Reading(kind, d))
      case Remove(id) => Removed(GaugeAfter(kind, before), IndexAfter(before), id)
  }

  function About(op: Op): string {
    match op case Update(d) => d.nodeId case Remove(id) => id
  }

  /** The last heartbeat of a node that was not removed since. */
  function Last(ops: seq<Op>, id: string): Option<Data> {
    if ops == [] then None
    else
      var op := ops[|ops| - 1];
      if About(op) != id then Last(ops[..|ops| - 1], id)
      else if op.Update? then Some(op.d) else None
  }

  /** The last value read for a node since its labels last changed: what the gauge should show, looking back in time. */
  function Shown(kind: Kind, ops: seq<Op>, id: string): Option<real> {
    if ops == [] then None
    else
      var before, op := ops[..|ops| - 1], ops[|ops| - 1];
      if About(op) != id then Shown(kind, before, id)
      else if op.Remove? then None
      else if Reading(kind, op.d).Some? then Reading(kind, op.d)
      else if Last(before, id).Some? && LabelsOf(Last(before, id).value) == LabelsOf(op.d) then Shown(kind, before, id)
      else None
  }

  lemma {:induction false} IndexHoldsLast(ops: seq<Op>, id: string)
    ensures id in IndexAfter(ops) <==> Last(ops, id).Some?
    ensures id in IndexAfter(ops) ==>
              IndexAfter(ops)[id] == LabelsOf(Last(ops, id).value) && Last(ops, id).value.nodeId == id
    decreases ops
  {
    if ops != [] {
      IndexHoldsLast(ops[..|ops| - 1], id);
    }
  }

  /**
   * Main result, for every history and every gauge: a series exists exactly under the labels the index holds for its
   * node, exactly when the node has a value to show, and it shows that value.
   */
  lemma {:induction false} SeriesAreExact(kind: Kind, ops: seq<Op>, l: Labels)
    ensures l in GaugeAfter(kind, ops) <==>
            l.nodeId in IndexAfter(ops) && IndexAfter(ops)[l.nodeId] == l && Shown(kind, ops, l.nodeId).Some?
    ensures l in GaugeAfter(kind, ops) ==> Shown(kind, ops, l.nodeId) == Some(GaugeAfter(kind, ops)[l])
    decreases ops
  {
    hide Reading;
    if ops != [] {
      var before := ops[..|ops| - 1];
      SeriesAreExact(kind, before, l);
      IndexHoldsLast(before, l.nodeId);
      var id := About(ops[|ops| - 1]);
      IndexHoldsLast(before, id);
    }
  }

  /** Six gauges show every tracked node; temperature and timestamp show some of them. */
  lemma {:induction false} AlwaysShown(kind: Kind, ops: seq<Op>, id: string)
    ensures Shown(kind, ops, id).Some? ==> Last(ops, id).Some?
    ensures kind != Temperature && kind != Timestamp ==> (Shown(kind, ops, id).Some? <==> Last(ops, id).Some?)
    decreases ops
  {
    if ops != [] {
      AlwaysShown(kind, ops[..|ops| - 1], id);
    }
  }

  /** So a node has at most one series per gauge, exactly one in the six, and a removed node has none. */
  lemma SeriesPerNode(kind: Kind, ops: seq<Op>, id: string)
    ensures forall l, m | l in GaugeAfter(kind, ops) && m in GaugeAfter(kind, ops) && l.nodeId == m.nodeId :: l == m
    ensures id in IndexAfter(ops) && kind != Temperature && kind != Timestamp ==>
              IndexAfter(ops)[id] in GaugeAfter(kind, ops) && IndexAfter(ops)[id].nodeId == id
    ensures id !in IndexAfter(ops) ==> forall l | l in GaugeAfter(kind, ops) :: l.nodeId != id
  {
    forall l: Labels
      ensures l in GaugeAfter(kind, ops) ==> l.nodeId in IndexAfter(ops) && IndexAfter(ops)[l.nodeId] == l
    {
      SeriesAreExact(kind, ops, l);
    }
    AlwaysShown(kind, ops, id);
    IndexHoldsLast(ops, id);
    if id in IndexAfter(ops) {
      SeriesAreExact(kind, ops, IndexAfter(ops)[id]);
    }
  }

  // ---------------------------------------------------------------- the code, as it runs

  datatype Gauges = Gauges(
    heapFree: Gauge, rssi: Gauge, uptime: Gauge, temperature: Gauge, taskHwm: Gauge, timestamp: Gauge,
    generation: Gauge, validated: Gauge)
  {
    function Of(kind: Kind): Gauge {
      match kind
      case HeapFree => heapFree
      case Rssi => rssi
      case Uptime => uptime
      case Temperature => temperature
      case TaskHwm => taskHwm
      case Timestamp => timestamp
      case Generation => generation
      case Validated => validated
    }

    /** All eight gauges without one label set. */
    function Without(l: Labels): Gauges {
      Gauges(heapFree - {l}, rssi - {l}, uptime - {l}, temperature - {l}, taskHwm - {l}, timestamp - {l},
             generation - {l}, validated - {l})
    }

    /** All eight gauges with the readings of one heartbeat. */
    function With(d: Data): Gauges {
      var l := LabelsOf(d);
      Gauges(Written(heapFree, l, Reading(HeapFree, d)), Written(rssi, l, Reading(Rssi, d)),
             Written(uptime, l, Reading(Uptime, d)), Written(temperature, l, Reading(Temperature, d)),
             Written(taskHwm, l, Reading(TaskHwm, d)), Written(timestamp, l, Reading(Timestamp, d)),
             Written(generation, l, Reading(Generation, d)), Written(validated, l, Reading(Validated, d)))
    }
  }

  /** The gauges are the ones a history of calls makes. */
  ghost predicate Made(g: Gauges, history: seq<Op>) {
    forall kind :: g.Of(kind) == GaugeAfter(kind, history)
  }

  class Registry {
    var prevLabels: Index
    var gauges: Gauges
    ghost var history: seq<Op>

    ghost predicate Valid()
      reads this
    {
      prevLabels == IndexAfter(history) && Made(gauges, history)
    }

    constructor ()
      ensures Valid() && history == []
    {
      prevLabels := map[];
      gauges := Gauges(map[], map[], map[], map[], map[], map[], map[], map[]);
      history := [];
    }

    method DeleteLabels(l: Labels)
      modifies this`gauges
      ensures gauges == old(gauges).Without(l)
    {
      var g := gauges;
      gauges := gauges.(heapFree := g.heapFree - {l}, rssi := g.rssi - {l}, uptime := g.uptime - {l},
                        temperature := g.temperature - {l});
      gauges := gauges.(taskHwm := g.taskHwm - {l}, timestamp := g.timestamp - {l}, generation := g.generation - {l},
                        validated := g.validated - {l});
    }

    method RemoveNode(nodeId: string)
      requires Valid()
      modifies this
      ensures Valid() && history == old(history) + [Remove(nodeId)]
    {
      hide GaugeAfter, IndexAfter;
      if nodeId in prevLabels {
        DeleteLabels(prevLabels[nodeId]);
        prevLabels := prevLabels - {nodeId};
      }
      history := history + [Remove(nodeId)];
      OneMoreRemove(old(history), nodeId);
      assert prevLabels == old(prevLabels) - {nodeId};
    }

    method SetGauges(d: Data)
      modifies this`gauges
      ensures gauges == old(gauges).With(d)
    {
      hide LabelsOf, Written, Reading;
      var labels := LabelsOf(d);
      var heapFree := gauges.heapFree[labels := d.heapFree as real];
      var rssi := gauges.rssi[labels := d.rssi as real];
      var uptime := gauges.uptime[labels := d.uptimeMs as real / 1000.0];
      var temperature := gauges.temperature;
      if d.temperature != -127.0 {
        temperature := temperature[labels := d.temperature];
      }
      var taskHwm := gauges.taskHwm[labels := d.taskHwm as real];
      var timestamp := gauges.timestamp;
      if d.ts != 0 {
        timestamp := timestamp[labels := d.ts as real];
      }
      var generation := gauges.generation[labels := d.configGeneration as real];
      var validated := gauges.validated[labels := if d.otaValidated then 1.0 else 0.0];
      WithMeans(gauges, d);
      gauges := Gauges(heapFree, rssi, uptime, temperature, taskHwm, timestamp, generation, validated);
    }

    method UpdateFromHeartbeat(d: Data)
      requires Valid()
      modifies this
      ensures Valid() && history == old(history) + [Update(d)]
    {
      hide GaugeAfter, IndexAfter, Made, Gauges.With, Gauges.Without, Relabelled;
      RelabelledMeans(prevLabels, d);
      var labels := LabelsOf(d);
      if d.nodeId in prevLabels {
        var before := prevLabels[d.nodeId];
        if before.workload != labels.workload || before.chip != labels.chip {
          DeleteLabels(before);
        }
      }
      prevLabels := prevLabels[d.nodeId := labels];
      SetGauges(d);
      history := history + [Update(d)];
      UpdateMakes(old(gauges), old(history), d);
    }
  }

  lemma WithMeans(g: Gauges, d: Data)
    ensures var l, w := LabelsOf(d), g.With(d);
            && w.heapFree == g.heapFree[l := d.heapFree as real]
            && w.rssi == g.rssi[l := d.rssi as real]
            && w.uptime == g.uptime[l := d.uptimeMs as real / 1000.0]
            && w.temperature == (if d.temperature != -127.0 then g.temperature[l := d.temperature] else g.temperature)
            && w.taskHwm == g.taskHwm[l := d.taskHwm as real]
            && w.timestamp == (if d.ts != 0 then g.timestamp[l := d.ts as real] else g.timestamp)
            && w.generation == g.generation[l := d.configGeneration as real]
            && w.validated == g.validated[l := if d.otaValidated then 1.0 else 0.0]
  {
    hide LabelsOf;
  }

  lemma RelabelledMeans(index: Index, d: Data)
    ensures Relabelled(index, d) <==>
            d.nodeId in index && (index[d.nodeId].workload != d.workload || index[d.nodeId].chip != d.chip)
  {
  }

  /** Each gauge updated on its own is the whole registry updated. */
  lemma UpdateMakes(g: Gauges, history: seq<Op>, d: Data)
    requires Made(g, history)
    ensures var index := IndexAfter(history);
            Made((if Relabelled(index, d) then g.Without(index[d.nodeId]) else g).With(d), history + [Update(d)])
    ensures IndexAfter(history + [Update(d)]) == IndexAfter(history)[d.nodeId := LabelsOf(d)]
  {
    hide GaugeAfter, IndexAfter, Reading, Written;
    OneMoreUpdate(history, d);
  }

  lemma OneMoreUpdate(ops: seq<Op>, d: Data)
    ensures IndexAfter(ops + [Update(d)]) == IndexAfter(ops)[d.nodeId := LabelsOf(d)]
    ensures forall kind :: GaugeAfter(kind, ops + [Update(d)])
                           == Updated(GaugeAfter(kind, ops), IndexAfter(ops), d, Reading(kind, d))
  {
    assert (ops + [Update(d)])[..|ops|] == ops;
  }

  lemma OneMoreRemove(ops: seq<Op>, id: string)
    ensures IndexAfter(ops + [Remove(id)]) == IndexAfter(ops) - {id}
    ensures forall kind :: GaugeAfter(kind, ops + [Remove(id)]) == Removed(GaugeAfter(kind, ops), IndexAfter(ops), id)
  {
    assert (ops + [Remove(id)])[..|ops|] == ops;
  }
}
