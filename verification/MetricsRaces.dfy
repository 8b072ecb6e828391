/**
 * Concurrent calls on one gauge (internal/metrics/metrics.go): the index is updated and old series are deleted under
 * the mutex, the new value is written after it is released.
 */
module MetricsRaces {
  import opened Metrics

  /** `pending`: the calls that have left the mutex and have yet to write this gauge, in any order. */
  datatype State = State(index: Index, gauge: Gauge, pending: seq<Data>)

  datatype Step =
    | Enter(d: Data)         // UpdateFromHeartbeat, up to the release of the mutex
    | Write(i: nat)          // the write of the i-th pending call
    | Forget(nodeId: string) // RemoveNode, all of it under the mutex

  function Next(kind: Kind, s: State, step: Step): State {
    match step
    case Enter(d) =>
      State(s.index[d.nodeId := LabelsOf(d)],
            if Relabelled(s.index, d) then s.gauge - {s.index[d.nodeId]} else s.gauge,
            s.pending + [d])
    case Write(i) =>
      if i < |s.pending|
      then State(s.index, Written(s.gauge, LabelsOf(s.pending[i]), Reading(kind, s.pending[i])),
                 s.pending[..i] + s.pending[i + 1..])
      else s
    case Forget(id) => State(s.index - {id}, Removed(s.gauge, s.index, id), s.pending)
  }

  const START := State(map[], map[], [])

  function Run(kind: Kind, s: State, steps: seq<Step>): State {
    if steps == [] then s else Next(kind, Run(kind, s, steps[..|steps| - 1]), steps[|steps| - 1])
  }

  predicate IsCurrent(index: Index, l: Labels) {
    l.nodeId in index && index[l.nodeId] == l
  }

  /** Every series carries the labels that the index holds for its node. */
  predicate Agrees(s: State) {
    && (forall id | id in s.index :: s.index[id].nodeId == id)
    && forall l | l in s.gauge :: IsCurrent(s.index, l)
  }

  /** The write of a call whose labels were replaced, or whose node was removed, after it left the mutex. */
  predicate Overtaken(kind: Kind, s: State, step: Step) {
    && step.Write? && step.i < |s.pending|
    && Reading(kind, s.pending[step.i]).Some? && !IsCurrent(s.index, LabelsOf(s.pending[step.i]))
  }

  lemma StepAgreesExactlyWhen(kind: Kind, s: State, step: Step)
    requires Agrees(s)
    ensures Agrees(Next(kind, s, step)) <==> !Overtaken(kind, s, step)
  {
    hide Reading;
    if Overtaken(kind, s, step) {
      assert LabelsOf(s.pending[step.i]) in Next(kind, s, step).gauge;
    }
  }

  predicate AlwaysAgrees(kind: Kind, s: State, steps: seq<Step>) {
    Agrees(Run(kind, s, steps)) && (steps == [] || AlwaysAgrees(kind, s, steps[..|steps| - 1]))
  }

  predicate NeverOvertaken(kind: Kind, s: State, steps: seq<Step>) {
    steps == [] ||
    (NeverOvertaken(kind, s, steps[..|steps| - 1])
     && !Overtaken(kind, Run(kind, s, steps[..|steps| - 1]), steps[|steps| - 1]))
  }

  /** Over every interleaving: index and series agree in every state, exactly when no write is overtaken. */
  lemma {:induction false} RunAgreesExactlyWhen(kind: Kind, s: State, steps: seq<Step>)
    requires Agrees(s)
    ensures AlwaysAgrees(kind, s, steps) <==> NeverOvertaken(kind, s, steps)
    decreases steps
  {
    hide Agrees, Overtaken, Next;
    if steps != [] {
      var before := steps[..|steps| - 1];
      RunAgreesExactlyWhen(kind, s, before);
      if AlwaysAgrees(kind, s, before) {
        StepAgreesExactlyWhen(kind, Run(kind, s, before), steps[|steps| - 1]);
      }
    }
  }

  predicate AboutOther(step: Step, id: string) {
    match step
    case Enter(d) => d.nodeId != id
    case Write(_) => true
    case Forget(other) => other != id
  }

  predicate OnlyOthers(steps: seq<Step>, id: string) {
    forall step | step in steps :: AboutOther(step, id)
  }

  /**
   * A series left behind by an overtaken write of a removed node stays exposed for as long as no call for that node
   * follows, whatever happens to other nodes.
   */
  lemma {:induction false} LeftoverStays(kind: Kind, s: State, steps: seq<Step>, l: Labels)
    requires l in s.gauge && l.nodeId !in s.index && (forall id | id in s.index :: s.index[id].nodeId == id)
    requires OnlyOthers(steps, l.nodeId)
    ensures var end := Run(kind, s, steps);
            && l in end.gauge && l.nodeId !in end.index
            && forall id | id in end.index :: end.index[id].nodeId == id
    decreases steps
  {
    hide Reading;
    if steps != [] {
      var before, last := steps[..|steps| - 1], steps[|steps| - 1];
      assert last in steps && forall t | t in before :: t in steps;
      LeftoverStays(kind, s, before, l);
    }
  }

  /** A heartbeat under way while its node is removed leaves a series behind, in every gauge it has a value for. */
  lemma RemovalCanBeOvertaken(kind: Kind, d: Data)
    requires Reading(kind, d).Some?
    ensures var end := Run(kind, START, [Enter(d), Forget(d.nodeId), Write(0)]);
            LabelsOf(d) in end.gauge && end.index == map[]
  {
    var steps := [Enter(d), Forget(d.nodeId), Write(0)];
    assert steps[..2] == [Enter(d), Forget(d.nodeId)] && steps[..2][..1] == [Enter(d)] && [Enter(d)][..0] == [];
    hide Reading;
    var s1 := Next(kind, START, Enter(d));
    var s2 := Next(kind, s1, Forget(d.nodeId));
    assert Run(kind, START, [Enter(d)]) == s1;
    assert Run(kind, START, steps[..2]) == s2;
    assert s2.pending == [d];
    assert s2.index == map[];
  }

  /** One call at a time, the two halves of a call are the update of the sequential registry. */
  lemma UndividedCall(kind: Kind, s: State, d: Data)
    requires s.pending == []
    ensures Next(kind, Next(kind, s, Enter(d)), Write(0))
            == State(s.index[d.nodeId := LabelsOf(d)], Updated(s.gauge, s.index, d, Reading(kind, d)), [])
  {
    hide Reading;
  }
}
