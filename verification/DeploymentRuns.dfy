/** Whole runs of the deployment controller: reconciles in any order, mixed with users who create, edit and delete. */
module DeploymentRuns {
  import opened DeploymentStep
  import opened DeploymentSafety

  datatype Step =
    | Reconcile(key: Key, env: Env)
    | Create(key: Key, dep: Dep)
    | Respec(key: Key, spec: Spec)
    | Delete(key: Key)
    | SlotLost(node: Key)

  /** New objects carry a UID never used before and an empty status; their annotations are whatever the user wrote. */
  predicate Enabled(w: World, s: Step) {
    match s
    case Reconcile(_, env) => NamedNodes(env)
    case Create(key, d) =>
      && key !in w.deps && d.uid != "" && d.uid !in w.born
      && d.status == Status(NoPhase, "", "", Blank, "", 0, [])
    case Respec(key, _) => key in w.deps
    case Delete(_) => true
    case SlotLost(_) => true
  }

  function Next(w: World, s: Step): World {
    match s
    case Reconcile(key, env) => Reconciled(w, key, env)
    case Create(key, d) => w.(deps := w.deps[key := d], born := w.born + {d.uid})
    case Respec(key, spec) => if key in w.deps then w.(deps := w.deps[key := w.deps[key].(spec := spec)]) else w
    case Delete(key) => w.(deps := w.deps - {key})
    case SlotLost(node) => w.(slots := w.slots[node := NoSlot])
  }

  const START := World(map[], map[], [], {})

  function Run(w: World, steps: seq<Step>): World {
    if steps == [] then w else Next(Run(w, steps[..|steps| - 1]), steps[|steps| - 1])
  }

  predicate Legal(w: World, steps: seq<Step>) {
    steps == [] ||
    (Legal(w, steps[..|steps| - 1]) && Enabled(Run(w, steps[..|steps| - 1]), steps[|steps| - 1]))
  }

  // ---------------------------------------------------------------- the invariant

  predicate WellNamed(w: World) {
    && (forall k | k in w.deps :: Shape(w.deps[k]) && w.deps[k].uid in w.born)
    && (forall a, b | a in w.deps && b in w.deps && a != b :: w.deps[a].uid != w.deps[b].uid)
  }

  /** At most one deployment that has not failed is bound to a node of a namespace. */
  predicate Exclusive(w: World) {
    forall a, b | a in w.deps && b in w.deps && a != b && a.ns == b.ns && w.deps[a].status.boundNode != "" ::
      && w.deps[a].status.boundNode == w.deps[b].status.boundNode
      ==> w.deps[a].status.phase == Failed || w.deps[b].status.phase == Failed
  }

  /** Commands come from deployments that exist or existed, and went to the node they are bound to. */
  predicate Attributed(w: World) {
    forall i | 0 <= i < |w.log| ::
      && w.log[i].uid in w.born
      && forall k | k in w.deps && w.deps[k].uid == w.log[i].uid ::
           w.log[i].node == Key(k.ns, w.deps[k].status.boundNode) && w.deps[k].status.boundNode != ""
  }

  /** Once a deployment that has not failed has sent a command to a node, nobody else sends one there. */
  predicate LastWord(w: World) {
    forall i, j, k | 0 <= i < j < |w.log| && k in w.deps ::
      w.deps[k].uid == w.log[i].uid && w.deps[k].status.phase != Failed && w.log[j].node == w.log[i].node
      ==> w.log[j].uid == w.log[i].uid
  }

  /** The commands a node receives form consecutive single-deployment blocks. */
  predicate Blocks(log: seq<Entry>) {
    forall i, j, k | 0 <= i < j < k < |log| ::
      log[i].node == log[j].node == log[k].node && log[i].uid == log[k].uid ==> log[j].uid == log[i].uid
  }

  predicate Inv(w: World) {
    WellNamed(w) && Exclusive(w) && Attributed(w) && LastWord(w) && Blocks(w.log)
  }

  lemma {:induction false} EntriesAre(node: Key, uid: string, cmds: seq<Command>)
    ensures |Entries(node, uid, cmds)| == |cmds|
    ensures forall i :: 0 <= i < |cmds| ==> Entries(node, uid, cmds)[i] == Entry(node, uid, cmds[i])
    decreases cmds
  {
    if cmds != [] {
      EntriesAre(node, uid, cmds[1..]);
    }
  }

  /** The parts of a reconcile step that the invariant proofs work with. */
  ghost predicate Transition(w: World, w': World, key: Key, node: Key, out: Outcome, slot: Slot) {
    && key in w.deps
    && node == Key(key.ns, w.deps[key].status.boundNode)
    && slot == SlotOf(w, node)
    && Moves(key, w.deps[key], w.deps, slot, out)
    && w'.deps == w.deps[key := out.dep] && w'.born == w.born
    && |w'.log| == |w.log| + |out.cmds|
    && w'.log[..|w.log|] == w.log
    && forall i :: |w.log| <= i < |w'.log| ==> w'.log[i] == Entry(node, w.deps[key].uid, out.cmds[i - |w.log|])
  }

  lemma ReconcileTransition(w: World, key: Key, env: Env) returns (node: Key, out: Outcome, slot: Slot)
    requires WellNamed(w) && NamedNodes(env) && key in w.deps
    ensures Transition(w, Reconciled(w, key, env), key, node, out, slot)
    ensures out == ReconcileOutcome(key, w.deps[key], w.deps, slot, env)
    ensures Reconciled(w, key, env).slots == w.slots[node := SlotAfter(slot, out.cmds, w.deps[key].status, env.slot)]
  {
    hide ReconcileOutcome, Moves, SlotAfter;
    var dep := w.deps[key];
    node := Key(key.ns, dep.status.boundNode);
    slot := SlotOf(w, node);
    out := ReconcileOutcome(key, dep, w.deps, slot, env);
    ReconcileMoves(key, dep, w.deps, slot, env);
    EntriesAre(node, dep.uid, out.cmds);
  }

  lemma TransitionKeepsNames(w: World, w': World, key: Key, node: Key, out: Outcome, slot: Slot)
    requires WellNamed(w) && Transition(w, w', key, node, out, slot)
    ensures WellNamed(w')
  {
    hide Shape, Busy, Licensed;
  }

  lemma TransitionKeepsExclusive(w: World, w': World, key: Key, node: Key, out: Outcome, slot: Slot)
    requires WellNamed(w) && Exclusive(w) && Transition(w, w', key, node, out, slot)
    ensures Exclusive(w')
  {
    forall a, b | a in w'.deps && b in w'.deps && a != b && a.ns == b.ns && w'.deps[a].status.boundNode != ""
                  && w'.deps[a].status.boundNode == w'.deps[b].status.boundNode
      ensures w'.deps[a].status.phase == Failed || w'.deps[b].status.phase == Failed
    {
      assert a == key || b == key || (w'.deps[a] == w.deps[a] && w'.deps[b] == w.deps[b]);
    }
  }

  /** What the log proofs use: only a bound, live deployment sends, and it keeps its identity, node and failure. */
  lemma SenderIsLive(w: World, w': World, key: Key, node: Key, out: Outcome, slot: Slot)
    requires WellNamed(w) && Transition(w, w', key, node, out, slot)
    ensures var a, b := w.deps[key], out.dep;
            && (out.cmds != [] ==> a.status.boundNode != "" && a.status.phase != Failed)
            && a.uid == b.uid && a.uid in w.born
            && (a.status.boundNode != "" ==> b.status.boundNode == a.status.boundNode)
            && (a.status.phase == Failed ==> b.status.phase == Failed)
    ensures forall i :: 0 <= i < |w.log| ==> w'.log[i] == w.log[i]
  {
    hide Busy;
    assert forall i :: 0 <= i < |w.log| ==> w'.log[i] == w'.log[..|w.log|][i];
  }

  lemma TransitionKeepsAttributed(w: World, w': World, key: Key, node: Key, out: Outcome, slot: Slot)
    requires WellNamed(w) && Attributed(w) && Transition(w, w', key, node, out, slot)
    ensures Attributed(w')
  {
    SenderIsLive(w, w', key, node, out, slot);
    hide Moves, Shape;
  }

  lemma TransitionKeepsLastWord(w: World, w': World, key: Key, node: Key, out: Outcome, slot: Slot)
    requires WellNamed(w) && Exclusive(w) && Attributed(w) && LastWord(w) && Transition(w, w', key, node, out, slot)
    ensures LastWord(w')
  {
    SenderIsLive(w, w', key, node, out, slot);
    hide Moves, Shape;
    var n := |w.log|;
    forall i, j, k | 0 <= i < j < |w'.log| && k in w'.deps && w'.deps[k].uid == w'.log[i].uid
                     && w'.deps[k].status.phase != Failed && w'.log[j].node == w'.log[i].node
      ensures w'.log[j].uid == w'.log[i].uid
    {
      assert w.deps[k].uid == w'.deps[k].uid && w.deps[k].status.phase != Failed;
      if i < n <= j {
        assert w.log[i].node == Key(k.ns, w.deps[k].status.boundNode) == node;
      }
    }
  }

  lemma TransitionKeepsBlocks(w: World, w': World, key: Key, node: Key, out: Outcome, slot: Slot)
    requires WellNamed(w) && LastWord(w) && Blocks(w.log) && Transition(w, w', key, node, out, slot)
    ensures Blocks(w'.log)
  {
    SenderIsLive(w, w', key, node, out, slot);
    hide Moves, Shape;
  }

  /** Once a later deployment has sent a command to a node, an earlier one never does again. */
  lemma TransitionKeepsLog(w: World, w': World, key: Key, node: Key, out: Outcome, slot: Slot)
    requires WellNamed(w) && Exclusive(w) && Attributed(w) && Transition(w, w', key, node, out, slot)
    ensures Attributed(w')
    ensures LastWord(w) ==> LastWord(w')
    ensures LastWord(w) && Blocks(w.log) ==> Blocks(w'.log)
  {
    hide WellNamed, Exclusive, Attributed, LastWord, Blocks, Transition;
    TransitionKeepsAttributed(w, w', key, node, out, slot);
    if LastWord(w) {
      TransitionKeepsLastWord(w, w', key, node, out, slot);
      if Blocks(w.log) {
        TransitionKeepsBlocks(w, w', key, node, out, slot);
      }
    }
  }

  /** A step of a user: every object keeps its UID and status, or is new and unbound; no command is sent. */
  ghost predicate UserStep(w: World, w': World) {
    && w'.log == w.log && w.born <= w'.born
    && forall k | k in w'.deps ::
         || (k in w.deps && w'.deps[k].uid == w.deps[k].uid && w'.deps[k].status == w.deps[k].status)
         || (w'.deps[k].uid !in w.born && w'.deps[k].status.boundNode == "")
  }

  lemma UserStepKeepsExclusive(w: World, w': World)
    requires Exclusive(w) && UserStep(w, w')
    ensures Exclusive(w')
  {
  }

  lemma UserStepKeepsAttributed(w: World, w': World)
    requires Attributed(w) && UserStep(w, w')
    ensures Attributed(w')
  {
  }

  lemma UserStepKeepsLastWord(w: World, w': World)
    requires Attributed(w) && LastWord(w) && UserStep(w, w')
    ensures LastWord(w')
  {
    forall i, j, k | 0 <= i < j < |w'.log| && k in w'.deps && w'.deps[k].uid == w'.log[i].uid
                     && w'.deps[k].status.phase != Failed && w'.log[j].node == w'.log[i].node
      ensures w'.log[j].uid == w'.log[i].uid
    {
      assert k in w.deps && w'.deps[k].uid == w.deps[k].uid && w'.deps[k].status == w.deps[k].status;
    }
  }

  lemma CreateKeepsNames(w: World, key: Key, d: Dep)
    requires WellNamed(w) && Enabled(w, Create(key, d))
    ensures WellNamed(Next(w, Create(key, d))) && UserStep(w, Next(w, Create(key, d)))
  {
  }

  lemma RespecKeepsNames(w: World, key: Key, spec: Spec)
    requires WellNamed(w) && key in w.deps
    ensures WellNamed(Next(w, Respec(key, spec))) && UserStep(w, Next(w, Respec(key, spec)))
  {
  }

  lemma DeleteKeepsNames(w: World, key: Key)
    requires WellNamed(w)
    ensures WellNamed(Next(w, Delete(key))) && UserStep(w, Next(w, Delete(key)))
  {
  }

  lemma SlotLostKeepsNames(w: World, node: Key)
    requires WellNamed(w)
    ensures WellNamed(Next(w, SlotLost(node))) && UserStep(w, Next(w, SlotLost(node)))
  {
  }

  /** The whole invariant is kept by every enabled step. */
  lemma StepKeepsInv(w: World, s: Step)
    requires Inv(w) && Enabled(w, s)
    ensures Inv(Next(w, s))
  {
    match s {
      case Reconcile(key, env) =>
        hide Reconciled, Shape;
        if key in w.deps {
          var node, out, slot := ReconcileTransition(w, key, env);
          var w' := Reconciled(w, key, env);
          TransitionKeepsNames(w, w', key, node, out, slot);
          TransitionKeepsExclusive(w, w', key, node, out, slot);
          TransitionKeepsLog(w, w', key, node, out, slot);
        } else {
          AbsentIsNoop(w, key, env);
        }
      case _ =>
        hide WellNamed, Exclusive, Attributed, LastWord, Blocks;
        match s {
          case Create(key, d) => CreateKeepsNames(w, key, d);
          case Respec(key, spec) => RespecKeepsNames(w, key, spec);
          case Delete(key) => DeleteKeepsNames(w, key);
          case SlotLost(node) => SlotLostKeepsNames(w, node);
        }
        UserStepKeepsExclusive(w, Next(w, s));
        UserStepKeepsAttributed(w, Next(w, s));
        UserStepKeepsLastWord(w, Next(w, s));
    }
  }

  lemma AbsentIsNoop(w: World, key: Key, env: Env)
    requires key !in w.deps
    ensures Reconciled(w, key, env) == w
  {
  }

  /**
   * Main result: in every reachable state at most one non-failed deployment is bound to a node, and the commands a
   * node received form consecutive single-deployment blocks.
   */
  lemma {:induction false} RunKeepsInv(w: World, steps: seq<Step>)
    requires Inv(w) && Legal(w, steps)
    ensures Inv(Run(w, steps))
    decreases steps
  {
    hide Inv, Enabled, Next;
    if steps != [] {
      RunKeepsInv(w, steps[..|steps| - 1]);
      StepKeepsInv(Run(w, steps[..|steps| - 1]), steps[|steps| - 1]);
    }
  }

  /** Every reachable state is safe. */
  lemma ReachableIsSafe(steps: seq<Step>)
    requires Legal(START, steps)
    ensures Inv(Run(START, steps))
  {
    assert Inv(START);
    RunKeepsInv(START, steps);
  }

  // ---------------------------------------------------------------- what never goes back

  lemma EvolvesTransitively(a: Dep, b: Dep, c: Dep)
    requires Evolves(a, b) && Evolves(b, c)
    ensures Evolves(a, c)
  {
  }

  predicate SameObject(w: World, w': World, key: Key) {
    key in w.deps && key in w'.deps && w.deps[key].uid == w'.deps[key].uid
  }

  lemma StepEvolves(w: World, s: Step, key: Key)
    requires Inv(w) && Enabled(w, s)
    ensures w.born <= Next(w, s).born
    ensures SameObject(w, Next(w, s), key) ==> Evolves(w.deps[key], Next(w, s).deps[key])
    ensures key in Next(w, s).deps && Next(w, s).deps[key].uid in w.born ==> SameObject(w, Next(w, s), key)
  {
    hide Reconciled, Exclusive, Attributed, LastWord, Blocks, Licensed, Shape;
    match s {
      case Reconcile(k, env) =>
        if k in w.deps {
          var node, out, slot := ReconcileTransition(w, k, env);
        } else {
          AbsentIsNoop(w, k, env);
        }
      case _ =>
    }
  }

  /**
   * Over any run an object that is still the same one (same UID) has kept or raised its phase rank and kept its bound
   * node, deployment ID, digest, size and confirm stamp. So Failed is absorbing.
   */
  lemma {:induction false} RunEvolves(w: World, steps: seq<Step>, key: Key)
    requires Inv(w) && Legal(w, steps)
    ensures w.born <= Run(w, steps).born
    ensures SameObject(w, Run(w, steps), key) ==> Evolves(w.deps[key], Run(w, steps).deps[key])
    decreases steps
  {
    if steps != [] {
      var mid, last := Run(w, steps[..|steps| - 1]), steps[|steps| - 1];
      hide Inv, Enabled, Next, Evolves;
      RunEvolves(w, steps[..|steps| - 1], key);
      RunKeepsInv(w, steps[..|steps| - 1]);
      StepEvolves(mid, last, key);
      if SameObject(w, Run(w, steps), key) {
        StartUidBorn(w, key);
        EvolvesTransitively(w.deps[key], mid.deps[key], Run(w, steps).deps[key]);
      }
    } else {
      EvolvesReflexively(w, key);
    }
  }

  lemma InvShape(w: World, key: Key)
    requires Inv(w) && key in w.deps
    ensures Shape(w.deps[key])
  {
  }

  lemma StartUidBorn(w: World, key: Key)
    requires Inv(w) && key in w.deps
    ensures w.deps[key].uid in w.born
  {
  }

  lemma EvolvesReflexively(w: World, key: Key)
    ensures key in w.deps ==> Evolves(w.deps[key], w.deps[key])
  {
  }

  /** Number of steps of a run that changed the phase of the object at `key`. */
  function PhaseChanges(w: World, steps: seq<Step>, key: Key): nat {
    if steps == [] then 0
    else
      var mid, end := Run(w, steps[..|steps| - 1]), Run(w, steps);
      PhaseChanges(w, steps[..|steps| - 1], key) +
      if SameObject(mid, end, key) && mid.deps[key].status.phase != end.deps[key].status.phase then 1 else 0
  }

  lemma RankIsInjective(p: Phase, q: Phase)
    ensures Rank(p) == Rank(q) <==> p == q
  {
  }

  /** Any run, however long, changes the phase of one object at most as often as its rank rises: eight times at most. */
  lemma {:induction false} PhaseChangesAreBounded(w: World, steps: seq<Step>, key: Key)
    requires Inv(w) && Legal(w, steps) && SameObject(w, Run(w, steps), key)
    ensures var p, q := w.deps[key].status.phase, Run(w, steps).deps[key].status.phase;
            PhaseChanges(w, steps, key) <= Rank(q) - Rank(p) <= 8
    decreases steps
  {
    if steps != [] {
      var mid, last := Run(w, steps[..|steps| - 1]), steps[|steps| - 1];
      hide Inv, Enabled, Next;
      RunEvolves(w, steps[..|steps| - 1], key);
      RunKeepsInv(w, steps[..|steps| - 1]);
      StepEvolves(mid, last, key);
      StartUidBorn(w, key);
      PhaseChangesAreBounded(w, steps[..|steps| - 1], key);
      RankIsInjective(mid.deps[key].status.phase, Run(w, steps).deps[key].status.phase);
    }
  }
}
