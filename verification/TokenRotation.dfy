/**
 * Rotation of a device token across the Secret, the node reconciler, the device and the heartbeat server
 * (internal/heartbeat/server.go, internal/controller/mcunode_controller.go), with lost, delayed and repeated messages.
 */
module TokenRotation {
  import opened Wrappers

  // ---------------------------------------------------------------- the Secret

  /** unicode.IsSpace. */
  predicate IsSpace(c: char) {
    || '\t' <= c <= '\r' || c in {' ', '\U{85}', '\U{A0}', '\U{1680}', '\U{202F}', '\U{205F}', '\U{3000}'}
    || '\U{2000}' <= c <= '\U{200A}' || '\U{2028}' <= c <= '\U{2029}'
  }

  function TrimSpace(s: string): string {
    if s != [] && IsSpace(s[0]) then TrimSpace(s[1..])
    else if s != [] && IsSpace(s[|s| - 1]) then TrimSpace(s[..|s| - 1])
    else s
  }

  /** Trimming cuts spaces, and only spaces, off both ends. */
  lemma {:induction false} TrimIsExact(s: string) returns (i: nat, j: nat)
    ensures i <= j <= |s| && TrimSpace(s) == s[i..j]
    ensures forall k | 0 <= k < i || j <= k < |s| :: IsSpace(s[k])
    ensures i < j ==> !IsSpace(s[i]) && !IsSpace(s[j - 1])
    decreases |s|
  {
    hide IsSpace;
    if s != [] && IsSpace(s[0]) {
      i, j := TrimIsExact(s[1..]);
      i, j := i + 1, j + 1;
      assert s[1..][i - 1..j - 1] == s[i..j];
      assert forall k | 0 < k < |s| :: s[k] == s[1..][k - 1];
    } else if s != [] && IsSpace(s[|s| - 1]) {
      i, j := TrimIsExact(s[..|s| - 1]);
      assert s[..|s| - 1][i..j] == s[i..j];
      assert forall k | 0 <= k < |s| - 1 :: s[k] == s[..|s| - 1][k];
    } else {
      i, j := 0, |s|;
      assert s[0..|s|] == s;
    }
  }

  datatype Match = NoMatch | Current | Previous

  /** Which key of the Secret the presented token matches; only the per-node key "token" has a previous token. */
  function MatchToken(data: map<string, string>, tokenKey: string, provided: string): Match {
    if tokenKey in data && TrimSpace(data[tokenKey]) == provided then Current
    else if tokenKey == "token" && "previousToken" in data && data["previousToken"] != ""
            && TrimSpace(data["previousToken"]) == provided then Previous
    else NoMatch
  }

  lemma MatchIsExact(data: map<string, string>, tokenKey: string, provided: string)
    ensures var m := MatchToken(data, tokenKey, provided);
            && (m == Current <==> tokenKey in data && TrimSpace(data[tokenKey]) == provided)
            && (m == Previous <==>
                  && !(tokenKey in data && TrimSpace(data[tokenKey]) == provided)
                  && tokenKey == "token" && "previousToken" in data && data["previousToken"] != ""
                  && TrimSpace(data["previousToken"]) == provided)
  {
  }

  /** The tokens of a per-node Secret as both controllers read them; "" stands for absent. */
  datatype Tokens = Tokens(token: string, previous: string)

  function View(data: map<string, string>): Tokens {
    Tokens(if "token" in data then TrimSpace(data["token"]) else "",
           if "previousToken" in data then TrimSpace(data["previousToken"]) else "")
  }

  function Accepts(s: Tokens, provided: string): Match {
    if provided == s.token then Current else if provided == s.previous then Previous else NoMatch
  }

  /** For any token a device can hold, the raw lookup is the abstract one. */
  lemma MatchIsAccepts(data: map<string, string>, provided: string)
    requires provided != ""
    ensures MatchToken(data, "token", provided) == Accepts(View(data), provided)
  {
    assert TrimSpace("") == "";
  }

  /** POST /token: authenticate with the old token, install the new one. */
  datatype Post = Post(auth: string, token: string)

  /** The request to replay while a rotation is open, if any. */
  function Request(s: Tokens): Option<Post> {
    if s.previous != "" && s.token != "" then Some(Post(s.previous, s.token)) else None
  }

  /** The Secret on the API server, and the version of it that reads are served from. */
  class SecretStore {
    var data: map<string, string>
    var cached: map<string, string>

    constructor (data: map<string, string>, cached: map<string, string>)
      ensures this.data == data && this.cached == cached
    {
      this.data, this.cached := data, cached;
    }

    method ValidateToken(header: string, tokenKey: string) returns (m: Match)
      ensures m == if "Bearer " <= header then MatchToken(cached, tokenKey, header[7..]) else NoMatch
      ensures m == Current <==>
              "Bearer " <= header && tokenKey in cached && TrimSpace(cached[tokenKey]) == header[7..]
      ensures m == Previous <==>
              && "Bearer " <= header && !(tokenKey in cached && TrimSpace(cached[tokenKey]) == header[7..])
              && tokenKey == "token" && "previousToken" in cached && cached["previousToken"] != ""
              && TrimSpace(cached["previousToken"]) == header[7..]
    {
      if |header| < 7 || header[..7] != "Bearer " {
        return NoMatch;
      }
      var provided := header[7..];
      if tokenKey in cached && TrimSpace(cached[tokenKey]) == provided {
        return Current;
      }
      if tokenKey == "token" {
        if && "previousToken" in cached && |cached["previousToken"]| > 0
           && TrimSpace(cached["previousToken"]) == provided {
          return Previous;
        }
      }
      return NoMatch;
    }

    /** The patch deletes the key, whatever it holds by then. */
    method ClearPreviousToken(landed: bool)
      modifies this`data
      ensures data == if landed then old(data) - {"previousToken"} else old(data)
      ensures View(data) == if landed then old(View(data)).(previous := "") else old(View(data))
    {
      if landed {
        data := data - {"previousToken"};
      }
    }

    method ReconcileTokenRotation(perNode: bool) returns (post: Option<Post>)
      ensures post == if perNode then Request(View(cached)) else None
      ensures post.Some? <==>
              && perNode && "previousToken" in cached && TrimSpace(cached["previousToken"]) != ""
              && "token" in cached && TrimSpace(cached["token"]) != ""
      ensures post.Some? ==> post.value == Post(TrimSpace(cached["previousToken"]), TrimSpace(cached["token"]))
    {
      if !perNode {
        return None;
      }
      var previous := if "previousToken" in cached then TrimSpace(cached["previousToken"]) else "";
      if previous == "" {
        return None;
      }
      var newToken := if "token" in cached then TrimSpace(cached["token"]) else "";
      if newToken == "" {
        return None;
      }
      return Some(Post(previous, newToken));
    }
  }

  // ---------------------------------------------------------------- the protocol

  /**
   * `lag`: the versions of the Secret, oldest first, that the cache of the manager has yet to leave behind; reads are
   * served from the first of them. `posts` and `beats` only grow: a message once sent may be delivered at any later
   * time, repeatedly, or never. `clears`: heartbeat handlers that matched the current token and have yet to delete
   * previousToken. `history`: every token the operator ever made current, oldest first.
   */
  datatype Rotation = Rotation(
    lag: seq<Tokens>, secret: Tokens, device: string, posts: set<Post>, beats: set<string>, clears: nat,
    history: seq<string>)

  datatype Step =
    | Operator(minted: string)              // token=minted and previousToken=old token, in one write
    | Observe                              // the cache moves on to the next version of the Secret
    | Reconcile                            // sends POST /token while a rotation is open
    | Deliver(post: Post, accepted: bool)  // the device commits only if the old token authenticates
    | SendBeat
    | HandleBeat(token: string)            // reads the Secret and matches
    | Clear(landed: bool)                  // the pending deletion of previousToken

  /** What the node reconciler and the heartbeat server read. */
  function Cached(r: Rotation): Tokens {
    if r.lag == [] then r.secret else r.lag[0]
  }

  /** A write that changes nothing makes no new version. */
  function Written(r: Rotation, s: Tokens): Rotation {
    if s == r.secret then r else r.(lag := r.lag + [r.secret], secret := s)
  }

  function Next(r: Rotation, s: Step): Rotation {
    match s
    case Operator(minted) => Written(r, Tokens(minted, r.secret.token)).(history := r.history + [minted])
    case Observe => if r.lag == [] then r else r.(lag := r.lag[1..])
    case Reconcile =>
      if Request(Cached(r)).Some? then r.(posts := r.posts + {Request(Cached(r)).value}) else r
    case Deliver(p, accepted) => if p in r.posts && accepted && p.auth == r.device then r.(device := p.token) else r
    case SendBeat => r.(beats := r.beats + {r.device})
    case HandleBeat(t) =>
      if t in r.beats && Accepts(Cached(r), t) == Current && Cached(r).previous != "" then r.(clears := r.clears + 1)
      else r
    case Clear(landed) =>
      if r.clears == 0 then r
      else
        var s := if landed then r.secret.(previous := "") else r.secret;
        Written(r, s).(clears := r.clears - 1)
  }

  predicate Fresh(r: Rotation, minted: string) {
    minted != "" && minted !in r.history
  }

  /** A rotation may start with a fresh token, when none is open, no clear is pending, and the cache is up to date. */
  predicate MayRotate(r: Rotation, minted: string) {
    Fresh(r, minted) && r.secret.previous == "" && r.clears == 0 && r.lag == []
  }

  predicate Legal(r: Rotation, steps: seq<Step>)
    decreases steps
  {
    steps == [] ||
    ((steps[0].Operator? ==> MayRotate(r, steps[0].minted)) && Legal(Next(r, steps[0]), steps[1..]))
  }

  function Run(r: Rotation, steps: seq<Step>): Rotation
    decreases steps
  {
    if steps == [] then r else Run(Next(r, steps[0]), steps[1..])
  }

  predicate Distinct(h: seq<string>) {
    "" !in h && forall i, j :: 0 <= i < j < |h| ==> h[i] != h[j]
  }

  /**
   * How far reads lag behind: not at all; behind the operator's write, which then nobody has acted on; or behind the
   * deletion of previousToken, which then ended the rotation.
   */
  predicate LagsByOne(r: Rotation) {
    var n := |r.history|;
    || r.lag == []
    || (&& n > 1 && r.lag == [Tokens(r.history[n - 2], "")]
        && r.secret.previous == r.device == r.history[n - 2] && r.clears == 0
        && forall p | p in r.posts :: p.token != r.secret.token)
    || (n > 1 && r.lag == [Tokens(r.history[n - 1], r.history[n - 2])] && r.secret.previous == "")
  }

  predicate Inv(r: Rotation) {
    var n := |r.history|;
    && n > 0 && Distinct(r.history)
    && r.secret.token == r.history[n - 1]
    && (r.secret.previous != "" ==> n > 1 && r.secret.previous == r.history[n - 2])
    && (r.device == r.secret.token || (r.secret.previous != "" && r.device == r.secret.previous))
    && (forall p | p in r.posts :: exists i :: 0 <= i < n - 1 && p.auth == r.history[i] && p.token == r.history[i + 1])
    && (forall t | t in r.beats :: t in r.history && (t == r.secret.token ==> r.device == r.secret.token))
    && (r.clears > 0 ==> r.secret.previous == "" || r.device == r.secret.token)
    && LagsByOne(r)
  }

  lemma OperatorKeepsInv(r: Rotation, minted: string)
    requires Inv(r) && MayRotate(r, minted)
    ensures Inv(Next(r, Operator(minted)))
  {
    var r' := Next(r, Operator(minted));
    assert forall i :: 0 <= i < |r.history| ==> r'.history[i] == r.history[i];
  }

  lemma DeliverKeepsInv(r: Rotation, p: Post, accepted: bool)
    requires Inv(r)
    ensures Inv(Next(r, Deliver(p, accepted)))
  {
  }

  lemma StepKeepsInv(r: Rotation, s: Step)
    requires Inv(r) && (s.Operator? ==> MayRotate(r, s.minted))
    ensures Inv(Next(r, s))
  {
    match s {
      case Operator(minted) => OperatorKeepsInv(r, minted);
      case Deliver(p, accepted) => DeliverKeepsInv(r, p, accepted);
      case _ =>
    }
  }

  /** A heartbeat bearing the device's own token is accepted, by the Secret and by the version that reads are served. */
  predicate DeviceAccepted(r: Rotation) {
    Accepts(r.secret, r.device) != NoMatch && Accepts(Cached(r), r.device) != NoMatch
  }

  /** Main result, for every run: the device is never locked out, and previousToken outlives the device's old token. */
  lemma {:induction false} RunKeepsInv(r: Rotation, steps: seq<Step>)
    requires Inv(r) && Legal(r, steps)
    ensures Inv(Run(r, steps)) && DeviceAccepted(Run(r, steps))
    ensures Run(r, steps).secret.previous == "" ==> Run(r, steps).device == Run(r, steps).secret.token
    decreases steps
  {
    hide Next;
    if steps != [] {
      StepKeepsInv(r, steps[0]);
      RunKeepsInv(Next(r, steps[0]), steps[1..]);
    }
  }

  /** A device enrolled with its first token. */
  function Enrolled(token: string): Rotation {
    Rotation([], Tokens(token, ""), token, {}, {}, 0, [token])
  }

  lemma EnrolledStaysAccepted(token: string, steps: seq<Step>)
    requires token != "" && Legal(Enrolled(token), steps)
    ensures Inv(Run(Enrolled(token), steps)) && DeviceAccepted(Run(Enrolled(token), steps))
  {
    RunKeepsInv(Enrolled(token), steps);
  }

  // ---------------------------------------------------------------- progress

  /** 2: the device holds the old token; 1: it holds the new one, previousToken still there; 0: done. */
  function Distance(r: Rotation): nat {
    if r.secret.previous == "" then 0 else if r.device == r.secret.token then 1 else 2
  }

  lemma DistanceNeverGrows(r: Rotation, s: Step)
    requires Inv(r) && !s.Operator?
    ensures Distance(Next(r, s)) <= Distance(r)
  {
  }

  predicate WithoutOperator(steps: seq<Step>) {
    forall s | s in steps :: !s.Operator?
  }

  lemma {:induction false} RunAppend(r: Rotation, a: seq<Step>, b: seq<Step>)
    requires WithoutOperator(a) && WithoutOperator(b)
    ensures Run(r, a + b) == Run(Run(r, a), b)
    ensures Legal(r, a + b) == Legal(Run(r, a), b)
    decreases a
  {
    hide Next;
    if a == [] {
      assert a + b == b;
    } else {
      assert (a + b)[1..] == a[1..] + b && (a + b)[0] == a[0];
      assert a[0] in a && forall s | s in a[1..] :: s in a;
      RunAppend(Next(r, a[0]), a[1..], b);
    }
  }

  lemma RunOfThree(r: Rotation, a: Step, b: Step, c: Step)
    requires !a.Operator? && !b.Operator? && !c.Operator?
    ensures Run(r, [a, b, c]) == Next(Next(Next(r, a), b), c)
    ensures Legal(r, [a, b, c]) && WithoutOperator([a, b, c])
  {
    hide Next;
    assert [a, b, c][1..] == [b, c] && [b, c][1..] == [c] && [c][1..] == [];
    assert Run(Next(Next(r, a), b), [c]) == Next(Next(Next(r, a), b), c);
    assert Legal(Next(Next(r, a), b), [c]);
  }

  lemma RunOfSix(r: Rotation, a: Step, b: Step, c: Step, d: Step, e: Step, f: Step)
    requires !a.Operator? && !b.Operator? && !c.Operator? && !d.Operator? && !e.Operator? && !f.Operator?
    ensures Run(r, [a, b, c, d, e, f]) == Next(Next(Next(Next(Next(Next(r, a), b), c), d), e), f)
    ensures Legal(r, [a, b, c, d, e, f]) && WithoutOperator([a, b, c, d, e, f])
  {
    hide Next, Run, Legal;
    assert [a, b, c] + [d, e, f] == [a, b, c, d, e, f];
    RunOfThree(r, a, b, c);
    RunOfThree(Run(r, [a, b, c]), d, e, f);
    RunAppend(r, [a, b, c], [d, e, f]);
  }

  /** An open rotation, once reads have caught up: one request that gets through brings the new token. */
  lemma NewTokenArrives(r: Rotation)
    requires Inv(r) && r.secret.previous != ""
    ensures var p := Post(r.secret.previous, r.secret.token);
            var end := Next(Next(Next(r, Observe), Reconcile), Deliver(p, true));
            end.secret == r.secret && end.lag == [] && end.device == r.secret.token
  {
    var r1 := Next(Next(r, Observe), Reconcile);
    assert r1.lag == [] && Post(r.secret.previous, r.secret.token) in r1.posts;
  }

  /** One handled heartbeat that bears the new token ends the rotation. */
  lemma HeartbeatEnds(r: Rotation)
    requires r.lag == [] && r.device == r.secret.token && r.secret.previous != ""
    ensures var end := Next(Next(Next(r, SendBeat), HandleBeat(r.secret.token)), Clear(true));
            end.secret == Tokens(r.secret.token, "") && end.device == r.device
  {
  }

  /** Once reads have caught up, one reconcile that gets through and one handled heartbeat finish any open rotation. */
  lemma RotationCompletes(r: Rotation)
    requires Inv(r) && r.secret.previous != ""
    ensures var steps := [Observe, Reconcile, Deliver(Post(r.secret.previous, r.secret.token), true), SendBeat,
                          HandleBeat(r.secret.token), Clear(true)];
            var end := Run(r, steps);
            Legal(r, steps) && Distance(end) == 0 && end.device == end.secret.token == r.secret.token
  {
    var p := Post(r.secret.previous, r.secret.token);
    NewTokenArrives(r);
    hide Run, Legal, Inv, Next;
    HeartbeatEnds(Next(Next(Next(r, Observe), Reconcile), Deliver(p, true)));
    RunOfSix(r, Observe, Reconcile, Deliver(p, true), SendBeat, HandleBeat(r.secret.token), Clear(true));
  }

  // ---------------------------------------------------------------- the stale clear

  /** The device's token is in no key of the Secret, reads are up to date, and nothing ever sent can change that. */
  predicate Stranded(r: Rotation) {
    && r.device != "" && r.device != r.secret.token && r.secret.previous == "" && r.lag == []
    && forall p | p in r.posts :: p.auth != r.device
  }

  lemma {:induction false} StrandedForGood(r: Rotation, steps: seq<Step>)
    requires Stranded(r) && WithoutOperator(steps)
    ensures Stranded(Run(r, steps)) && !DeviceAccepted(Run(r, steps))
    decreases steps
  {
    if steps != [] {
      assert !steps[0].Operator?;
      assert forall s | s in steps[1..] :: s in steps;
      StrandedForGood(Next(r, steps[0]), steps[1..]);
    }
  }

  /** Nobody replays the new token; a heartbeat with the old one is handled; a clear lands; reads catch up. */
  lemma StaleClearStrands(r: Rotation, minted: string) returns (steps: seq<Step>)
    requires Inv(r) && Fresh(r, minted) && r.secret.previous == "" && (r.clears > 0 || r.lag != [])
    ensures WithoutOperator(steps) && Stranded(Run(Next(r, Operator(minted)), steps))
  {
    hide Run, Legal;
    steps := [SendBeat, HandleBeat(r.device), Clear(true), Observe, Observe, Observe];
    RunOfSix(Next(r, Operator(minted)), SendBeat, HandleBeat(r.device), Clear(true), Observe, Observe, Observe);
  }

  lemma {:induction false} QuietRunsAreLegal(r: Rotation, steps: seq<Step>)
    requires WithoutOperator(steps)
    ensures Legal(r, steps)
    decreases steps
  {
    if steps != [] {
      assert !steps[0].Operator?;
      assert forall s | s in steps[1..] :: s in steps;
      QuietRunsAreLegal(Next(r, steps[0]), steps[1..]);
    }
  }

  /** Every continuation without another rotation keeps the device accepted. */
  ghost predicate SafeFrom(r: Rotation) {
    forall steps :: WithoutOperator(steps) ==> DeviceAccepted(Run(r, steps))
  }

  /**
   * The clear patch carries no version, so a handler that still acts on the last rotation can erase a newer
   * previousToken. With no rotation open, starting one is safe exactly when no handler has a clear pending and reads
   * no longer see the last previousToken (under Inv, `lag` can then hold nothing else).
   */
  lemma RotationIsSafeExactlyWhen(r: Rotation, minted: string)
    requires Inv(r) && Fresh(r, minted) && r.secret.previous == ""
    ensures SafeFrom(Next(r, Operator(minted))) <==> r.clears == 0 && r.lag == []
    ensures r.lag != [] <==> exists v | v in r.lag :: v.token == r.secret.token && v.previous != ""
  {
    var next := Next(r, Operator(minted));
    if r.clears == 0 && r.lag == [] {
      forall steps | WithoutOperator(steps)
        ensures DeviceAccepted(Run(next, steps))
      {
        StepKeepsInv(r, Operator(minted));
        QuietRunsAreLegal(next, steps);
        RunKeepsInv(next, steps);
      }
    } else {
      var steps := StaleClearStrands(r, minted);
      StrandedForGood(Run(next, steps), []);
    }
    if r.lag != [] {
      assert r.lag[0] in r.lag;
    }
  }
}
