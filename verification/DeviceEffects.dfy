/**
 * Effects on a device that the node reconciler records in the status (internal/controller/mcunode_controller.go):
 * pushing a TLS certificate and rebooting on request. The record is written only after the effect.
 */
module DeviceEffects {
  import opened Wrappers

  /** What a device has accepted, in order. */
  datatype Effect = CertPushed(digest: string) | RebootedFor(nonce: string) | Rebooted

  datatype State = State(tlsCertDigest: string, lastReboot: string, accepted: seq<Effect>)

  /** One call: whether the device performs it and whether the controller hears of it. */
  datatype Call = Heard | Unheard | NotDone

  /** The two calls and the status patch of one reconcile; `between`: reboots others cause between the two calls. */
  datatype Fates = Fates(push: Call, reboot: Call, patch: bool, between: nat)

  function Did(accepted: seq<Effect>, call: Call, e: Effect): seq<Effect> {
    if call == NotDone then accepted else accepted + [e]
  }

  function Reboots(n: nat): seq<Effect> {
    seq(n, _ => Rebooted)
  }

  /** `cert`: the digest of the referenced Secret, if one is referenced, present and complete, with a token at hand. */
  function AfterTls(s: State, cert: Option<string>, f: Fates): State {
    if cert.None? || cert.value == s.tlsCertDigest then s
    else
      var pushed := s.(accepted := Did(s.accepted, f.push, CertPushed(cert.value)));
      if f.push != Heard then pushed
      else
        var rebooted := pushed.(accepted := Did(pushed.accepted + Reboots(f.between), f.reboot, Rebooted));
        if f.reboot != Heard || !f.patch then rebooted
        else rebooted.(tlsCertDigest := cert.value)
  }

  /** `nonce`: the annotation, "" when absent. */
  function AfterRequest(s: State, nonce: string, token: bool, f: Fates): State {
    if nonce == "" || nonce == s.lastReboot || !token then s
    else
      var rebooted := s.(accepted := Did(s.accepted, f.reboot, RebootedFor(nonce)));
      if f.reboot != Heard || !f.patch then rebooted else rebooted.(lastReboot := nonce)
  }

  datatype Step =
    | ReconcileTls(cert: Option<string>, fates: Fates)
    | ReconcileReboot(nonce: string, token: bool, fates: Fates)
    | OtherReboot

  function Next(s: State, step: Step): State {
    match step
    case ReconcileTls(cert, f) => AfterTls(s, cert, f)
    case ReconcileReboot(nonce, token, f) => AfterRequest(s, nonce, token, f)
    case OtherReboot => s.(accepted := s.accepted + [Rebooted])
  }

  function Run(s: State, steps: seq<Step>): State
    decreases steps
  {
    if steps == [] then s else Run(Next(s, steps[0]), steps[1..])
  }

  predicate IsReboot(e: Effect) {
    e.Rebooted? || e.RebootedFor?
  }

  /** The certificate was pushed at i and taken up by the reboot at j, with no other push between. */
  predicate InForce(accepted: seq<Effect>, digest: string, i: nat, j: nat) {
    && i < j < |accepted| && accepted[i] == CertPushed(digest) && IsReboot(accepted[j])
    && forall k | i < k < j :: IsReboot(accepted[k])
  }

  ghost predicate Recorded(s: State) {
    && (s.lastReboot != "" ==> RebootedFor(s.lastReboot) in s.accepted)
    && (s.tlsCertDigest != "" ==> exists i: nat, j: nat :: InForce(s.accepted, s.tlsCertDigest, i, j))
  }

  lemma InForceGrows(a: seq<Effect>, b: seq<Effect>, digest: string)
    requires a <= b && exists i: nat, j: nat :: InForce(a, digest, i, j)
    ensures exists i: nat, j: nat :: InForce(b, digest, i, j)
  {
    var i: nat, j: nat :| InForce(a, digest, i, j);
    assert forall k | 0 <= k < |a| :: b[k] == a[k];
    assert InForce(b, digest, i, j);
  }

  lemma TlsKeepsRecorded(s: State, cert: Option<string>, f: Fates)
    requires Recorded(s)
    ensures Recorded(AfterTls(s, cert, f)) && s.accepted <= AfterTls(s, cert, f).accepted
  {
    var s' := AfterTls(s, cert, f);
    if s'.tlsCertDigest == s.tlsCertDigest {
      if s.tlsCertDigest != "" {
        InForceGrows(s.accepted, s'.accepted, s.tlsCertDigest);
      }
    } else {
      var n := |s.accepted|;
      assert s'.accepted == s.accepted + [CertPushed(cert.value)] + Reboots(f.between) + [Rebooted];
      assert InForce(s'.accepted, cert.value, n, n + 1 + f.between);
    }
  }

  lemma StepKeepsRecorded(s: State, step: Step)
    requires Recorded(s)
    ensures Recorded(Next(s, step)) && s.accepted <= Next(s, step).accepted
  {
    match step {
      case ReconcileTls(cert, f) => TlsKeepsRecorded(s, cert, f);
      case _ =>
        if s.tlsCertDigest != "" {
          InForceGrows(s.accepted, Next(s, step).accepted, s.tlsCertDigest);
        }
    }
  }

  /**
   * Over every run with failures anywhere: a recorded nonce was rebooted for, a recorded certificate digest was pushed
   * and then taken up by a reboot with no other push in between, and nothing the device accepted is forgotten.
   */
  lemma {:induction false} RunKeepsRecorded(s: State, steps: seq<Step>)
    requires Recorded(s)
    ensures Recorded(Run(s, steps)) && s.accepted <= Run(s, steps).accepted
    decreases steps
  {
    hide Next, Recorded;
    if steps != [] {
      StepKeepsRecorded(s, steps[0]);
      RunKeepsRecorded(Next(s, steps[0]), steps[1..]);
    }
  }

  function CountFor(accepted: seq<Effect>, nonce: string): nat {
    if accepted == [] then 0
    else CountFor(accepted[..|accepted| - 1], nonce) + if accepted[|accepted| - 1] == RebootedFor(nonce) then 1 else 0
  }

  /** Once recorded, a request causes no further reboot for as long as the annotation keeps its value. */
  lemma {:induction false} RecordedRequestIsDone(s: State, nonce: string, steps: seq<Step>)
    requires nonce != "" && s.lastReboot == nonce
    requires forall t | t in steps && t.ReconcileReboot? :: t.nonce == nonce
    ensures Run(s, steps).lastReboot == nonce
    ensures CountFor(Run(s, steps).accepted, nonce) == CountFor(s.accepted, nonce)
    decreases steps
  {
    if steps != [] {
      var t := steps[0];
      var s' := Next(s, t);
      assert t in steps && forall u | u in steps[1..] :: u in steps;
      match t {
        case ReconcileTls(cert, f) => TlsCountsNothing(s, cert, f, nonce);
        case ReconcileReboot(_, _, _) =>
        case OtherReboot => CountAppend(s.accepted, [Rebooted], nonce);
      }
      RecordedRequestIsDone(s', nonce, steps[1..]);
    }
  }

  lemma {:induction false} CountAppend(a: seq<Effect>, b: seq<Effect>, nonce: string)
    ensures CountFor(a + b, nonce) == CountFor(a, nonce) + CountFor(b, nonce)
    decreases b
  {
    if b == [] {
      assert a + b == a;
    } else {
      assert (a + b)[..|a + b| - 1] == a + b[..|b| - 1];
      CountAppend(a, b[..|b| - 1], nonce);
    }
  }

  lemma {:induction false} RebootsCountNothing(n: nat, nonce: string)
    ensures CountFor(Reboots(n), nonce) == 0
  {
    if n > 0 {
      assert Reboots(n)[..n - 1] == Reboots(n - 1);
      RebootsCountNothing(n - 1, nonce);
    }
  }

  lemma TlsCountsNothing(s: State, cert: Option<string>, f: Fates, nonce: string)
    ensures AfterTls(s, cert, f).lastReboot == s.lastReboot
    ensures CountFor(AfterTls(s, cert, f).accepted, nonce) == CountFor(s.accepted, nonce)
  {
    var s' := AfterTls(s, cert, f);
    if cert.Some? && cert.value != s.tlsCertDigest && f.push != NotDone {
      var p := s.accepted + [CertPushed(cert.value)];
      CountAppend(s.accepted, [CertPushed(cert.value)], nonce);
      if f.push == Heard {
        RebootsCountNothing(f.between, nonce);
        CountAppend(p, Reboots(f.between), nonce);
        CountAppend(p + Reboots(f.between), [Rebooted], nonce);
      }
    }
  }

  // ---------------------------------------------------------------- what is acted on

  /** A certificate is acted on exactly when its digest is not the recorded one; each call follows the one before. */
  lemma TlsExactly(s: State, cert: Option<string>, f: Fates)
    ensures var t := AfterTls(s, cert, f);
            var isNew := cert.Some? && cert.value != s.tlsCertDigest;
            && t.accepted == s.accepted
                             + (if isNew && f.push != NotDone then [CertPushed(cert.value)] else [])
                             + (if isNew && f.push == Heard then Reboots(f.between) else [])
                             + (if isNew && f.push == Heard && f.reboot != NotDone then [Rebooted] else [])
            && t.tlsCertDigest == (if isNew && f.push == Heard && f.reboot == Heard && f.patch then cert.value
                                   else s.tlsCertDigest)
            && t.lastReboot == s.lastReboot
  {
  }

  /** A request is acted on exactly when there is one, it is not the recorded one, and a token is at hand. */
  lemma RequestExactly(s: State, nonce: string, token: bool, f: Fates)
    ensures var t := AfterRequest(s, nonce, token, f);
            var isNew := nonce != "" && nonce != s.lastReboot && token;
            && t.accepted == s.accepted + (if isNew && f.reboot != NotDone then [RebootedFor(nonce)] else [])
            && t.lastReboot == (if isNew && f.reboot == Heard && f.patch then nonce else s.lastReboot)
            && t.tlsCertDigest == s.tlsCertDigest
  {
  }

  /**
   * After any history, one reconcile that gets through brings a certificate into force and records it, and from then on
   * reconciles of the same certificate do nothing.
   */
  lemma CertificateTakesEffect(s: State, steps: seq<Step>, digest: string, between: nat, later: Fates)
    requires Recorded(s) && digest != ""
    ensures var t := AfterTls(Run(s, steps), Some(digest), Fates(Heard, Heard, true, between));
            && t.tlsCertDigest == digest
            && (exists i: nat, j: nat :: InForce(t.accepted, digest, i, j))
            && AfterTls(t, Some(digest), later) == t
  {
    hide Run;
    RunKeepsRecorded(s, steps);
    TlsKeepsRecorded(Run(s, steps), Some(digest), Fates(Heard, Heard, true, between));
  }

  /** After any history, one reconcile that gets through reboots for a new request once, and records it. */
  lemma RequestTakesEffect(s: State, steps: seq<Step>, nonce: string, f: Fates, later: Fates, token: bool)
    requires nonce != "" && Run(s, steps).lastReboot != nonce && f.reboot == Heard && f.patch
    ensures var t := AfterRequest(Run(s, steps), nonce, true, f);
            && t.lastReboot == nonce
            && CountFor(t.accepted, nonce) == CountFor(Run(s, steps).accepted, nonce) + 1
            && AfterRequest(t, nonce, token, later) == t
  {
    hide Run;
    var a := Run(s, steps).accepted;
    CountAppend(a, [RebootedFor(nonce)], nonce);
    assert [RebootedFor(nonce)][..0] == [];
  }

  // ---------------------------------------------------------------- the code, as it runs

  class Node {
    var tlsCertDigest: string
    var lastRebootRequested: string
    var accepted: seq<Effect>

    constructor ()
      ensures View() == State("", "", [])
    {
      tlsCertDigest, lastRebootRequested, accepted := "", "", [];
    }

    function View(): State
      reads this
    {
      State(tlsCertDigest, lastRebootRequested, accepted)
    }

    method Call(c: Call, e: Effect) returns (ok: bool)
      modifies this`accepted
      ensures accepted == Did(old(accepted), c, e) && ok == (c == Heard)
    {
      if c != NotDone {
        accepted := accepted + [e];
      }
      ok := c == Heard;
    }

    method ReconcileTlsCert(cert: Option<string>, f: Fates)
      modifies this
      ensures View() == AfterTls(old(View()), cert, f)
    {
      if cert == None || cert.value == tlsCertDigest {
        return;
      }
      var pushed := Call(f.push, CertPushed(cert.value));
      if !pushed {
        return;
      }
      accepted := accepted + Reboots(f.between);
      var rebooted := Call(f.reboot, Rebooted);
      if !rebooted {
        return;
      }
      if f.patch {
        tlsCertDigest := cert.value;
      }
    }

    method ReconcileRebootRequest(nonce: string, token: bool, f: Fates)
      modifies this
      ensures View() == AfterRequest(old(View()), nonce, token, f)
    {
      if nonce == "" || nonce == lastRebootRequested || !token {
        return;
      }
      var rebooted := Call(f.reboot, RebootedFor(nonce));
      if !rebooted {
        return;
      }
      if f.patch {
        lastRebootRequested := nonce;
      }
    }
  }
}
