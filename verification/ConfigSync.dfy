/**
 * Configuration push and activation (internal/controller/mcudeployment_controller.go, pushConfigIfNeeded and
 * reconcileConfigOnly): a merge-on-key write and a reboot, idempotent across crashes between any two calls.
 */
module ConfigSync {
  import opened Wrappers

  type Config = map<string, string>

  /**
   * The device: stored keys, keys in effect since the last boot, their generations, and the keys its firmware knows.
   * POST /config merges known keys, silently ignores the others and counts a generation; a reboot activates.
   */
  datatype Device = Device(nvs: Config, active: Config, generation: nat, activeGeneration: nat, known: set<string>)

  predicate Reserved(k: string) {
    k != "" && k[0] == '_'
  }

  /** An absent key reads as the empty string. */
  function Value(c: Config, k: string): string {
    if k in c then c[k] else ""
  }

  function Posted(d: Device, data: Config): Device {
    d.(nvs := d.nvs + (map k | k in data && k in d.known && !Reserved(k) :: data[k]), generation := d.generation + 1)
  }

  function Rebooted(d: Device): Device {
    d.(active := d.nvs, activeGeneration := d.generation)
  }

  /** An up-to-date generation means that the stored keys are in effect. */
  predicate Consistent(d: Device) {
    d.activeGeneration <= d.generation && (d.activeGeneration == d.generation ==> d.active == d.nvs)
  }

  // ---------------------------------------------------------------- the controller's decisions

  /** The length in bytes, which is what the limits count. */
  function Utf8Length(s: string): nat {
    if s == [] then 0
    else
      var c := s[0] as int;
      (if c < 0x80 then 1 else if c < 0x800 then 2 else if c < 0x1_0000 then 3 else 4) + Utf8Length(s[1..])
  }

  /** The bytes of one character (section 3 of RFC 3629). */
  function Utf8(c: char): seq<int> {
    var n := c as int;
    if n < 0x80 then [n]
    else if n < 0x800 then [0xC0 + n / 0x40, 0x80 + n % 0x40]
    else if n < 0x1_0000 then [0xE0 + n / 0x1000, 0x80 + n / 0x40 % 0x40, 0x80 + n % 0x40]
    else [0xF0 + n / 0x4_0000, 0x80 + n / 0x1000 % 0x40, 0x80 + n / 0x40 % 0x40, 0x80 + n % 0x40]
  }

  function Encoded(s: string): seq<int> {
    if s == [] then [] else Utf8(s[0]) + Encoded(s[1..])
  }

  lemma {:induction false} LengthIsEncoded(s: string)
    ensures Utf8Length(s) == |Encoded(s)| && |s| <= Utf8Length(s) <= 4 * |s|
    decreases s
  {
    if s != [] {
      LengthIsEncoded(s[1..]);
    }
  }

  predicate Fits(k: string, v: string) {
    Utf8Length(k) <= 15 && Utf8Length(v) <= 63
  }

  predicate WithinLimits(data: Config) {
    forall k | k in data :: Fits(k, data[k])
  }

  function Filtered(data: Config): Config {
    map k | k in data && !Reserved(k) :: data[k]
  }

  /** A key or a value is too long, in bytes. */
  predicate TooLong(data: Config) {
    exists k | k in data :: Utf8Length(k) > 15 || Utf8Length(data[k]) > 63
  }

  /** Some key without a leading underscore has another value on the device; an absent key counts as empty. */
  predicate Differs(data: Config, nvs: Config) {
    exists k | k in data :: !("_" <= k) && (if k in nvs then nvs[k] else "") != data[k]
  }

  predicate Diverges(data: Config, nvs: Config) {
    exists k | k in data :: !Reserved(k) && Value(nvs, k) != data[k]
  }

  datatype Error = Permanent(reason: string) | Transient

  /**
   * Fates of one reconcile: whether the map can be read, which calls are answered, and whether an unanswered one
   * reached the device.
   */
  datatype Calls = Calls(read: bool, get: bool, post: bool, postApplied: bool, reboot: bool, rebootApplied: bool)

  datatype PushOutcome = PushOutcome(device: Device, needsReboot: Result<bool, Error>)

  function Push(cm: Option<Config>, d: Device, c: Calls): PushOutcome {
    if !c.read then PushOutcome(d, Err(Transient))
    else if cm.None? then PushOutcome(d, Err(Permanent("ConfigMapNotFound")))
    else if !WithinLimits(cm.value) then PushOutcome(d, Err(Permanent("ConfigInvalid")))
    else if !c.get then PushOutcome(d, Err(Transient))
    else if !Diverges(cm.value, d.nvs) then PushOutcome(d, Ok(d.activeGeneration < d.generation))
    else if c.post then PushOutcome(Posted(d, Filtered(cm.value)), Ok(true))
    else PushOutcome(if c.postApplied then Posted(d, Filtered(cm.value)) else d, Err(Transient))
  }

  /** Whether the push makes its POST. */
  predicate Posts(cm: Option<Config>, d: Device, c: Calls) {
    c.read && cm.Some? && WithinLimits(cm.value) && c.get && Diverges(cm.value, d.nvs)
  }

  function Reconciled(cm: Option<Config>, d: Device, c: Calls): Device {
    var p := Push(cm, d, c);
    if p.needsReboot == Ok(true) && (c.reboot || c.rebootApplied) then Rebooted(p.device) else p.device
  }

  /**
   * A push, exactly: when it fails for good, when it will be tried again, when it posts and what, and when it asks for
   * a reboot.
   */
  lemma PushExactly(cm: Option<Config>, d: Device, c: Calls)
    ensures var r := Push(cm, d, c).needsReboot;
            var data := if cm.Some? then cm.value else map[];
            && (r == Err(Permanent("ConfigMapNotFound")) <==> c.read && cm == None)
            && (r == Err(Permanent("ConfigInvalid")) <==> c.read && cm.Some? && TooLong(data))
            && (r.Err? ==> r.error in {Permanent("ConfigMapNotFound"), Permanent("ConfigInvalid"), Transient})
            && (r == Err(Transient) <==>
                  || !c.read
                  || (cm.Some? && !TooLong(data) && (!c.get || (Differs(data, d.nvs) && !c.post))))
            && (r.Ok? ==> (r.value <==> Differs(data, d.nvs) || d.activeGeneration < d.generation))
            && (Posts(cm, d, c) <==> c.read && cm.Some? && !TooLong(data) && c.get && Differs(data, d.nvs))
            && (forall k :: k in Filtered(data) <==> k in data && !("_" <= k))
            && (forall k :: k in Filtered(data) ==> Filtered(data)[k] == data[k])
  {
    hide Utf8Length;
    if cm.Some? {
      assert TooLong(cm.value) <==> !WithinLimits(cm.value);
      assert Differs(cm.value, d.nvs) <==> Diverges(cm.value, d.nvs);
    }
  }

  /** Uninterrupted: every call is answered. */
  const CLEAN := Calls(true, true, true, true, true, true)

  // ---------------------------------------------------------------- convergence

  /** Every desired key, but for those that begin with an underscore, is known to the device or has its value there. */
  predicate Storable(data: Config, d: Device) {
    forall k | k in data && !("_" <= k) :: k in d.known || (if k in d.nvs then d.nvs[k] else "") == data[k]
  }

  /** What the push is for. */
  predicate Converged(data: Config, d: Device) {
    && (forall k | k in data && !("_" <= k) :: (if k in d.nvs then d.nvs[k] else "") == data[k])
    && d.activeGeneration == d.generation && d.active == d.nvs
  }

  lemma ReconcileKeepsConsistent(cm: Option<Config>, d: Device, c: Calls)
    requires Consistent(d)
    ensures Consistent(Reconciled(cm, d, c)) && Reconciled(cm, d, c).known == d.known
  {
  }

  /** Whatever happens to the calls, keys that the map does not cite keep their values. */
  lemma UncitedKeysKept(cm: Option<Config>, d: Device, c: Calls, k: string)
    requires cm.None? || k !in cm.value || "_" <= k
    ensures k in Reconciled(cm, d, c).nvs <==> k in d.nvs
    ensures k in d.nvs ==> Reconciled(cm, d, c).nvs[k] == d.nvs[k]
  {
  }

  lemma PostedValues(data: Config, d: Device)
    ensures var d' := Posted(d, Filtered(data));
            forall k | k in data && !Reserved(k) ::
              Value(d'.nvs, k) == if k in d.known then data[k] else Value(d.nvs, k)
  {
    assert forall k | k in data && !Reserved(k) :: k in Filtered(data);
  }

  /**
   * From any device state, so after a crash at any point of earlier reconciles, one uninterrupted reconcile makes the
   * desired configuration stored and active, exactly when the device can store it.
   */
  lemma ConvergesExactlyWhen(data: Config, d: Device)
    requires Consistent(d) && WithinLimits(data)
    ensures Converged(data, Reconciled(Some(data), d, CLEAN)) <==> Storable(data, d)
  {
    PostedValues(data, d);
  }

  /** Once converged, no reconcile posts or reboots again, whatever happens to its calls. */
  lemma ConvergedIsQuiet(data: Config, d: Device, c: Calls)
    requires Converged(data, d) && WithinLimits(data)
    ensures Reconciled(Some(data), d, c) == d
    ensures Push(Some(data), d, c) == PushOutcome(d, if c.read && c.get then Ok(false) else Err(Transient))
  {
  }

  /**
   * A key the device does not know keeps the loop going: every uninterrupted reconcile posts and reboots once more,
   * because an ignored key never shows up in GET /config.
   */
  lemma UnknownKeyNeverSettles(data: Config, d: Device)
    requires WithinLimits(data) && !Storable(data, d)
    ensures var d' := Reconciled(Some(data), d, CLEAN);
            d'.generation == d.generation + 1 && d'.activeGeneration == d'.generation && !Storable(data, d')
  {
    PostedValues(data, d);
  }

  /** Any number of earlier reconciles, for any maps, interrupted anywhere. */
  function After(d: Device, history: seq<(Option<Config>, Calls)>): Device
    decreases history
  {
    if history == [] then d else After(Reconciled(history[0].0, d, history[0].1), history[1..])
  }

  /** Main result: any crash history, then one uninterrupted reconcile, then nothing more to do. */
  lemma {:induction false} CrashSafe(d: Device, history: seq<(Option<Config>, Calls)>, data: Config, c: Calls)
    requires Consistent(d) && WithinLimits(data)
    ensures var crashed := After(d, history);
            var settled := Reconciled(Some(data), crashed, CLEAN);
            && Consistent(crashed) && crashed.known == d.known
            && (Converged(data, settled) <==> Storable(data, crashed))
            && (Converged(data, settled) ==> Reconciled(Some(data), settled, c) == settled)
    decreases history
  {
    hide Reconciled, Storable;
    if history == [] {
      ConvergesExactlyWhen(data, d);
      var settled := Reconciled(Some(data), d, CLEAN);
      if Converged(data, settled) {
        ConvergedIsQuiet(data, settled, c);
      }
    } else {
      ReconcileKeepsConsistent(history[0].0, d, history[0].1);
      CrashSafe(Reconciled(history[0].0, d, history[0].1), history[1..], data, c);
    }
  }

  // ---------------------------------------------------------------- the code, as it runs

  /** The writing calls made to a device. */
  datatype Call = ConfigPost(data: Config) | RebootPost

  class Agent {
    var device: Device
    var sent: seq<Call>

    constructor (device: Device)
      ensures this.device == device && sent == []
    {
      this.device, sent := device, [];
    }

    method PostConfig(data: Config, c: Calls) returns (ok: bool)
      modifies this
      ensures ok == c.post && sent == old(sent) + [ConfigPost(data)]
      ensures device == if c.post || c.postApplied then Posted(old(device), data) else old(device)
    {
      sent := sent + [ConfigPost(data)];
      if c.post || c.postApplied {
        device := Posted(device, data);
      }
      ok := c.post;
    }

    method PostReboot(c: Calls) returns (ok: bool)
      modifies this
      ensures ok == c.reboot && sent == old(sent) + [RebootPost]
      ensures device == if c.reboot || c.rebootApplied then Rebooted(old(device)) else old(device)
    {
      sent := sent + [RebootPost];
      if c.reboot || c.rebootApplied {
        device := Rebooted(device);
      }
      ok := c.reboot;
    }

    /** The maps are walked in any order; neither the verdict nor the payload depends on it. */
    method PushConfigIfNeeded(cm: Option<Config>, c: Calls) returns (r: Result<bool, Error>)
      modifies this
      ensures PushOutcome(device, r) == Push(cm, old(device), c)
      ensures sent == old(sent) + if Posts(cm, old(device), c) then [ConfigPost(Filtered(cm.value))] else []
    {
      hide Fits, Posted, Reserved;
      if !c.read {
        return Err(Transient);
      }
      if cm == None {
        return Err(Permanent("ConfigMapNotFound"));
      }
      var data := cm.value;
      var rest := data.Keys;
      while rest != {}
        invariant rest <= data.Keys
        invariant forall k | k in data && k !in rest :: Fits(k, data[k])
        decreases rest
      {
        var k :| k in rest;
        if !Fits(k, data[k]) {
          return Err(Permanent("ConfigInvalid"));
        }
        rest := rest - {k};
      }
      if !c.get {
        return Err(Transient);
      }
      var nvs, generation, active := device.nvs, device.generation, device.activeGeneration;
      var filtered: Config := map[];
      var needsPush := false;
      rest := data.Keys;
      while rest != {}
        invariant rest <= data.Keys
        invariant filtered == map k | k in data && k !in rest && !Reserved(k) :: data[k]
        invariant needsPush <==> exists k | k in data && k !in rest :: !Reserved(k) && Value(nvs, k) != data[k]
        decreases rest
      {
        var k :| k in rest;
        rest := rest - {k};
        if Reserved(k) {
          continue;
        }
        filtered := filtered[k := data[k]];
        if Value(nvs, k) != data[k] {
          needsPush := true;
        }
      }
      assert filtered == Filtered(data);
      if !needsPush {
        return Ok(active < generation);
      }
      var ok := PostConfig(filtered, c);
      if !ok {
        return Err(Transient);
      }
      return Ok(true);
    }

    /** Deployed phase: push, then reboot when something was pushed or a former push never took effect. */
    method ReconcileConfigOnly(cm: Option<Config>, c: Calls) returns (failed: Option<string>)
      modifies this
      ensures device == Reconciled(cm, old(device), c)
      ensures sent == old(sent) + (if Posts(cm, old(device), c) then [ConfigPost(Filtered(cm.value))] else [])
                      + if Push(cm, old(device), c).needsReboot == Ok(true) then [RebootPost] else []
      ensures failed == if Push(cm, old(device), c).needsReboot.Err?
                          && Push(cm, old(device), c).needsReboot.error.Permanent?
                        then Some(Push(cm, old(device), c).needsReboot.error.reason) else None
    {
      hide Posted, Rebooted, Diverges, Filtered, WithinLimits, Posts;
      var needsReboot := PushConfigIfNeeded(cm, c);
      match needsReboot {
        case Err(Permanent(reason)) => return Some(reason);
        case Err(Transient) => return None;
        case Ok(needed) =>
          if needed {
            var ok := PostReboot(c);
          }
          return None;
      }
    }
  }
}
