/**
 * The resumable firmware transfer of the agent client (internal/agent/client.go): 64 KiB Content-Range requests,
 * three attempts per range, resynchronisation on 416, against a device and a link that may fail at any request.
 */
module OtaTransfer {
  import opened BlobReader

  const CHUNK: int := 65536
  const ATTEMPTS: nat := 3

  // ---------------------------------------------------------------- the device and the link

  /** The device's write session: whether one is open, its bytes, and whether they completed with a matching digest. */
  datatype Device = Device(open: bool, written: Bytes, staged: bool)

  /** PUT /ota/write with Content-Range: bytes offset-end/total. */
  datatype Put = Put(offset: int, end: int, total: int, body: Bytes)

  /** What may happen to one request. */
  datatype Fault =
    | Clean                    // handled, reply received
    | Lost                     // never reaches the device
    | Cut(bytes: nat)          // the device stores at most this many bytes, no reply
    | ReplyLost                // handled, reply lost
    | Unreadable               // handled, but the reply is not the expected JSON
    | FlashError(bytes: nat)   // 200 "write_failed" after at most this many bytes
    | BeginError               // 500
    | OtherStatus(code: int)   // any other HTTP status

  /** `reset`: the device lost its session (a reboot) before this request. */
  datatype Fate = Fate(reset: bool, fault: Fault)

  datatype Reply =
    | NoReply
    | Ok200(parsed: bool, status: string, error: string)
    | RangeMismatch(written: int)
    | BeginFailed
    | Other(code: int)

  /** The announced digest, the hash, and the fate of the n-th request for every n. */
  datatype Wire = Wire(hasher: Hasher, digest: string, fates: nat -> Fate)

  /** A range starting at 0 opens a session; any other must continue exactly where the session stands. */
  predicate Accepts(d: Device, p: Put) {
    p.offset == 0 || (d.open && |d.written| == p.offset)
  }

  function Stored(w: Wire, d: Device, p: Put, count: nat): Device {
    var kept := if count <= |p.body| then p.body[..count] else p.body;
    var now := if p.offset == 0 then kept else d.written + kept;
    Device(true, now, |now| == p.total && Sum(w.hasher, now) == w.digest)
  }

  function Verdict(d: Device, p: Put): Reply {
    if |d.written| != p.total then Ok200(true, "partial", "")
    else if d.staged then Ok200(true, "written", "")
    else Ok200(true, "digest_mismatch", "")
  }

  function Position(d: Device): int {
    if d.open then |d.written| else 0
  }

  /** One request against the device, under one fate. */
  function Exchange(w: Wire, before: Device, p: Put, fate: Fate): (Device, Reply) {
    var d := if fate.reset then before.(open := false, written := []) else before;
    var all := if Accepts(d, p) then Stored(w, d, p, |p.body|) else d;
    match fate.fault
    case Clean => (all, if Accepts(d, p) then Verdict(all, p) else RangeMismatch(Position(d)))
    case Lost => (d, NoReply)
    case Cut(n) => (if Accepts(d, p) then Stored(w, d, p, n) else d, NoReply)
    case ReplyLost => (all, NoReply)
    case Unreadable => (all, if Accepts(d, p) then Ok200(false, "", "") else RangeMismatch(0))
    case FlashError(n) =>
      if Accepts(d, p) then (Stored(w, d, p, n), Ok200(true, "write_failed", "")) else (d, RangeMismatch(Position(d)))
    case BeginError => (d, BeginFailed)
    case OtherStatus(code) => (d, Other(code))
  }

  // ---------------------------------------------------------------- what the client does, as a function

  datatype WriteResult =
    | Written
    | ReadFailed(at: int)
    | Refused(status: string, http: int)
    | BadReply
    | HttpError(code: int)
    | Abandoned

  datatype Decision = Done(result: WriteResult) | Retry(offset: int)

  /** The client's reading of one reply to a request for [offset, end]. */
  function Decide(r: Reply, offset: int, end: int): Decision {
    match r
    case NoReply => Retry(offset)
    case Ok200(parsed, status, error) =>
      if !parsed then Done(BadReply)
      else if status == "written" || status == "partial" then Done(Written)
      else Done(Refused(if status == "" then error else status, 0))
    case RangeMismatch(written) =>
      if written < offset || written > end + 1 then Done(Refused("range_mismatch", 416))
      else if written == end + 1 then Done(Written)
      else Retry(written)
    case BeginFailed => Done(Refused("ota_begin_failed", 500))
    case Other(code) => Done(HttpError(code))
  }

  datatype Run = Run(result: WriteResult, dev: Device, sent: seq<Put>)

  /** At most `left` requests for the rest [offset, end] of a range; `tick` requests were sent before. */
  ghost function ChunkRun(
      w: Wire, dev: Device, tick: nat, data: Bytes, offset: int, end: int, size: int, left: nat): Run
    requires 0 <= offset <= end < |data|
    decreases left
  {
    if left == 0 then Run(Abandoned, dev, [])
    else
      var p := Put(offset, end, size, data[offset..end + 1]);
      var (d, reply) := Exchange(w, dev, p, w.fates(tick));
      match Decide(reply, offset, end)
      case Done(result) => Run(result, d, [p])
      case Retry(next) =>
        var rest := ChunkRun(w, d, tick + 1, data, next, end, size, left - 1);
        Run(rest.result, rest.dev, [p] + rest.sent)
  }

  function ChunkEnd(start: int, size: int): int {
    if start + CHUNK - 1 >= size then size - 1 else start + CHUNK - 1
  }

  /** All ranges from `start` on, `tries` attempts each. `data` is everything the firmware reader can deliver. */
  ghost function TransferRun(w: Wire, dev: Device, tick: nat, data: Bytes, size: int, start: int, tries: nat): Run
    requires 0 <= start
    decreases size - start
  {
    if start >= size then Run(Written, dev, [])
    else
      var end := ChunkEnd(start, size);
      if |data| <= end then Run(ReadFailed(start), dev, [])
      else
        var c := ChunkRun(w, dev, tick, data, start, end, size, tries);
        if c.result != Written then c
        else
          var rest := TransferRun(w, c.dev, tick + |c.sent|, data, size, end + 1, tries);
          Run(rest.result, rest.dev, c.sent + rest.sent)
  }

  // ---------------------------------------------------------------- safety

  /** What the device's open session holds is a prefix of the firmware, and its verdict on a full buffer is right. */
  ghost predicate Holds(w: Wire, d: Device, data: Bytes, size: int) {
    d.open ==>
      && d.written <= data
      && (|d.written| == size ==> (d.staged <==> Sum(w.hasher, d.written) == w.digest))
  }

  lemma StoredHolds(w: Wire, d: Device, data: Bytes, p: Put, count: nat)
    requires 0 <= p.offset <= p.end < |data| && p.body == data[p.offset..p.end + 1]
    requires Accepts(d, p) && (p.offset > 0 ==> Holds(w, d, data, p.total))
    ensures Holds(w, Stored(w, d, p, count), data, p.total)
    ensures count >= |p.body| ==> Stored(w, d, p, count).written == data[..p.end + 1]
  {
    var kept := if count <= |p.body| then p.body[..count] else p.body;
    assert kept == data[p.offset..p.offset + |kept|];
    if p.offset > 0 {
      assert d.written == data[..p.offset];
      assert d.written + kept == data[..p.offset + |kept|];
    }
  }

  lemma ExchangeHolds(w: Wire, d: Device, data: Bytes, p: Put, fate: Fate)
    requires 0 <= p.offset <= p.end < |data| && p.body == data[p.offset..p.end + 1]
    requires p.offset > 0 ==> Holds(w, d, data, p.total)
    ensures var (d', reply) := Exchange(w, d, p, fate);
            && (p.offset > 0 ==> Holds(w, d', data, p.total))
            && (p.offset == 0 ==> !reply.RangeMismatch?)
            && (Decide(reply, p.offset, p.end) == Done(Written) ==>
                  d'.open && d'.written == data[..p.end + 1] && Holds(w, d', data, p.total))
  {
    var e := if fate.reset then d.(open := false, written := []) else d;
    if Accepts(e, p) {
      StoredHolds(w, e, data, p, |p.body|);
      match fate.fault {
        case Cut(n) => StoredHolds(w, e, data, p, n);
        case FlashError(n) => StoredHolds(w, e, data, p, n);
        case _ =>
      }
    }
  }

  /** A confirmed range is on the device, byte for byte; every request carries exactly the bytes its range names. */
  lemma {:induction false} ChunkSafe(
      w: Wire, dev: Device, tick: nat, data: Bytes, offset: int, end: int, size: int, left: nat)
    requires 0 <= offset <= end < |data|
    requires offset > 0 ==> Holds(w, dev, data, size)
    ensures var run := ChunkRun(w, dev, tick, data, offset, end, size, left);
            && (run.result == Written ==>
                  run.dev.open && run.dev.written == data[..end + 1] && Holds(w, run.dev, data, size))
            && forall k :: 0 <= k < |run.sent| ==>
                 var p := run.sent[k];
                 offset <= p.offset <= end && p == Put(p.offset, end, size, data[p.offset..end + 1])
    decreases left
  {
    hide Exchange, Accepts, Stored, Verdict;
    if left > 0 {
      var p := Put(offset, end, size, data[offset..end + 1]);
      var (d, reply) := Exchange(w, dev, p, w.fates(tick));
      ExchangeHolds(w, dev, data, p, w.fates(tick));
      match Decide(reply, offset, end) {
        case Done(_) =>
        case Retry(next) => ChunkSafe(w, d, tick + 1, data, next, end, size, left - 1);
      }
    }
  }

  /** Inside a range the client only ever moves forward. */
  lemma {:induction false} OffsetsNeverGoBack(
      w: Wire, dev: Device, tick: nat, data: Bytes, offset: int, end: int, size: int, left: nat)
    requires 0 <= offset <= end < |data|
    ensures var sent := ChunkRun(w, dev, tick, data, offset, end, size, left).sent;
            && (sent != [] ==> sent[0].offset == offset)
            && forall i :: 0 < i < |sent| ==> sent[i - 1].offset <= sent[i].offset <= end
    decreases left
  {
    hide Exchange, Accepts, Stored, Verdict;
    if left > 0 {
      var p := Put(offset, end, size, data[offset..end + 1]);
      var (d, reply) := Exchange(w, dev, p, w.fates(tick));
      match Decide(reply, offset, end) {
        case Done(_) =>
        case Retry(next) => OffsetsNeverGoBack(w, d, tick + 1, data, next, end, size, left - 1);
      }
    }
  }

  /** Number of ranges OTAWrite cuts [start, size) into. */
  function RangeCount(start: int, size: int): nat
    requires 0 <= start
    decreases size - start
  {
    if start >= size then 0 else 1 + RangeCount(ChunkEnd(start, size) + 1, size)
  }

  lemma {:induction false} RangeCountIsCeiling(start: int, size: int)
    requires 0 <= start <= size && (start % CHUNK == 0 || start == size)
    ensures RangeCount(start, size) == (size - start + CHUNK - 1) / CHUNK
    decreases size - start
  {
    if start < size {
      RangeCountIsCeiling(ChunkEnd(start, size) + 1, size);
    }
  }

  /** The ranges themselves, as (first, last) offsets. */
  function RangeList(start: int, size: int): (r: seq<(int, int)>)
    requires 0 <= start
    ensures |r| == RangeCount(start, size)
    decreases size - start
  {
    if start >= size then [] else [(start, ChunkEnd(start, size))] + RangeList(ChunkEnd(start, size) + 1, size)
  }

  /** Consecutive ranges, each of at most 64 KiB, from `start` to the last byte. */
  predicate Tiles(r: seq<(int, int)>, start: int, size: int) {
    if r == [] then start == size
    else r[0].0 == start <= r[0].1 < size && r[0].1 - start < CHUNK && Tiles(r[1..], r[0].1 + 1, size)
  }

  lemma {:induction false} RangesTile(start: int, size: int)
    requires 0 <= start <= size
    ensures Tiles(RangeList(start, size), start, size)
    decreases size - start
  {
    if start < size {
      var end := ChunkEnd(start, size);
      RangesTile(end + 1, size);
      assert RangeList(start, size)[1..] == RangeList(end + 1, size);
    }
  }

  /** A tiling leaves out no byte. */
  lemma {:induction false} TilesCover(r: seq<(int, int)>, start: int, size: int, k: int)
    requires Tiles(r, start, size) && start <= k < size
    ensures exists i :: 0 <= i < |r| && r[i].0 <= k <= r[i].1
    decreases r
  {
    if k > r[0].1 {
      TilesCover(r[1..], r[0].1 + 1, size, k);
      var i :| 0 <= i < |r[1..]| && r[1..][i].0 <= k <= r[1..][i].1;
      assert r[i + 1] == r[1..][i];
    } else {
      assert r[0].0 <= k <= r[0].1;
    }
  }

  /** A request inside one aligned 64 KiB window, carrying exactly the firmware bytes its range names. */
  ghost predicate ExactPut(p: Put, data: Bytes, size: int) {
    && 0 <= p.offset <= p.end < size <= p.total == size
    && p.end < |data| && p.body == data[p.offset..p.end + 1]
    && p.offset / CHUNK == p.end / CHUNK
    && (p.end + 1 == size || (p.end + 1) % CHUNK == 0)
  }

  ghost predicate AllExact(sent: seq<Put>, data: Bytes, size: int) {
    forall k :: 0 <= k < |sent| ==> ExactPut(sent[k], data, size)
  }

  /** What the device holds when a transfer reports success. */
  ghost predicate HoldsExactly(w: Wire, d: Device, data: Bytes, size: int) {
    && 0 <= size <= |data|
    && d.open && d.written == data[..size]
    && (d.staged <==> Sum(w.hasher, data[..size]) == w.digest)
  }

  /** Between two ranges: nothing confirmed yet, or the device holds exactly the bytes before `start`. */
  ghost predicate AtBoundary(w: Wire, d: Device, data: Bytes, size: int, start: int) {
    start == 0 || (0 < start <= |data| && d.open && d.written == data[..start] && Holds(w, d, data, size))
  }

  /** A confirmed range moves the boundary. */
  lemma BoundaryMoves(w: Wire, dev: Device, tick: nat, data: Bytes, size: int, start: int, end: int, tries: nat)
    requires 0 <= start <= end < |data| && AtBoundary(w, dev, data, size, start)
    ensures var c := ChunkRun(w, dev, tick, data, start, end, size, tries);
            c.result == Written ==> AtBoundary(w, c.dev, data, size, end + 1)
  {
    ChunkSafe(w, dev, tick, data, start, end, size, tries);
  }

  /**
   * Main result. For every pattern of lost requests, lost replies, cut bodies, refusals and session resets: if the
   * transfer of size > 0 bytes reports success then the device holds exactly the first `size` bytes, and has staged
   * them if and only if they hash to the announced digest.
   */
  lemma {:induction false} TransferSafe(w: Wire, dev: Device, tick: nat, data: Bytes, size: int, start: int, tries: nat)
    requires 0 <= start && (start <= size || start == 0) && AtBoundary(w, dev, data, size, start)
    ensures var run := TransferRun(w, dev, tick, data, size, start, tries);
            run.result == Written && size > 0 ==> HoldsExactly(w, run.dev, data, size)
    decreases size - start
  {
    hide ChunkRun;
    var end := ChunkEnd(start, size);
    if start < size && end < |data| {
      var c := ChunkRun(w, dev, tick, data, start, end, size, tries);
      BoundaryMoves(w, dev, tick, data, size, start, end, tries);
      if c.result == Written {
        TransferSafe(w, c.dev, tick + |c.sent|, data, size, end + 1, tries);
      }
    }
  }

  lemma ExactConcat(a: seq<Put>, b: seq<Put>, data: Bytes, size: int)
    requires AllExact(a, data, size) && AllExact(b, data, size)
    ensures AllExact(a + b, data, size)
  {
  }

  /** Every request of a transfer stays in one window and carries exactly the bytes its range names. */
  lemma {:induction false} RequestsAreExact(
      w: Wire, dev: Device, tick: nat, data: Bytes, size: int, start: int, tries: nat)
    requires 0 <= start && (start % CHUNK == 0 || start >= size)
    requires (start <= size || start == 0) && AtBoundary(w, dev, data, size, start)
    ensures AllExact(TransferRun(w, dev, tick, data, size, start, tries).sent, data, size)
    decreases size - start
  {
    hide ChunkRun;
    var end := ChunkEnd(start, size);
    if start < size && end < |data| {
      var c := ChunkRun(w, dev, tick, data, start, end, size, tries);
      ChunkSafe(w, dev, tick, data, start, end, size, tries);
      WindowOf(start, size, c.sent, data);
      if c.result == Written {
        RequestsAreExact(w, c.dev, tick + |c.sent|, data, size, end + 1, tries);
        ExactConcat(c.sent, TransferRun(w, c.dev, tick + |c.sent|, data, size, end + 1, tries).sent, data, size);
      }
    }
  }

  lemma {:induction false} ChunkBounded(
      w: Wire, dev: Device, tick: nat, data: Bytes, offset: int, end: int, size: int, left: nat)
    requires 0 <= offset <= end < |data|
    ensures var run := ChunkRun(w, dev, tick, data, offset, end, size, left);
            |run.sent| <= left && !run.result.ReadFailed?
    decreases left
  {
    hide Exchange, Accepts, Stored, Verdict;
    if left > 0 {
      var p := Put(offset, end, size, data[offset..end + 1]);
      var (d, reply) := Exchange(w, dev, p, w.fates(tick));
      match Decide(reply, offset, end) {
        case Done(_) =>
        case Retry(next) => ChunkBounded(w, d, tick + 1, data, next, end, size, left - 1);
      }
    }
  }

  /** At most `tries` requests per range, none at all for size <= 0; only a source that is too short is not read. */
  lemma {:induction false} RequestsAreBounded(
      w: Wire, dev: Device, tick: nat, data: Bytes, size: int, start: int, tries: nat)
    requires 0 <= start
    ensures var run := TransferRun(w, dev, tick, data, size, start, tries);
            && |run.sent| <= tries * RangeCount(start, size)
            && (run.result.ReadFailed? ==> |data| < size)
            && (size <= 0 ==> run == Run(Written, dev, []))
    decreases size - start
  {
    hide ChunkRun;
    var end := ChunkEnd(start, size);
    if start < size && end < |data| {
      var c := ChunkRun(w, dev, tick, data, start, end, size, tries);
      ChunkBounded(w, dev, tick, data, start, end, size, tries);
      if c.result == Written {
        RequestsAreBounded(w, c.dev, tick + |c.sent|, data, size, end + 1, tries);
      }
    }
  }

  lemma WindowOf(start: int, size: int, sent: seq<Put>, data: Bytes)
    requires 0 <= start < size && start % CHUNK == 0
    requires var end := ChunkEnd(start, size);
             && end < |data|
             && forall k :: 0 <= k < |sent| ==>
                  start <= sent[k].offset <= end
                  && sent[k] == Put(sent[k].offset, end, size, data[sent[k].offset..end + 1])
    ensures AllExact(sent, data, size)
  {
  }

  // ---------------------------------------------------------------- progress

  ghost predicate Aligned(d: Device, data: Bytes, offset: int) {
    0 <= offset <= |data| && (offset == 0 || (d.open && d.written == data[..offset]))
  }

  ghost predicate IsClean(w: Wire, tick: nat) {
    w.fates(tick) == Fate(false, Clean)
  }

  /** Not the last range, or the bytes hash to the announced digest. */
  ghost predicate VerdictGood(w: Wire, data: Bytes, end: int, size: int)
    requires 0 <= end < |data|
  {
    end + 1 < size || (end + 1 == size && Sum(w.hasher, data[..end + 1]) == w.digest)
  }

  lemma CleanRange(w: Wire, dev: Device, tick: nat, data: Bytes, offset: int, end: int, size: int, left: nat)
    requires 0 <= offset <= end < |data| && left > 0
    requires IsClean(w, tick) && Aligned(dev, data, offset) && VerdictGood(w, data, end, size)
    ensures var p := Put(offset, end, size, data[offset..end + 1]);
            ChunkRun(w, dev, tick, data, offset, end, size, left) == Run(Written, Stored(w, dev, p, |p.body|), [p])
  {
    var p := Put(offset, end, size, data[offset..end + 1]);
    assert (if offset == 0 then [] else dev.written) + p.body == data[..end + 1];
    assert p.body == p.body[..|p.body|];
  }

  /** After a cut body or a lost reply the device is ahead: one 416 tells how far, and the rest follows. */
  lemma Resync(w: Wire, dev: Device, tick: nat, data: Bytes, offset: int, end: int, size: int, left: nat)
    requires 0 < offset <= end < |data| && left > 1
    requires IsClean(w, tick) && IsClean(w, tick + 1) && VerdictGood(w, data, end, size)
    requires dev.open && offset <= |dev.written| <= end + 1 && dev.written == data[..|dev.written|]
    ensures ChunkRun(w, dev, tick, data, offset, end, size, left).result == Written
  {
    if |dev.written| == offset {
      CleanRange(w, dev, tick, data, offset, end, size, left);
    } else if |dev.written| <= end {
      CleanRange(w, dev, tick + 1, data, |dev.written|, end, size, left - 1);
    }
  }

  /** The network loses requests, replies or the end of bodies, but the device neither resets nor refuses. */
  ghost predicate Mild(w: Wire) {
    forall i: nat :: !w.fates(i).reset && match w.fates(i).fault
                                          case Clean | Lost | Cut(_) | ReplyLost => true
                                          case _ => false
  }

  /** Among three requests in a row at most one is hit. */
  ghost predicate Spaced(w: Wire) {
    forall i: nat, j: nat :: i < j <= i + 2 ==> w.fates(i).fault == Clean || w.fates(j).fault == Clean
  }

  lemma ChunkSurvives(w: Wire, dev: Device, tick: nat, data: Bytes, start: int, end: int, size: int, left: nat)
    requires 0 <= start <= end < |data| && left >= ATTEMPTS
    requires Mild(w) && Spaced(w) && Aligned(dev, data, start) && VerdictGood(w, data, end, size)
    ensures ChunkRun(w, dev, tick, data, start, end, size, left).result == Written
  {
    var p := Put(start, end, size, data[start..end + 1]);
    var fault := w.fates(tick).fault;
    var (d, reply) := Exchange(w, dev, p, w.fates(tick));
    if fault == Clean {
      CleanRange(w, dev, tick, data, start, end, size, left);
    } else {
      assert IsClean(w, tick + 1) && IsClean(w, tick + 2);
      assert reply == NoReply;
      if fault == Lost || start == 0 {
        CleanRange(w, d, tick + 1, data, start, end, size, left - 1);
      } else {
        var kept := match fault case Cut(n) => (if n <= |p.body| then n else |p.body|) case _ => |p.body|;
        assert d.written == data[..start] + data[start..end + 1][..kept] == data[..start + kept];
        Resync(w, d, tick + 1, data, start, end, size, left - 1);
      }
    }
  }

  /**
   * Progress: if at most one request in three is hit by the network, a matching firmware is written.
   * (Without this a client that always gave up would satisfy TransferSafe.)
   */
  lemma {:induction false} TransferSurvives(
      w: Wire, dev: Device, tick: nat, data: Bytes, size: int, start: int, tries: nat)
    requires 0 <= start <= size <= |data| && tries >= ATTEMPTS
    requires Mild(w) && Spaced(w) && AtBoundary(w, dev, data, size, start)
    requires Sum(w.hasher, data[..size]) == w.digest
    ensures TransferRun(w, dev, tick, data, size, start, tries).result == Written
    decreases size - start
  {
    hide ChunkRun;
    if start < size {
      var end := ChunkEnd(start, size);
      var c := ChunkRun(w, dev, tick, data, start, end, size, tries);
      ChunkSurvives(w, dev, tick, data, start, end, size, tries);
      BoundaryMoves(w, dev, tick, data, size, start, end, tries);
      TransferSurvives(w, c.dev, tick + |c.sent|, data, size, end + 1, tries);
    }
  }

  // ---------------------------------------------------------------- what success does not mean

  /** A single range is confirmed only by the device's own verdict. */
  lemma {:induction false} FirstRangeVerdict(w: Wire, dev: Device, tick: nat, data: Bytes, size: int, left: nat)
    requires 0 < size <= |data|
    ensures var run := ChunkRun(w, dev, tick, data, 0, size - 1, size, left);
            run.result == Written ==> Sum(w.hasher, data[..size]) == w.digest
    decreases left
  {
    if left > 0 {
      var p := Put(0, size - 1, size, data[0..size]);
      var (d, reply) := Exchange(w, dev, p, w.fates(tick));
      assert p.body == data[..size] && p.body[..|p.body|] == p.body;
      match Decide(reply, 0, size - 1) {
        case Done(_) =>
        case Retry(next) => FirstRangeVerdict(w, d, tick + 1, data, size, left - 1);
      }
    }
  }

  /** Only the first reply to the last of the ranges from `start` on is lost. */
  ghost predicate LosesLastVerdict(w: Wire, tick: nat, start: int, size: int)
    requires 0 <= start
  {
    forall i: nat :: i >= tick ==>
                       w.fates(i) == Fate(false, if i == tick + RangeCount(start, size) - 1 then ReplyLost else Clean)
  }

  lemma LastRangeWithoutVerdict(w: Wire, dev: Device, tick: nat, data: Bytes, start: int, size: int, left: nat)
    requires 0 < start < size <= |data| && ChunkEnd(start, size) == size - 1 && left > 1
    requires w.fates(tick) == Fate(false, ReplyLost) && IsClean(w, tick + 1)
    requires dev.open && dev.written == data[..start]
    ensures ChunkRun(w, dev, tick, data, start, size - 1, size, left).result == Written
  {
    var p := Put(start, size - 1, size, data[start..size]);
    var d := Stored(w, dev, p, |p.body|);
    assert |d.written| == size;
    assert Exchange(w, dev, p, w.fates(tick)) == (d, NoReply);
    assert Exchange(w, d, p, w.fates(tick + 1)) == (d, RangeMismatch(size));
    assert ChunkRun(w, d, tick + 1, data, start, size - 1, size, left - 1).result == Written;
  }

  lemma {:induction false} VerdictCanBeLost(
      w: Wire, dev: Device, tick: nat, data: Bytes, size: int, start: int, tries: nat)
    requires 0 <= start < size <= |data| && tries > 1 && (start > 0 || size > CHUNK)
    requires AtBoundary(w, dev, data, size, start) && LosesLastVerdict(w, tick, start, size)
    ensures TransferRun(w, dev, tick, data, size, start, tries).result == Written
    decreases size - start
  {
    hide ChunkRun;
    var end := ChunkEnd(start, size);
    if end + 1 == size {
      assert RangeCount(size, size) == 0;
      LastRangeWithoutVerdict(w, dev, tick, data, start, size, tries);
    } else {
      assert RangeCount(end + 1, size) > 0;
      CleanRange(w, dev, tick, data, start, end, size, tries);
      BoundaryMoves(w, dev, tick, data, size, start, end, tries);
      var c := ChunkRun(w, dev, tick, data, start, end, size, tries);
      VerdictCanBeLost(w, c.dev, tick + 1, data, size, end + 1, tries);
    }
  }

  /** Success always means that the device staged the firmware. */
  ghost predicate SuccessMeansStaged(h: Hasher, digest: string, data: Bytes, size: int, tries: nat) {
    forall fates: nat -> Fate, dev: Device ::
      var run := TransferRun(Wire(h, digest, fates), dev, 0, data, size, 0, tries);
      run.result == Written ==> run.dev.staged
  }

  /**
   * OTAWrite's nil is not the device's verdict: a lost "digest_mismatch" is followed by a 416 that counts as success.
   * It is the verdict exactly for firmware of one range, and for firmware whose digest is right anyway.
   */
  lemma SuccessMeansStagedExactlyWhen(h: Hasher, digest: string, data: Bytes, size: int, tries: nat)
    requires 0 < size <= |data| && tries > 1
    ensures SuccessMeansStaged(h, digest, data, size, tries) <==> size <= CHUNK || Sum(h, data[..size]) == digest
  {
    hide ChunkRun;
    forall fates: nat -> Fate, dev: Device | size <= CHUNK || Sum(h, data[..size]) == digest
      ensures var run := TransferRun(Wire(h, digest, fates), dev, 0, data, size, 0, tries);
              run.result == Written ==> run.dev.staged
    {
      var w := Wire(h, digest, fates);
      TransferSafe(w, dev, 0, data, size, 0, tries);
      if size <= CHUNK {
        FirstRangeVerdict(w, dev, 0, data, size, tries);
      }
    }
    if size > CHUNK && Sum(h, data[..size]) != digest {
      var last := RangeCount(0, size) - 1;
      var fates: nat -> Fate := (i: nat) => Fate(false, if i == last then ReplyLost else Clean);
      var dev := Device(false, [], false);
      VerdictCanBeLost(Wire(h, digest, fates), dev, 0, data, size, 0, tries);
      TransferSafe(Wire(h, digest, fates), dev, 0, data, size, 0, tries);
    }
  }

  // ---------------------------------------------------------------- the client, as it runs

  /** The connection to one device: every request meets its fate and is logged. */
  class Link {
    const wire: Wire
    var dev: Device
    var sent: seq<Put>

    constructor (wire: Wire, dev: Device)
      ensures this.wire == wire && this.dev == dev && sent == []
    {
      this.wire, this.dev, sent := wire, dev, [];
    }

    method Do(p: Put) returns (r: Reply)
      modifies this
      ensures (dev, r) == Exchange(wire, old(dev), p, wire.fates(|old(sent)|))
      ensures sent == old(sent) + [p]
    {
      var (d, reply) := Exchange(wire, dev, p, wire.fates(|sent|));
      dev, r := d, reply;
      sent := sent + [p];
    }
  }

  /** What is left to do, after the requests `sent`, completes the run that started after the requests `before`. */
  ghost predicate Completes(run: Run, before: seq<Put>, sent: seq<Put>, rest: Run) {
    run.result == rest.result && run.dev == rest.dev && before + run.sent == sent + rest.sent
  }

  /** One attempt of the loop: either it decides the range, or the remaining attempts complete it. */
  lemma AttemptStep(
      run: Run, before: seq<Put>, sent: seq<Put>, w: Wire, dev: Device, data: Bytes, offset: int, end: int, size: int,
      left: nat)
    requires 0 <= offset <= end < |data| && left > 0
    requires Completes(run, before, sent, ChunkRun(w, dev, |sent|, data, offset, end, size, left))
    ensures var p := Put(offset, end, size, data[offset..end + 1]);
            var (d, reply) := Exchange(w, dev, p, w.fates(|sent|));
            match Decide(reply, offset, end)
            case Done(result) => Completes(run, before, sent + [p], Run(result, d, []))
            case Retry(next) =>
              Completes(run, before, sent + [p],
                        ChunkRun(w, d, |sent + [p]|, data, next, end, size, left - 1))
  {
    hide Exchange;
    var p := Put(offset, end, size, data[offset..end + 1]);
    var (d, reply) := Exchange(w, dev, p, w.fates(|sent|));
    if Decide(reply, offset, end).Retry? {
      var rest := ChunkRun(w, d, |sent| + 1, data, Decide(reply, offset, end).offset, end, size, left - 1);
      assert sent + ([p] + rest.sent) == (sent + [p]) + rest.sent;
    }
  }

  /** Sends chunk[..end - start + 1], the bytes of [start, end], resuming inside the buffer on 416. */
  method PutOtaChunk(link: Link, chunk: array<byte>, start: int, end: int, size: int, attempts: nat, ghost data: Bytes)
    returns (r: WriteResult)
    requires 0 <= start <= end < |data| && end - start + 1 <= chunk.Length
    requires chunk[..end - start + 1] == data[start..end + 1]
    modifies link
    ensures var run := ChunkRun(link.wire, old(link.dev), |old(link.sent)|, data, start, end, size, attempts);
            r == run.result && link.dev == run.dev && link.sent == old(link.sent) + run.sent
  {
    hide ChunkRun, Exchange;
    var offset := start;
    var remaining := 0;  // the rest to send is chunk[remaining..end - start + 1]
    ghost var run := ChunkRun(link.wire, link.dev, |link.sent|, data, start, end, size, attempts);
    for attempt := 0 to attempts
      invariant start <= offset <= end && remaining == offset - start
      invariant Completes(run, old(link.sent), link.sent,
                          ChunkRun(link.wire, link.dev, |link.sent|, data, offset, end, size, attempts - attempt))
    {
      var body := chunk[remaining..end - start + 1];
      assert body == chunk[..end - start + 1][remaining..] == data[offset..end + 1];
      AttemptStep(run, old(link.sent), link.sent, link.wire, link.dev, data, offset, end, size, attempts - attempt);
      var reply := link.Do(Put(offset, end, size, body));
      match reply {
        case NoReply =>
        case Ok200(parsed, status, error) =>
          if !parsed {
            return BadReply;
          }
          if status == "written" || status == "partial" {
            return Written;
          }
          return Refused(if status == "" then error else status, 0);
        case RangeMismatch(written) =>
          if written < offset || written > end + 1 {
            return Refused("range_mismatch", 416);
          }
          if written == end + 1 {
            return Written;
          }
          remaining := written - start;
          offset := written;
        case BeginFailed => return Refused("ota_begin_failed", 500);
        case Other(code) => return HttpError(code);
      }
    }
    NoAttemptsLeft(link.wire, link.dev, |link.sent|, data, offset, end, size);
    r := Abandoned;
  }

  lemma NoAttemptsLeft(w: Wire, dev: Device, tick: nat, data: Bytes, offset: int, end: int, size: int)
    requires 0 <= offset <= end < |data|
    ensures ChunkRun(w, dev, tick, data, offset, end, size, 0) == Run(Abandoned, dev, [])
  {
  }

  /** Two's-complement wrap of a 64-bit result. */
  function Int64(x: int): int {
    (x + 0x8000_0000_0000_0000) % 0x1_0000_0000_0000_0000 - 0x8000_0000_0000_0000
  }

  /** The range end survives 64-bit wrap-around for every size, because range starts are multiples of 65536. */
  lemma RangeEndInInt64(start: int)
    requires 0 <= start < 0x8000_0000_0000_0000 && start % CHUNK == 0
    ensures Int64(Int64(start + CHUNK) - 1) == start + CHUNK - 1
  {
    assert start + CHUNK <= 0x8000_0000_0000_0000;
  }

  /** One range of the loop: either it ends the transfer, or the rest of the ranges complete it. */
  lemma RangeStep(
      run: Run, before: seq<Put>, sent: seq<Put>, w: Wire, dev: Device, data: Bytes, size: int, start: int, tries: nat)
    requires 0 <= start < size
    requires Completes(run, before, sent, TransferRun(w, dev, |sent|, data, size, start, tries))
    ensures var end := ChunkEnd(start, size);
            if |data| <= end then Completes(run, before, sent, Run(ReadFailed(start), dev, []))
            else
              var c := ChunkRun(w, dev, |sent|, data, start, end, size, tries);
              if c.result != Written then Completes(run, before, sent, c)
              else
                Completes(run, before, sent + c.sent,
                          TransferRun(w, c.dev, |sent + c.sent|, data, size, end + 1, tries))
  {
    hide ChunkRun;
    var end := ChunkEnd(start, size);
    if end < |data| {
      var c := ChunkRun(w, dev, |sent|, data, start, end, size, tries);
      if c.result == Written {
        var rest := TransferRun(w, c.dev, |sent| + |c.sent|, data, size, end + 1, tries);
        assert sent + (c.sent + rest.sent) == (sent + c.sent) + rest.sent;
      }
    }
  }

  lemma NothingLeft(w: Wire, dev: Device, tick: nat, data: Bytes, size: int, start: int, tries: nat)
    requires 0 <= start && size <= start
    ensures TransferRun(w, dev, tick, data, size, start, tries) == Run(Written, dev, [])
  {
  }

  /** Cuts the firmware into ranges read one at a time into one reused buffer. */
  method OtaWrite(link: Link, stream: BlobStream, size: int) returns (r: WriteResult)
    requires stream.Valid() && !stream.eof
    requires -0x8000_0000_0000_0000 <= size < 0x8000_0000_0000_0000
    modifies link, stream
    ensures stream.Valid()
    ensures var data := Flatten(old(stream.source.pieces));
            var run := TransferRun(link.wire, old(link.dev), |old(link.sent)|, data, size, 0, ATTEMPTS);
            && r == run.result && link.dev == run.dev && link.sent == old(link.sent) + run.sent
            && (r == Written && size > 0 ==> size <= |data| && stream.seen == old(stream.seen) + data[..size])
            && (r == Written && size > 0 ==>
                  (stream.eof <==>
                     && old(stream.source.ending) == EofWithLast && old(EndsOnBytes(stream.source.pieces))
                     && |data| == size))
            && (size <= 0 ==> !stream.eof)
  {
    hide ChunkRun, TransferRun, Exchange, Flatten, EndsOnBytes, Sum, Absorb, Int64, BlobStream.Valid;
    ghost var data := Flatten(stream.source.pieces);
    ghost var run := TransferRun(link.wire, link.dev, |link.sent|, data, size, 0, ATTEMPTS);
    var buf := new byte[CHUNK];
    var start := 0;
    while start < size
      invariant stream.Valid() && stream.source.ending == old(stream.source.ending)
      invariant 0 <= start && (start % CHUNK == 0 || start == size) && start <= |data| && (start <= size || start == 0)
      invariant Flatten(stream.source.pieces) == data[start..]
      invariant stream.seen == old(stream.seen) + data[..start]
      invariant EndsOnBytes(stream.source.pieces) == old(EndsOnBytes(stream.source.pieces))
      invariant start == 0 ==> !stream.eof
      invariant start > 0 ==> (stream.eof <==> stream.source.pieces == [] && stream.source.ending == EofWithLast)
      invariant Completes(run, old(link.sent), link.sent,
                          TransferRun(link.wire, link.dev, |link.sent|, data, size, start, ATTEMPTS))
    {
      RangeStep(run, old(link.sent), link.sent, link.wire, link.dev, data, size, start, ATTEMPTS);
      RangeEndInInt64(start);
      var end := Int64(Int64(start + CHUNK) - 1);
      if end >= size {
        end := size - 1;
      }
      var chunkLen := end - start + 1;
      var ok := ReadFull(stream, buf, chunkLen);
      if !ok {
        return ReadFailed(start);
      }
      Pieces(data, start, end);
      var sent := PutOtaChunk(link, buf, start, end, size, ATTEMPTS, data);
      if sent != Written {
        return sent;
      }
      start := end + 1;
    }
    NothingLeft(link.wire, link.dev, |link.sent|, data, size, start, ATTEMPTS);
    NoBytesLeftIff(stream.source.pieces);
    r := Written;
  }

  lemma Pieces(data: Bytes, start: int, end: int)
    requires 0 <= start <= end < |data|
    ensures data[start..][..end - start + 1] == data[start..end + 1]
    ensures data[start..][end - start + 1..] == data[end + 1..]
    ensures data[..start] + data[start..end + 1] == data[..end + 1]
  {
  }

  lemma NoBytesLeftIff(pieces: seq<Bytes>)
    ensures pieces == [] <==> Flatten(pieces) == [] && EndsOnBytes(pieces)
  {
    if EndsOnBytes(pieces) {
      NoBytesLeft(pieces);
    }
  }
}
