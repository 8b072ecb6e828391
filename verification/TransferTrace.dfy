/**
 * A transfer seen from the wire (internal/agent/client.go): which request follows which answer, and which answer ends
 * the transfer with which result. Nothing here speaks of the client's own decisions.
 */
module TransferTrace {
  import opened BlobReader
  import opened OtaTransfer

  /** What a device answers to these requests, in order. */
  function Answers(w: Wire, d: Device, tick: nat, sent: seq<Put>): (r: seq<Reply>)
    ensures |r| == |sent|
    decreases |sent|
  {
    if sent == [] then []
    else
      var (d', reply) := Exchange(w, d, sent[0], w.fates(tick));
      [reply] + Answers(w, d', tick + 1, sent[1..])
  }

  function DeviceAfter(w: Wire, d: Device, tick: nat, sent: seq<Put>): Device
    decreases |sent|
  {
    if sent == [] then d else DeviceAfter(w, Exchange(w, d, sent[0], w.fates(tick)).0, tick + 1, sent[1..])
  }

  /** The answer confirms the whole range of the request. */
  predicate Confirmed(r: Reply, p: Put) {
    || (r.Ok200? && r.parsed && (r.status == "written" || r.status == "partial"))
    || r == RangeMismatch(p.end + 1)
  }

  /** The request is worth repeating: no answer, or a 416 that tells a position inside the range. */
  predicate Repeatable(r: Reply, p: Put) {
    r == NoReply || (r.RangeMismatch? && p.offset <= r.written <= p.end)
  }

  /** The result an answer brings when it neither confirms nor can be repeated. */
  function Refusal(r: Reply): (result: WriteResult)
    requires r != NoReply
    ensures result != Written && result != Abandoned && !result.ReadFailed?
  {
    match r
    case Ok200(parsed, status, error) =>
      if !parsed then BadReply else if status == "" then Refused(error, 0) else Refused(status, 0)
    case RangeMismatch(_) => Refused("range_mismatch", 416)
    case BeginFailed => Refused("ota_begin_failed", 500)
    case Other(code) => HttpError(code)
  }

  function LastOf(start: int, size: int): int {
    if size - start <= 65536 then size - 1 else start + 65535
  }

  /** The request that follows an answer: the next range, or the rest of the same one. */
  predicate Follows(p: Put, r: Reply, next: Put, size: int) {
    || (Confirmed(r, p) && next.offset == p.end + 1 && next.end == LastOf(p.end + 1, size))
    || (!Confirmed(r, p) && Repeatable(r, p) && next.end == p.end
        && next.offset == if r == NoReply then p.offset else r.written)
  }

  predicate Chained(sent: seq<Put>, answers: seq<Reply>, size: int)
    requires |sent| == |answers|
  {
    forall k :: 0 < k < |sent| ==> Follows(sent[k - 1], answers[k - 1], sent[k], size)
  }

  /** How the last answer decides the result of one range, after `left` attempts were allowed. */
  predicate Decided(result: WriteResult, sent: seq<Put>, answers: seq<Reply>, left: nat)
    requires |sent| == |answers|
  {
    if sent == [] then left == 0 && result == Abandoned
    else
      var p, r := sent[|sent| - 1], answers[|sent| - 1];
      result == if Confirmed(r, p) then Written else if Repeatable(r, p) then Abandoned else Refusal(r)
  }

  /** The trace of one range. */
  predicate IsRange(run: Run, answers: seq<Reply>, offset: int, end: int, size: int, left: nat) {
    var sent := run.sent;
    && |answers| == |sent| <= left
    && (left > 0 ==> sent != [] && sent[0].offset == offset)
    && (forall k :: 0 <= k < |sent| ==> sent[k].end == end)
    && (forall k :: 0 <= k < |sent| - 1 ==> !Confirmed(answers[k], sent[k]))
    && Chained(sent, answers, size)
    && Decided(run.result, sent, answers, left)
    && (run.result == Abandoned ==> |sent| == left)
  }

  lemma AnswersPrepend(w: Wire, d: Device, tick: nat, p: Put, sent: seq<Put>)
    ensures var (d', reply) := Exchange(w, d, p, w.fates(tick));
            && Answers(w, d, tick, [p] + sent) == [reply] + Answers(w, d', tick + 1, sent)
            && DeviceAfter(w, d, tick, [p] + sent) == DeviceAfter(w, d', tick + 1, sent)
  {
    hide Exchange;
    assert ([p] + sent)[1..] == sent;
  }

  lemma OneRequest(p: Put, r: Reply, result: WriteResult, d: Device, size: int, left: nat)
    requires left > 0 && p.offset <= p.end && Decide(r, p.offset, p.end) == Done(result)
    ensures IsRange(Run(result, d, [p]), [r], p.offset, p.end, size, left)
  {
  }

  lemma OneMoreRequest(p: Put, r: Reply, rest: Run, answers: seq<Reply>, next: int, size: int, left: nat)
    requires left > 0 && p.offset <= p.end && Decide(r, p.offset, p.end) == Retry(next)
    requires IsRange(rest, answers, next, p.end, size, left - 1)
    ensures IsRange(Run(rest.result, rest.dev, [p] + rest.sent), [r] + answers, p.offset, p.end, size, left)
  {
    hide Refusal;
    var sent, all := [p] + rest.sent, [r] + answers;
    assert !Confirmed(r, p) && Repeatable(r, p);
    forall k | 0 < k < |sent|
      ensures Follows(sent[k - 1], all[k - 1], sent[k], size)
    {
      if k > 1 {
        assert Follows(rest.sent[k - 2], answers[k - 2], rest.sent[k - 1], size);
      }
    }
  }

  /** One range, for every pattern of faults. */
  lemma {:induction false} RangeTrace(
      w: Wire, dev: Device, tick: nat, data: Bytes, offset: int, end: int, size: int, left: nat)
    requires 0 <= offset <= end < |data|
    ensures var run := ChunkRun(w, dev, tick, data, offset, end, size, left);
            && run.dev == DeviceAfter(w, dev, tick, run.sent)
            && IsRange(run, Answers(w, dev, tick, run.sent), offset, end, size, left)
    decreases left
  {
    hide Exchange, IsRange, Answers, DeviceAfter;
    if left == 0 {
      NoRequest(w, dev, tick, offset, end, size);
    } else {
      var p := Put(offset, end, size, data[offset..end + 1]);
      var (d, reply) := Exchange(w, dev, p, w.fates(tick));
      match Decide(reply, offset, end) {
        case Done(result) =>
          NoRequest(w, d, tick + 1, offset, end, size);
          AnswersPrepend(w, dev, tick, p, []);
          assert [p] + [] == [p] && [reply] + [] == [reply];
          OneRequest(p, reply, result, d, size, left);
        case Retry(next) =>
          var rest := ChunkRun(w, d, tick + 1, data, next, end, size, left - 1);
          RangeTrace(w, d, tick + 1, data, next, end, size, left - 1);
          AnswersPrepend(w, dev, tick, p, rest.sent);
          OneMoreRequest(p, reply, rest, Answers(w, d, tick + 1, rest.sent), next, size, left);
      }
    }
  }

  lemma NoRequest(w: Wire, d: Device, tick: nat, offset: int, end: int, size: int)
    ensures Answers(w, d, tick, []) == [] && DeviceAfter(w, d, tick, []) == d
    ensures IsRange(Run(Abandoned, d, []), [], offset, end, size, 0)
  {
  }

  // ---------------------------------------------------------------- whole transfers

  /** How a transfer from `start` on ends: by the last answer, or because the source holds too little. */
  predicate Ends(result: WriteResult, sent: seq<Put>, answers: seq<Reply>, data: Bytes, start: int, size: int) {
    && |answers| == |sent|
    && if sent == [] then
         if start >= size then result == Written else result == ReadFailed(start) && |data| <= LastOf(start, size)
       else
         var p, r := sent[|sent| - 1], answers[|sent| - 1];
         if Confirmed(r, p) then
           if p.end + 1 == size then result == Written
           else result == ReadFailed(p.end + 1) && |data| <= LastOf(p.end + 1, size)
         else if Repeatable(r, p) then result == Abandoned
         else result == Refusal(r)
  }

  /** The trace of a transfer from `start` on. */
  predicate IsTransfer(run: Run, answers: seq<Reply>, data: Bytes, start: int, size: int, tries: nat) {
    var sent := run.sent;
    && |answers| == |sent|
    && (sent != [] ==> sent[0].offset == start && sent[0].end == LastOf(start, size))
    && Chained(sent, answers, size)
    && Ends(run.result, sent, answers, data, start, size)
    && (run.result == Abandoned ==>
          |sent| >= tries && forall k :: |sent| - tries <= k < |sent| ==> sent[k].end == sent[|sent| - 1].end)
  }

  lemma {:induction false} AnswersAppend(w: Wire, d: Device, tick: nat, a: seq<Put>, b: seq<Put>)
    ensures var d' := DeviceAfter(w, d, tick, a);
            && Answers(w, d, tick, a + b) == Answers(w, d, tick, a) + Answers(w, d', tick + |a|, b)
            && DeviceAfter(w, d, tick, a + b) == DeviceAfter(w, d', tick + |a|, b)
    decreases a
  {
    hide Exchange;
    if a == [] {
      assert a + b == b;
    } else {
      var d1 := Exchange(w, d, a[0], w.fates(tick)).0;
      assert (a + b)[1..] == a[1..] + b;
      AnswersAppend(w, d1, tick + 1, a[1..], b);
    }
  }

  /** A confirmed range, then the trace of the rest. */
  lemma RangeThenRest(
      c: Run, before: seq<Reply>, rest: Run, after: seq<Reply>, data: Bytes, start: int, size: int, tries: nat)
    requires 0 <= start < size && tries > 0
    requires var end := LastOf(start, size);
             && IsRange(c, before, start, end, size, tries) && c.result == Written
             && IsTransfer(rest, after, data, end + 1, size, tries)
    ensures IsTransfer(Run(rest.result, rest.dev, c.sent + rest.sent), before + after, data, start, size, tries)
  {
    hide Refusal;
    var sent, all := c.sent + rest.sent, before + after;
    var n := |c.sent|;
    var p, r := c.sent[n - 1], before[n - 1];
    assert Confirmed(r, p);
    forall k | 0 < k < |sent|
      ensures Follows(sent[k - 1], all[k - 1], sent[k], size)
    {
      if k < n {
        assert Follows(c.sent[k - 1], before[k - 1], c.sent[k], size);
      } else if k > n {
        assert Follows(rest.sent[k - n - 1], after[k - n - 1], rest.sent[k - n], size);
      }
    }
  }

  lemma RangeIsTransfer(c: Run, answers: seq<Reply>, data: Bytes, start: int, size: int, tries: nat)
    requires 0 <= start < size && tries > 0 && c.result != Written
    requires IsRange(c, answers, start, LastOf(start, size), size, tries)
    ensures IsTransfer(c, answers, data, start, size, tries)
  {
    hide Refusal;
    var p, r := c.sent[|c.sent| - 1], answers[|c.sent| - 1];
    assert !Confirmed(r, p);
  }

  /**
   * Every transfer, for every pattern of faults: each request is the one its predecessor's answer calls for, no request
   * follows a refusal, and the last answer decides the result.
   */
  lemma {:induction false} TransferTrace(
      w: Wire, dev: Device, tick: nat, data: Bytes, size: int, start: int, tries: nat)
    requires 0 <= start && tries > 0
    ensures var run := TransferRun(w, dev, tick, data, size, start, tries);
            && run.dev == DeviceAfter(w, dev, tick, run.sent)
            && IsTransfer(run, Answers(w, dev, tick, run.sent), data, start, size, tries)
    decreases size - start
  {
    hide ChunkRun, Answers, DeviceAfter, IsTransfer, IsRange;
    var end := ChunkEnd(start, size);
    if start >= size || |data| <= end {
      NothingSent(w, dev, tick, data, start, size, tries);
    } else {
      assert end == LastOf(start, size);
      var c := ChunkRun(w, dev, tick, data, start, end, size, tries);
      RangeTrace(w, dev, tick, data, start, end, size, tries);
      if c.result != Written {
        RangeIsTransfer(c, Answers(w, dev, tick, c.sent), data, start, size, tries);
      } else {
        var rest := TransferRun(w, c.dev, tick + |c.sent|, data, size, end + 1, tries);
        TransferTrace(w, c.dev, tick + |c.sent|, data, size, end + 1, tries);
        AnswersAppend(w, dev, tick, c.sent, rest.sent);
        RangeThenRest(c, Answers(w, dev, tick, c.sent), rest, Answers(w, c.dev, tick + |c.sent|, rest.sent),
                      data, start, size, tries);
      }
    }
  }

  lemma NothingSent(w: Wire, d: Device, tick: nat, data: Bytes, start: int, size: int, tries: nat)
    requires start >= size || |data| <= LastOf(start, size)
    ensures Answers(w, d, tick, []) == [] && DeviceAfter(w, d, tick, []) == d
    ensures IsTransfer(Run(if start >= size then Written else ReadFailed(start), d, []), [], data, start, size, tries)
  {
  }

  /** A range is tried three times, no more, and is given up only after the third time. */
  lemma ThreeAttemptsPerRange(w: Wire, dev: Device, tick: nat, data: Bytes, size: int)
    ensures var run := TransferRun(w, dev, tick, data, size, 0, ATTEMPTS);
            && (size > 0 ==> |run.sent| <= 3 * ((size + 65535) / 65536))
            && (run.result == Abandoned ==>
                  |run.sent| >= 3 && forall k :: |run.sent| - 3 <= k < |run.sent| ==>
                                       run.sent[k].end == run.sent[|run.sent| - 1].end)
  {
    hide TransferRun;
    TransferTrace(w, dev, tick, data, size, 0, ATTEMPTS);
    RequestsAreBounded(w, dev, tick, data, size, 0, ATTEMPTS);
    if size > 0 {
      RangeCountIsCeiling(0, size);
    }
  }

  // ---------------------------------------------------------------- refusals

  lemma {:induction false} AnswerAt(w: Wire, d: Device, tick: nat, sent: seq<Put>, k: nat)
    requires k < |sent|
    ensures Answers(w, d, tick, sent)[k]
            == Exchange(w, DeviceAfter(w, d, tick, sent[..k]), sent[k], w.fates(tick + k)).1
    decreases k
  {
    hide Exchange;
    if k > 0 {
      AnswerAt(w, Exchange(w, d, sent[0], w.fates(tick)).0, tick + 1, sent[1..], k - 1);
      assert sent[1..][..k - 1] == sent[..k][1..];
    }
  }

  /** The device as request k finds it, a reset on the way included. */
  function Meets(w: Wire, d: Device, tick: nat, sent: seq<Put>, k: nat): Device
    requires k < |sent|
  {
    var before := DeviceAfter(w, d, tick, sent[..k]);
    if w.fates(tick + k).reset then before.(open := false, written := []) else before
  }

  /** A refusal ends the transfer: nothing is sent after it, and the caller learns which one it was. */
  lemma RefusalEndsTransfer(w: Wire, dev: Device, tick: nat, data: Bytes, size: int, tries: nat, k: nat)
    requires tries > 0 && k < |TransferRun(w, dev, tick, data, size, 0, tries).sent|
    ensures var run := TransferRun(w, dev, tick, data, size, 0, tries);
            var fault := w.fates(tick + k).fault;
            var accepted := Accepts(Meets(w, dev, tick, run.sent, k), run.sent[k]);
            && (fault == BeginError ==> |run.sent| == k + 1 && run.result == Refused("ota_begin_failed", 500))
            && (fault.OtherStatus? ==> |run.sent| == k + 1 && run.result == HttpError(fault.code))
            && (fault.FlashError? && accepted ==> |run.sent| == k + 1 && run.result == Refused("write_failed", 0))
            && (fault == Unreadable && accepted ==> |run.sent| == k + 1 && run.result == BadReply)
  {
    hide TransferRun, ChunkRun, Answers, DeviceAfter, Stored, Verdict;
    var run := TransferRun(w, dev, tick, data, size, 0, tries);
    TransferTrace(w, dev, tick, data, size, 0, tries);
    AnswerAt(w, dev, tick, run.sent, k);
    var reply := Answers(w, dev, tick, run.sent)[k];
    if !Confirmed(reply, run.sent[k]) && !Repeatable(reply, run.sent[k]) {
      RefusedIsLast(run, Answers(w, dev, tick, run.sent), data, size, tries, k);
    }
  }

  lemma NothingFollowsRefusal(sent: seq<Put>, answers: seq<Reply>, size: int, k: nat)
    requires |sent| == |answers| && Chained(sent, answers, size) && k + 1 < |sent|
    ensures Confirmed(answers[k], sent[k]) || Repeatable(answers[k], sent[k])
  {
    var j := k + 1;
    assert Follows(sent[j - 1], answers[j - 1], sent[j], size);
  }

  lemma RefusedIsLast(run: Run, answers: seq<Reply>, data: Bytes, size: int, tries: nat, k: nat)
    requires IsTransfer(run, answers, data, 0, size, tries) && k < |run.sent|
    requires !Confirmed(answers[k], run.sent[k]) && !Repeatable(answers[k], run.sent[k])
    ensures |run.sent| == k + 1 && run.result == Refusal(answers[k])
  {
    if k + 1 < |run.sent| {
      NothingFollowsRefusal(run.sent, answers, size, k);
    }
  }

  // ---------------------------------------------------------------- undisturbed transfers

  ghost predicate CleanFrom(w: Wire, tick: nat) {
    forall i: nat :: i >= tick ==> w.fates(i) == Fate(false, Clean)
  }

  /** The last range on an undisturbed link: the device's verdict on the digest is the result. */
  lemma CleanLastRange(w: Wire, dev: Device, tick: nat, data: Bytes, start: int, size: int, left: nat)
    requires 0 <= start < size <= |data| && left > 0 && CleanFrom(w, tick) && Aligned(dev, data, start)
    ensures var run := ChunkRun(w, dev, tick, data, start, size - 1, size, left);
            && |run.sent| == 1 && run.sent[0].offset == start
            && run.result == if Sum(w.hasher, data[..size]) == w.digest then Written
                             else Refused("digest_mismatch", 0)
  {
    hide Sum;
    var p := Put(start, size - 1, size, data[start..size]);
    assert (if start == 0 then [] else dev.written) + p.body == data[..size];
    assert p.body == p.body[..|p.body|];
    assert Exchange(w, dev, p, w.fates(tick)) == (Stored(w, dev, p, |p.body|), Verdict(Stored(w, dev, p, |p.body|), p));
  }

  lemma {:induction false} CleanRun(w: Wire, dev: Device, tick: nat, data: Bytes, size: int, start: int, tries: nat)
    requires 0 <= start < size <= |data| && tries > 0 && CleanFrom(w, tick) && AtBoundary(w, dev, data, size, start)
    ensures var run := TransferRun(w, dev, tick, data, size, start, tries);
            && run.result == (if Sum(w.hasher, data[..size]) == w.digest then Written
                              else Refused("digest_mismatch", 0))
            && |run.sent| == RangeCount(start, size)
            && forall k :: 0 <= k < |run.sent| ==> run.sent[k].offset == start + 65536 * k
    decreases size - start
  {
    hide ChunkRun, Sum;
    var end := ChunkEnd(start, size);
    if end + 1 == size {
      assert RangeCount(size, size) == 0;
      CleanLastRange(w, dev, tick, data, start, size, tries);
    } else {
      CleanRange(w, dev, tick, data, start, end, size, tries);
      BoundaryMoves(w, dev, tick, data, size, start, end, tries);
      var c := ChunkRun(w, dev, tick, data, start, end, size, tries);
      CleanRun(w, c.dev, tick + 1, data, size, end + 1, tries);
    }
  }

  /**
   * On an undisturbed link every range is sent once, and the transfer succeeds if and only if the firmware hashes to
   * the announced digest; otherwise the device's refusal reaches the caller.
   */
  lemma CleanTransferExactly(w: Wire, dev: Device, tick: nat, data: Bytes, size: int, tries: nat)
    requires 0 < size <= |data| && tries > 0 && CleanFrom(w, tick)
    ensures var run := TransferRun(w, dev, tick, data, size, 0, tries);
            && (run.result == Written <==> Sum(w.hasher, data[..size]) == w.digest)
            && (run.result != Written ==> run.result == Refused("digest_mismatch", 0))
            && |run.sent| == RangeCount(0, size) == (size + 65535) / 65536
            && forall k :: 0 <= k < |run.sent| ==> run.sent[k].offset == 65536 * k
  {
    hide TransferRun, Sum;
    CleanRun(w, dev, tick, data, size, 0, tries);
    RangeCountIsCeiling(0, size);
  }
}
