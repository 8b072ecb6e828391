/**
 * The Writing phase (internal/controller/mcudeployment_controller.go, phaseWriting): stream the blob to the device,
 * then let the digest check of the stream decide whether the deployment may advance to Activating.
 */
module WritingPhase {
  import opened BlobReader
  import opened OtaTransfer
  import opened TransferTrace

  /** The source holds exactly `size` bytes and reports end-of-file together with the last of them. */
  ghost predicate EndsExactly(source: Source, size: int) {
    size > 0 && source.ending == EofWithLast && EndsOnBytes(source.pieces) && |Flatten(source.pieces)| == size
  }

  /** Whether one Writing reconcile advances, for one pattern of link and device faults. */
  ghost predicate Advances(w: Wire, dev: Device, tick: nat, source: Source, size: int) {
    var data := Flatten(source.pieces);
    && TransferRun(w, dev, tick, data, size, 0, ATTEMPTS).result == Written
    && (EndsExactly(source, size) ==> Sum(w.hasher, data) == w.digest)
  }

  method PhaseWriting(link: Link, source: Source, size: int) returns (advance: bool)
    requires -0x8000_0000_0000_0000 <= size < 0x8000_0000_0000_0000
    modifies link
    ensures advance <==> Advances(link.wire, old(link.dev), |old(link.sent)|, source, size)
    ensures advance && size > 0 ==> HoldsExactly(link.wire, link.dev, Flatten(source.pieces), size)
  {
    hide ChunkRun, TransferRun, Absorb, Sum, Flatten;
    ghost var data := Flatten(source.pieces);
    var stream := new BlobStream(link.wire.hasher, link.wire.digest, source);
    var written := OtaWrite(link, stream, size);
    TransferSafe(link.wire, old(link.dev), |old(link.sent)|, data, size, 0, ATTEMPTS);
    var mismatch := stream.Err();
    if written == Written && EndsExactly(source, size) {
      assert stream.seen == [] + data[..size] == data;
    }
    advance := written == Written && !mismatch;
  }

  /** No fault pattern lets the phase advance on bytes that do not hash to the digest of the deployment. */
  ghost predicate GateHolds(h: Hasher, digest: string, source: Source, size: int)
    requires 0 <= size <= |Flatten(source.pieces)|
  {
    forall fates: nat -> Fate, dev: Device ::
      Advances(Wire(h, digest, fates), dev, 0, source, size) ==> Sum(h, Flatten(source.pieces)[..size]) == digest
  }

  /**
   * The check after the write is conclusive only when end-of-file arrives with the last byte wanted. Otherwise the
   * device's own verdict is all there is, and on firmware of more than one range that verdict can be lost.
   */
  lemma GateHoldsExactlyWhen(h: Hasher, digest: string, source: Source, size: int)
    requires 0 < size <= |Flatten(source.pieces)|
    ensures GateHolds(h, digest, source, size) <==>
            || EndsExactly(source, size)
            || size <= CHUNK
            || Sum(h, Flatten(source.pieces)[..size]) == digest
  {
    hide ChunkRun, TransferRun, Sum, Flatten, EndsOnBytes;
    var data := Flatten(source.pieces);
    forall fates: nat -> Fate, dev: Device |
        && Advances(Wire(h, digest, fates), dev, 0, source, size)
        && (EndsExactly(source, size) || size <= CHUNK || Sum(h, data[..size]) == digest)
      ensures Sum(h, data[..size]) == digest
    {
      if EndsExactly(source, size) {
        assert data[..size] == data;
      } else if size <= CHUNK {
        SuccessMeansStagedExactlyWhen(h, digest, data, size, ATTEMPTS);
        TransferSafe(Wire(h, digest, fates), dev, 0, data, size, 0, ATTEMPTS);
      }
    }
    if !EndsExactly(source, size) && size > CHUNK && Sum(h, data[..size]) != digest {
      SuccessMeansStagedExactlyWhen(h, digest, data, size, ATTEMPTS);
      var fates: nat -> Fate, dev: Device :|
        var run := TransferRun(Wire(h, digest, fates), dev, 0, data, size, 0, ATTEMPTS);
        run.result == Written && !run.dev.staged;
      assert Advances(Wire(h, digest, fates), dev, 0, source, size);
    }
  }

  /** Firmware with the right digest advances whenever at most one request in three is hit by the network. */
  lemma GoodFirmwareAdvances(w: Wire, dev: Device, tick: nat, source: Source, size: int)
    requires 0 <= size <= |Flatten(source.pieces)| && Mild(w) && Spaced(w)
    requires Sum(w.hasher, Flatten(source.pieces)[..size]) == w.digest
    ensures Advances(w, dev, tick, source, size)
  {
    hide TransferRun, Sum, Flatten, EndsOnBytes;
    var data := Flatten(source.pieces);
    TransferSurvives(w, dev, tick, data, size, 0, ATTEMPTS);
    if EndsExactly(source, size) {
      assert data[..size] == data;
    }
  }

  /** On an undisturbed link the phase advances exactly when the bytes streamed hash to the digest. */
  lemma CleanAdvancesExactly(w: Wire, dev: Device, tick: nat, source: Source, size: int)
    requires 0 < size <= |Flatten(source.pieces)| && CleanFrom(w, tick)
    ensures Advances(w, dev, tick, source, size) <==> Sum(w.hasher, Flatten(source.pieces)[..size]) == w.digest
  {
    hide TransferRun, Sum, Flatten, EndsOnBytes;
    var data := Flatten(source.pieces);
    CleanTransferExactly(w, dev, tick, data, size, ATTEMPTS);
    if EndsExactly(source, size) {
      assert data[..size] == data;
    }
  }

  /** An empty (or negative) declared size sends nothing, checks nothing, and still advances. */
  lemma EmptySizeAdvances(w: Wire, dev: Device, tick: nat, source: Source, size: int)
    requires size <= 0
    ensures Advances(w, dev, tick, source, size)
    ensures TransferRun(w, dev, tick, Flatten(source.pieces), size, 0, ATTEMPTS) == Run(Written, dev, [])
  {
  }
}
