/** The hashing blob reader of the OCI client (internal/oci/client.go) and the standard full-read loop on top of it. */
module BlobReader {

  newtype byte = x: int | 0 <= x < 256
  type Bytes = seq<byte>

  /** An incremental hash: `step` absorbs one byte, `render` prints the final state. SHA-256 is one instance. */
  datatype Hasher = Hasher(init: int, step: (int, byte) -> int, render: int -> string)

  function Absorb(h: Hasher, state: int, data: Bytes): int
    decreases data
  {
    if data == [] then state else Absorb(h, h.step(state, data[0]), data[1..])
  }

  function Sum(h: Hasher, data: Bytes): string {
    "sha256:" + h.render(Absorb(h, h.init, data))
  }

  lemma {:induction false} AbsorbAppend(h: Hasher, state: int, a: Bytes, b: Bytes)
    ensures Absorb(h, state, a + b) == Absorb(h, Absorb(h, state, a), b)
    decreases a
  {
    if a == [] {
      assert a + b == b;
    } else {
      assert (a + b)[1..] == a[1..] + b;
      AbsorbAppend(h, h.step(state, a[0]), a[1..], b);
    }
  }

  /** A digest names its hash. */
  lemma SumNamesItsHash(h: Hasher, data: Bytes)
    ensures "sha256:" <= Sum(h, data)
  {
  }

  // ---------------------------------------------------------------- the byte source

  /** How the response body ends: end-of-file with its last bytes, in a read of its own, or a broken connection. */
  datatype Ending = EofWithLast | EofAfter | Broken

  /** The rest of a response body, cut into the pieces the network will deliver. */
  datatype Source = Source(pieces: seq<Bytes>, ending: Ending)

  datatype ReadError = NoError | Eof | Failure

  function Flatten(pieces: seq<Bytes>): Bytes {
    if pieces == [] then [] else pieces[0] + Flatten(pieces[1..])
  }

  /** The last piece carries bytes, so reading the last byte also uses up the source. */
  predicate EndsOnBytes(pieces: seq<Bytes>) {
    pieces != [] ==> pieces[|pieces| - 1] != []
  }

  /** One read with room for `cap` bytes: the bytes delivered, the error beside them, what remains. */
  function ReadOnce(src: Source, cap: nat): (r: (Bytes, ReadError, Source))
    requires cap > 0
    ensures |r.0| <= cap
    ensures Flatten(src.pieces) == r.0 + Flatten(r.2.pieces)
    ensures r.2.ending == src.ending
    ensures r.1 != NoError ==> r.2.pieces == []
    ensures r.1 == NoError ==> |r.0| > 0 || |r.2.pieces| < |src.pieces|
    ensures |r.2.pieces| <= |src.pieces|
    ensures |r.0| > 0 ==> (r.1 == Eof <==> r.2.pieces == [] && src.ending == EofWithLast) && r.1 != Failure
    ensures r.1 == NoError ==> !(r.2.pieces == [] && src.ending == EofWithLast)
    ensures src.pieces != [] && (r.2.pieces != [] || |r.0| > 0) ==> EndsOnBytes(r.2.pieces) == EndsOnBytes(src.pieces)
  {
    if src.pieces == [] then
      ([], if src.ending == Broken then Failure else Eof, src)
    else
      var p := src.pieces[0];
      if |p| <= cap then
        var rest := src.(pieces := src.pieces[1..]);
        (p, if rest.pieces == [] && src.ending == EofWithLast then Eof else NoError, rest)
      else
        var rest := src.(pieces := [p[cap..]] + src.pieces[1..]);
        assert rest.pieces[1..] == src.pieces[1..];
        (p[..cap], NoError, rest)
  }

  lemma {:induction false} NoBytesLeft(pieces: seq<Bytes>)
    requires EndsOnBytes(pieces)
    ensures Flatten(pieces) == [] <==> pieces == []
  {
    if |pieces| == 1 {
      assert Flatten(pieces) == pieces[0];
    } else if |pieces| > 1 {
      assert pieces[1..][|pieces| - 2] == pieces[|pieces| - 1];
      NoBytesLeft(pieces[1..]);
    }
  }

  // ---------------------------------------------------------------- the stream object

  class BlobStream {
    const hasher: Hasher
    const wantDigest: string
    var source: Source
    var state: int
    var read: nat
    var mismatch: bool
    ghost var seen: Bytes  // every byte read so far
    ghost var eof: bool    // whether end-of-file was ever reported

    ghost predicate Valid()
      reads this
    {
      && state == Absorb(hasher, hasher.init, seen)
      && read == |seen|
      && (mismatch <==> eof && Sum(hasher, seen) != wantDigest)
      && (eof ==> source.pieces == [] && source.ending != Broken)
    }

    constructor (hasher: Hasher, wantDigest: string, source: Source)
      ensures Valid() && this.hasher == hasher && this.wantDigest == wantDigest && this.source == source
      ensures seen == [] && !eof
    {
      this.hasher, this.wantDigest, this.source := hasher, wantDigest, source;
      state, read, mismatch := hasher.init, 0, false;
      seen, eof := [], false;
    }

    /** Reads into p[lo..hi]; hashes what arrived and compares the digest when end-of-file is reported. */
    method Read(p: array<byte>, lo: nat, hi: nat) returns (n: nat, err: ReadError)
      requires Valid() && lo < hi <= p.Length
      modifies this, p
      ensures Valid() && lo + n <= hi
      ensures (p[lo..lo + n], err, source) == ReadOnce(old(source), hi - lo)
      ensures p[..lo] == old(p[..lo])
      ensures seen == old(seen) + p[lo..lo + n]
      ensures eof == (old(eof) || err == Eof)
    {
      var (data, e, rest) := ReadOnce(source, hi - lo);
      n, err := |data|, e;
      source := rest;
      forall k | 0 <= k < n {
        p[lo + k] := data[k];
      }
      assert p[lo..lo + n] == data;
      assert p[..lo] == old(p[..lo]);
      AbsorbAppend(hasher, hasher.init, seen, data);
      if n > 0 {
        state := Absorb(hasher, state, data);
        read := read + n;
      }
      seen := seen + data;
      if err == Eof {
        eof := true;
        var got := "sha256:" + hasher.render(state);
        if got != wantDigest {
          mismatch := true;
        }
      }
    }

    /** Non-nil exactly when end-of-file was reported and the hash of all bytes read is not the wanted digest. */
    method Err() returns (failed: bool)
      requires Valid()
      ensures failed <==> eof && Sum(hasher, seen) != wantDigest
    {
      failed := mismatch;
    }
  }

  lemma Drained()
    ensures Flatten([]) == []
  {
  }

  /**
   * Fills p[..n] by repeated reads. The outcome does not depend on how the source is cut into pieces, except for
   * one thing: end-of-file is seen only if the last byte wanted is the last byte there is and carries it.
   */
  method ReadFull(stream: BlobStream, p: array<byte>, n: nat) returns (ok: bool)
    requires stream.Valid() && 0 < n <= p.Length
    modifies stream, p
    ensures stream.Valid() && stream.source.ending == old(stream.source.ending)
    ensures var data := Flatten(old(stream.source.pieces));
            && (ok <==> |data| >= n)
            && (ok ==> p[..n] == data[..n] && stream.seen == old(stream.seen) + data[..n])
            && (ok ==> Flatten(stream.source.pieces) == data[n..])
    ensures ok ==> EndsOnBytes(stream.source.pieces) == old(EndsOnBytes(stream.source.pieces))
    ensures ok ==> (stream.eof <==> stream.source.pieces == [] && stream.source.ending == EofWithLast)
  {
    hide Absorb, Sum, ReadOnce, EndsOnBytes, Flatten;
    ghost var data := Flatten(stream.source.pieces);
    Drained();
    var got: nat, err := 0, NoError;
    while got < n && err == NoError
      invariant stream.Valid() && got <= n && stream.source.ending == old(stream.source.ending)
      invariant stream.seen == old(stream.seen) + p[..got]
      invariant data == p[..got] + Flatten(stream.source.pieces)
      invariant err != NoError ==> stream.source.pieces == []
      invariant got > 0 && err == NoError ==>
                  !stream.eof && !(stream.source.pieces == [] && stream.source.ending == EofWithLast)
      invariant got == n && err != NoError ==>
                  stream.eof && stream.source.pieces == [] && stream.source.ending == EofWithLast
      invariant |data| >= n ==> EndsOnBytes(stream.source.pieces) == old(EndsOnBytes(stream.source.pieces))
      decreases n - got + |Flatten(stream.source.pieces)| + |stream.source.pieces|, if err == NoError then 1 else 0
    {
      var k;
      k, err := stream.Read(p, got, n);
      assert p[..got + k] == p[..got] + p[got..got + k];
      got := got + k;
    }
    ok := got >= n;
  }
}
