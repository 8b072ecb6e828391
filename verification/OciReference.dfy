/** Image references and firmware-layer choice of the OCI client (internal/oci/client.go). */
module OciReference {
  import opened Wrappers

  datatype Ref = Ref(registry: string, repo: string, tag: string)

  function FirstIndex(s: string, c: char): (i: nat)
    ensures i <= |s| && c !in s[..i]
    ensures i < |s| ==> s[i] == c
  {
    if s == [] || s[0] == c then 0 else 1 + FirstIndex(s[1..], c)
  }

  function LastIndex(s: string, c: char): (i: int)
    ensures -1 <= i < |s| && c !in s[i + 1..]
    ensures 0 <= i ==> s[i] == c
  {
    if s == [] then -1
    else if s[|s| - 1] == c then |s| - 1
    else LastIndex(s[..|s| - 1], c)
  }

  /** The registry ends at the first slash; the tag starts after the last colon of the rest. */
  function ParseRef(image: string): Result<Ref, string> {
    var slash := FirstIndex(image, '/');
    if slash == |image| then Err("invalid reference")
    else
      var rest := image[slash + 1..];
      var colon := LastIndex(rest, ':');
      if colon == -1 then Ok(Ref(image[..slash], rest, "latest"))
      else Ok(Ref(image[..slash], rest[..colon], rest[colon + 1..]))
  }

  function FormatRef(r: Ref): string {
    r.registry + "/" + r.repo + ":" + r.tag
  }

  lemma SplitFirst(left: string, c: char, right: string)
    requires c !in left
    ensures var s := left + [c] + right;
            FirstIndex(s, c) == |left| && s[..|left|] == left && s[|left| + 1..] == right
  {
    var s := left + [c] + right;
    var i := FirstIndex(s, c);
    assert s[|left|] == c;
    assert forall k | 0 <= k < i :: s[k] == s[..i][k];
    assert forall k | 0 <= k < |left| :: s[k] == left[k];
  }

  lemma SplitLast(left: string, c: char, right: string)
    requires c !in right
    ensures var s := left + [c] + right;
            LastIndex(s, c) == |left| && s[..|left|] == left && s[|left| + 1..] == right
  {
    var s := left + [c] + right;
    var i := LastIndex(s, c);
    assert s[|left|] == c;
    assert forall k | i < k < |s| :: s[k] == s[i + 1..][k - i - 1];
    assert forall k | |left| < k < |s| :: s[k] == right[k - |left| - 1];
  }

  lemma TaggedCut(registry: string, repo: string, tag: string, rest: string, image: string)
    requires rest == repo + [':'] + tag
    requires image == registry + ['/'] + rest
    ensures image == FormatRef(Ref(registry, repo, tag))
  {
    assert registry + ['/'] + (repo + [':'] + tag) == registry + "/" + repo + ":" + tag;
  }

  /** Parsing undoes formatting; the repository may itself hold slashes and colons. */
  lemma ParseUndoesFormat(r: Ref)
    requires '/' !in r.registry && ':' !in r.tag
    ensures ParseRef(FormatRef(r)) == Ok(r)
  {
    hide FirstIndex, LastIndex, FormatRef;
    var rest := r.repo + [':'] + r.tag;
    TaggedCut(r.registry, r.repo, r.tag, rest, r.registry + ['/'] + rest);
    SplitFirst(r.registry, '/', rest);
    SplitLast(r.repo, ':', r.tag);
  }

  lemma UntaggedMeansLatest(registry: string, repo: string)
    requires '/' !in registry && ':' !in repo
    ensures ParseRef(registry + "/" + repo) == Ok(Ref(registry, repo, "latest"))
  {
    assert registry + "/" + repo == registry + ['/'] + repo;
    SplitFirst(registry, '/', repo);
    var colon := LastIndex(repo, ':');
    assert colon == -1;
  }

  /** What ParseRef promises of its result: the image itself, cut at its first slash and last colon. */
  predicate CutsAt(image: string, r: Ref) {
    && '/' !in r.registry && ':' !in r.tag
    && (image == FormatRef(r) || (image == r.registry + "/" + r.repo && ':' !in r.repo && r.tag == "latest"))
  }

  lemma Rejoin(s: string, i: nat)
    requires i < |s|
    ensures s == s[..i] + [s[i]] + s[i + 1..]
  {
  }

  /** Only an image without a slash is rejected. */
  lemma RejectsExactly(image: string)
    ensures ParseRef(image).Err? <==> '/' !in image
  {
    var slash := FirstIndex(image, '/');
    if slash == |image| {
      assert image[..slash] == image;
    }
  }

  lemma TaggedIsExact(image: string, registry: string, rest: string, colon: nat)
    requires '/' !in registry && image == registry + ['/'] + rest
    requires colon < |rest| && rest[colon] == ':' && ':' !in rest[colon + 1..]
    ensures CutsAt(image, Ref(registry, rest[..colon], rest[colon + 1..]))
  {
    hide FormatRef;
    Rejoin(rest, colon);
    TaggedCut(registry, rest[..colon], rest[colon + 1..], rest, image);
  }

  lemma UntaggedIsExact(image: string, registry: string, rest: string)
    requires '/' !in registry && ':' !in rest && image == registry + ['/'] + rest
    ensures CutsAt(image, Ref(registry, rest, "latest"))
  {
    hide FormatRef;
    assert image == registry + "/" + rest;
  }

  /** Converse of the round trip: whatever parses is the image, cut at its first slash and last colon. */
  lemma ParseIsExact(image: string)
    requires ParseRef(image).Ok?
    ensures CutsAt(image, ParseRef(image).value)
  {
    hide FormatRef, FirstIndex, LastIndex, CutsAt;
    var slash := FirstIndex(image, '/');
    Rejoin(image, slash);
    var registry, rest := image[..slash], image[slash + 1..];
    var colon := LastIndex(rest, ':');
    if colon == -1 {
      assert rest[0..] == rest;
      UntaggedIsExact(image, registry, rest);
    } else {
      TaggedIsExact(image, registry, rest, colon);
    }
  }

  // ---------------------------------------------------------------- layer choice

  datatype Descriptor = Descriptor(mediaType: string, digest: string, size: int, annotations: map<string, string>)

  datatype Manifest = Manifest(layers: seq<Descriptor>, annotations: map<string, string>)

  datatype FirmwareMeta = FirmwareMeta(digest: string, size: int, chip: string, idfVersion: string)

  datatype ResolveError = NoLayer | SignatureMissing | SignatureInvalid

  const FIRMWARE_MEDIA_TYPE := "application/vnd.embewi.firmware.bin"
  const SIGNATURE_ANNOTATION := "embewi.io/signature"

  function Lookup(m: map<string, string>, k: string): string {
    if k in m then m[k] else ""
  }

  function Annotation(l: Descriptor, m: Manifest, k: string): string {
    if Lookup(l.annotations, k) != "" then Lookup(l.annotations, k) else Lookup(m.annotations, k)
  }

  function MetaFromLayer(l: Descriptor, m: Manifest): FirmwareMeta {
    FirmwareMeta(l.digest, l.size, Annotation(l, m, "embewi.io/chip"), Annotation(l, m, "embewi.io/idf-version"))
  }

  /** Layer i is the first typed layer, or the first layer when none is typed. */
  predicate Chosen(layers: seq<Descriptor>, i: nat) {
    && i < |layers|
    && (forall j | 0 <= j < i :: layers[j].mediaType != FIRMWARE_MEDIA_TYPE)
    && (layers[i].mediaType != FIRMWARE_MEDIA_TYPE ==>
          i == 0 && forall j | 0 <= j < |layers| :: layers[j].mediaType != FIRMWARE_MEDIA_TYPE)
  }

  /** With a trusted key, `verify(signature, digest)` stands for the Ed25519 check. */
  function SignatureVerdict(
      trusted: Option<(string, string) -> bool>, m: Manifest, digest: string): Option<ResolveError>
  {
    if trusted.None? then None
    else if SIGNATURE_ANNOTATION !in m.annotations then Some(SignatureMissing)
    else if trusted.value(m.annotations[SIGNATURE_ANNOTATION], digest) then None
    else Some(SignatureInvalid)
  }

  /** The value an annotation has on the layer or, failing that, on the manifest. */
  predicate Annotated(value: string, l: Descriptor, m: Manifest, k: string) {
    if k in l.annotations && l.annotations[k] != "" then value == l.annotations[k]
    else if k in m.annotations then value == m.annotations[k]
    else value == ""
  }

  /** The metadata are those of the layer. */
  predicate Described(meta: FirmwareMeta, l: Descriptor, m: Manifest) {
    && meta.digest == l.digest && meta.size == l.size
    && Annotated(meta.chip, l, m, "embewi.io/chip") && Annotated(meta.idfVersion, l, m, "embewi.io/idf-version")
  }

  /** The first layer of the firmware type or, if there is none of that type, the first of all. */
  predicate Typed(layers: seq<Descriptor>, i: nat) {
    && i < |layers|
    && (forall j | 0 <= j < i :: layers[j].mediaType != "application/vnd.embewi.firmware.bin")
    && (layers[i].mediaType == "application/vnd.embewi.firmware.bin"
        || (i == 0 && forall j | 0 <= j < |layers| :: layers[j].mediaType != "application/vnd.embewi.firmware.bin"))
  }

  lemma TypedIsUnique(layers: seq<Descriptor>, i: nat, j: nat)
    requires Typed(layers, i) && Typed(layers, j)
    ensures i == j
  {
  }

  method ResolveFirmware(m: Manifest, trusted: Option<(string, string) -> bool>)
    returns (r: Result<FirmwareMeta, ResolveError>)
    ensures r == Err(NoLayer) <==> m.layers == []
    ensures m.layers != [] ==>
              exists i: nat ::
                && Chosen(m.layers, i)
                && (match SignatureVerdict(trusted, m, m.layers[i].digest)
                    case None => r == Ok(MetaFromLayer(m.layers[i], m))
                    case Some(e) => r == Err(e))
    ensures forall i: nat :: Typed(m.layers, i) ==>
              var sig := "embewi.io/signature";
              && (r.Ok? <==> trusted.None?
                             || (sig in m.annotations && trusted.value(m.annotations[sig], m.layers[i].digest)))
              && (r == Err(SignatureMissing) <==> trusted.Some? && sig !in m.annotations)
              && (r.Ok? ==> Described(r.value, m.layers[i], m))
  {
    var meta: Option<FirmwareMeta> := None;
    ghost var chosen: nat := 0;
    for k := 0 to |m.layers|
      invariant meta == None
      invariant forall j | 0 <= j < k :: m.layers[j].mediaType != FIRMWARE_MEDIA_TYPE
    {
      if m.layers[k].mediaType == FIRMWARE_MEDIA_TYPE {
        meta := Some(MetaFromLayer(m.layers[k], m));
        chosen := k;
        break;
      }
    }
    if meta == None && |m.layers| > 0 {
      meta := Some(MetaFromLayer(m.layers[0], m));
    }
    if meta == None {
      return Err(NoLayer);
    }
    assert Chosen(m.layers, chosen) && Typed(m.layers, chosen);
    assert Described(meta.value, m.layers[chosen], m);
    forall i: nat | Typed(m.layers, i)
      ensures i == chosen
    {
      TypedIsUnique(m.layers, i, chosen);
    }
    var verdict := SignatureVerdict(trusted, m, meta.value.digest);
    match verdict {
      case Some(e) => return Err(e);
      case None => return Ok(meta.value);
    }
  }
}
