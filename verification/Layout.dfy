/**
 Where the manifests of a lake lie (src/robot_dh/etl/runner.py, lines 85-89 and 383-388;
 src/robot_dh/lake/manifest.py, lines 134-141): the URI a phase writes its manifest to and
 the URI the scan looks at are built differently, and lead to the same place.
 */
module Layout {
  import opened Wrappers
  import opened LakeUri
  import opened LocalPath

  datatype Dataset = Dataset(id: string, version: string)

  datatype Layer = Ods | Dwd

  const MANIFEST := "_manifest.json"

  /** What a URI leads to: an object of a bucket, a path on disk, or nothing. */
  datatype Place = Object(bucket: string, key: string) | Disk(path: Path) | Nowhere

  function PlaceOf(uri: string): Place {
    match ParseUri(uri)
    case Err => Nowhere
    case Ok(S3(bucket, key)) => Object(bucket, key)
    case Ok(Local(path)) => Disk(PathOf(path))
  }

  function LayerName(l: Layer): string { if l.Ods? then "ods" else "dwd" }

  function LayerParts(l: Layer, d: Dataset): seq<Option<string>> {
    [Some(LayerName(l)), Some(d.id), Some(d.version)]
  }

  function Joined(base: string, parts: seq<Option<string>>): string {
    match JoinUri(base, parts) case Ok(uri) => uri case Err => ""
  }

  /** _resolve_lake_layout: the layer's own URI. */
  function LayerUri(lake: string, l: Layer, d: Dataset): string { Joined(lake, LayerParts(l, d)) }

  /** write_manifest: the manifest under a layer URI. */
  function ManifestUnder(layerUri: string): string { Joined(layerUri, [Some(MANIFEST)]) }

  /** _existing_layers: where the scan looks for it. */
  function ManifestProbe(lake: string, l: Layer, d: Dataset): string {
    Joined(lake, LayerParts(l, d) + [Some(MANIFEST)])
  }

  predicate LooksLikeUri(text: string) { "s3://" <= text || "file://" <= text }

  /** A lake root whose path can be parsed again: any s3 root, and any local one that is
      not itself spelled like a URI (such as `file://s3://bucket`). */
  predicate Rooted(lake: string) {
    match ParseUri(lake)
    case Err => false
    case Ok(S3(_, _)) => true
    case Ok(Local(path)) => !LooksLikeUri(path)
  }

  /** On the text: which roots these are. */
  lemma RootedMeans(bucket: string, key: string, path: string)
    requires '/' !in bucket
    ensures Rooted("s3://" + bucket + "/" + key) <==> bucket != ""
    ensures Rooted("file://" + path) <==> path != "" && !("s3://" <= path) && !("file://" <= path)
    ensures path != "" && !("s3://" <= path) && !("file://" <= path) ==> Rooted(path)
  {
    ParseMeans(bucket, key, path);
  }

  // ---------- gluing local texts ----------

  predicate Solid(text: string) { text != "" && text[|text| - 1] != '/' }

  lemma GluedIsNoUri(base: string, more: string)
    requires Solid(base) && !LooksLikeUri(base) && more != "" && more[0] != '/'
    ensures !LooksLikeUri(base + "/" + more)
  {
    var text := base + "/" + more;
    assert text[|base|] == '/' && text[|base| + 1] == more[0] && text[..|base|] == base;
  }

  lemma {:induction false} RStripStops(base: string, rest: string)
    requires Solid(base)
    ensures base <= RStrip(base + rest, IsSlash) && Solid(RStrip(base + rest, IsSlash))
  {
    var s := base + rest;
    if rest != "" && s[|s| - 1] == '/' {
      assert s[..|s| - 1] == base + rest[..|rest| - 1];
      RStripStops(base, rest[..|rest| - 1]);
    } else if rest == "" {
      assert s == base;
    }
  }

  lemma {:induction false} JoinSnoc(xs: seq<string>, m: string)
    requires xs != []
    ensures Join(xs + [m]) == Join(xs) + "/" + m
  {
    if |xs| == 1 {
      assert (xs + [m])[1..] == [m];
    } else {
      JoinSnoc(xs[1..], m);
      assert (xs + [m])[1..] == xs[1..] + [m];
      Assoc(xs[0] + "/", Join(xs[1..]), "/" + m);
      assert xs[0] + "/" + Join(xs[1..]) + ("/" + m) == Join(xs) + "/" + m;
    }
  }

  lemma {:induction false} CleanSnoc(parts: seq<Option<string>>, m: string)
    requires CleanPart(Some(m)) == [m]
    ensures CleanParts(parts + [Some(m)]) == CleanParts(parts) + [m]
  {
    if parts == [] {
      assert parts + [Some(m)] == [Some(m)] && [Some(m)][1..] == [];
    } else {
      assert (parts + [Some(m)])[1..] == parts[1..] + [Some(m)];
      CleanSnoc(parts[1..], m);
      Assoc(CleanPart(parts[0]), CleanParts(parts[1..]), [m]);
    }
  }

  /** The text of a layer below the root. */
  function LayerText(l: Layer, d: Dataset): string { Join(CleanParts(LayerParts(l, d))) }

  /** A text that starts with a layer's name. */
  predicate Tame(text: string) { text != "" && text[0] in "od" }

  lemma LayerNameIsClean(l: Layer)
    ensures CleanPart(Some(LayerName(l))) == [LayerName(l)] && Tame(LayerName(l))
  {
    if l.Ods? { assert CleanPart(Some("ods")) == ["ods"]; } else { assert CleanPart(Some("dwd")) == ["dwd"]; }
  }

  lemma JoinStarts(xs: seq<string>)
    requires xs != [] && xs[0] != ""
    ensures Join(xs) != "" && Join(xs)[0] == xs[0][0]
  {}

  lemma LayerTextStarts(l: Layer, d: Dataset)
    ensures CleanParts(LayerParts(l, d)) != [] && Tame(LayerText(l, d))
  {
    var parts, name := LayerParts(l, d), LayerName(l);
    LayerNameIsClean(l);
    assert CleanParts(parts) == [name] + CleanParts(parts[1..]);
    JoinStarts(CleanParts(parts));
  }

  /** Such a text is neither a URI nor absolute. */
  lemma TameIsRelative(text: string)
    requires Tame(text)
    ensures !LooksLikeUri(text) && Root(text) == 0 && PlaceOf(text) == Disk(Path(0, Names(text)))
  {
    assert "s3://"[0] == 's' && "file://"[0] == 'f';
  }

  lemma ManifestIsClean()
    ensures CleanPart(Some(MANIFEST)) == [MANIFEST] && CleanParts([Some(MANIFEST)]) == [MANIFEST]
    ensures Join([MANIFEST]) == MANIFEST
  {
    assert CleanPart(Some(MANIFEST)) == [MANIFEST];
    assert [Some(MANIFEST)][1..] == [];
    assert CleanParts([Some(MANIFEST)]) == CleanPart(Some(MANIFEST)) + CleanParts([]);
  }

  // ---------- local lakes ----------

  /** A solid text with something glued to it leads to the glued names, under its root. */
  lemma GluedPlace(base: string, more: string)
    requires Solid(base) && !LooksLikeUri(base) && more != "" && more[0] != '/'
    ensures PlaceOf(base + "/" + more) == Disk(Path(Root(base), Names(base) + Names(more)))
  {
    GluedIsNoUri(base, more);
    RootExtend(base, "/" + more);
    assert base + "/" + more == base + ("/" + more);
    NamesConcat(base, more);
  }

  /** A layer directory's manifest, by way of its stripped text. */
  lemma ManifestPlace(layer: string, solid: string)
    requires solid == RStrip(layer, IsSlash) && Solid(solid) && layer != "" && !LooksLikeUri(layer)
    ensures PlaceOf(ManifestUnder(layer)) == Disk(Path(Root(solid), Names(layer) + Names(MANIFEST)))
  {
    RStripKeepsSegments(layer);
    ManifestIsClean();
    assert ManifestUnder(layer) == solid + "/" + MANIFEST;
    GluedPlace(solid, MANIFEST);
  }

  /** Under a root path that strips to nothing, layers are relative. */
  lemma RelativeProbe(text: string)
    requires Tame(text)
    ensures PlaceOf(ManifestUnder(text)) == PlaceOf(text + "/" + MANIFEST)
  {
    var solid := RStrip(text, IsSlash);
    assert text == text[..1] + text[1..];
    RStripStops(text[..1], text[1..]);
    assert solid[0] == text[0];
    TameIsRelative(text);
    TameIsRelative(solid);
    ManifestPlace(text, solid);
    TameIsRelative(text + "/" + MANIFEST);
    NamesConcat(text, MANIFEST);
  }

  /** Under any other root path they lie below it. */
  lemma BasedProbe(base: string, text: string)
    requires Solid(base) && !LooksLikeUri(base) && Tame(text)
    ensures PlaceOf(ManifestUnder(base + "/" + text)) == PlaceOf(base + "/" + (text + "/" + MANIFEST))
  {
    var layer, rest := base + "/" + text, "/" + text;
    var solid := RStrip(layer, IsSlash);
    GluedIsNoUri(base, text);
    assert layer == base + rest;
    RStripStops(base, rest);
    assert solid == base + solid[|base|..];
    RootExtend(base, solid[|base|..]);
    ManifestPlace(layer, solid);
    NamesConcat(base, text);
    GluedPlace(base, text + "/" + MANIFEST);
    NamesConcat(text, MANIFEST);
    Assoc(Names(base), Names(text), Names(MANIFEST));
  }

  lemma LocalProbe(path: string, text: string)
    requires !LooksLikeUri(path) && Tame(text)
    ensures PlaceOf(ManifestUnder(JoinLocal(path, text))) == PlaceOf(JoinLocal(path, text + "/" + MANIFEST)) != Nowhere
  {
    var base := RStrip(path, IsSlash);
    RStripKeepsSegments(path);
    if base == "" {
      RelativeProbe(text);
      TameIsRelative(text + "/" + MANIFEST);
    } else {
      BasedProbe(base, text);
      GluedPlace(base, text + "/" + MANIFEST);
    }
  }

  lemma LocalJoin(lake: string, path: string, parts: seq<Option<string>>)
    requires ParseUri(lake) == Ok(Local(path))
    ensures Joined(lake, parts) == JoinLocal(path, Join(CleanParts(parts)))
  {}

  // ---------- the result ----------

  /** For every s3 lake and every local one, the scan looks exactly where the phases
      write, whatever the dataset and its version are called. */
  lemma ProbeIsWritten(lake: string, l: Layer, d: Dataset)
    requires Rooted(lake)
    ensures PlaceOf(ManifestUnder(LayerUri(lake, l, d))) == PlaceOf(ManifestProbe(lake, l, d))
    ensures PlaceOf(ManifestProbe(lake, l, d)) != Nowhere
  {
    match ParseUri(lake).value
    case S3(bucket, key) =>
      JoinAssociative(lake, LayerParts(l, d), [Some(MANIFEST)]);
      JoinExtendsBase(lake, LayerParts(l, d), bucket, key);
      JoinExtendsBase(lake, LayerParts(l, d) + [Some(MANIFEST)], bucket, key);
    case Local(path) =>
      var parts := LayerParts(l, d);
      LocalJoin(lake, path, parts);
      LocalJoin(lake, path, parts + [Some(MANIFEST)]);
      LayerTextStarts(l, d);
      ManifestIsClean();
      CleanSnoc(parts, MANIFEST);
      JoinSnoc(CleanParts(parts), MANIFEST);
      LocalProbe(path, LayerText(l, d));
  }

  /** The names a probe ends in: the layer's, the dataset's identifier and version, segment
      by segment, and the manifest's. */
  function ProbeNames(name: string, d: Dataset): seq<string> {
    [name] + (Segments(Strip(d.id, IsSpace)) + Segments(Strip(d.version, IsSpace))) + ["_manifest.json"]
  }

  predicate PlainName(name: string) {
    name != "" && '/' !in name && !IsSpace(name[0]) && !IsSpace(name[|name| - 1])
  }

  lemma PlainNames(l: Layer)
    ensures PlainName(LayerName(l)) && PlainName(MANIFEST)
  {}

  lemma LayerNames(l: Layer, d: Dataset)
    ensures PartSegments(LayerParts(l, d) + [Some(MANIFEST)]) == ProbeNames(LayerName(l), d)
  {
    PlainNames(l);
    var name := LayerName(l);
    PlainSegments(name);
    PlainSegments(MANIFEST);
    FourSegments(Some(name), Some(d.id), Some(d.version), Some(MANIFEST));
    assert LayerParts(l, d) + [Some(MANIFEST)] == [Some(name), Some(d.id), Some(d.version), Some(MANIFEST)];
  }

  lemma FourSegments(a: Option<string>, b: Option<string>, c: Option<string>, d: Option<string>)
    ensures PartSegments([a, b, c, d]) == PartSegment(a) + (PartSegment(b) + PartSegment(c)) + PartSegment(d)
  {
    OneSegment(a);
    OneSegment(b);
    OneSegment(c);
    OneSegment(d);
    PartSegmentsConcat([b], [c]);
    PartSegmentsConcat([a], [b] + [c]);
    PartSegmentsConcat([a] + ([b] + [c]), [d]);
    assert [a, b, c, d] == [a] + ([b] + [c]) + [d];
  }

  lemma OneSegment(part: Option<string>)
    ensures PartSegments([part]) == PartSegment(part)
  {
    assert [part][1..] == [];
  }

  lemma PlainSegments(name: string)
    requires PlainName(name)
    ensures Segments(name) == [name] && PartSegment(Some(name)) == [name]
  {
    SplitSlashFree(name);
    assert [name][1..] == [];
    assert NonEmpty([name]) == [name] + NonEmpty([]);
  }

  lemma ProbeText(l: Layer, d: Dataset)
    ensures var text := Join(CleanParts(LayerParts(l, d) + [Some(MANIFEST)]));
      Segments(text) == ProbeNames(LayerName(l), d) && text == LayerText(l, d) + "/" + MANIFEST && Tame(text)
  {
    var parts := LayerParts(l, d) + [Some(MANIFEST)];
    LayerNames(l, d);
    SegmentsOfJoinAny(CleanParts(parts));
    CleanPartsSegments(parts);
    LayerTextStarts(l, d);
    ManifestIsClean();
    CleanSnoc(LayerParts(l, d), MANIFEST);
    JoinSnoc(CleanParts(LayerParts(l, d)), MANIFEST);
  }

  lemma LocalProbeNames(lake: string, path: string, l: Layer, d: Dataset)
    requires Rooted(lake) && ParseUri(lake) == Ok(Local(path))
    ensures var place := PlaceOf(ManifestProbe(lake, l, d));
      place.Disk? && place.path.segs == Names(path) + DropDots(ProbeNames(LayerName(l), d))
  {
    var base, text := RStrip(path, IsSlash), Join(CleanParts(LayerParts(l, d) + [Some(MANIFEST)]));
    ProbeText(l, d);
    LocalJoin(lake, path, LayerParts(l, d) + [Some(MANIFEST)]);
    RStripKeepsSegments(path);
    if base == "" {
      TameIsRelative(text);
    } else {
      GluedPlace(base, text);
    }
  }

  /** Where the probe leads: under the root, the layer's own name, the dataset's identifier
      and version, and the manifest. */
  lemma ProbeMeans(lake: string, l: Layer, d: Dataset)
    requires Rooted(lake)
    ensures var place := PlaceOf(ManifestProbe(lake, l, d));
      var names := ProbeNames(if l.Ods? then "ods" else "dwd", d);
      match ParseUri(lake).value
      case S3(bucket, key) => place.Object? && place.bucket == bucket && Segments(place.key) == Segments(key) + names
      case Local(path) => place.Disk? && place.path.segs == Names(path) + DropDots(names)
  {
    match ParseUri(lake).value
    case S3(bucket, key) =>
      LayerNames(l, d);
      JoinExtendsBase(lake, LayerParts(l, d) + [Some(MANIFEST)], bucket, key);
    case Local(path) =>
      LocalProbeNames(lake, path, l, d);
  }

  /** The two layers of a dataset never share a manifest. */
  lemma LayersApart(lake: string, d: Dataset)
    requires Rooted(lake)
    ensures PlaceOf(ManifestProbe(lake, Ods, d)) != PlaceOf(ManifestProbe(lake, Dwd, d))
  {
    ProbeMeans(lake, Ods, d);
    ProbeMeans(lake, Dwd, d);
    NamesDiffer("ods", d);
    NamesDiffer("dwd", d);
    match ParseUri(lake).value
    case S3(_, key) => NextDiffers(Segments(key), ProbeNames("ods", d), ProbeNames("dwd", d));
    case Local(path) =>
      NextDiffers(Names(path), DropDots(ProbeNames("ods", d)), DropDots(ProbeNames("dwd", d)));
  }

  lemma NamesDiffer(name: string, d: Dataset)
    requires name != "."
    ensures ProbeNames(name, d)[0] == name
    ensures DropDots(ProbeNames(name, d)) != [] && DropDots(ProbeNames(name, d))[0] == name
  {}

  lemma NextDiffers(front: seq<string>, a: seq<string>, b: seq<string>)
    requires a != [] && b != [] && a[0] != b[0]
    ensures front + a != front + b
  {
    assert (front + a)[|front|] == a[0] && (front + b)[|front|] == b[0];
  }
}
