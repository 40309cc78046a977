/** What `populateManifest` asks of the manifest generator, in both
    manifest services, written as the list of calls it makes.

    The IIIF 2 service sets the identifier and the label, adds the logo, the
    related link and the search service when there are any, the item
    metadata, the viewing hint, a thumbnail when the item has an image, the
    ranges of the canvas loop, the sequence of canvases, the renderings and
    the seeAlso links. The IIIF 3 service sets the identifier, the label,
    the item metadata and the viewing hint, and nothing else. */
module Populate {
  import opened Wrappers
  import opened Content
  import opened ItemMetadata
  import Manifest
  import Links
  import RangeGenerator
  import Canvas

  /** One call on the manifest generator. */
  datatype ManifestCall =
    | SetIdentifierCall(id: string)
    | SetLabelCall(name: string)
    | AddLogoCall
    | AddRelatedCall
    | AddSearchServiceCall
    | AddMetadataCall(entry: MetadataCall)
    | AddDescriptionCall(text: string)
    | AddLicenseCall(uri: string)
    | AddViewingHintCall
    | AddThumbnailCall
    | AddRangeCall(range: RangeGenerator.Range)
    | AddSequenceCall(canvases: seq<Canvas.CanvasResource>)
    | AddRenderingCall(link: Link)
    | AddSeeAlsoCall(link: Link)

  /** The calls `addMetadata` makes: one per entry, in order, then the
      description and the license when they are not blank. */
  function MetadataCalls(m: ItemMeta): (cs: seq<ManifestCall>)
    ensures forall c :: c in cs ==> c.AddMetadataCall? || c.AddDescriptionCall? || c.AddLicenseCall?
    ensures forall e :: AddMetadataCall(e) in cs <==> e in m.entries
    ensures forall t :: AddDescriptionCall(t) in cs <==> m.description == Some(t)
    ensures forall u :: AddLicenseCall(u) in cs <==> m.license == Some(u)
  {
    var entries := seq(|m.entries|, k requires 0 <= k < |m.entries| => AddMetadataCall(m.entries[k]));
    assert forall e :: AddMetadataCall(e) in entries <==> e in m.entries by {
      forall e
        ensures AddMetadataCall(e) in entries <==> e in m.entries
      {
        if e in m.entries {
          var k :| 0 <= k < |m.entries| && m.entries[k] == e;
          assert entries[k] == AddMetadataCall(e);
        }
      }
    }
    entries
      + (match m.description case None => [] case Some(t) => [AddDescriptionCall(t)])
      + (match m.license case None => [] case Some(u) => [AddLicenseCall(u)])
  }

  /** The IIIF 3 `populateManifest`. */
  function PopulateV3(manifestId: string, name: string, fields: seq<string>, lookup: FieldSpec -> seq<MetaValue>,
                      description: Option<string>, licenseUri: Option<string>): (res: Result<seq<ManifestCall>>)
    ensures res.Ok? <==> FieldEntries(fields, lookup).Ok?
    ensures res.Ok? ==> |res.value| >= 3 && res.value[0] == SetIdentifierCall(manifestId) && res.value[|res.value| - 1] == AddViewingHintCall
    ensures res.Ok? ==> forall c :: c in res.value ==> Phase(c) == 0
  {
    var meta :- AddItemMetadata(fields, lookup, description, licenseUri);
    Ok([SetIdentifierCall(manifestId), SetLabelCall(name)] + MetadataCalls(meta) + [AddViewingHintCall])
  }

  /** The IIIF 3 service fails exactly when reading a field's metadata does.
      Otherwise it sets the identifier and the label first and the viewing
      hint last, in between adds exactly the fields' entries (plus the
      description and license), and never adds a canvas, a range, a
      rendering or a seeAlso link. */
  lemma PopulateV3Calls(manifestId: string, name: string, fields: seq<string>, lookup: FieldSpec -> seq<MetaValue>,
                        description: Option<string>, licenseUri: Option<string>)
    ensures PopulateV3(manifestId, name, fields, lookup, description, licenseUri).Ok? <==> FieldEntries(fields, lookup).Ok?
    ensures PopulateV3(manifestId, name, fields, lookup, description, licenseUri).Ok? ==>
      var cs := PopulateV3(manifestId, name, fields, lookup, description, licenseUri).value;
      && |cs| >= 3
      && cs[0] == SetIdentifierCall(manifestId) && cs[1] == SetLabelCall(name) && cs[|cs| - 1] == AddViewingHintCall
      && (forall c :: c in cs ==>
            || c.SetIdentifierCall? || c.SetLabelCall? || c.AddMetadataCall?
            || c.AddDescriptionCall? || c.AddLicenseCall? || c.AddViewingHintCall?)
      && (forall e :: AddMetadataCall(e) in cs <==> e in FieldEntries(fields, lookup).value)
  {
  }

  /** What the IIIF 2 service finds around the item: a configured logo, a
      searchable item, an image for the thumbnail. */
  datatype Env = Env(hasLogo: bool, searchable: bool, hasImage: bool)

  function RangeCalls(rs: seq<RangeGenerator.Range>): (cs: seq<ManifestCall>)
    ensures |cs| == |rs| && forall k :: 0 <= k < |rs| ==> cs[k] == AddRangeCall(rs[k])
  {
    seq(|rs|, k requires 0 <= k < |rs| => AddRangeCall(rs[k]))
  }

  function RenderingCalls(ls: seq<Link>): (cs: seq<ManifestCall>)
    ensures |cs| == |ls| && forall k :: 0 <= k < |ls| ==> cs[k] == AddRenderingCall(ls[k])
  {
    seq(|ls|, k requires 0 <= k < |ls| => AddRenderingCall(ls[k]))
  }

  function SeeAlsoCalls(ls: seq<Link>): (cs: seq<ManifestCall>)
    ensures |cs| == |ls| && forall k :: 0 <= k < |ls| ==> cs[k] == AddSeeAlsoCall(ls[k])
  {
    seq(|ls|, k requires 0 <= k < |ls| => AddSeeAlsoCall(ls[k]))
  }

  /** The stage of `populateManifest` a call belongs to: everything before
      the canvas loop, the ranges, the sequence, the renderings, the seeAlso
      links. */
  function Phase(c: ManifestCall): nat {
    match c
    case AddRangeCall(_) => 1
    case AddSequenceCall(_) => 2
    case AddRenderingCall(_) => 3
    case AddSeeAlsoCall(_) => 4
    case _ => 0
  }

  /** The calls come stage by stage. */
  predicate InPhaseOrder(cs: seq<ManifestCall>) {
    forall i, j :: 0 <= i < j < |cs| ==> Phase(cs[i]) <= Phase(cs[j])
  }

  predicate AllInPhase(cs: seq<ManifestCall>, p: nat) {
    forall c :: c in cs ==> Phase(c) == p
  }

  /** Two runs in stage order, the first run's stages not after the second's,
      give a run in stage order. */
  lemma PhaseOrderAppend(a: seq<ManifestCall>, b: seq<ManifestCall>, p: nat)
    requires InPhaseOrder(a) && AllInPhase(b, p)
    requires forall c :: c in a ==> Phase(c) <= p
    ensures InPhaseOrder(a + b)
    ensures forall c :: c in a + b ==> Phase(c) <= p
  {
    var ab := a + b;
    forall i, j | 0 <= i < j < |ab|
      ensures Phase(ab[i]) <= Phase(ab[j])
    {
      if j < |a| {
        assert ab[i] == a[i] && ab[j] == a[j];
      } else {
        assert ab[j] == b[j - |a|] && ab[j] in b;
        assert ab[i] in ab;
      }
    }
  }

  /** The calls made before the canvas loop, after setting the identifier. */
  function HeadRest(name: string, env: Env, meta: ItemMeta): (cs: seq<ManifestCall>)
    ensures forall c :: c in cs ==> Phase(c) == 0 && !c.SetIdentifierCall?
  {
    [SetLabelCall(name)]
      + (if env.hasLogo then [AddLogoCall] else [])
      + [AddRelatedCall]
      + (if env.searchable then [AddSearchServiceCall] else [])
      + MetadataCalls(meta)
      + [AddViewingHintCall]
      + (if env.hasImage then [AddThumbnailCall] else [])
  }

  /** The inputs of the IIIF 2 `populateManifest`: the item's name, its
      metadata, its bundles as the canvas loop and the rendering see them,
      its page URL and its seeAlso links. */
  datatype ItemView = ItemView(
    name: string,
    lookup: FieldSpec -> seq<MetaValue>,
    description: Option<string>,
    licenseUri: Option<string>,
    item: Item,
    pages: seq<Manifest.PageBundle>,
    iiifBundles: seq<Bundle>,
    frontendUrl: string,
    seeAlsos: seq<Link>)

  /** The IIIF 2 `populateManifest`. */
  function PopulateV2(cfg: Manifest.Config, ctx: Manifest.Collab, e: Endpoints, env: Env, manifestId: string, v: ItemView,
                      iiifLabel: (Bitstream, string) -> string): (res: Result<seq<ManifestCall>>)
    requires |ctx.sep| > 0
    ensures res.Ok? <==>
      FieldEntries(cfg.metadataFields, v.lookup).Ok? && Manifest.AddCanvasAndRange(cfg, ctx, manifestId, v.pages).Ok?
    ensures res.Ok? ==> |res.value| > 0 && res.value[0] == SetIdentifierCall(manifestId)
    ensures res.Ok? ==>
      AddSequenceCall(Manifest.AddCanvasAndRange(cfg, ctx, manifestId, v.pages).value.0.items.generator.canvases) in res.value
    ensures res.Ok? ==> |res.value| >= |v.seeAlsos| && res.value[|res.value| - |v.seeAlsos|..] == SeeAlsoCalls(v.seeAlsos)
  {
    var meta :- AddItemMetadata(cfg.metadataFields, v.lookup, v.description, v.licenseUri);
    var built :- Manifest.AddCanvasAndRange(cfg, ctx, manifestId, v.pages);
    var cs := Assemble(manifestId, HeadRest(v.name, env, meta), built.1, built.0.items.generator.canvases,
                Manifest.AddRendering(cfg, e, v.item, v.iiifBundles, v.frontendUrl, iiifLabel), v.seeAlsos);
    var front := [SetIdentifierCall(manifestId)] + HeadRest(v.name, env, meta) + RangeCalls(built.1);
    assert cs[|front|] == AddSequenceCall(built.0.items.generator.canvases);
    Ok(cs)
  }

  /** With the links `getSeeAlsos` gives for the item, the IIIF 2 manifest
      ends with one seeAlso call for the item's fallback link when no
      seeAlso bundle is configured, and otherwise with one call per
      bitstream of the bundles bearing that name, in order. */
  lemma PopulateV2SeeAlsos(cfg: Manifest.Config, ctx: Manifest.Collab, e: Endpoints, env: Env, manifestId: string, v: ItemView,
                           iiifLabel: (Bitstream, string) -> string, bundleName: Option<string>)
    requires |ctx.sep| > 0
    requires v.seeAlsos == Links.GetSeeAlsos(Links.V2, bundleName, e, v.item, iiifLabel)
    ensures var res := PopulateV2(cfg, ctx, e, env, manifestId, v, iiifLabel);
      res.Ok? ==>
        var links := if bundleName.None? then [Links.FallbackLink(Links.V2, e, v.item)]
          else Links.BitstreamLinks(e, NamedBitstreams(v.item.bundles, bundleName), iiifLabel);
        |res.value| >= |links| && res.value[|res.value| - |links|..] == SeeAlsoCalls(links)
  {
  }

  /** The order of the IIIF 2 calls: the identifier is set first and only
      once, and the calls come stage by stage; the item's own properties and
      metadata, the given ranges (in their order), the one sequence call at
      index `s`, the given renderings (in their order), then the seeAlso
      links. */
  predicate CallsInOrder(cs: seq<ManifestCall>, manifestId: string, ranges: seq<RangeGenerator.Range>,
                         canvases: seq<Canvas.CanvasResource>, rendered: seq<Link>, s: nat) {
    && |cs| > 0 && cs[0] == SetIdentifierCall(manifestId)
    && (forall c :: c in cs[1..] ==> !c.SetIdentifierCall?)
    && InPhaseOrder(cs)
    && s < |cs| && cs[s] == AddSequenceCall(canvases)
    && (forall c :: c in cs[..s] + cs[s + 1..] ==> !c.AddSequenceCall?)
    && s >= |ranges| && cs[s - |ranges|..s] == RangeCalls(ranges)
    && s + 1 + |rendered| <= |cs| && cs[s + 1..s + 1 + |rendered|] == RenderingCalls(rendered)
  }

  /** The IIIF 2 service fails exactly when the metadata or a canvas fails.
      Otherwise its calls are in order, with the ranges the canvas loop emits,
      the canvases it built, and the renderings `addRendering` selects. */
  lemma PopulateV2Order(cfg: Manifest.Config, ctx: Manifest.Collab, e: Endpoints, env: Env, manifestId: string, v: ItemView,
                        iiifLabel: (Bitstream, string) -> string) returns (s: nat)
    requires |ctx.sep| > 0
    ensures PopulateV2(cfg, ctx, e, env, manifestId, v, iiifLabel).Ok? <==>
      FieldEntries(cfg.metadataFields, v.lookup).Ok? && Manifest.AddCanvasAndRange(cfg, ctx, manifestId, v.pages).Ok?
    ensures PopulateV2(cfg, ctx, e, env, manifestId, v, iiifLabel).Ok? ==>
      CallsInOrder(PopulateV2(cfg, ctx, e, env, manifestId, v, iiifLabel).value, manifestId,
        Manifest.AddCanvasAndRange(cfg, ctx, manifestId, v.pages).value.1,
        Manifest.AddCanvasAndRange(cfg, ctx, manifestId, v.pages).value.0.items.generator.canvases,
        Manifest.AddRendering(cfg, e, v.item, v.iiifBundles, v.frontendUrl, iiifLabel), s)
  {
    var meta := AddItemMetadata(cfg.metadataFields, v.lookup, v.description, v.licenseUri);
    var built := Manifest.AddCanvasAndRange(cfg, ctx, manifestId, v.pages);
    s := 0;
    if meta.Ok? && built.Ok? {
      var rendered := Manifest.AddRendering(cfg, e, v.item, v.iiifBundles, v.frontendUrl, iiifLabel);
      s := Assembly(manifestId, HeadRest(v.name, env, meta.value), built.value.1, built.value.0.items.generator.canvases, rendered, v.seeAlsos);
    }
  }

  /** The calls of the IIIF 2 service put together. */
  function Assemble(manifestId: string, rest: seq<ManifestCall>, ranges: seq<RangeGenerator.Range>,
                    canvases: seq<Canvas.CanvasResource>, rendered: seq<Link>, seeAlsos: seq<Link>): seq<ManifestCall> {
    [SetIdentifierCall(manifestId)] + rest + RangeCalls(ranges) + [AddSequenceCall(canvases)] + RenderingCalls(rendered) + SeeAlsoCalls(seeAlsos)
  }

  /** Whatever the ranges, canvases, renderings and links, the assembled
      calls are in order once the calls before the loop are all of the
      first stage. */
  lemma Assembly(manifestId: string, rest: seq<ManifestCall>, ranges: seq<RangeGenerator.Range>,
                 canvases: seq<Canvas.CanvasResource>, rendered: seq<Link>, seeAlsos: seq<Link>) returns (s: nat)
    requires forall c :: c in rest ==> Phase(c) == 0 && !c.SetIdentifierCall?
    ensures CallsInOrder(Assemble(manifestId, rest, ranges, canvases, rendered, seeAlsos), manifestId, ranges, canvases, rendered, s)
  {
    var hs := [SetIdentifierCall(manifestId)] + rest;
    var rs := RangeCalls(ranges);
    var x := AddSequenceCall(canvases);
    var rd := RenderingCalls(rendered);
    var tail := SeeAlsoCalls(seeAlsos);
    var cs := Assemble(manifestId, rest, ranges, canvases, rendered, seeAlsos);
    assert cs == hs + rs + [x] + rd + tail;
    s := |hs| + |rs|;
    assert AllInPhase(rs, 1) by { RangeCallsPhase(ranges); }
    assert AllInPhase(rd, 3) by { RenderingCallsPhase(rendered); }
    assert AllInPhase(tail, 4) by { SeeAlsoCallsPhase(seeAlsos); }
    assert InPhaseOrder(cs) by { AssemblyOrder(hs, rs, [x], rd, tail); }
    assert forall c :: c in cs[1..] ==> !c.SetIdentifierCall? by {
      assert cs[1..] == rest + (rs + [x] + rd + tail);
      NoIdentifierAfter(rest, rs + [x] + rd + tail);
    }
    assert forall c :: c in cs[..s] + cs[s + 1..] ==> !c.AddSequenceCall? by {
      Slices(hs, rs, x, rd, tail);
      NoSequenceBesides(hs, rs, rd, tail);
    }
    Slices(hs, rs, x, rd, tail);
  }

  lemma RangeCallsPhase(ranges: seq<RangeGenerator.Range>)
    ensures AllInPhase(RangeCalls(ranges), 1)
  {
    var cs := RangeCalls(ranges);
    forall c | c in cs
      ensures Phase(c) == 1
    {
      var k :| 0 <= k < |cs| && cs[k] == c;
    }
  }

  lemma RenderingCallsPhase(ls: seq<Link>)
    ensures AllInPhase(RenderingCalls(ls), 3)
  {
    var cs := RenderingCalls(ls);
    forall c | c in cs
      ensures Phase(c) == 3
    {
      var k :| 0 <= k < |cs| && cs[k] == c;
    }
  }

  lemma SeeAlsoCallsPhase(ls: seq<Link>)
    ensures AllInPhase(SeeAlsoCalls(ls), 4)
  {
    var cs := SeeAlsoCalls(ls);
    forall c | c in cs
      ensures Phase(c) == 4
    {
      var k :| 0 <= k < |cs| && cs[k] == c;
    }
  }

  /** The calls after the identifier's do not set it again. */
  lemma NoIdentifierAfter(rest: seq<ManifestCall>, later: seq<ManifestCall>)
    requires forall c :: c in rest ==> !c.SetIdentifierCall?
    requires forall c :: c in later ==> Phase(c) > 0
    ensures forall c :: c in rest + later ==> !c.SetIdentifierCall?
  {
  }

  /** Only the stage-2 call adds a sequence. */
  lemma NoSequenceBesides(hs: seq<ManifestCall>, rs: seq<ManifestCall>, rd: seq<ManifestCall>, tail: seq<ManifestCall>)
    requires AllInPhase(hs, 0) && AllInPhase(rs, 1) && AllInPhase(rd, 3) && AllInPhase(tail, 4)
    ensures forall c :: c in hs + rs + rd + tail ==> !c.AddSequenceCall?
  {
    forall c | c in hs + rs + rd + tail
      ensures !c.AddSequenceCall?
    {
      assert c in hs || c in rs || c in rd || c in tail;
    }
  }

  /** Where the pieces of a five-part concatenation with a single middle
      element lie. */
  lemma Slices<T>(hs: seq<T>, rs: seq<T>, x: T, rd: seq<T>, tail: seq<T>)
    ensures var cs := hs + rs + [x] + rd + tail; var s := |hs| + |rs|;
      && cs[s] == x && cs[s - |rs|..s] == rs && cs[s + 1..s + 1 + |rd|] == rd
      && cs[..s] + cs[s + 1..] == hs + rs + rd + tail
  {
    var cs := hs + rs + [x] + rd + tail;
    var s := |hs| + |rs|;
    assert cs[..s] == hs + rs;
    assert cs[s + 1..] == rd + tail;
  }

  lemma AssemblyOrder(hs: seq<ManifestCall>, rs: seq<ManifestCall>, sq: seq<ManifestCall>, rd: seq<ManifestCall>, tail: seq<ManifestCall>)
    requires AllInPhase(hs, 0) && AllInPhase(rs, 1) && AllInPhase(sq, 2) && AllInPhase(rd, 3) && AllInPhase(tail, 4)
    ensures InPhaseOrder(hs + rs + sq + rd + tail)
  {
    PhaseOrderAppend([], hs, 0);
    assert [] + hs == hs;
    PhaseOrderAppend(hs, rs, 1);
    PhaseOrderAppend(hs + rs, sq, 2);
    PhaseOrderAppend(hs + rs + sq, rd, 3);
    PhaseOrderAppend(hs + rs + sq + rd, tail, 4);
  }
}
