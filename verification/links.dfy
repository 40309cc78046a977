/** The links a manifest or a canvas points to besides its images: OCR
    files next to a page image (`CanvasSeeAlsoService`), the transcription
    list of a page (`CanvasTranscriptionsService`) and the item's own
    seeAlso links (`SeeAlsoService`, in its IIIF 2 and IIIF 3 versions). */
module Links {
  import opened Wrappers
  import opened JavaStrings
  import opened Content

  // ---------------------------------------------------------------------
  // File-name roots.

  /** `getRootName` of `CanvasSeeAlsoService`: the name up to its last
      dot, unless that dot is missing or is the first character. */
  function RootName(name: string): (r: string)
    ensures |r| <= |name| && name[..|r|] == r
    ensures r == name <==> LastIndexOf(name, '.') <= 0
    ensures r != name ==> |r| > 0 && name[|r|] == '.' && forall j :: |r| < j < |name| ==> name[j] != '.'
  {
    var dotPos := LastIndexOf(name, '.');
    if dotPos > 0 then name[..dotPos] else name
  }

  /** A name and an extension without dots: the root is the name. */
  lemma RootNameOfExtension(stem: string, ext: string)
    requires stem != "" && '.' !in ext
    ensures RootName(stem + "." + ext) == stem
  {
    var name := stem + "." + ext;
    var i := LastIndexOf(name, '.');
    assert name[|stem|] == '.';
    assert forall k :: 0 <= k < |ext| ==> ext[k] != '.';
    assert name[|stem| + 1..] == ext;
    if i > |stem| {
      assert false;
    }
    assert name[..|stem|] == stem;
  }

  // ---------------------------------------------------------------------
  // OCR links of a canvas.

  /** The configuration of `CanvasSeeAlsoService`. The profile is `None`
      when it is not configured and when it does not parse as a URI. */
  datatype CanvasSeeAlsoConfig = CanvasSeeAlsoConfig(bundleName: Option<string>, labelValue: Option<string>, profile: Option<string>)

  /** The constructor, with URI parsing given as `isUri`. */
  function NewCanvasSeeAlso(bundleName: Option<string>, labelValue: Option<string>, profile: Option<string>, isUri: string -> bool): CanvasSeeAlsoConfig {
    CanvasSeeAlsoConfig(bundleName, labelValue, if profile.Some? && isUri(profile.value) then profile else None)
  }

  predicate CanvasSeeAlsoEnabled(c: CanvasSeeAlsoConfig) {
    c.bundleName.Some? && c.labelValue.Some? && c.profile.Some?
  }

  /** OCR links are produced exactly when the bundle, the label and a
      profile that parses as a URI are all configured. */
  lemma CanvasSeeAlsoGate(bundleName: Option<string>, labelValue: Option<string>, profile: Option<string>, isUri: string -> bool)
    ensures CanvasSeeAlsoEnabled(NewCanvasSeeAlso(bundleName, labelValue, profile, isUri))
      <==> bundleName.Some? && labelValue.Some? && profile.Some? && isUri(profile.value)
  {
  }

  /** A bitstream of the OCR bundle belongs to the page image with root
      name `root` when its own root name is the same and its format could
      be looked up. */
  predicate OcrMatch(root: string, b: Bitstream) {
    RootName(b.name) == root && b.format.Mime?
  }

  /** The OCR bitstreams of `bts` that belong to the page, in bundle order. */
  function OcrSources(root: string, bts: seq<Bitstream>): (r: seq<Bitstream>)
    ensures |r| <= |bts|
    ensures forall b :: b in r <==> b in bts && OcrMatch(root, b)
    decreases |bts|
  {
    if |bts| == 0 then []
    else
      var last := bts[|bts| - 1];
      OcrSources(root, bts[..|bts| - 1]) + (if OcrMatch(root, last) then [last] else [])
  }

  /** The link to one OCR bitstream, labelled and profiled as configured. */
  function OcrLink(c: CanvasSeeAlsoConfig, e: Endpoints, b: Bitstream): Link {
    Link(ContentId(e, b), c.labelValue, MimeOrNull(b.format), None, c.profile)
  }

  /** The loop over the OCR bundle. */
  function OcrLinks(c: CanvasSeeAlsoConfig, e: Endpoints, root: string, bts: seq<Bitstream>): (links: seq<Link>)
    ensures |links| == |OcrSources(root, bts)|
    ensures forall k :: 0 <= k < |links| ==> links[k] == OcrLink(c, e, OcrSources(root, bts)[k])
    decreases |bts|
  {
    if |bts| == 0 then []
    else
      var last := bts[|bts| - 1];
      OcrLinks(c, e, root, bts[..|bts| - 1])
        + (if RootName(last.name) == root then
             match last.format
             case LookupError => []
             case Mime(m) => [Link(ContentId(e, last), c.labelValue, m, None, c.profile)]
           else [])
  }

  /** `getCanvasSeeAlso(context, item, bitstream)`. */
  function GetCanvasSeeAlso(c: CanvasSeeAlsoConfig, e: Endpoints, item: Option<Item>, bitstream: Option<Bitstream>): (links: seq<Link>)
    ensures !CanvasSeeAlsoEnabled(c) || item.None? || bitstream.None? ==> links == []
    ensures CanvasSeeAlsoEnabled(c) && item.Some? && bitstream.Some? && FirstNamed(item.value.bundles, c.bundleName).None? ==> links == []
    ensures CanvasSeeAlsoEnabled(c) && item.Some? && bitstream.Some? && FirstNamed(item.value.bundles, c.bundleName).Some? ==>
      links == OcrLinks(c, e, RootName(bitstream.value.name), item.value.bundles[FirstNamed(item.value.bundles, c.bundleName).value].bitstreams)
  {
    if !CanvasSeeAlsoEnabled(c) || item.None? || bitstream.None? then []
    else
      match FirstNamed(item.value.bundles, c.bundleName)
      case None => []
      case Some(i) => OcrLinks(c, e, RootName(bitstream.value.name), item.value.bundles[i].bitstreams)
  }

  /** What an enabled service emits for a page: one link, labelled and
      profiled as configured, per bitstream of the first OCR bundle whose
      root name is the page's and whose format could be looked up; a
      bitstream of another root, or whose lookup failed, gets no link. */
  lemma CanvasSeeAlsoLinks(c: CanvasSeeAlsoConfig, e: Endpoints, item: Item, page: Bitstream, i: nat, b: Bitstream)
    requires CanvasSeeAlsoEnabled(c)
    requires FirstNamed(item.bundles, c.bundleName) == Some(i)
    requires b in item.bundles[i].bitstreams
    ensures RootName(b.name) == RootName(page.name) && b.format.Mime? ==>
      OcrLink(c, e, b) in GetCanvasSeeAlso(c, e, Some(item), Some(page))
    ensures forall l :: l in GetCanvasSeeAlso(c, e, Some(item), Some(page)) ==> l.labelValue == c.labelValue && l.profile == c.profile
    ensures |GetCanvasSeeAlso(c, e, Some(item), Some(page))| <= |item.bundles[i].bitstreams|
  {
    var root := RootName(page.name);
    var bts := item.bundles[i].bitstreams;
    var src := OcrSources(root, bts);
    var links := OcrLinks(c, e, root, bts);
    if RootName(b.name) == root && b.format.Mime? {
      assert b in src;
      var k :| 0 <= k < |src| && src[k] == b;
      assert links[k] == OcrLink(c, e, b);
    }
    forall l | l in links
      ensures l.labelValue == c.labelValue && l.profile == c.profile
    {
      var k :| 0 <= k < |links| && links[k] == l;
      assert l == OcrLink(c, e, src[k]);
    }
  }

  // ---------------------------------------------------------------------
  // The transcription list of a canvas.

  /** The configuration of `CanvasTranscriptionsService`. */
  datatype TranscriptionsConfig = TranscriptionsConfig(bundleName: Option<string>, labelValue: Option<string>)

  predicate TranscriptionsEnabled(c: TranscriptionsConfig) {
    c.bundleName.Some? && c.labelValue.Some?
  }

  /** A reference to an annotation list, with its label. */
  datatype ListRef = ListRef(id: string, labelValue: string)

  /** The index of the first bitstream whose root name starts with `root`;
      `rootName` is the shared file-name root of the IIIF utilities. */
  function FirstPrefixed(bts: seq<Bitstream>, root: string, rootName: string -> string): (r: Option<nat>)
    ensures r.Some? ==> r.value < |bts| && StartsWith(rootName(bts[r.value].name), root)
    ensures r.None? <==> forall k :: 0 <= k < |bts| ==> !StartsWith(rootName(bts[k].name), root)
    decreases |bts|
  {
    if |bts| == 0 then None
    else if StartsWith(rootName(bts[0].name), root) then Some(0)
    else
      match FirstPrefixed(bts[1..], root, rootName)
      case None => None
      case Some(i) => Some(i + 1)
  }

  /** Some bitstream of `bts` is a transcription of the page with root
      name `root`. */
  predicate HasTranscription(bts: seq<Bitstream>, root: string, rootName: string -> string) {
    exists k :: 0 <= k < |bts| && StartsWith(rootName(bts[k].name), root)
  }

  /** `getCanvasTranscriptions(context, item, bitstream, linkUrl)`: a list
      reference or `null`. */
  function GetCanvasTranscriptions(c: TranscriptionsConfig, item: Option<Item>, bitstream: Option<Bitstream>, linkUrl: Option<string>, rootName: string -> string): (r: Option<ListRef>)
    ensures r.Some? ==> TranscriptionsEnabled(c) && item.Some? && bitstream.Some? && linkUrl.Some?
    ensures r.Some? ==> r.value == ListRef(linkUrl.value, c.labelValue.value)
  {
    if !TranscriptionsEnabled(c) || item.None? || bitstream.None? || linkUrl.None? then None
    else
      match FirstNamed(item.value.bundles, c.bundleName)
      case None => None
      case Some(i) =>
        if FirstPrefixed(item.value.bundles[i].bitstreams, rootName(bitstream.value.name), rootName).Some? then
          Some(ListRef(linkUrl.value, c.labelValue.value))
        else None
  }

  /** With everything configured and given, the page has a transcription
      list exactly when the first transcription bundle holds a bitstream
      whose root name starts with the page's root name: a prefix match, not
      an equality. */
  lemma TranscriptionsFound(c: TranscriptionsConfig, item: Item, page: Bitstream, linkUrl: string, rootName: string -> string)
    requires TranscriptionsEnabled(c)
    ensures GetCanvasTranscriptions(c, Some(item), Some(page), Some(linkUrl), rootName).Some? <==>
      && FirstNamed(item.bundles, c.bundleName).Some?
      && HasTranscription(item.bundles[FirstNamed(item.bundles, c.bundleName).value].bitstreams, rootName(page.name), rootName)
  {
    match FirstNamed(item.bundles, c.bundleName)
    case None =>
    case Some(i) =>
      var bts := item.bundles[i].bitstreams;
      var root := rootName(page.name);
      if FirstPrefixed(bts, root, rootName).Some? {
        assert StartsWith(rootName(bts[FirstPrefixed(bts, root, rootName).value].name), root);
      }
  }

  /** A transcription whose root name only extends the page's root name
      (page `p1.jpg`, transcription `p10.txt`) is enough to produce the list. */
  lemma TranscriptionPrefixExample()
    ensures var c := TranscriptionsConfig(Some("TEXT"), Some("Transcription"));
      var item := Item("i", [Bundle("TEXT", [Bitstream("t", "p10.txt", Mime(Some("text/plain")))])]);
      GetCanvasTranscriptions(c, Some(item), Some(Bitstream("b", "p1.jpg", Mime(Some("image/jpeg")))), Some("u"), RootName)
        == Some(ListRef("u", "Transcription"))
  {
    var bts := [Bitstream("t", "p10.txt", Mime(Some("text/plain")))];
    var item := Item("i", [Bundle("TEXT", bts)]);
    RootNameOfExtension("p10", "txt");
    RootNameOfExtension("p1", "jpg");
    assert "p10" + "." + "txt" == "p10.txt" && "p1" + "." + "jpg" == "p1.jpg";
    assert "p10"[..2] == "p1";
    assert StartsWith(RootName(bts[0].name), RootName("p1.jpg"));
    assert FirstNamed(item.bundles, Some("TEXT")) == Some(0);
    assert FirstPrefixed(bts, RootName("p1.jpg"), RootName) == Some(0);
  }

  // ---------------------------------------------------------------------
  // The seeAlso links of an item.

  /** The label of the single fallback link. */
  const SeeAlsoLabel: string := "More descriptions of this resource"

  /** The type of an annotation list (`AnnotationGenerator.TYPE`). */
  const AnnotationListType: string := "sc:AnnotationList"

  /** Which of the two services. */
  datatype Version = V2 | V3

  /** The link to one bitstream of the seeAlso bundle: labelled through
      `iiifLabel`, with the MIME type or `null` when the lookup failed. */
  function BitstreamLink(e: Endpoints, b: Bitstream, iiifLabel: (Bitstream, string) -> string): Link {
    Link(ContentId(e, b), Some(iiifLabel(b, b.name)), MimeOrNull(b.format), None, None)
  }

  function BitstreamLinks(e: Endpoints, bts: seq<Bitstream>, iiifLabel: (Bitstream, string) -> string): (links: seq<Link>)
    ensures |links| == |bts| && forall k :: 0 <= k < |bts| ==> links[k] == BitstreamLink(e, bts[k], iiifLabel)
  {
    seq(|bts|, k requires 0 <= k < |bts| => BitstreamLink(e, bts[k], iiifLabel))
  }

  /** The fallback link to the item's seeAlso annotation list. */
  function FallbackLink(v: Version, e: Endpoints, item: Item): Link {
    match v
    case V2 => Link(e.iiifEndpoint + item.id + "/manifest/seeAlso", Some(SeeAlsoLabel), None, Some(AnnotationListType), None)
    case V3 => Link(e.iiifEndpoint + item.id + "/manifest/v3/seeAlso", Some(SeeAlsoLabel), None, None, None)
  }

  /** `getSeeAlsos(item, context)`: one link per bitstream of the bundles
      bearing the configured name, or, when no name is configured, the one
      fallback link. */
  function GetSeeAlsos(v: Version, bundleName: Option<string>, e: Endpoints, item: Item, iiifLabel: (Bitstream, string) -> string): (links: seq<Link>)
    ensures bundleName.None? ==> links == [FallbackLink(v, e, item)]
    ensures bundleName.Some? ==> links == BitstreamLinks(e, NamedBitstreams(item.bundles, bundleName), iiifLabel)
  {
    if bundleName.Some? then SeeAlsoBundles(e, item.bundles, bundleName, iiifLabel)
    else [FallbackLink(v, e, item)]
  }

  /** The loop over the item's bundles. */
  function SeeAlsoBundles(e: Endpoints, bundles: seq<Bundle>, bundleName: Option<string>, iiifLabel: (Bitstream, string) -> string): (links: seq<Link>)
    ensures links == BitstreamLinks(e, NamedBitstreams(bundles, bundleName), iiifLabel)
    decreases |bundles|
  {
    if |bundles| == 0 then []
    else
      var last := bundles[|bundles| - 1];
      SeeAlsoBundles(e, bundles[..|bundles| - 1], bundleName, iiifLabel)
        + (if Named(last, bundleName) then BitstreamLinks(e, last.bitstreams, iiifLabel) else [])
  }

  /** In bundle mode every bitstream of a matching bundle gets its link,
      a failed MIME lookup included (its format is then absent), and
      nothing else does; the fallback link is exactly one link, whose id
      depends on the version. */
  lemma SeeAlsoMembers(v: Version, bundleName: Option<string>, e: Endpoints, item: Item, iiifLabel: (Bitstream, string) -> string, b: Bitstream)
    requires bundleName.Some?
    ensures (exists i :: 0 <= i < |item.bundles| && Named(item.bundles[i], bundleName) && b in item.bundles[i].bitstreams)
      ==> BitstreamLink(e, b, iiifLabel) in GetSeeAlsos(v, bundleName, e, item, iiifLabel)
    ensures b.format.LookupError? ==> BitstreamLink(e, b, iiifLabel).format.None?
  {
    NamedBitstreamsMembers(item.bundles, bundleName, b);
    var bs := NamedBitstreams(item.bundles, bundleName);
    if b in bs {
      var k :| 0 <= k < |bs| && bs[k] == b;
      assert GetSeeAlsos(v, bundleName, e, item, iiifLabel)[k] == BitstreamLink(e, b, iiifLabel);
    }
  }

  /** Every emitted link points at a bitstream of a matching bundle. */
  lemma SeeAlsoSources(v: Version, bundleName: Option<string>, e: Endpoints, item: Item, iiifLabel: (Bitstream, string) -> string, l: Link)
    requires bundleName.Some?
    requires l in GetSeeAlsos(v, bundleName, e, item, iiifLabel)
    ensures exists b :: b in NamedBitstreams(item.bundles, bundleName) && l == BitstreamLink(e, b, iiifLabel)
  {
    var bs := NamedBitstreams(item.bundles, bundleName);
    var links := GetSeeAlsos(v, bundleName, e, item, iiifLabel);
    var k :| 0 <= k < |links| && links[k] == l;
    assert bs[k] in bs;
  }
}
