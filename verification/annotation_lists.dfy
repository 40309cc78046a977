/** The annotation lists served for an item (`AnnotationListService`, in
    its IIIF 2 and IIIF 3 versions): the list of its seeAlso bitstreams, and
    the transcriptions of one page image.

    Transcriptions are searched in every bundle of the page's item that
    bears the transcription bundle name. A bitstream is a transcription of
    the page when its root name starts with the page's root name and its
    MIME type is `text/plain` or `text/html`. A database error while
    looking up a format ends the search, and the list found so far is
    served. */
module AnnotationLists {
  import opened Wrappers
  import opened JavaStrings
  import opened Content
  import opened Links
  import Canvas
  import opened Annotations

  // ---------------------------------------------------------------------
  // The seeAlso list.

  /** The id of the seeAlso list of item `itemId`. */
  function SeeAlsoListId(v: Version, e: Endpoints, itemId: string): string {
    match v
    case V2 => e.iiifEndpoint + itemId + "/manifest/seeAlso"
    case V3 => e.iiifEndpoint + itemId + "/manifest/seeAlso/v3"
  }

  /** The annotation one seeAlso bitstream yields: named after the
      bitstream, with one body, the link to its content labelled with its
      name. */
  function SeeAlsoAnnotation(e: Endpoints, isUri: string -> bool, b: Bitstream): (r: Annotation)
    ensures SeeAlsoReady(e, isUri, b) ==> GenerateAnnotation(SeeAlsoGen(e, b, b.format.mime).value, isUri) == Ok(r)
  {
    var r := Annotation(e.iiifEndpoint + b.id, [LinkBody(Link(ContentId(e, b), Some(b.name), MimeOrNull(b.format), None, None))], None);
    assert SeeAlsoReady(e, isUri, b) ==> GenerateAnnotation(SeeAlsoGen(e, b, b.format.mime).value, isUri) == Ok(r) by {
      if SeeAlsoReady(e, isUri, b) {
        var a := SeeAlsoGen(e, b, b.format.mime).value;
        assert CanvasPart(a) == Ok([]) && TextPart(a) == Ok([]);
        assert CanvasPart(a).value + TextPart(a).value + LinkPart(a, isUri).value == LinkPart(a, isUri).value;
      }
    }
    r
  }

  /** The annotation generator built for one seeAlso bitstream. */
  function SeeAlsoGen(e: Endpoints, b: Bitstream, mime: Option<string>): Result<AnnotationGen> {
    var a :- NewAnnotation(e.iiifEndpoint + b.id, None);
    Ok(SetLink(SetMotivation(a, Linking), Link(ContentId(e, b), Some(b.name), mime, None, None)))
  }

  /** A seeAlso bitstream can be annotated: its format lookup succeeds,
      its annotation id is not empty, and that id and its content URL are
      URIs. */
  predicate SeeAlsoReady(e: Endpoints, isUri: string -> bool, b: Bitstream) {
    b.format.Mime? && e.iiifEndpoint + b.id != "" && isUri(e.iiifEndpoint + b.id) && isUri(ContentId(e, b))
  }

  /** The annotations of the seeAlso bitstreams `bts`, in order. */
  function SeeAlsoAnnotations(e: Endpoints, isUri: string -> bool, bts: seq<Bitstream>): (as_: seq<Annotation>)
    ensures |as_| == |bts| && forall k :: 0 <= k < |bts| ==> as_[k] == SeeAlsoAnnotation(e, isUri, bts[k])
  {
    seq(|bts|, k requires 0 <= k < |bts| => SeeAlsoAnnotation(e, isUri, bts[k]))
  }

  /** One seeAlso bitstream whose lookup gave `m`: its annotation is added
      exactly when its id is not empty and it and the content URL are URIs,
      and it is the expected one. */
  lemma SeeAlsoStep(e: Endpoints, isUri: string -> bool, b: Bitstream, m: Option<string>, l: ListGen)
    requires b.format == Mime(m)
    ensures var r := SeeAlsoGen(e, b, m);
      (r.Ok? && AddResource(l, r.value, isUri).Ok?) <==>
        e.iiifEndpoint + b.id != "" && isUri(e.iiifEndpoint + b.id) && isUri(ContentId(e, b))
    ensures var r := SeeAlsoGen(e, b, m);
      r.Ok? && AddResource(l, r.value, isUri).Ok? ==>
        AddResource(l, r.value, isUri).value == l.(annotations := l.annotations + [SeeAlsoAnnotation(e, isUri, b)])
  {
    var r := SeeAlsoGen(e, b, m);
    if r.Ok? {
      var a := r.value;
      assert CanvasPart(a) == Ok([]) && TextPart(a) == Ok([]);
      if isUri(ContentId(e, b)) {
        assert LinkPart(a, isUri) == Ok([LinkBody(Link(ContentId(e, b), Some(b.name), MimeOrNull(b.format), None, None))]);
        assert CanvasPart(a).value + TextPart(a).value + LinkPart(a, isUri).value == LinkPart(a, isUri).value;
      }
      assert a.identifier == Some(e.iiifEndpoint + b.id) && a.metadata == [];
      if isUri(e.iiifEndpoint + b.id) && isUri(ContentId(e, b)) {
        assert GenerateAnnotation(a, isUri) == Ok(SeeAlsoAnnotation(e, isUri, b));
      }
    }
  }

  /** The loop over the seeAlso bitstreams: it fails on the first
      bitstream that cannot be annotated. */
  function SeeAlsoLoop(e: Endpoints, isUri: string -> bool, l: ListGen, bts: seq<Bitstream>): (res: Result<ListGen>)
    ensures res.Ok? <==> forall k :: 0 <= k < |bts| ==> SeeAlsoReady(e, isUri, bts[k])
    ensures res.Ok? ==> res.value.identifier == l.identifier
    decreases |bts|
  {
    if |bts| == 0 then Ok(l)
    else
      var init := bts[..|bts| - 1];
      var b := bts[|bts| - 1];
      assert forall k :: 0 <= k < |init| ==> init[k] == bts[k];
      var l1 :- SeeAlsoLoop(e, isUri, l, init);
      match b.format
      case LookupError => Fail(RuntimeError("format lookup failed"))
      case Mime(m) =>
        SeeAlsoStep(e, isUri, b, m, l1);
        var a :- SeeAlsoGen(e, b, m);
        AddResource(l1, a, isUri)
  }

  /** The loop appends one annotation per bitstream, in order. */
  lemma {:induction false} SeeAlsoLoopOrder(e: Endpoints, isUri: string -> bool, l: ListGen, bts: seq<Bitstream>)
    requires SeeAlsoLoop(e, isUri, l, bts).Ok?
    ensures SeeAlsoLoop(e, isUri, l, bts).value.annotations == l.annotations + SeeAlsoAnnotations(e, isUri, bts)
    decreases |bts|
  {
    if |bts| > 0 {
      var init := bts[..|bts| - 1];
      var b := bts[|bts| - 1];
      assert forall k :: 0 <= k < |init| ==> init[k] == bts[k];
      assert SeeAlsoAnnotations(e, isUri, bts) == SeeAlsoAnnotations(e, isUri, init) + [SeeAlsoAnnotation(e, isUri, b)];
      SeeAlsoLoopOrder(e, isUri, l, init);
      SeeAlsoStep(e, isUri, b, b.format.mime, SeeAlsoLoop(e, isUri, l, init).value);
    }
  }

  /** `getSeeAlsoAnnotations(context, id)`. `bitstreams` is the item's
      seeAlso bitstreams, or `None` when finding the item raised a database
      error. */
  function GetSeeAlsoAnnotations(v: Version, e: Endpoints, isUri: string -> bool, itemId: string, bitstreams: Option<seq<Bitstream>>): (res: Result<AnnotationPage>)
    ensures res.Ok? <==>
      && bitstreams.Some? && (forall k :: 0 <= k < |bitstreams.value| ==> SeeAlsoReady(e, isUri, bitstreams.value[k]))
      && isUri(SeeAlsoListId(v, e, itemId))
    ensures res.Ok? ==> res.value.id == SeeAlsoListId(v, e, itemId)
  {
    match bitstreams
    case None => Fail(RuntimeError("finding the item failed"))
    case Some(bts) =>
      var l :- SeeAlsoLoop(e, isUri, SetListIdentifier(NewListGen(), SeeAlsoListId(v, e, itemId)), bts);
      GenerateList(l, isUri)
  }

  /** The list holds one annotation per seeAlso bitstream, in order. */
  lemma SeeAlsoListed(v: Version, e: Endpoints, isUri: string -> bool, itemId: string, bts: seq<Bitstream>)
    requires GetSeeAlsoAnnotations(v, e, isUri, itemId, Some(bts)).Ok?
    ensures var items := GetSeeAlsoAnnotations(v, e, isUri, itemId, Some(bts)).value.items;
      |items| == |bts| && forall k :: 0 <= k < |bts| ==> items[k] == SeeAlsoAnnotation(e, isUri, bts[k])
  {
    SeeAlsoLoopOrder(e, isUri, SetListIdentifier(NewListGen(), SeeAlsoListId(v, e, itemId)), bts);
  }

  // ---------------------------------------------------------------------
  // Transcriptions of a page.

  /** What finding the page's bitstream gives: the bitstream and, for each
      of its bundles, the items of that bundle; no bitstream; or a database
      error. */
  datatype Found = FoundBitstream(b: Bitstream, owners: seq<seq<Item>>) | NotFound | FindError

  /** The id of the canvas the transcriptions are painted on. */
  function TranscriptionCanvasId(v: Version, e: Endpoints, iId: string, cId: string): (id: string)
    ensures |id| > 0
  {
    match v
    case V2 => e.iiifEndpoint + iId + "/canvas/" + cId
    case V3 => e.iiifEndpoint + iId + "/canvas/" + cId + "/v3"
  }

  predicate IsTextMime(m: string) {
    m == "text/plain" || m == "text/html"
  }

  /** `t` is a transcription of the page whose root name is `root`. */
  predicate IsTranscription(t: Bitstream, root: string, rootName: string -> string) {
    && StartsWith(rootName(t.name), root)
    && t.format.Mime? && t.format.mime.Some? && IsTextMime(t.format.mime.value)
  }

  /** The transcriptions among `bts`, in order. */
  function Transcriptions(bts: seq<Bitstream>, root: string, rootName: string -> string): (ts: seq<Bitstream>)
    decreases |bts|
  {
    if |bts| == 0 then []
    else
      var last := bts[|bts| - 1];
      Transcriptions(bts[..|bts| - 1], root, rootName) + (if IsTranscription(last, root, rootName) then [last] else [])
  }

  /** The text format a transcription body carries: its MIME type in the
      IIIF 2 service, none in the IIIF 3 one. */
  function TextFormat(v: Version, m: string): Option<string> {
    match v
    case V2 => Some(m)
    case V3 => None
  }

  /** The page canvas a transcription is painted on, as generated. */
  function PageCanvas(canvasId: string): Canvas.CanvasResource {
    Canvas.CanvasResource(canvasId, None, None, [], [])
  }

  /** The annotation generator built for one transcription; `content` reads
      a bitstream's text, `None` when reading fails. */
  function TranscriptionGen(v: Version, e: Endpoints, canvasId: string, t: Bitstream, m: string, content: Bitstream -> Option<string>): Result<AnnotationGen>
    requires canvasId != ""
  {
    var a :- NewAnnotation(e.iiifEndpoint + t.id, None);
    Ok(SetText(SetOnCanvas(SetMotivation(a, Painting), Canvas.NewCanvas(canvasId).value), TextGen(content(t), TextFormat(v, m))))
  }

  /** The annotation one transcription yields: named after the bitstream,
      with the page canvas and then the text as bodies. */
  function TranscriptionAnnotation(v: Version, e: Endpoints, isUri: string -> bool, canvasId: string, t: Bitstream, content: Bitstream -> Option<string>): (r: Annotation)
    ensures canvasId != "" && t.format.Mime? && t.format.mime.Some? && content(t).Some? && e.iiifEndpoint + t.id != "" && isUri(e.iiifEndpoint + t.id) ==>
      GenerateAnnotation(TranscriptionGen(v, e, canvasId, t, t.format.mime.value, content).value, isUri) == Ok(r)
  {
    var text := if content(t).Some? then content(t).value else "";
    var r := Annotation(e.iiifEndpoint + t.id, [CanvasBody(PageCanvas(canvasId)), TextBody(TextContent(text, TextFormat(v, if t.format.Mime? && t.format.mime.Some? then t.format.mime.value else "")))], None);
    assert canvasId != "" && t.format.Mime? && t.format.mime.Some? && content(t).Some? && e.iiifEndpoint + t.id != "" && isUri(e.iiifEndpoint + t.id) ==>
      GenerateAnnotation(TranscriptionGen(v, e, canvasId, t, t.format.mime.value, content).value, isUri) == Ok(r) by {
      if canvasId != "" && t.format.Mime? && t.format.mime.Some? && content(t).Some? && e.iiifEndpoint + t.id != "" && isUri(e.iiifEndpoint + t.id) {
        var a := TranscriptionGen(v, e, canvasId, t, t.format.mime.value, content).value;
        assert Canvas.Generate(Canvas.NewCanvas(canvasId).value) == Ok(PageCanvas(canvasId));
        AnnotationBodies(a, isUri);
        assert GenerateAnnotation(a, isUri).value.bodies == [CanvasBody(PageCanvas(canvasId)), TextBody(TextContent(text, TextFormat(v, t.format.mime.value)))];
      }
    }
    r
  }

  function TranscriptionAnnotations(v: Version, e: Endpoints, isUri: string -> bool, canvasId: string, ts: seq<Bitstream>, content: Bitstream -> Option<string>): (as_: seq<Annotation>)
    decreases |ts|
  {
    if |ts| == 0 then []
    else [TranscriptionAnnotation(v, e, isUri, canvasId, ts[0], content)] + TranscriptionAnnotations(v, e, isUri, canvasId, ts[1..], content)
  }

  /** The scan over the candidate bitstreams, from the front; the flag says
      whether a database error stopped it. */
  function Scan(v: Version, e: Endpoints, isUri: string -> bool, canvasId: string, root: string, rootName: string -> string, content: Bitstream -> Option<string>, l: ListGen, bts: seq<Bitstream>): (res: Result<(ListGen, bool)>)
    requires canvasId != ""
    ensures res.Ok? ==> res.value.0.identifier == l.identifier
    ensures res.Ok? ==> |l.annotations| <= |res.value.0.annotations| <= |l.annotations| + |bts|
    ensures res.Ok? ==> res.value.0.annotations[..|l.annotations|] == l.annotations
    decreases |bts|
  {
    if |bts| == 0 then Ok((l, false))
    else
      var t := bts[0];
      if !StartsWith(rootName(t.name), root) then Scan(v, e, isUri, canvasId, root, rootName, content, l, bts[1..])
      else
        match t.format
        case LookupError => Ok((l, true))
        case Mime(None) => Fail(NullPointer)
        case Mime(Some(m)) =>
          if IsTextMime(m) then
            var a :- TranscriptionGen(v, e, canvasId, t, m, content);
            var l1 :- AddResource(l, a, isUri);
            Scan(v, e, isUri, canvasId, root, rootName, content, l1, bts[1..])
          else Scan(v, e, isUri, canvasId, root, rootName, content, l, bts[1..])
  }

  /** One transcription's annotation generates to the expected annotation
      exactly when its content can be read and its id is a non-empty URI. */
  lemma TranscriptionStep(v: Version, e: Endpoints, isUri: string -> bool, canvasId: string, t: Bitstream, m: string, content: Bitstream -> Option<string>, l: ListGen)
    requires canvasId != "" && t.format == Mime(Some(m))
    ensures var r := TranscriptionGen(v, e, canvasId, t, m, content);
      (r.Ok? && AddResource(l, r.value, isUri).Ok?) <==> content(t).Some? && e.iiifEndpoint + t.id != "" && isUri(e.iiifEndpoint + t.id)
    ensures var r := TranscriptionGen(v, e, canvasId, t, m, content);
      r.Ok? && AddResource(l, r.value, isUri).Ok? ==>
        AddResource(l, r.value, isUri).value == l.(annotations := l.annotations + [TranscriptionAnnotation(v, e, isUri, canvasId, t, content)])
  {
    var r := TranscriptionGen(v, e, canvasId, t, m, content);
    if r.Ok? {
      var c := Canvas.NewCanvas(canvasId).value;
      assert Canvas.Generate(c) == Ok(PageCanvas(canvasId));
      if content(t).Some? && isUri(e.iiifEndpoint + t.id) {
        AnnotationBodies(r.value, isUri);
        var g := GenerateAnnotation(r.value, isUri).value;
        assert g.bodies == [CanvasBody(PageCanvas(canvasId)), TextBody(TextContent(content(t).value, TextFormat(v, m)))];
      }
    }
  }

  /** The scan past a bitstream that is not a candidate, or a candidate
      that is not text. */
  lemma ScanSkips(v: Version, e: Endpoints, isUri: string -> bool, canvasId: string, root: string, rootName: string -> string, content: Bitstream -> Option<string>, l: ListGen, bts: seq<Bitstream>)
    requires canvasId != "" && |bts| > 0
    requires !IsTranscription(bts[0], root, rootName)
    requires !(StartsWith(rootName(bts[0].name), root) && bts[0].format.LookupError?)
    requires !(StartsWith(rootName(bts[0].name), root) && bts[0].format == Mime(None))
    ensures Scan(v, e, isUri, canvasId, root, rootName, content, l, bts) == Scan(v, e, isUri, canvasId, root, rootName, content, l, bts[1..])
  {
  }

  /** The scan stops, with nothing added, at a candidate whose format
      lookup failed. */
  lemma ScanStops(v: Version, e: Endpoints, isUri: string -> bool, canvasId: string, root: string, rootName: string -> string, content: Bitstream -> Option<string>, l: ListGen, bts: seq<Bitstream>)
    requires canvasId != "" && |bts| > 0
    requires StartsWith(rootName(bts[0].name), root) && bts[0].format.LookupError?
    ensures Scan(v, e, isUri, canvasId, root, rootName, content, l, bts) == Ok((l, true))
  {
  }

  /** The scan past a transcription, once it is added. */
  lemma ScanTakes(v: Version, e: Endpoints, isUri: string -> bool, canvasId: string, root: string, rootName: string -> string, content: Bitstream -> Option<string>, l: ListGen, bts: seq<Bitstream>) returns (l1: ListGen)
    requires canvasId != "" && |bts| > 0
    requires IsTranscription(bts[0], root, rootName)
    requires Scan(v, e, isUri, canvasId, root, rootName, content, l, bts).Ok?
    ensures l1.annotations == l.annotations + [TranscriptionAnnotation(v, e, isUri, canvasId, bts[0], content)]
    ensures Scan(v, e, isUri, canvasId, root, rootName, content, l, bts) == Scan(v, e, isUri, canvasId, root, rootName, content, l1, bts[1..])
  {
    var t := bts[0];
    var m := t.format.mime.value;
    TranscriptionStep(v, e, isUri, canvasId, t, m, content, l);
    l1 := AddResource(l, TranscriptionGen(v, e, canvasId, t, m, content).value, isUri).value;
  }

  /** A scan from `l` over `bts` that ended in `r` served the
      transcriptions of the prefix `bts[..j]`: `j` is the whole run when no
      database error stopped it, and otherwise the candidate at `j` is the
      one whose lookup failed. */
  predicate Served(v: Version, e: Endpoints, isUri: string -> bool, canvasId: string, root: string, rootName: string -> string, content: Bitstream -> Option<string>, l: ListGen, r: (ListGen, bool), bts: seq<Bitstream>, j: nat) {
    && j <= |bts|
    && r.0.annotations == l.annotations + TranscriptionAnnotations(v, e, isUri, canvasId, Transcriptions(bts[..j], root, rootName), content)
    && (r.1 <==> j < |bts|)
    && (r.1 ==> StartsWith(rootName(bts[j].name), root) && bts[j].format.LookupError?)
  }

  /** Every successful scan serves the transcriptions of some prefix. */
  lemma {:induction false} ScanServesPrefix(v: Version, e: Endpoints, isUri: string -> bool, canvasId: string, root: string, rootName: string -> string, content: Bitstream -> Option<string>, l: ListGen, bts: seq<Bitstream>) returns (j: nat)
    requires canvasId != ""
    requires Scan(v, e, isUri, canvasId, root, rootName, content, l, bts).Ok?
    ensures Served(v, e, isUri, canvasId, root, rootName, content, l, Scan(v, e, isUri, canvasId, root, rootName, content, l, bts).value, bts, j)
    decreases |bts|
  {
    if |bts| == 0 {
      j := 0;
      assert bts[..0] == [];
      return;
    }
    var t := bts[0];
    var r := Scan(v, e, isUri, canvasId, root, rootName, content, l, bts).value;
    if StartsWith(rootName(t.name), root) && t.format.LookupError? {
      j := 0;
      ScanStops(v, e, isUri, canvasId, root, rootName, content, l, bts);
      assert bts[..0] == [];
    } else if IsTranscription(t, root, rootName) {
      var l1 := ScanTakes(v, e, isUri, canvasId, root, rootName, content, l, bts);
      var j' := ScanServesPrefix(v, e, isUri, canvasId, root, rootName, content, l1, bts[1..]);
      j := j' + 1;
      ServedAfterTake(v, e, isUri, canvasId, root, rootName, content, l, l1, r, bts, j');
    } else {
      ScanSkips(v, e, isUri, canvasId, root, rootName, content, l, bts);
      var j' := ScanServesPrefix(v, e, isUri, canvasId, root, rootName, content, l, bts[1..]);
      j := j' + 1;
      ServedAfterSkip(v, e, isUri, canvasId, root, rootName, content, l, r, bts, j');
    }
  }

  lemma ServedAfterTake(v: Version, e: Endpoints, isUri: string -> bool, canvasId: string, root: string, rootName: string -> string, content: Bitstream -> Option<string>, l: ListGen, l1: ListGen, r: (ListGen, bool), bts: seq<Bitstream>, j': nat)
    requires |bts| > 0 && IsTranscription(bts[0], root, rootName)
    requires l1.annotations == l.annotations + [TranscriptionAnnotation(v, e, isUri, canvasId, bts[0], content)]
    requires Served(v, e, isUri, canvasId, root, rootName, content, l1, r, bts[1..], j')
    ensures Served(v, e, isUri, canvasId, root, rootName, content, l, r, bts, j' + 1)
  {
    var t := [TranscriptionAnnotation(v, e, isUri, canvasId, bts[0], content)];
    var later := TranscriptionAnnotations(v, e, isUri, canvasId, Transcriptions(bts[1..][..j'], root, rootName), content);
    assert r.0.annotations == l.annotations + (t + later) by {
      assert r.0.annotations == l.annotations + t + later;
    }
    TakeAnnotations(v, e, isUri, canvasId, root, rootName, content, bts, j');
    ServedShift(r, bts, j', root, rootName);
  }

  /** The annotations served up to `j' + 1` when the run starts with a
      transcription. */
  lemma TakeAnnotations(v: Version, e: Endpoints, isUri: string -> bool, canvasId: string, root: string, rootName: string -> string, content: Bitstream -> Option<string>, bts: seq<Bitstream>, j': nat)
    requires |bts| > 0 && j' < |bts| && IsTranscription(bts[0], root, rootName)
    ensures TranscriptionAnnotations(v, e, isUri, canvasId, Transcriptions(bts[..j' + 1], root, rootName), content)
      == [TranscriptionAnnotation(v, e, isUri, canvasId, bts[0], content)] + TranscriptionAnnotations(v, e, isUri, canvasId, Transcriptions(bts[1..][..j'], root, rootName), content)
  {
    var tsr := Transcriptions(bts[1..][..j'], root, rootName);
    TranscriptionsTake(bts, j', root, rootName);
    assert ([bts[0]] + tsr)[1..] == tsr;
  }

  /** The last two conjuncts of `Served` move one place along the run. */
  lemma ServedShift(r: (ListGen, bool), bts: seq<Bitstream>, j': nat, root: string, rootName: string -> string)
    requires |bts| > 0 && j' <= |bts| - 1
    requires r.1 <==> j' < |bts| - 1
    requires r.1 ==> StartsWith(rootName(bts[1..][j'].name), root) && bts[1..][j'].format.LookupError?
    ensures r.1 <==> j' + 1 < |bts|
    ensures r.1 ==> StartsWith(rootName(bts[j' + 1].name), root) && bts[j' + 1].format.LookupError?
  {
  }

  lemma ServedAfterSkip(v: Version, e: Endpoints, isUri: string -> bool, canvasId: string, root: string, rootName: string -> string, content: Bitstream -> Option<string>, l: ListGen, r: (ListGen, bool), bts: seq<Bitstream>, j': nat)
    requires |bts| > 0 && !IsTranscription(bts[0], root, rootName)
    requires Served(v, e, isUri, canvasId, root, rootName, content, l, r, bts[1..], j')
    ensures Served(v, e, isUri, canvasId, root, rootName, content, l, r, bts, j' + 1)
  {
    TranscriptionsSkip(bts, j', root, rootName);
    ServedShift(r, bts, j', root, rootName);
  }

  lemma TranscriptionsTake(bts: seq<Bitstream>, j': nat, root: string, rootName: string -> string)
    requires 0 < |bts| && j' < |bts| && IsTranscription(bts[0], root, rootName)
    ensures Transcriptions(bts[..j' + 1], root, rootName) == [bts[0]] + Transcriptions(bts[1..][..j'], root, rootName)
  {
    assert bts[..j' + 1] == [bts[0]] + bts[1..][..j'];
    TranscriptionsCons(bts[0], bts[1..][..j'], root, rootName);
  }

  lemma TranscriptionsSkip(bts: seq<Bitstream>, j': nat, root: string, rootName: string -> string)
    requires 0 < |bts| && j' < |bts| && !IsTranscription(bts[0], root, rootName)
    ensures Transcriptions(bts[..j' + 1], root, rootName) == Transcriptions(bts[1..][..j'], root, rootName)
  {
    assert bts[..j' + 1] == [bts[0]] + bts[1..][..j'];
    TranscriptionsCons(bts[0], bts[1..][..j'], root, rootName);
  }

  /** A bitstream is kept exactly when it is a transcription of the page. */
  lemma {:induction false} TranscriptionsMembers(bts: seq<Bitstream>, root: string, rootName: string -> string, t: Bitstream)
    ensures t in Transcriptions(bts, root, rootName) <==> t in bts && IsTranscription(t, root, rootName)
    decreases |bts|
  {
    if |bts| > 0 {
      var init := bts[..|bts| - 1];
      TranscriptionsMembers(init, root, rootName, t);
      assert bts == init + [bts[|bts| - 1]];
    }
  }

  /** The transcriptions of a run that starts with `t`. */
  lemma {:induction false} TranscriptionsCons(t: Bitstream, bts: seq<Bitstream>, root: string, rootName: string -> string)
    ensures Transcriptions([t] + bts, root, rootName)
      == (if IsTranscription(t, root, rootName) then [t] else []) + Transcriptions(bts, root, rootName)
    decreases |bts|
  {
    if |bts| > 0 {
      var init := bts[..|bts| - 1];
      assert ([t] + bts)[..|[t] + bts| - 1] == [t] + init;
      TranscriptionsCons(t, init, root, rootName);
    } else {
      assert [t] + bts == [t];
      assert [t][..0] == [];
    }
  }

  /** A candidate the scan can handle: its lookup succeeds with a MIME
      type, and when it is a transcription its content can be read and its
      id is a non-empty URI. */
  predicate Readable(e: Endpoints, isUri: string -> bool, t: Bitstream, root: string, rootName: string -> string, content: Bitstream -> Option<string>) {
    StartsWith(rootName(t.name), root) ==>
      && t.format.Mime? && t.format.mime.Some?
      && (IsTextMime(t.format.mime.value) ==> content(t).Some? && e.iiifEndpoint + t.id != "" && isUri(e.iiifEndpoint + t.id))
  }

  predicate AllReadable(e: Endpoints, isUri: string -> bool, bts: seq<Bitstream>, root: string, rootName: string -> string, content: Bitstream -> Option<string>) {
    forall k :: 0 <= k < |bts| ==> Readable(e, isUri, bts[k], root, rootName, content)
  }

  /** When every candidate is readable the scan runs to the end. */
  lemma {:induction false} ScanCompletes(v: Version, e: Endpoints, isUri: string -> bool, canvasId: string, root: string, rootName: string -> string, content: Bitstream -> Option<string>, l: ListGen, bts: seq<Bitstream>)
    requires canvasId != ""
    requires AllReadable(e, isUri, bts, root, rootName, content)
    ensures Scan(v, e, isUri, canvasId, root, rootName, content, l, bts).Ok?
    ensures !Scan(v, e, isUri, canvasId, root, rootName, content, l, bts).value.1
    decreases |bts|
  {
    if |bts| > 0 {
      var t := bts[0];
      var rest := bts[1..];
      assert forall k :: 0 <= k < |rest| ==> rest[k] == bts[k + 1];
      assert Readable(e, isUri, t, root, rootName, content);
      if StartsWith(rootName(t.name), root) && IsTextMime(t.format.mime.value) {
        var m := t.format.mime.value;
        TranscriptionStep(v, e, isUri, canvasId, t, m, content, l);
        ScanCompletes(v, e, isUri, canvasId, root, rootName, content, AddResource(l, TranscriptionGen(v, e, canvasId, t, m, content).value, isUri).value, rest);
      } else {
        ScanCompletes(v, e, isUri, canvasId, root, rootName, content, l, rest);
      }
    }
  }

  /** `getTranscriptionsAnnotations(context, iId, bId, cId, annotationListId)`.
      The item is the first item of the bitstream's first bundle; its
      bundles bearing `bundleName` are searched bundle by bundle. */
  function GetTranscriptionsAnnotations(
    v: Version, e: Endpoints, isUri: string -> bool, found: Found, iId: string, cId: string, listId: string,
    bundleName: Option<string>, rootName: string -> string, content: Bitstream -> Option<string>): (res: Result<AnnotationPage>)
    ensures res.Ok? ==> res.value.id == e.iiifEndpoint + listId && isUri(e.iiifEndpoint + listId)
    ensures found.FindError? || found.NotFound? || (found.FoundBitstream? && (|found.owners| == 0 || |found.owners[0]| == 0)) ==>
      res == if isUri(e.iiifEndpoint + listId) then Ok(AnnotationPage(e.iiifEndpoint + listId, [])) else Fail(NotAUri)
  {
    var l := SetListIdentifier(NewListGen(), e.iiifEndpoint + listId);
    match found
    case FindError => GenerateList(l, isUri)
    case NotFound => GenerateList(l, isUri)
    case FoundBitstream(b, owners) =>
      if |owners| == 0 || |owners[0]| == 0 then GenerateList(l, isUri)
      else
        var item := owners[0][0];
        var r :- Scan(v, e, isUri, TranscriptionCanvasId(v, e, iId, cId), rootName(b.name), rootName, content, l, NamedBitstreams(item.bundles, bundleName));
        GenerateList(r.0, isUri)
  }

  /** For a found page whose item's transcription bundles are all readable,
      the list holds one annotation per transcription, in bundle order,
      each painted on the page's canvas. */
  lemma TranscriptionsServed(
    v: Version, e: Endpoints, isUri: string -> bool, b: Bitstream, owners: seq<seq<Item>>, iId: string, cId: string, listId: string,
    bundleName: Option<string>, rootName: string -> string, content: Bitstream -> Option<string>)
    requires |owners| > 0 && |owners[0]| > 0
    requires AllReadable(e, isUri, NamedBitstreams(owners[0][0].bundles, bundleName), rootName(b.name), rootName, content)
    ensures GetTranscriptionsAnnotations(v, e, isUri, FoundBitstream(b, owners), iId, cId, listId, bundleName, rootName, content).Ok?
      <==> isUri(e.iiifEndpoint + listId)
    ensures var res := GetTranscriptionsAnnotations(v, e, isUri, FoundBitstream(b, owners), iId, cId, listId, bundleName, rootName, content);
      res.Ok? ==> res.value.items == TranscriptionAnnotations(v, e, isUri, TranscriptionCanvasId(v, e, iId, cId),
           Transcriptions(NamedBitstreams(owners[0][0].bundles, bundleName), rootName(b.name), rootName), content)
  {
    var bts := NamedBitstreams(owners[0][0].bundles, bundleName);
    var canvasId := TranscriptionCanvasId(v, e, iId, cId);
    var l := SetListIdentifier(NewListGen(), e.iiifEndpoint + listId);
    ScanCompletes(v, e, isUri, canvasId, rootName(b.name), rootName, content, l, bts);
    var j := ScanServesPrefix(v, e, isUri, canvasId, rootName(b.name), rootName, content, l, bts);
    assert bts[..j] == bts;
  }
}
