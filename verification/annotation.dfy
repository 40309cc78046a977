/** IIIF 3 annotations (`AnnotationGenerator`) and annotation lists
    (`AnnotationListGenerator`).

    An annotation has an identifier fixed at construction and up to three
    bodies, one of each kind: the canvas it is on, a text, and an external
    link. Setting a body of one kind replaces only that kind. Generation
    lists the bodies in the fixed order canvas, text, link. The stored
    motivation is never read. An annotation list generates each annotation
    as soon as it is added and keeps them in order. */
module Annotations {
  import opened Wrappers
  import opened MetadataEntry
  import Canvas
  import opened Content

  const Painting: string := "sc:painting"
  const Commenting: string := "oa:commenting"
  const Linking: string := "oa:linking"

  /** A text body under construction (`ContentAsTextGenerator`). Its text
      stays `null` when reading the bitstream's content failed. */
  datatype TextGen = TextGen(text: Option<string>, format: Option<string>)

  datatype TextContent = TextContent(text: string, format: Option<string>)

  /** A text body cannot be generated without its text. */
  function GenerateText(t: TextGen): (res: Result<TextContent>)
    ensures res.Fail? <==> t.text.None?
    ensures res.Ok? ==> res.value.text == t.text.value && res.value.format == t.format
  {
    match t.text
    case None => Fail(RuntimeError("Missing required text for the text annotation."))
    case Some(s) => Ok(TextContent(s, t.format))
  }

  datatype Body = CanvasBody(canvas: Canvas.CanvasResource) | TextBody(content: TextContent) | LinkBody(link: Link)

  /** The place of each kind of body in a generated annotation. */
  function Rank(b: Body): nat {
    match b
    case CanvasBody(_) => 0
    case TextBody(_) => 1
    case LinkBody(_) => 2
  }

  /** The fields of one `AnnotationGenerator`. */
  datatype AnnotationGen = AnnotationGen(
    identifier: Option<string>,
    langTag: Option<string>,
    motivation: Option<string>,
    onCanvas: Option<Canvas.CanvasGen>,
    text: Option<TextGen>,
    link: Option<Link>,
    metadata: seq<EntryGen>)

  /** A generated annotation: its id, its bodies, and its metadata, which is
      absent when no entry was set. */
  datatype Annotation = Annotation(id: string, bodies: seq<Body>, metadata: Option<seq<Metadata>>)

  /** The constructor: an empty identifier is refused. */
  function NewAnnotation(identifier: string, langTag: Option<string>): (res: Result<AnnotationGen>)
    ensures res.Fail? <==> identifier == ""
    ensures res.Ok? ==> res.value.identifier == Some(identifier) && res.value.langTag == langTag
    ensures res.Ok? ==> res.value.onCanvas.None? && res.value.text.None? && res.value.link.None? && res.value.metadata == []
  {
    if identifier == "" then Fail(IllegalArgument("Invalid annotation identifier. Cannot be an empty string."))
    else Ok(AnnotationGen(Some(identifier), langTag, None, None, None, None, []))
  }

  function SetMotivation(a: AnnotationGen, motivation: string): AnnotationGen {
    a.(motivation := Some(motivation))
  }

  function SetOnCanvas(a: AnnotationGen, canvas: Canvas.CanvasGen): AnnotationGen {
    a.(onCanvas := Some(canvas))
  }

  /** `setText`: only the text body changes; an annotation whose text is
      `null` cannot be generated. */
  function SetText(a: AnnotationGen, text: TextGen): (a': AnnotationGen)
    ensures a'.text == Some(text) && a'.(text := a.text) == a
    ensures forall isUri: string -> bool ::
      GenerateAnnotation(a', isUri).Ok? <==> GenerateAnnotation(a.(text := None), isUri).Ok? && text.text.Some?
  {
    a.(text := Some(text))
  }

  /** `setLink`: only the link body changes; the annotation then generates
      exactly when it does without a link and the link's id is a URI. */
  function SetLink(a: AnnotationGen, link: Link): (a': AnnotationGen)
    ensures a'.link == Some(link) && a'.(link := a.link) == a
    ensures forall isUri: string -> bool ::
      GenerateAnnotation(a', isUri).Ok? <==> GenerateAnnotation(a.(link := None), isUri).Ok? && isUri(link.id)
  {
    a.(link := Some(link))
  }

  /** `setMetadata`: appends the entries to those already set. */
  function SetMetadata(a: AnnotationGen, entries: seq<EntryGen>): AnnotationGen {
    a.(metadata := a.metadata + entries)
  }

  /** The metadata entries, each generated with the annotation's language tag. */
  function Entries(entries: seq<EntryGen>, langTag: Option<string>): (ms: seq<Metadata>)
    ensures |ms| == |entries|
    ensures forall k :: 0 <= k < |entries| ==> ms[k].values == AllValues(entries[k]) && ms[k].lang == langTag
  {
    seq(|entries|, k requires 0 <= k < |entries| => GenerateEntry(entries[k], langTag))
  }

  /** The body of each kind, when that kind is set and generates. */
  function CanvasPart(a: AnnotationGen): Result<seq<Body>> {
    match a.onCanvas
    case None => Ok([])
    case Some(c) =>
      var r :- Canvas.Generate(c);
      Ok([CanvasBody(r)])
  }

  function TextPart(a: AnnotationGen): Result<seq<Body>> {
    match a.text
    case None => Ok([])
    case Some(t) =>
      var r :- GenerateText(t);
      Ok([TextBody(r)])
  }

  /** The link body: its id is parsed as a URI. */
  function LinkPart(a: AnnotationGen, isUri: string -> bool): Result<seq<Body>> {
    match a.link
    case None => Ok([])
    case Some(l) => if isUri(l.id) then Ok([LinkBody(l)]) else Fail(NotAUri)
  }

  /** What `URI.create` throws on a string that is not a URI. */
  const NotAUri := IllegalArgument("not a URI")

  /** An annotation generates when it has its identifier, that identifier
      is a URI, each body that is set generates, and a link's id is a URI.
      `isUri` stands for `URI.create` succeeding. */
  predicate Generates(a: AnnotationGen, isUri: string -> bool) {
    && a.identifier.Some?
    && isUri(a.identifier.value)
    && (a.link.Some? ==> isUri(a.link.value.id))
    && (a.onCanvas.Some? ==> Canvas.CanGenerate(a.onCanvas.value))
    && (a.text.Some? ==> a.text.value.text.Some?)
  }

  /** `generateResource`: the identifier is checked, then parsed as a URI;
      then the canvas, the text and the link are generated, the link
      parsing its id as a URI. */
  function GenerateAnnotation(a: AnnotationGen, isUri: string -> bool): (res: Result<Annotation>)
    ensures res.Ok? <==> Generates(a, isUri)
    ensures res.Fail? && a.identifier.Some? && !isUri(a.identifier.value) ==> res.failure.IllegalArgument?
    ensures res.Ok? ==> res.value.id == a.identifier.value
    ensures res.Ok? ==> (res.value.metadata.None? <==> a.metadata == [])
    ensures res.Ok? && a.metadata != [] ==> res.value.metadata == Some(Entries(a.metadata, a.langTag))
  {
    if a.identifier.None? then Fail(RuntimeError("Missing the required identifier for the annotation page."))
    else if !isUri(a.identifier.value) then Fail(NotAUri)
    else
      var canvas :- CanvasPart(a);
      var text :- TextPart(a);
      var link :- LinkPart(a, isUri);
      var bodies := canvas + text + link;
      Ok(Annotation(a.identifier.value, bodies, if a.metadata == [] then None else Some(Entries(a.metadata, a.langTag))))
  }

  /** The bodies of a generated annotation: at most one of each kind, in
      the order canvas, text, link, and each kind present exactly when it
      was set. */
  lemma AnnotationBodies(a: AnnotationGen, isUri: string -> bool)
    requires Generates(a, isUri)
    ensures var bodies := GenerateAnnotation(a, isUri).value.bodies;
      && (forall i, j :: 0 <= i < j < |bodies| ==> Rank(bodies[i]) < Rank(bodies[j]))
      && (forall l :: LinkBody(l) in bodies <==> a.link == Some(l))
      && (forall t :: TextBody(t) in bodies <==> a.text.Some? && GenerateText(a.text.value) == Ok(t))
      && (forall c :: CanvasBody(c) in bodies <==> a.onCanvas.Some? && Canvas.Generate(a.onCanvas.value) == Ok(c))
  {
    if a.onCanvas.Some? {
      Canvas.GenerateOk(a.onCanvas.value);
    }
  }

  /** Generation does not read the motivation. */
  lemma MotivationUnread(a: AnnotationGen, motivation: string, isUri: string -> bool)
    ensures GenerateAnnotation(SetMotivation(a, motivation), isUri) == GenerateAnnotation(a, isUri)
  {
  }

  /** Setting a link on a generated annotation: it still generates exactly
      when the link's id is a URI, and then only its link body is replaced;
      the canvas and text bodies stay as they were. */
  lemma SetLinkReplacesLink(a: AnnotationGen, l: Link, isUri: string -> bool)
    requires GenerateAnnotation(a, isUri).Ok?
    ensures GenerateAnnotation(SetLink(a, l), isUri).Ok? <==> isUri(l.id)
    ensures isUri(l.id) ==>
      var before := GenerateAnnotation(a, isUri).value.bodies;
      var after := GenerateAnnotation(SetLink(a, l), isUri).value.bodies;
      && LinkBody(l) in after
      && (forall b :: b in before && !b.LinkBody? ==> b in after)
      && |after| == |before| + (if a.link.None? then 1 else 0)
  {
  }

  // ---------------------------------------------------------------------
  // Annotation lists.

  /** The fields of one `AnnotationListGenerator`: the annotations are
      stored already generated. */
  datatype ListGen = ListGen(identifier: Option<string>, annotations: seq<Annotation>)

  /** A generated list: its id and its annotations. */
  datatype AnnotationPage = AnnotationPage(id: string, items: seq<Annotation>)

  function NewListGen(): ListGen {
    ListGen(None, [])
  }

  /** `setIdentifier`: overwrites any previous identifier. */
  function SetListIdentifier(l: ListGen, identifier: string): (l': ListGen)
    ensures l'.identifier == Some(identifier) && l'.annotations == l.annotations
  {
    l.(identifier := Some(identifier))
  }

  /** `addResource`: generates the annotation (a failure propagates) and
      appends it. */
  function AddResource(l: ListGen, a: AnnotationGen, isUri: string -> bool): (res: Result<ListGen>)
    ensures res.Ok? <==> GenerateAnnotation(a, isUri).Ok?
    ensures res.Ok? ==> res.value.annotations == l.annotations + [GenerateAnnotation(a, isUri).value]
    ensures res.Ok? ==> res.value.identifier == l.identifier
  {
    var r :- GenerateAnnotation(a, isUri);
    Ok(l.(annotations := l.annotations + [r]))
  }

  /** `generateResource`: the identifier is checked, then parsed as a URI. */
  function GenerateList(l: ListGen, isUri: string -> bool): (res: Result<AnnotationPage>)
    ensures res.Fail? <==> l.identifier.None? || !isUri(l.identifier.value)
    ensures res.Fail? && l.identifier.Some? ==> res.failure.IllegalArgument?
    ensures res.Ok? ==> res.value.id == l.identifier.value && res.value.items == l.annotations
  {
    match l.identifier
    case None => Fail(RuntimeError("Missing the required identifier for the annotation page."))
    case Some(id) => if isUri(id) then Ok(AnnotationPage(id, l.annotations)) else Fail(NotAUri)
  }

  /** Adding annotations one after another. */
  function AddResources(l: ListGen, as_: seq<AnnotationGen>, isUri: string -> bool): (res: Result<ListGen>)
    ensures res.Ok? ==> res.value.identifier == l.identifier
    ensures res.Ok? ==> |res.value.annotations| == |l.annotations| + |as_|
    ensures res.Ok? ==> res.value.annotations[..|l.annotations|] == l.annotations
    decreases |as_|
  {
    if |as_| == 0 then Ok(l)
    else
      var l1 :- AddResources(l, as_[..|as_| - 1], isUri);
      AddResource(l1, as_[|as_| - 1], isUri)
  }

  predicate AllGenerate(as_: seq<AnnotationGen>, isUri: string -> bool) {
    forall k :: 0 <= k < |as_| ==> Generates(as_[k], isUri)
  }

  /** The annotations of `as_`, generated. */
  function GeneratedAll(as_: seq<AnnotationGen>, isUri: string -> bool): (rs: seq<Annotation>)
    requires AllGenerate(as_, isUri)
    ensures |rs| == |as_| && forall k :: 0 <= k < |as_| ==> GenerateAnnotation(as_[k], isUri) == Ok(rs[k])
  {
    seq(|as_|, k requires 0 <= k < |as_| && AllGenerate(as_, isUri) => GenerateAnnotation(as_[k], isUri).value)
  }

  /** A run of additions fails exactly when one annotation does not
      generate; otherwise the identifier is kept. */
  lemma {:induction false} AddResourcesOk(l: ListGen, as_: seq<AnnotationGen>, isUri: string -> bool)
    ensures AddResources(l, as_, isUri).Ok? <==> AllGenerate(as_, isUri)
    ensures AllGenerate(as_, isUri) ==> AddResources(l, as_, isUri).value.identifier == l.identifier
    decreases |as_|
  {
    if |as_| > 0 {
      var init := as_[..|as_| - 1];
      AddResourcesOk(l, init, isUri);
      assert forall k :: 0 <= k < |init| ==> init[k] == as_[k];
    }
  }

  /** Every added annotation appears once, generated, in order, after those
      already there. */
  lemma {:induction false} AddResourcesOrder(l: ListGen, as_: seq<AnnotationGen>, isUri: string -> bool)
    requires AllGenerate(as_, isUri)
    ensures AddResources(l, as_, isUri).Ok?
    ensures AddResources(l, as_, isUri).value.annotations == l.annotations + GeneratedAll(as_, isUri)
    decreases |as_|
  {
    AddResourcesOk(l, as_, isUri);
    if |as_| > 0 {
      var init := as_[..|as_| - 1];
      assert forall k :: 0 <= k < |init| ==> init[k] == as_[k];
      AddResourcesOrder(l, init, isUri);
      AddResourcesOk(l, init, isUri);
      assert GeneratedAll(as_, isUri) == GeneratedAll(init, isUri) + [GenerateAnnotation(as_[|as_| - 1], isUri).value];
    }
  }
}
