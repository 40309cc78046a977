/** One v3 canvas under construction (`CanvasGenerator`).

    The identifier is fixed at construction and must not be empty. Width
    and height are only ever set together. The generated canvas carries its
    dimensions and thumbnails only when a thumbnail was set, and it is then
    an error for the dimensions to be missing. */
module Canvas {
  import opened Wrappers
  import opened MetadataEntry

  /** An image resource, identified by its id. */
  datatype ImageContent = ImageContent(id: string)

  /** The fields of one `CanvasGenerator`. */
  datatype CanvasGen = CanvasGen(
    identifier: string,
    labelValue: Option<string>,
    width: Option<int>,
    height: Option<int>,
    images: seq<ImageContent>,
    thumbnail: Option<ImageContent>,
    metadata: seq<Metadata>)

  /** A generated canvas. `thumbnails` lists, in order, the resources the
      generator hands to the canvas as thumbnails. */
  datatype CanvasResource = CanvasResource(
    id: string,
    labelValue: Option<string>,
    size: Option<(int, int)>,
    thumbnails: seq<ImageContent>,
    metadata: seq<Metadata>)

  /** The constructor: an empty identifier is refused. */
  function NewCanvas(identifier: string): (res: Result<CanvasGen>)
    ensures res.Fail? <==> identifier == ""
    ensures res.Ok? ==> res.value.identifier == identifier
    ensures res.Ok? ==>
      && res.value.labelValue.None? && res.value.thumbnail.None? && res.value.width.None?
      && res.value.height.None? && res.value.images == [] && res.value.metadata == []
  {
    if identifier == "" then Fail(RuntimeError("Invalid canvas identifier. Cannot be an empty string."))
    else Ok(CanvasGen(identifier, None, None, None, [], None, []))
  }

  /** Width and height are both set or both unset. */
  predicate SizeTogether(c: CanvasGen) {
    c.width.Some? == c.height.Some?
  }

  /** `setLabel`: only the label changes, and it never decides whether
      the canvas generates. */
  function SetLabel(c: CanvasGen, text: string): (r: CanvasGen)
    ensures r.labelValue == Some(text) && r.(labelValue := c.labelValue) == c
    ensures Generate(r).Ok? <==> Generate(c).Ok?
  {
    c.(labelValue := Some(text))
  }

  /** `setWidth` and `setHeight`, which are always called together: once
      both are set the canvas always generates. */
  function SetWidthHeight(c: CanvasGen, width: int, height: int): (r: CanvasGen)
    ensures r.width == Some(width) && r.height == Some(height) && SizeTogether(r)
    ensures r.(width := c.width, height := c.height) == c
    ensures Generate(r).Ok?
  {
    c.(width := Some(width), height := Some(height))
  }

  /** `addImage`: the image goes last and the earlier ones are kept. */
  function AddImage(c: CanvasGen, image: ImageContent): (r: CanvasGen)
    ensures |r.images| == |c.images| + 1 && r.images[..|c.images|] == c.images && r.images[|c.images|] == image
    ensures r.(images := c.images) == c
  {
    c.(images := c.images + [image])
  }

  /** `addThumbnail`: a later thumbnail replaces an earlier one, and from
      then on the canvas generates only with both dimensions set. */
  function AddThumbnail(c: CanvasGen, thumbnail: ImageContent): (r: CanvasGen)
    ensures r.thumbnail == Some(thumbnail) && r.(thumbnail := c.thumbnail) == c
    ensures Generate(r).Ok? <==> c.width.Some? && c.height.Some?
  {
    c.(thumbnail := Some(thumbnail))
  }

  /** `addMetadata(field, value, rest...)`: one entry built by a fresh
      entry generator, appended after the entries already there, labelled
      by the field and holding the value and then every further value. */
  function AddMetadata(c: CanvasGen, field: string, value: string, rest: seq<string>, langTag: Option<string>): (r: CanvasGen)
    ensures |r.metadata| == |c.metadata| + 1 && r.metadata[..|c.metadata|] == c.metadata
    ensures var m := r.metadata[|c.metadata|];
      && m.lang == langTag && m.labelKey == "metadata." + field
      && |m.values| == |rest| + 1 && m.values[0] == Some(value)
      && forall k :: 0 <= k < |rest| ==> m.values[k + 1] == Some(rest[k])
    ensures r.(metadata := c.metadata) == c
  {
    c.(metadata := c.metadata + [GenerateEntry(SetValue(SetField(NewEntryGen(), field), value, rest), langTag)])
  }

  /** `generateResource`. */
  function Generate(c: CanvasGen): (res: Result<CanvasResource>)
    ensures res.Fail? <==> c.thumbnail.Some? && (c.width.None? || c.height.None?)
    ensures res.Ok? ==> res.value.id == c.identifier && res.value.labelValue == c.labelValue
    ensures res.Ok? ==> res.value.metadata == c.metadata
    ensures res.Ok? ==> (res.value.size.Some? <==> c.thumbnail.Some?)
    ensures res.Ok? && c.thumbnail.Some? ==>
      res.value.size == Some((c.width.value, c.height.value))
      && res.value.thumbnails == c.images + [c.thumbnail.value]
    ensures res.Ok? && c.thumbnail.None? ==> res.value.thumbnails == []
  {
    match c.thumbnail
    case None => Ok(CanvasResource(c.identifier, c.labelValue, None, [], c.metadata))
    case Some(t) =>
      if c.height.None? || c.width.None? then
        Fail(RuntimeError("The Canvas resource requires both height and width dimensions."))
      else
        Ok(CanvasResource(c.identifier, c.labelValue, Some((c.width.value, c.height.value)), c.images + [t], c.metadata))
  }

  /** The dimension rule on its own: a thumbnail needs both dimensions. */
  predicate CanGenerate(c: CanvasGen) {
    c.thumbnail.Some? ==> c.width.Some? && c.height.Some?
  }

  /** Generation succeeds exactly when the dimension rule holds. */
  lemma GenerateOk(c: CanvasGen)
    ensures Generate(c).Ok? <==> CanGenerate(c)
  {
  }

  // ---------------------------------------------------------------------
  // Any sequence of setter calls on a new generator.

  datatype CanvasCall =
    | LabelCall(text: string)
    | SizeCall(width: int, height: int)
    | ImageCall(image: ImageContent)
    | ThumbnailCall(thumbnail: ImageContent)
    | MetadataCall(field: string, value: string, rest: seq<string>, langTag: Option<string>)

  function Step(c: CanvasGen, call: CanvasCall): CanvasGen {
    match call
    case LabelCall(text) => SetLabel(c, text)
    case SizeCall(w, h) => SetWidthHeight(c, w, h)
    case ImageCall(image) => AddImage(c, image)
    case ThumbnailCall(t) => AddThumbnail(c, t)
    case MetadataCall(field, value, rest, langTag) => AddMetadata(c, field, value, rest, langTag)
  }

  function Apply(c: CanvasGen, calls: seq<CanvasCall>): CanvasGen
    decreases |calls|
  {
    if |calls| == 0 then c else Step(Apply(c, calls[..|calls| - 1]), calls[|calls| - 1])
  }

  /** Some call in `calls` sets the dimensions. */
  predicate SetsSize(calls: seq<CanvasCall>) {
    exists k :: 0 <= k < |calls| && calls[k].SizeCall?
  }

  /** Some call in `calls` sets a thumbnail. */
  predicate SetsThumbnail(calls: seq<CanvasCall>) {
    exists k :: 0 <= k < |calls| && calls[k].ThumbnailCall?
  }

  /** The images added by `calls`, in call order. */
  function ImageCalls(calls: seq<CanvasCall>): seq<ImageContent> {
    if |calls| == 0 then []
    else ImageCalls(calls[..|calls| - 1]) + (if calls[|calls| - 1].ImageCall? then [calls[|calls| - 1].image] else [])
  }

  /** A size or thumbnail call is among `calls` exactly when it is among all
      but the last or is the last. */
  lemma CallsSnoc(calls: seq<CanvasCall>)
    requires |calls| > 0
    ensures SetsSize(calls) <==> SetsSize(calls[..|calls| - 1]) || calls[|calls| - 1].SizeCall?
    ensures SetsThumbnail(calls) <==> SetsThumbnail(calls[..|calls| - 1]) || calls[|calls| - 1].ThumbnailCall?
  {
    var init := calls[..|calls| - 1];
    assert forall k :: 0 <= k < |init| ==> init[k] == calls[k];
  }

  /** What one setter call does to the fields `ApplyFields` follows. */
  lemma StepFields(c: CanvasGen, call: CanvasCall)
    requires SizeTogether(c)
    ensures var r := Step(c, call);
      && r.identifier == c.identifier && SizeTogether(r)
      && r.images == c.images + (if call.ImageCall? then [call.image] else [])
      && (r.width.Some? <==> c.width.Some? || call.SizeCall?)
      && (r.thumbnail.Some? <==> c.thumbnail.Some? || call.ThumbnailCall?)
  {
  }

  /** The setter calls never change the identifier, keep width and height
      together, add images in call order, and leave a thumbnail and
      dimensions exactly when some call set them. */
  lemma {:induction false} ApplyFields(c: CanvasGen, calls: seq<CanvasCall>)
    requires SizeTogether(c)
    ensures Apply(c, calls).identifier == c.identifier
    ensures SizeTogether(Apply(c, calls))
    ensures Apply(c, calls).images == c.images + ImageCalls(calls)
    ensures Apply(c, calls).width.Some? <==> c.width.Some? || SetsSize(calls)
    ensures Apply(c, calls).thumbnail.Some? <==> c.thumbnail.Some? || SetsThumbnail(calls)
    decreases |calls|
  {
    if |calls| > 0 {
      var init := calls[..|calls| - 1];
      var last := calls[|calls| - 1];
      ApplyFields(c, init);
      StepFields(Apply(c, init), last);
      CallsSnoc(calls);
    }
  }

  /** The dimension rule over every call sequence: a canvas built from a
      new generator fails to generate exactly when a thumbnail was set and
      the dimensions never were. Without a thumbnail there is no check. */
  lemma GenerateAfterCalls(identifier: string, calls: seq<CanvasCall>)
    requires identifier != ""
    ensures Generate(Apply(NewCanvas(identifier).value, calls)).Fail? <==> SetsThumbnail(calls) && !SetsSize(calls)
    ensures Generate(Apply(NewCanvas(identifier).value, calls)).Ok? ==>
      Generate(Apply(NewCanvas(identifier).value, calls)).value.id == identifier
  {
    ApplyFields(NewCanvas(identifier).value, calls);
  }
}
