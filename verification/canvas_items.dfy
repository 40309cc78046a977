/** The v3 canvas sequence of one item (`CanvasItemsGenerator`) and the
    service that fills it (`CanvasItemsService`).

    The service keeps one ordinal counter for the whole request. Each canvas
    is built for the current ordinal, appended to the sequence, and only then
    is the counter moved on, so consecutive canvases get 0, 1, 2, ... whatever
    bundle their bitstreams come from. */
module CanvasItems {
  import opened Wrappers
  import opened Canvas

  /** The fields of one `CanvasItemsGenerator`. */
  datatype ItemsGen = ItemsGen(identifier: Option<string>, language: Option<string>, canvases: seq<CanvasResource>)

  /** The generated sequence resource. */
  datatype Sequence = Sequence(id: Option<string>, language: Option<string>, canvases: seq<CanvasResource>)

  function NewItemsGen(): ItemsGen {
    ItemsGen(None, None, [])
  }

  /** `setIdentifier`: overwrites whatever was set before; nothing else changes. */
  function SetIdentifier(g: ItemsGen, identifier: string): (g': ItemsGen)
    ensures g'.identifier == Some(identifier)
    ensures g'.language == g.language && g'.canvases == g.canvases
  {
    g.(identifier := Some(identifier))
  }

  function DefaultLanguage(g: ItemsGen, language: string): ItemsGen {
    g.(language := Some(language))
  }

  /** `addCanvas`: generates the canvas (whose failure propagates), appends
      it and returns its id. */
  function AddCanvas(g: ItemsGen, canvas: CanvasGen): (res: Result<(ItemsGen, string)>)
    ensures res.Ok? <==> Generate(canvas).Ok?
    ensures res.Ok? ==> res.value.0.canvases == g.canvases + [Generate(canvas).value]
    ensures res.Ok? ==> res.value.1 == canvas.identifier
    ensures res.Ok? ==> res.value.0.identifier == g.identifier && res.value.0.language == g.language
  {
    var resource :- Generate(canvas);
    Ok((g.(canvases := g.canvases + [resource]), resource.id))
  }

  /** `generateResource`: the stored identifier and language, and the
      canvases in the order they were added. */
  function GenerateSequence(g: ItemsGen): Sequence {
    Sequence(g.identifier, g.language, g.canvases)
  }

  /** The state of one `CanvasItemsService`: its counter and its generator. */
  datatype ItemsService = ItemsService(counter: nat, generator: ItemsGen)

  /** A new service: the counter starts at 0. */
  function NewItemsService(): (s: ItemsService)
    ensures s.counter == 0 && s.generator.canvases == []
  {
    ItemsService(0, NewItemsGen())
  }

  /** The id of the sequence of item `itemId` under the IIIF endpoint. */
  function SequenceId(endpoint: string, itemId: string): string {
    endpoint + itemId + "/item/i0"
  }

  /** `getSequence`: names the sequence after the item and returns the generator. */
  function GetSequence(s: ItemsService, endpoint: string, itemId: string): (res: (ItemsService, ItemsGen))
    ensures res.1 == res.0.generator && res.1.identifier == Some(SequenceId(endpoint, itemId))
    ensures res.0.counter == s.counter && res.1.canvases == s.generator.canvases
  {
    var g := SetIdentifier(s.generator, SequenceId(endpoint, itemId));
    (s.(generator := g), g)
  }

  /** `addCanvas` of the service: asks `getCanvas` for the canvas of
      bitstream `b` at the current ordinal, appends it to the sequence, then
      increments the counter, and returns the canvas generator. */
  function AddCanvasFor<B>(s: ItemsService, b: B, getCanvas: (B, nat) -> CanvasGen): (res: Result<(ItemsService, CanvasGen)>)
    ensures res.Ok? <==> Generate(getCanvas(b, s.counter)).Ok?
    ensures res.Ok? ==> res.value.1 == getCanvas(b, s.counter)
    ensures res.Ok? ==> res.value.0.counter == s.counter + 1
    ensures res.Ok? ==> res.value.0.generator.canvases == s.generator.canvases + [Generate(res.value.1).value]
    ensures res.Ok? ==> res.value.0.generator.identifier == s.generator.identifier
  {
    var canvas := getCanvas(b, s.counter);
    var added :- AddCanvas(s.generator, canvas);
    Ok((ItemsService(s.counter + 1, added.0), canvas))
  }

  /** Adding the canvases of `bs` one after another. */
  function AddCanvases<B>(s: ItemsService, bs: seq<B>, getCanvas: (B, nat) -> CanvasGen): (res: Result<ItemsService>)
    ensures res.Ok? ==> res.value.counter == s.counter + |bs| && res.value.generator.identifier == s.generator.identifier
    ensures res.Ok? ==> |res.value.generator.canvases| == |s.generator.canvases| + |bs|
    ensures res.Ok? ==> res.value.generator.canvases[..|s.generator.canvases|] == s.generator.canvases
    decreases |bs|
  {
    if |bs| == 0 then Ok(s)
    else
      var s1 :- AddCanvases(s, bs[..|bs| - 1], getCanvas);
      var r :- AddCanvasFor(s1, bs[|bs| - 1], getCanvas);
      Ok(r.0)
  }

  /** Every bitstream's canvas, built for consecutive ordinals from `c0`,
      passes the dimension rule. */
  predicate AllGenerate<B>(c0: nat, bs: seq<B>, getCanvas: (B, nat) -> CanvasGen) {
    forall i :: 0 <= i < |bs| ==> CanGenerate(getCanvas(bs[i], c0 + i))
  }

  lemma AllGenerateSnoc<B>(c0: nat, bs: seq<B>, getCanvas: (B, nat) -> CanvasGen)
    requires |bs| > 0
    ensures AllGenerate(c0, bs, getCanvas) <==>
      AllGenerate(c0, bs[..|bs| - 1], getCanvas) && CanGenerate(getCanvas(bs[|bs| - 1], c0 + |bs| - 1))
  {
    var init := bs[..|bs| - 1];
    assert forall i :: 0 <= i < |init| ==> init[i] == bs[i];
  }

  /** The canvases built for the bitstreams of `bs`, for consecutive
      ordinals from `c0`. */
  function Built<B>(c0: nat, bs: seq<B>, getCanvas: (B, nat) -> CanvasGen): (rs: seq<CanvasResource>)
    requires AllGenerate(c0, bs, getCanvas)
    ensures |rs| == |bs|
    decreases |bs|
  {
    if |bs| == 0 then []
    else
      AllGenerateSnoc(c0, bs, getCanvas);
      Built(c0, bs[..|bs| - 1], getCanvas) + [Generate(getCanvas(bs[|bs| - 1], c0 + |bs| - 1)).value]
  }

  /** The `i`-th built canvas is the one `getCanvas` gives for the `i`-th
      bitstream at ordinal `c0 + i`. */
  lemma {:induction false} BuiltAt<B>(c0: nat, bs: seq<B>, getCanvas: (B, nat) -> CanvasGen, i: nat)
    requires AllGenerate(c0, bs, getCanvas) && i < |bs|
    ensures Generate(getCanvas(bs[i], c0 + i)) == Ok(Built(c0, bs, getCanvas)[i])
    decreases |bs|
  {
    AllGenerateSnoc(c0, bs, getCanvas);
    if i < |bs| - 1 {
      var init := bs[..|bs| - 1];
      BuiltAt(c0, init, getCanvas, i);
      assert init[i] == bs[i];
    }
  }

  /** A run of bitstreams fails exactly when one of their canvases, built
      for consecutive ordinals from the counter's value, breaks the
      dimension rule; otherwise the counter ends `|bs|` further on and the
      sequence keeps its identifier. */
  lemma {:induction false} AddCanvasesOk<B>(s: ItemsService, bs: seq<B>, getCanvas: (B, nat) -> CanvasGen)
    ensures AddCanvases(s, bs, getCanvas).Ok? <==> AllGenerate(s.counter, bs, getCanvas)
    ensures AddCanvases(s, bs, getCanvas).Ok? ==>
      && AddCanvases(s, bs, getCanvas).value.counter == s.counter + |bs|
      && AddCanvases(s, bs, getCanvas).value.generator.identifier == s.generator.identifier
    decreases |bs|
  {
    if |bs| > 0 {
      AddCanvasesOk(s, bs[..|bs| - 1], getCanvas);
      AllGenerateSnoc(s.counter, bs, getCanvas);
    }
  }

  /** The sequence holds the canvases built for the run, in bitstream
      order, after the canvases already there. */
  lemma {:induction false} AddCanvasesOrdinals<B>(s: ItemsService, bs: seq<B>, getCanvas: (B, nat) -> CanvasGen)
    requires AllGenerate(s.counter, bs, getCanvas)
    ensures AddCanvases(s, bs, getCanvas).Ok?
    ensures AddCanvases(s, bs, getCanvas).value.generator.canvases == s.generator.canvases + Built(s.counter, bs, getCanvas)
    decreases |bs|
  {
    AddCanvasesOk(s, bs, getCanvas);
    if |bs| > 0 {
      var init := bs[..|bs| - 1];
      AllGenerateSnoc(s.counter, bs, getCanvas);
      AddCanvasesOrdinals(s, init, getCanvas);
      AddCanvasesOk(s, init, getCanvas);
      AppendStep(AddCanvases(s, init, getCanvas).value, bs[|bs| - 1], getCanvas);
    }
  }

  lemma AppendStep<B>(s1: ItemsService, b: B, getCanvas: (B, nat) -> CanvasGen)
    requires CanGenerate(getCanvas(b, s1.counter))
    ensures AddCanvasFor(s1, b, getCanvas).Ok?
    ensures AddCanvasFor(s1, b, getCanvas).value.0.generator.canvases
      == s1.generator.canvases + [Generate(getCanvas(b, s1.counter)).value]
  {
  }
}
