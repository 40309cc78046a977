/** The manifest of one item (`ManifestService`): the dimension flag, the
    canvas and range loop, and the renderings.

    The loop sets the root range first, then, when dimensions are to be
    guessed, guesses them once, and then walks the IIIF bundles in order and
    their bitstreams in order. Each bitstream's canvas is appended to the
    sequence and the ranges are updated for it straight away. The ranges go
    into the manifest only when the TOC map holds something: the root first,
    then the TOC ranges in insertion order. */
module Manifest {
  import opened Wrappers
  import Seqs
  import opened JavaStrings
  import opened Content
  import RangeGenerator
  import RangeService
  import Canvas
  import CanvasItems
  import opened ItemMetadata
  import Links

  /** The configuration the service reads. */
  datatype Config = Config(
    defaultWidth: Option<string>,
    defaultHeight: Option<string>,
    metadataFields: seq<string>,
    renderingBundle: Option<string>,
    renderingItemLabel: Option<string>)

  /** Dimensions are guessed only when neither default is configured. */
  predicate GuessDimensions(c: Config) {
    c.defaultWidth.None? && c.defaultHeight.None?
  }

  // ---------------------------------------------------------------------
  // The pages of the manifest.

  /** One IIIF bundle as the loop sees it: its own TOC prefix and its IIIF
      bitstreams. */
  datatype PageBundle = PageBundle(tocPrefix: Option<string>, pages: seq<Bitstream>)

  /** One bitstream of the loop: the index of its bundle, the bitstream, and
      the TOC prefix its range update is given. */
  datatype Page = Page(bundle: nat, bitstream: Bitstream, prefix: Option<string>)

  /** The pages of bundle `i`, in bitstream order. */
  function BundlePages(i: nat, b: PageBundle, usePrefix: bool): (ps: seq<Page>)
    ensures |ps| == |b.pages|
    ensures forall j :: 0 <= j < |ps| ==> ps[j] == Page(i, b.pages[j], if usePrefix then b.tocPrefix else None)
  {
    seq(|b.pages|, j requires 0 <= j < |b.pages| => Page(i, b.pages[j], if usePrefix then b.tocPrefix else None))
  }

  /** The pages of all bundles, bundle by bundle. */
  function PagesOf(bundles: seq<PageBundle>, usePrefix: bool): seq<Page>
    decreases |bundles|
  {
    if |bundles| == 0 then []
    else PagesOf(bundles[..|bundles| - 1], usePrefix) + BundlePages(|bundles| - 1, bundles[|bundles| - 1], usePrefix)
  }

  /** The number of bitstreams of the bundles. */
  function PageCount(bundles: seq<PageBundle>): nat
    decreases |bundles|
  {
    if |bundles| == 0 then 0
    else PageCount(bundles[..|bundles| - 1]) + |bundles[|bundles| - 1].pages|
  }

  /** The loop's pages: a bundle's TOC prefix is looked up only when there
      is more than one IIIF bundle. */
  function Pages(bundles: seq<PageBundle>): seq<Page> {
    PagesOf(bundles, |bundles| > 1)
  }

  lemma {:induction false} PagesOfLength(bundles: seq<PageBundle>, usePrefix: bool)
    ensures |PagesOf(bundles, usePrefix)| == PageCount(bundles)
    decreases |bundles|
  {
    if |bundles| > 0 {
      PagesOfLength(bundles[..|bundles| - 1], usePrefix);
    }
  }

  /** Bitstream `j` of bundle `i` is the page after all the bitstreams of
      the bundles before `i` and the first `j` of bundle `i`, and it is given
      its bundle's prefix only when there is more than one bundle. */
  lemma {:induction false} PagesAt(bundles: seq<PageBundle>, i: nat, j: nat)
    requires i < |bundles| && j < |bundles[i].pages|
    ensures PageCount(bundles[..i]) + j < |Pages(bundles)|
    ensures Pages(bundles)[PageCount(bundles[..i]) + j]
      == Page(i, bundles[i].pages[j], if |bundles| > 1 then bundles[i].tocPrefix else None)
  {
    PagesOfAt(bundles, |bundles| > 1, i, j);
  }

  lemma {:induction false} PagesOfAt(bundles: seq<PageBundle>, usePrefix: bool, i: nat, j: nat)
    requires i < |bundles| && j < |bundles[i].pages|
    ensures PageCount(bundles[..i]) + j < |PagesOf(bundles, usePrefix)|
    ensures PagesOf(bundles, usePrefix)[PageCount(bundles[..i]) + j]
      == Page(i, bundles[i].pages[j], if usePrefix then bundles[i].tocPrefix else None)
    decreases |bundles|
  {
    var n := |bundles|;
    var init := bundles[..n - 1];
    var a, tail := PagesOfSnoc(bundles, usePrefix);
    PagesOfLength(init, usePrefix);
    if i < n - 1 {
      assert init[..i] == bundles[..i];
      PagesOfAt(init, usePrefix, i, j);
      AppendLeft(a, tail, PageCount(bundles[..i]) + j);
    } else {
      assert bundles[..i] == init;
      AppendRight(a, tail, j);
    }
  }

  /** The pages of all bundles are those of all but the last, then the last's. */
  lemma PagesOfSnoc(bundles: seq<PageBundle>, usePrefix: bool) returns (a: seq<Page>, tail: seq<Page>)
    requires |bundles| > 0
    ensures a == PagesOf(bundles[..|bundles| - 1], usePrefix)
    ensures tail == BundlePages(|bundles| - 1, bundles[|bundles| - 1], usePrefix)
    ensures PagesOf(bundles, usePrefix) == a + tail
  {
    a := PagesOf(bundles[..|bundles| - 1], usePrefix);
    tail := BundlePages(|bundles| - 1, bundles[|bundles| - 1], usePrefix);
  }

  lemma AppendLeft<T>(a: seq<T>, b: seq<T>, k: nat)
    requires k < |a|
    ensures (a + b)[k] == a[k]
  {
  }

  lemma AppendRight<T>(a: seq<T>, b: seq<T>, j: nat)
    requires j < |b|
    ensures (a + b)[|a| + j] == b[j]
  {
  }

  // ---------------------------------------------------------------------
  // The canvas and range loop.

  /** What the loop does, in order. */
  datatype Event = RootSet | DimensionsGuessed | CanvasAdded(ordinal: nat, canvasId: string) | RangesUpdated(canvasId: string)

  /** The services the loop relies on: the canvas a page gets at an
      ordinal, the TOC entries of a bitstream under a prefix, the TOC
      separator and the root range's label. */
  datatype Collab = Collab(
    getCanvas: (Page, nat) -> Canvas.CanvasGen,
    getToCs: (Bitstream, Option<string>) -> seq<string>,
    sep: string,
    rootLabel: string)

  /** The id of the canvas page `p` gets at ordinal `n`. */
  function CanvasIdAt(ctx: Collab, p: Page, n: nat): string {
    ctx.getCanvas(p, n).identifier
  }

  /** The TOC entries page `p` is given. */
  function PageToCs(ctx: Collab, p: Page): seq<string> {
    ctx.getToCs(p.bitstream, p.prefix)
  }

  /** The state of the loop: the sequence service, the range service and
      what happened so far. */
  datatype Build = Build(items: CanvasItems.ItemsService, ranges: RangeService.RangeState, trace: seq<Event>)

  /** One page: add its canvas, then update the ranges with the canvas. */
  function AddPage(b: Build, p: Page, ctx: Collab): (res: Result<Build>)
    requires |ctx.sep| > 0
    ensures res.Ok? ==> Canvas.Generate(ctx.getCanvas(p, b.items.counter)).Ok?
    ensures res.Ok? ==> res.value.items.counter == b.items.counter + 1
    ensures res.Ok? ==>
      res.value.items.generator.canvases == b.items.generator.canvases + [Canvas.Generate(ctx.getCanvas(p, b.items.counter)).value]
    ensures res.Ok? ==> res.value.trace == b.trace + PageEvents(ctx, p, b.items.counter)
  {
    var added :- CanvasItems.AddCanvasFor(b.items, p, ctx.getCanvas);
    var id := added.1.identifier;
    var ranges :- RangeService.UpdateRanges(b.ranges, PageToCs(ctx, p), id, ctx.sep);
    Ok(Build(added.0, ranges, b.trace + [CanvasAdded(b.items.counter, id), RangesUpdated(id)]))
  }

  /** The pages one after another. */
  function AddPages(b: Build, ps: seq<Page>, ctx: Collab): (res: Result<Build>)
    requires |ctx.sep| > 0
    ensures res.Ok? ==> res.value.items.counter == b.items.counter + |ps|
    ensures res.Ok? ==> |res.value.trace| == |b.trace| + 2 * |ps| && res.value.trace[..|b.trace|] == b.trace
    ensures res.Ok? ==> res.value.trace == b.trace + PagesTrace(b.items.counter, ps, ctx)
    decreases |ps|, 1
  {
    if |ps| == 0 then assert b.trace + [] == b.trace; Ok(b) else AddLastPage(b, ps, ctx)
  }

  /** The pages before the last one, then the last one. */
  function AddLastPage(b: Build, ps: seq<Page>, ctx: Collab): (res: Result<Build>)
    requires |ctx.sep| > 0 && |ps| > 0
    ensures res.Ok? ==> res.value.items.counter == b.items.counter + |ps|
    ensures res.Ok? ==> |res.value.trace| == |b.trace| + 2 * |ps| && res.value.trace[..|b.trace|] == b.trace
    ensures res.Ok? ==> res.value.trace == b.trace + PagesTrace(b.items.counter, ps, ctx)
    decreases |ps|, 0
  {
    var b1 :- AddPages(b, ps[..|ps| - 1], ctx);
    var r := AddPage(b1, ps[|ps| - 1], ctx);
    assert r.Ok? ==> r.value.trace[..|b.trace|] == b1.trace[..|b.trace|];
    assert r.Ok? ==> r.value.trace == b.trace + PagesTrace(b.items.counter, ps, ctx) by {
      if r.Ok? {
        TraceSnoc(b.trace, b1.trace, r.value.trace, b.items.counter, ps, ctx, ps[..|ps| - 1]);
      }
    }
    r
  }

  /** A loop over at least one page fails when the earlier pages fail, and
      otherwise is the last page added after them. */
  lemma AddPagesLast(b: Build, ps: seq<Page>, ctx: Collab)
    requires |ctx.sep| > 0 && |ps| > 0
    ensures AddPages(b, ps[..|ps| - 1], ctx).Fail? ==> AddPages(b, ps, ctx).Fail?
    ensures AddPages(b, ps[..|ps| - 1], ctx).Ok? ==>
      AddPages(b, ps, ctx) == AddPage(AddPages(b, ps[..|ps| - 1], ctx).value, ps[|ps| - 1], ctx)
  {
    assert AddPages(b, ps, ctx) == AddLastPage(b, ps, ctx);
  }

  /** The TOC keys of every page of `ps`. */
  function PagesTocKeys(ps: seq<Page>, ctx: Collab): set<string>
    requires |ctx.sep| > 0
    decreases |ps|
  {
    if |ps| == 0 then {}
    else PagesTocKeys(ps[..|ps| - 1], ctx) + RangeService.TocKeys(PageToCs(ctx, ps[|ps| - 1]), ctx.sep)
  }

  /** From a valid range state, the loop fails exactly when some page's
      canvas breaks the dimension rule. Otherwise the sequence is the one
      the canvases alone would give, the range state stays valid, and the
      TOC map ends up holding exactly the old keys and the prefix keys of
      every page's TOC entries. */
  lemma AddPagesValid(b: Build, ps: seq<Page>, ctx: Collab)
    requires |ctx.sep| > 0 && RangeService.Valid(b.ranges)
    ensures AddPages(b, ps, ctx).Ok? <==> CanvasItems.AllGenerate(b.items.counter, ps, ctx.getCanvas)
    ensures AddPages(b, ps, ctx).Ok? ==>
      && CanvasItems.AddCanvases(b.items, ps, ctx.getCanvas) == Ok(AddPages(b, ps, ctx).value.items)
      && RangeService.Valid(AddPages(b, ps, ctx).value.ranges)
      && AddPages(b, ps, ctx).value.ranges.toc.Keys == b.ranges.toc.Keys + PagesTocKeys(ps, ctx)
  {
    AddPagesItems(b, ps, ctx);
    AddPagesRanges(b, ps, ctx);
    CanvasItems.AddCanvasesOk(b.items, ps, ctx.getCanvas);
  }

  /** The loop succeeds exactly when adding the canvases alone does, and
      then leaves the same sequence. */
  lemma {:induction false} AddPagesItems(b: Build, ps: seq<Page>, ctx: Collab)
    requires |ctx.sep| > 0 && RangeService.Valid(b.ranges)
    ensures AddPages(b, ps, ctx).Ok? <==> CanvasItems.AddCanvases(b.items, ps, ctx.getCanvas).Ok?
    ensures AddPages(b, ps, ctx).Ok? ==> CanvasItems.AddCanvases(b.items, ps, ctx.getCanvas) == Ok(AddPages(b, ps, ctx).value.items)
    decreases |ps|
  {
    if |ps| > 0 {
      var init := ps[..|ps| - 1];
      AddPagesLast(b, ps, ctx);
      AddPagesItems(b, init, ctx);
      AddPagesRanges(b, init, ctx);
      if AddPages(b, init, ctx).Ok? {
        var b1 := AddPages(b, init, ctx).value;
        AddPageValid(b1, ps[|ps| - 1], ctx);
      }
    }
  }

  /** A successful loop keeps the range state valid and adds exactly the
      prefix keys of the pages' TOC entries. */
  lemma {:induction false} AddPagesRanges(b: Build, ps: seq<Page>, ctx: Collab)
    requires |ctx.sep| > 0 && RangeService.Valid(b.ranges)
    ensures AddPages(b, ps, ctx).Ok? ==>
      && RangeService.Valid(AddPages(b, ps, ctx).value.ranges)
      && AddPages(b, ps, ctx).value.ranges.toc.Keys == b.ranges.toc.Keys + PagesTocKeys(ps, ctx)
    decreases |ps|
  {
    if |ps| > 0 && AddPages(b, ps, ctx).Ok? {
      var init := ps[..|ps| - 1];
      AddPagesRanges(b, init, ctx);
      var b1, b2 := AddPagesStep(b, ps, ctx, init);
      AddPageValid(b1, ps[|init|], ctx);
      PagesTocKeysSnoc(ps, ctx, init);
    }
  }

  lemma PagesTocKeysSnoc(ps: seq<Page>, ctx: Collab, init: seq<Page>)
    requires |ctx.sep| > 0 && |ps| > 0 && init == ps[..|ps| - 1]
    ensures PagesTocKeys(ps, ctx) == PagesTocKeys(init, ctx) + RangeService.TocKeys(PageToCs(ctx, ps[|init|]), ctx.sep)
  {
  }

  /** One page from a valid range state. */
  lemma AddPageValid(b: Build, p: Page, ctx: Collab)
    requires |ctx.sep| > 0 && RangeService.Valid(b.ranges)
    ensures AddPage(b, p, ctx).Ok? <==> CanvasItems.AddCanvasFor(b.items, p, ctx.getCanvas).Ok?
    ensures AddPage(b, p, ctx).Ok? ==>
      && AddPage(b, p, ctx).value.items == CanvasItems.AddCanvasFor(b.items, p, ctx.getCanvas).value.0
      && RangeService.Valid(AddPage(b, p, ctx).value.ranges)
      && AddPage(b, p, ctx).value.ranges.toc.Keys == b.ranges.toc.Keys + RangeService.TocKeys(PageToCs(ctx, p), ctx.sep)
  {
    var added := CanvasItems.AddCanvasFor(b.items, p, ctx.getCanvas);
    if added.Ok? {
      var id := added.value.1.identifier;
      RangeService.UpdateRangesValid(b.ranges, PageToCs(ctx, p), id, ctx.sep);
      ValidRooted(b.ranges);
      RangeService.UpdateRangesKeys(b.ranges, PageToCs(ctx, p), id, ctx.sep);
    }
  }

  lemma ValidRooted(st: RangeService.RangeState)
    requires RangeService.Valid(st)
    ensures RangeService.Rooted(st) && RangeService.CursorValid(st)
  {
  }

  /** The events the pages add when the counter starts at `c0`: for each
      page, its canvas at the next ordinal, then the range update for that
      same canvas. */
  function PagesTrace(c0: nat, ps: seq<Page>, ctx: Collab): seq<Event>
    decreases |ps|
  {
    if |ps| == 0 then []
    else
      var n := |ps| - 1;
      PagesTrace(c0, ps[..n], ctx) + PageEvents(ctx, ps[n], c0 + n)
  }

  /** The two events of the page added at ordinal `c`. */
  function PageEvents(ctx: Collab, p: Page, c: nat): seq<Event> {
    [CanvasAdded(c, CanvasIdAt(ctx, p, c)), RangesUpdated(CanvasIdAt(ctx, p, c))]
  }

  /** The trace after the last page, from the traces before and after it. */
  lemma TraceSnoc(t0: seq<Event>, t1: seq<Event>, t2: seq<Event>, c0: nat, ps: seq<Page>, ctx: Collab, init: seq<Page>)
    requires |ps| > 0 && init == ps[..|ps| - 1]
    requires t1 == t0 + PagesTrace(c0, init, ctx)
    requires t2 == t1 + PageEvents(ctx, ps[|init|], c0 + |init|)
    ensures t2 == t0 + PagesTrace(c0, ps, ctx)
  {
    PagesTraceSnoc(c0, ps, ctx, init);
    Seqs.AppendChain(t0, t1, t2, PagesTrace(c0, init, ctx), PagesTrace(c0, ps, ctx), PageEvents(ctx, ps[|init|], c0 + |init|));
  }

  lemma PagesTraceSnoc(c0: nat, ps: seq<Page>, ctx: Collab, init: seq<Page>)
    requires |ps| > 0 && init == ps[..|ps| - 1]
    ensures PagesTrace(c0, ps, ctx) == PagesTrace(c0, init, ctx) + PageEvents(ctx, ps[|init|], c0 + |init|)
  {
  }

  /** The last page appends its two events, at the ordinal the earlier
      pages `init` left, and moves the counter by one. */
  lemma AddPagesStep(b: Build, ps: seq<Page>, ctx: Collab, init: seq<Page>) returns (b1: Build, b2: Build)
    requires |ctx.sep| > 0 && |ps| > 0 && init == ps[..|ps| - 1] && AddPages(b, ps, ctx).Ok?
    ensures AddPages(b, init, ctx) == Ok(b1) && AddPages(b, ps, ctx) == Ok(b2)
    ensures AddPage(b1, ps[|init|], ctx) == Ok(b2)
    ensures b2.items.counter == b1.items.counter + 1 && b1.items.counter == b.items.counter + |init|
    ensures b2.trace == b1.trace + PageEvents(ctx, ps[|init|], b.items.counter + |init|)
  {
    b1, b2 := AddPagesSplit(b, ps, ctx, init);
    PageStepFacts(b, init, ps[|init|], ctx, b1, b2);
  }

  lemma AddPagesSplit(b: Build, ps: seq<Page>, ctx: Collab, init: seq<Page>) returns (b1: Build, b2: Build)
    requires |ctx.sep| > 0 && |ps| > 0 && init == ps[..|ps| - 1] && AddPages(b, ps, ctx).Ok?
    ensures AddPages(b, init, ctx) == Ok(b1) && AddPages(b, ps, ctx) == Ok(b2)
    ensures AddPage(b1, ps[|init|], ctx) == Ok(b2)
  {
    assert AddPages(b, ps, ctx) == AddLastPage(b, ps, ctx);
    b1 := AddPages(b, init, ctx).value;
    b2 := AddPages(b, ps, ctx).value;
  }

  lemma PageStepFacts(b: Build, init: seq<Page>, p: Page, ctx: Collab, b1: Build, b2: Build)
    requires |ctx.sep| > 0 && AddPages(b, init, ctx) == Ok(b1) && AddPage(b1, p, ctx) == Ok(b2)
    ensures b2.items.counter == b1.items.counter + 1 && b1.items.counter == b.items.counter + |init|
    ensures b2.trace == b1.trace + PageEvents(ctx, p, b.items.counter + |init|)
  {
  }

  /** Page `k` contributes events `2k` and `2k + 1`: its canvas at ordinal
      `c0 + k`, then the range update naming that canvas. */
  lemma {:induction false} PagesTraceAt(c0: nat, ps: seq<Page>, ctx: Collab, k: nat)
    requires k < |ps|
    ensures |PagesTrace(c0, ps, ctx)| == 2 * |ps|
    ensures PagesTrace(c0, ps, ctx)[2 * k] == CanvasAdded(c0 + k, CanvasIdAt(ctx, ps[k], c0 + k))
    ensures PagesTrace(c0, ps, ctx)[2 * k + 1] == RangesUpdated(CanvasIdAt(ctx, ps[k], c0 + k))
    decreases |ps|
  {
    var n := |ps| - 1;
    PagesTraceLength(c0, ps[..n], ctx);
    if k < n {
      PagesTraceAt(c0, ps[..n], ctx, k);
    }
  }

  lemma {:induction false} PagesTraceLength(c0: nat, ps: seq<Page>, ctx: Collab)
    ensures |PagesTrace(c0, ps, ctx)| == 2 * |ps|
    decreases |ps|
  {
    if |ps| > 0 {
      PagesTraceLength(c0, ps[..|ps| - 1], ctx);
    }
  }

  /** The pages add only canvas and range events. */
  lemma {:induction false} PagesTraceKinds(c0: nat, ps: seq<Page>, ctx: Collab)
    ensures forall e :: e in PagesTrace(c0, ps, ctx) ==> e.CanvasAdded? || e.RangesUpdated?
    decreases |ps|
  {
    if |ps| > 0 {
      PagesTraceKinds(c0, ps[..|ps| - 1], ctx);
    }
  }

  /** The ranges the manifest receives: none while the TOC map is empty,
      otherwise the root followed by the TOC ranges in insertion order. */
  function EmittedRanges(st: RangeService.RangeState): (rs: seq<RangeGenerator.Range>)
    ensures rs == [] <==> |st.toc| == 0
    ensures rs != [] ==> rs[0] == RangeService.Get(st, RangeService.Root)
    ensures |rs| <= 1 + |st.order|
  {
    if |st.toc| > 0 then [RangeService.Get(st, RangeService.Root)] + RangeService.TocRanges(st) else []
  }

  /** The node the `i`-th emitted range comes from. */
  function EmittedNode(st: RangeService.RangeState, i: nat): RangeService.Node
    requires 0 < i <= |st.order|
  {
    RangeService.Toc(st.order[i - 1])
  }

  /** In a valid state the emitted ranges are the root and then one range
      per TOC key, in insertion order. */
  lemma EmittedRangesShape(st: RangeService.RangeState)
    requires RangeService.KeysOrdered(st) && st.root.Some?
    ensures var rs := EmittedRanges(st);
      && (|rs| == 0 <==> |st.toc| == 0)
      && (|rs| > 0 ==> |rs| == |st.order| + 1 && rs[0] == RangeService.Get(st, RangeService.Root))
      && (forall i :: 0 < i < |rs| ==> RangeService.Has(st, EmittedNode(st, i)) && rs[i] == RangeService.Get(st, EmittedNode(st, i)))
  {
    OrderCoversKeys(st);
  }

  /** In a valid range state the emitted ranges carry pairwise different
      ids. */
  lemma EmittedRangesDistinct(st: RangeService.RangeState)
    requires RangeService.Valid(st)
    ensures forall i, j :: 0 <= i < j < |EmittedRanges(st)| ==> EmittedRanges(st)[i].id != EmittedRanges(st)[j].id
  {
    ValidRooted(st);
    EmittedRangesShape(st);
    var rs := EmittedRanges(st);
    forall i, j | 0 <= i < j < |rs|
      ensures rs[i].id != rs[j].id
    {
      var q := EmittedNode(st, j);
      var p := if i == 0 then RangeService.Root else EmittedNode(st, i);
      assert p != q;
      RangeService.IdsDistinct(st, p, q);
    }
  }

  /** The insertion order lists each key once, so it is as long as the map. */
  lemma OrderCoversKeys(st: RangeService.RangeState)
    requires RangeService.KeysOrdered(st)
    ensures |st.order| == |st.toc|
  {
    var ks := st.toc.Keys;
    OrderCount(st.order, ks);
    assert |ks| == |st.toc|;
  }

  lemma {:induction false} OrderCount(order: seq<string>, ks: set<string>)
    requires forall i, j :: 0 <= i < j < |order| ==> order[i] != order[j]
    requires forall k :: k in order <==> k in ks
    ensures |order| == |ks|
    decreases |order|
  {
    if |order| == 0 {
      assert ks == {};
    } else {
      var last := order[|order| - 1];
      var init := order[..|order| - 1];
      assert forall k :: k in init <==> k in ks - {last} by {
        forall k
          ensures k in init <==> k in ks - {last}
        {
          if k in init {
            var i :| 0 <= i < |init| && init[i] == k;
            assert order[i] == k;
          }
          if k in ks - {last} {
            assert k in order;
            var i :| 0 <= i < |order| && order[i] == k;
            assert i < |order| - 1;
            assert init[i] == k;
          }
        }
      }
      OrderCount(init, ks - {last});
    }
  }

  /** The start of the loop: the root range is set on a fresh range
      service, and dimensions are guessed when the flag says so. */
  function Start(cfg: Config, ctx: Collab, manifestId: string): Build {
    Build(
      CanvasItems.NewItemsService(),
      RangeService.SetRootRange(RangeService.Initial(), manifestId, ctx.rootLabel),
      [RootSet] + (if GuessDimensions(cfg) then [DimensionsGuessed] else []))
  }

  /** `addCanvasAndRange`: the loop over the pages, and the ranges the
      manifest receives. */
  function AddCanvasAndRange(cfg: Config, ctx: Collab, manifestId: string, bundles: seq<PageBundle>): (res: Result<(Build, seq<RangeGenerator.Range>)>)
    requires |ctx.sep| > 0
    ensures res.Ok? ==> res.value.0.items.counter == |Pages(bundles)|
    ensures res.Ok? ==> |res.value.0.trace| > 0 && res.value.0.trace[0] == RootSet
    ensures res.Ok? ==> (res.value.1 == [] <==> |res.value.0.ranges.toc| == 0)
  {
    var b :- AddPages(Start(cfg, ctx, manifestId), Pages(bundles), ctx);
    Ok((b, EmittedRanges(b.ranges)))
  }

  /** The loop fails exactly when a canvas breaks the dimension rule;
      otherwise the sequence holds the canvases built for ordinals 0, 1, 2,
      ... in page order, and the TOC map holds exactly the prefix keys of
      the pages' TOC entries. */
  lemma AddCanvasAndRangeCanvases(cfg: Config, ctx: Collab, manifestId: string, bundles: seq<PageBundle>)
    requires |ctx.sep| > 0
    ensures AddCanvasAndRange(cfg, ctx, manifestId, bundles).Ok? <==> CanvasItems.AllGenerate(0, Pages(bundles), ctx.getCanvas)
    ensures AddCanvasAndRange(cfg, ctx, manifestId, bundles).Ok? ==>
      && AddCanvasAndRange(cfg, ctx, manifestId, bundles).value.0.items.generator.canvases == CanvasItems.Built(0, Pages(bundles), ctx.getCanvas)
      && AddCanvasAndRange(cfg, ctx, manifestId, bundles).value.0.ranges.toc.Keys == PagesTocKeys(Pages(bundles), ctx)
  {
    var start := Start(cfg, ctx, manifestId);
    var ps := Pages(bundles);
    var res := AddCanvasAndRange(cfg, ctx, manifestId, bundles);
    assert res.Ok? <==> AddPages(start, ps, ctx).Ok?;
    assert res.Ok? ==> res.value.0 == AddPages(start, ps, ctx).value;
    RangeService.SetRootRangeValid(manifestId, ctx.rootLabel);
    AddPagesValid(start, ps, ctx);
    if CanvasItems.AllGenerate(0, ps, ctx.getCanvas) {
      CanvasItems.AddCanvasesOrdinals(start.items, ps, ctx.getCanvas);
    }
  }

  /** The manifest receives no range when no page has a TOC entry, and
      otherwise the service's root range followed by one range per TOC key,
      with pairwise different ids. */
  lemma AddCanvasAndRangeRanges(cfg: Config, ctx: Collab, manifestId: string, bundles: seq<PageBundle>)
    requires |ctx.sep| > 0 && AddCanvasAndRange(cfg, ctx, manifestId, bundles).Ok?
    ensures var r := AddCanvasAndRange(cfg, ctx, manifestId, bundles).value;
      && (|r.1| == 0 <==> PagesTocKeys(Pages(bundles), ctx) == {})
      && (|r.1| > 0 ==> r.1[0] == RangeService.Get(r.0.ranges, RangeService.Root) && |r.1| == |r.0.ranges.toc| + 1)
      && (forall i, j :: 0 <= i < j < |r.1| ==> r.1[i].id != r.1[j].id)
  {
    var start := Start(cfg, ctx, manifestId);
    RangeService.SetRootRangeValid(manifestId, ctx.rootLabel);
    AddPagesValid(start, Pages(bundles), ctx);
    var b := AddPages(start, Pages(bundles), ctx).value;
    ValidRooted(b.ranges);
    EmittedRangesShape(b.ranges);
    OrderCoversKeys(b.ranges);
    EmittedRangesDistinct(b.ranges);
    assert |b.ranges.toc| == 0 <==> b.ranges.toc.Keys == {};
  }

  /** The root is set before anything else; the dimensions are guessed at
      most once, right after it and before any canvas, and only when no
      default dimension is configured; then the pages' events follow. */
  lemma AddCanvasAndRangeTrace(cfg: Config, ctx: Collab, manifestId: string, bundles: seq<PageBundle>)
    requires |ctx.sep| > 0 && AddCanvasAndRange(cfg, ctx, manifestId, bundles).Ok?
    ensures var t := AddCanvasAndRange(cfg, ctx, manifestId, bundles).value.0.trace;
      && |t| > 0 && t[0] == RootSet
      && (DimensionsGuessed in t <==> GuessDimensions(cfg))
      && (forall k :: 0 <= k < |t| && t[k] == DimensionsGuessed ==> k == 1)
      && (forall k :: 1 <= k < |t| ==> t[k] != RootSet)
      && t == Start(cfg, ctx, manifestId).trace + PagesTrace(0, Pages(bundles), ctx)
  {
    var start := Start(cfg, ctx, manifestId);
    var ps := Pages(bundles);
    PagesTraceKinds(0, ps, ctx);
    StartThenPages(GuessDimensions(cfg), PagesTrace(0, ps, ctx));
  }

  /** The start events followed by page events only. */
  lemma StartThenPages(guess: bool, rest: seq<Event>)
    requires forall e :: e in rest ==> e.CanvasAdded? || e.RangesUpdated?
    ensures var t := [RootSet] + (if guess then [DimensionsGuessed] else []) + rest;
      && t[0] == RootSet
      && (DimensionsGuessed in t <==> guess)
      && (forall k :: 0 <= k < |t| && t[k] == DimensionsGuessed ==> k == 1)
      && (forall k :: 1 <= k < |t| ==> t[k] != RootSet)
  {
    var head := [RootSet] + (if guess then [DimensionsGuessed] else []);
    var t := head + rest;
    forall k | |head| <= k < |t|
      ensures t[k].CanvasAdded? || t[k].RangesUpdated?
    {
      assert t[k] == rest[k - |head|];
    }
  }

  // ---------------------------------------------------------------------
  // Renderings.

  /** The type the rendering bitstreams must have: none in the configured
      bundle, PDF in the legacy mode that reads the IIIF bundles. */
  function RenderingType(cfg: Config): Option<string> {
    if cfg.renderingBundle.Some? then None else Some("application/pdf")
  }

  /** The bundles `addRendering` searches: the item's bundles with the
      configured name, or the IIIF bundles when no name is configured. */
  function RenderingBundles(cfg: Config, item: Item, iiifBundles: seq<Bundle>): seq<Bundle> {
    if cfg.renderingBundle.None? then iiifBundles
    else BundlesNamed(item.bundles, cfg.renderingBundle)
  }

  /** The bundles with the given name, in order. */
  function BundlesNamed(bundles: seq<Bundle>, name: Option<string>): (bs: seq<Bundle>)
    ensures forall b :: b in bs <==> b in bundles && Named(b, name)
    decreases |bundles|
  {
    if |bundles| == 0 then []
    else
      var last := bundles[|bundles| - 1];
      BundlesNamed(bundles[..|bundles| - 1], name) + (if Named(last, name) then [last] else [])
  }

  /** A bitstream becomes a rendering when its MIME type is known and no
      type is required or the type is exactly the required one. */
  predicate Rendered(f: FormatLookup, t: Option<string>) {
    var mime := MimeOrNull(f);
    mime.Some? && (t.None? || t == mime)
  }

  /** The renderings of one bundle's bitstreams. */
  function BitstreamRenderings(e: Endpoints, bts: seq<Bitstream>, t: Option<string>, iiifLabel: (Bitstream, string) -> string): (ls: seq<Link>)
    ensures |ls| <= |bts|
    ensures (forall k :: 0 <= k < |bts| ==> Rendered(bts[k].format, t)) ==> |ls| == |bts|
    decreases |bts|
  {
    if |bts| == 0 then []
    else
      var last := bts[|bts| - 1];
      assert forall k :: 0 <= k < |bts| - 1 ==> bts[..|bts| - 1][k] == bts[k];
      BitstreamRenderings(e, bts[..|bts| - 1], t, iiifLabel) + (if Rendered(last.format, t) then [Links.BitstreamLink(e, last, iiifLabel)] else [])
  }

  /** `addRenderingFromBundles`: bundle by bundle, bitstream by bitstream. */
  function RenderingsFromBundles(e: Endpoints, bundles: seq<Bundle>, t: Option<string>, iiifLabel: (Bitstream, string) -> string): seq<Link>
    decreases |bundles|
  {
    if |bundles| == 0 then []
    else
      var last := bundles[|bundles| - 1];
      RenderingsFromBundles(e, bundles[..|bundles| - 1], t, iiifLabel) + BitstreamRenderings(e, last.bitstreams, t, iiifLabel)
  }

  /** A rendering link is made for a bitstream exactly when the bitstream is
      rendered; every link points at some rendered bitstream's content. */
  lemma {:induction false} BitstreamRenderingsMembers(e: Endpoints, bts: seq<Bitstream>, t: Option<string>, iiifLabel: (Bitstream, string) -> string, l: Link)
    ensures l in BitstreamRenderings(e, bts, t, iiifLabel) <==>
      exists k :: 0 <= k < |bts| && Rendered(bts[k].format, t) && l == Links.BitstreamLink(e, bts[k], iiifLabel)
    decreases |bts|
  {
    if |bts| > 0 {
      var init := bts[..|bts| - 1];
      BitstreamRenderingsMembers(e, init, t, iiifLabel, l);
      if exists k :: 0 <= k < |init| && Rendered(init[k].format, t) && l == Links.BitstreamLink(e, init[k], iiifLabel) {
        var k :| 0 <= k < |init| && Rendered(init[k].format, t) && l == Links.BitstreamLink(e, init[k], iiifLabel);
        assert bts[k] == init[k];
      }
      if exists k :: 0 <= k < |bts| && Rendered(bts[k].format, t) && l == Links.BitstreamLink(e, bts[k], iiifLabel) {
        var k :| 0 <= k < |bts| && Rendered(bts[k].format, t) && l == Links.BitstreamLink(e, bts[k], iiifLabel);
        if k < |init| {
          assert init[k] == bts[k];
        }
      }
    }
  }

  /** Every rendering link carries the bitstream's MIME type as its format,
      and in the legacy mode that type is PDF. */
  lemma {:induction false} RenderingFormats(e: Endpoints, bts: seq<Bitstream>, t: Option<string>, iiifLabel: (Bitstream, string) -> string)
    ensures forall l :: l in BitstreamRenderings(e, bts, t, iiifLabel) ==> l.format.Some? && (t.Some? ==> l.format == t)
    decreases |bts|
  {
    if |bts| > 0 {
      RenderingFormats(e, bts[..|bts| - 1], t, iiifLabel);
    }
  }

  /** The link to the item's page, made only for a configured, non-empty
      label. `frontendUrl` is the item's page URL. */
  function ItemPageRendering(itemLabel: Option<string>, frontendUrl: string): (ls: seq<Link>)
    ensures |ls| <= 1
    ensures |ls| == 1 <==> itemLabel.Some? && itemLabel.value != ""
    ensures |ls| == 1 ==> ls[0].id == frontendUrl + "/full" && ls[0].labelValue == itemLabel && ls[0].format == Some("text/html")
  {
    if itemLabel.Some? && itemLabel.value != "" then [Link(frontendUrl + "/full", itemLabel, Some("text/html"), None, None)] else []
  }

  /** `addRendering`. */
  function AddRendering(cfg: Config, e: Endpoints, item: Item, iiifBundles: seq<Bundle>, frontendUrl: string, iiifLabel: (Bitstream, string) -> string): (ls: seq<Link>)
    ensures cfg.renderingItemLabel.Some? && cfg.renderingItemLabel.value != "" ==>
      |ls| > 0 && ls[|ls| - 1] == Link(frontendUrl + "/full", cfg.renderingItemLabel, Some("text/html"), None, None)
    ensures forall l :: l in ls ==>
      l in RenderingsFromBundles(e, RenderingBundles(cfg, item, iiifBundles), RenderingType(cfg), iiifLabel) || l.id == frontendUrl + "/full"
  {
    RenderingsFromBundles(e, RenderingBundles(cfg, item, iiifBundles), RenderingType(cfg), iiifLabel)
      + ItemPageRendering(cfg.renderingItemLabel, frontendUrl)
  }

  /** A bitstream of the item yields a rendering link exactly when it lies
      in a searched bundle and passes the type rule, which in the legacy
      mode means it is a PDF. */
  lemma {:induction false} RenderingsMembers(e: Endpoints, bundles: seq<Bundle>, t: Option<string>, iiifLabel: (Bitstream, string) -> string, l: Link)
    ensures l in RenderingsFromBundles(e, bundles, t, iiifLabel) <==>
      exists i, k :: 0 <= i < |bundles| && 0 <= k < |bundles[i].bitstreams|
        && Rendered(bundles[i].bitstreams[k].format, t) && l == Links.BitstreamLink(e, bundles[i].bitstreams[k], iiifLabel)
    decreases |bundles|
  {
    if |bundles| > 0 {
      var init := bundles[..|bundles| - 1];
      var last := bundles[|bundles| - 1];
      RenderingsMembers(e, init, t, iiifLabel, l);
      BitstreamRenderingsMembers(e, last.bitstreams, t, iiifLabel, l);
      if (exists i, k ::
            0 <= i < |init| && 0 <= k < |init[i].bitstreams| && Rendered(init[i].bitstreams[k].format, t) && l == Links.BitstreamLink(e, init[i].bitstreams[k], iiifLabel)) {
        var i, k :| 0 <= i < |init| && 0 <= k < |init[i].bitstreams|
          && Rendered(init[i].bitstreams[k].format, t) && l == Links.BitstreamLink(e, init[i].bitstreams[k], iiifLabel);
        assert bundles[i] == init[i];
      }
      if (exists i, k ::
            0 <= i < |bundles| && 0 <= k < |bundles[i].bitstreams| && Rendered(bundles[i].bitstreams[k].format, t) && l == Links.BitstreamLink(e, bundles[i].bitstreams[k], iiifLabel)) {
        var i, k :| 0 <= i < |bundles| && 0 <= k < |bundles[i].bitstreams|
          && Rendered(bundles[i].bitstreams[k].format, t) && l == Links.BitstreamLink(e, bundles[i].bitstreams[k], iiifLabel);
        if i < |init| {
          assert init[i] == bundles[i];
        }
      }
    }
  }

  /** A link is a rendering of the item exactly when it is the link of a
      rendered bitstream of a searched bundle, or the configured item page
      link. */
  lemma AddRenderingMembers(cfg: Config, e: Endpoints, item: Item, iiifBundles: seq<Bundle>, frontendUrl: string, iiifLabel: (Bitstream, string) -> string, l: Link)
    ensures var bundles := RenderingBundles(cfg, item, iiifBundles);
      l in AddRendering(cfg, e, item, iiifBundles, frontendUrl, iiifLabel) <==>
        || (exists i, k ::
              0 <= i < |bundles| && 0 <= k < |bundles[i].bitstreams| && Rendered(bundles[i].bitstreams[k].format, RenderingType(cfg))
              && l == Links.BitstreamLink(e, bundles[i].bitstreams[k], iiifLabel))
        || l in ItemPageRendering(cfg.renderingItemLabel, frontendUrl)
  {
    RenderingsMembers(e, RenderingBundles(cfg, item, iiifBundles), RenderingType(cfg), iiifLabel, l);
  }

  /** With a rendering bundle configured, only bundles of that name are
      searched and any known type is taken; without one, the IIIF bundles are
      searched and only PDF bitstreams are taken. */
  lemma RenderingModes(cfg: Config, item: Item, iiifBundles: seq<Bundle>, f: FormatLookup)
    ensures cfg.renderingBundle.Some? ==>
      (forall b :: b in RenderingBundles(cfg, item, iiifBundles) <==> b in item.bundles && b.name == cfg.renderingBundle.value)
    ensures cfg.renderingBundle.Some? ==> (Rendered(f, RenderingType(cfg)) <==> MimeOrNull(f).Some?)
    ensures cfg.renderingBundle.None? ==> RenderingBundles(cfg, item, iiifBundles) == iiifBundles
    ensures cfg.renderingBundle.None? ==> (Rendered(f, RenderingType(cfg)) <==> MimeOrNull(f) == Some("application/pdf"))
  {
  }
}
