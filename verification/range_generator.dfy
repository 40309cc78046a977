/** One table-of-contents range under construction (`RangeGenerator`) and
    the `Range` resource it generates.

    A range holds two separate lists: references to canvases and references
    to sub-ranges. A sub-range is attached by an id-only reference, never by
    embedding it; the sub-range's id is derived from its parent's id and the
    number of sub-ranges the parent already has. */
module RangeGenerator {
  import opened Wrappers
  import opened JavaStrings

  datatype ViewingDirection = LeftToRight | RightToLeft | TopToBottom | BottomToTop

  /** A generated range: its id, optional label, the last viewing direction
      set on it (the resource keeps one), and its items. */
  datatype RangeResource = RangeResource(
    id: string,
    labelValue: Option<string>,
    direction: Option<ViewingDirection>,
    items: seq<Item>)

  /** An item of a generated range: a canvas reference (by canvas id) or a
      sub-range reference. */
  datatype Item = CanvasItem(canvasId: string) | SubRangeItem(range: RangeResource)

  /** The state of one `RangeGenerator`. `canvases` holds the ids of the
      canvas references added, `subRanges` the generated references. */
  datatype Range = Range(
    id: Option<string>,
    labelValue: Option<string>,
    directions: seq<ViewingDirection>,
    canvases: seq<string>,
    subRanges: seq<RangeResource>)

  /** A freshly constructed generator. */
  function NewRange(): Range {
    Range(None, None, [], [], [])
  }

  /** `setID`: the empty string is refused, anything else replaces the id. */
  function SetId(r: Range, id: string): (res: Result<Range>)
    ensures res.Fail? <==> id == ""
    ensures res.Ok? ==> res.value.id == Some(id)
    ensures res.Ok? ==> res.value == r.(id := res.value.id)
  {
    if id == "" then Fail(RuntimeError("Invalid range identifier. Cannot be an empty string."))
    else Ok(r.(id := Some(id)))
  }

  function SetLabel(r: Range, text: string): Range {
    r.(labelValue := Some(text))
  }

  function AddViewingDirection(r: Range, d: ViewingDirection): Range {
    r.(directions := r.directions + [d])
  }

  /** `addCanvas`: appends one canvas reference at the end. */
  function AddCanvas(r: Range, canvasId: string): (r': Range)
    ensures r'.canvases == r.canvases + [canvasId]
    ensures r' == r.(canvases := r'.canvases)
  {
    r.(canvases := r.canvases + [canvasId])
  }

  /** The id `addSubRange` gives the `n`-th sub-range of a parent with id
      `parentId`; a parent without id renders as "null", as Java's string
      concatenation does. */
  function ChildId(parentId: Option<string>, n: nat): string {
    Show(parentId) + "-" + NatToString(n)
  }

  /** The resource an id-only reference to a range with id `id` generates. */
  function Reference(id: string): RangeResource {
    RangeResource(id, None, None, [])
  }

  /** `getRangeReference`: a new generator carrying only the range's id.
      It fails, like `setID`, when the range has no id or an empty one. */
  function RangeReference(r: Range): (res: Result<Range>)
    ensures res.Ok? <==> r.id.Some? && r.id.value != ""
    ensures res.Ok? ==> res.value == NewRange().(id := r.id)
  {
    match r.id
    case None => Fail(NullPointer)
    case Some(id) => SetId(NewRange(), id)
  }

  /** `addSubRange`: names the child after the parent and the number of
      sub-ranges already attached, and appends an id-only reference to it.
      Returns the updated parent and the named child. */
  function AddSubRange(parent: Range, child: Range): (res: (Range, Range))
    ensures res.1 == child.(id := Some(ChildId(parent.id, |parent.subRanges|)))
    ensures res.0.subRanges == parent.subRanges + [Reference(ChildId(parent.id, |parent.subRanges|))]
    ensures res.0 == parent.(subRanges := res.0.subRanges)
  {
    var id := ChildId(parent.id, |parent.subRanges|);
    var named := child.(id := Some(id));
    var reference := RangeReference(named);
    assert reference.Ok?;
    var generated := Generate(reference.value);
    assert generated.Ok?;
    (parent.(subRanges := parent.subRanges + [generated.value]), named)
  }

  function LastDirection(ds: seq<ViewingDirection>): Option<ViewingDirection> {
    if |ds| == 0 then None else Some(ds[|ds| - 1])
  }

  function CanvasItems(canvasIds: seq<string>): (items: seq<Item>)
    ensures |items| == |canvasIds|
    ensures forall k :: 0 <= k < |items| ==> items[k] == CanvasItem(canvasIds[k])
  {
    if |canvasIds| == 0 then [] else CanvasItems(canvasIds[..|canvasIds| - 1]) + [CanvasItem(canvasIds[|canvasIds| - 1])]
  }

  function SubRangeItems(refs: seq<RangeResource>): (items: seq<Item>)
    ensures |items| == |refs|
    ensures forall k :: 0 <= k < |items| ==> items[k] == SubRangeItem(refs[k])
  {
    if |refs| == 0 then [] else SubRangeItems(refs[..|refs| - 1]) + [SubRangeItem(refs[|refs| - 1])]
  }

  /** `generateResource`: fails without an id; otherwise every canvas
      reference in insertion order, then every sub-range reference in
      insertion order. */
  function Generate(r: Range): (res: Result<RangeResource>)
    ensures res.Fail? <==> r.id.None?
    ensures res.Ok? ==> res.value.id == r.id.value && res.value.labelValue == r.labelValue
    ensures res.Ok? ==> |res.value.items| == |r.canvases| + |r.subRanges|
    ensures res.Ok? ==> forall k :: 0 <= k < |r.canvases| ==> res.value.items[k] == CanvasItem(r.canvases[k])
    ensures res.Ok? ==> forall k :: 0 <= k < |r.subRanges| ==>
      res.value.items[|r.canvases| + k] == SubRangeItem(r.subRanges[k])
  {
    match r.id
    case None => Fail(RuntimeError("The Range resource requires an identifier."))
    case Some(id) =>
      Ok(RangeResource(id, r.labelValue, LastDirection(r.directions), CanvasItems(r.canvases) + SubRangeItems(r.subRanges)))
  }

  // ---------------------------------------------------------------------
  // Interleaved calls: whatever the order of `addCanvas` and `addSubRange`
  // calls, the generated items are the canvases first, then the sub-ranges.

  datatype Call = AddCanvasCall(canvasId: string) | AddSubRangeCall(child: Range)

  function Apply(r: Range, calls: seq<Call>): Range
    decreases |calls|
  {
    if |calls| == 0 then r
    else
      var c := calls[|calls| - 1];
      var before := Apply(r, calls[..|calls| - 1]);
      match c
      case AddCanvasCall(id) => AddCanvas(before, id)
      case AddSubRangeCall(child) => AddSubRange(before, child).0
  }

  /** The canvas ids of the `addCanvas` calls, in call order. */
  function CanvasCalls(calls: seq<Call>): seq<string>
  {
    if |calls| == 0 then []
    else
      CanvasCalls(calls[..|calls| - 1])
      + (match calls[|calls| - 1] case AddCanvasCall(id) => [id] case _ => [])
  }

  /** The number of `addSubRange` calls. */
  function SubRangeCalls(calls: seq<Call>): nat
  {
    if |calls| == 0 then 0
    else SubRangeCalls(calls[..|calls| - 1]) + (if calls[|calls| - 1].AddSubRangeCall? then 1 else 0)
  }

  /** Applying calls keeps the id and label and leaves exactly the canvases
      named by the `addCanvas` calls and one reference, with consecutive
      suffixes, per `addSubRange` call. */
  lemma ApplyContents(r: Range, calls: seq<Call>)
    ensures Apply(r, calls).id == r.id && Apply(r, calls).labelValue == r.labelValue
    ensures Apply(r, calls).canvases == r.canvases + CanvasCalls(calls)
    ensures |Apply(r, calls).subRanges| == |r.subRanges| + SubRangeCalls(calls)
    ensures Apply(r, calls).subRanges[..|r.subRanges|] == r.subRanges
    ensures forall k :: |r.subRanges| <= k < |Apply(r, calls).subRanges| ==>
      Apply(r, calls).subRanges[k] == Reference(ChildId(r.id, k))
  {
    ApplyCanvases(r, calls);
    ApplySubRanges(r, calls);
  }

  /** The id, the label and the canvases under any calls. */
  lemma {:induction false} ApplyCanvases(r: Range, calls: seq<Call>)
    ensures Apply(r, calls).id == r.id && Apply(r, calls).labelValue == r.labelValue
    ensures Apply(r, calls).canvases == r.canvases + CanvasCalls(calls)
    decreases |calls|
  {
    if |calls| > 0 {
      var init := calls[..|calls| - 1];
      ApplyCanvases(r, init);
      var before := Apply(r, init);
      match calls[|calls| - 1]
      case AddCanvasCall(id) =>
        assert Apply(r, calls) == AddCanvas(before, id);
        assert CanvasCalls(calls) == CanvasCalls(init) + [id];
      case AddSubRangeCall(child) =>
        assert Apply(r, calls) == AddSubRange(before, child).0;
        assert CanvasCalls(calls) == CanvasCalls(init);
    }
  }

  /** The sub-range references under any calls. */
  lemma {:induction false} ApplySubRanges(r: Range, calls: seq<Call>)
    ensures |Apply(r, calls).subRanges| == |r.subRanges| + SubRangeCalls(calls)
    ensures Apply(r, calls).subRanges[..|r.subRanges|] == r.subRanges
    ensures forall k :: |r.subRanges| <= k < |Apply(r, calls).subRanges| ==>
      Apply(r, calls).subRanges[k] == Reference(ChildId(r.id, k))
    decreases |calls|
  {
    if |calls| > 0 {
      var init := calls[..|calls| - 1];
      ApplySubRanges(r, init);
      ApplyCanvases(r, init);
      var before := Apply(r, init);
      match calls[|calls| - 1]
      case AddCanvasCall(id) =>
        assert Apply(r, calls) == AddCanvas(before, id);
        assert SubRangeCalls(calls) == SubRangeCalls(init);
      case AddSubRangeCall(child) =>
        var after := AddSubRange(before, child).0;
        assert Apply(r, calls) == after;
        assert SubRangeCalls(calls) == SubRangeCalls(init) + 1;
        RefsSnoc(r.subRanges, before.subRanges, after.subRanges, r.id);
    }
  }

  /** One more reference, numbered by its position, keeps every reference
      after the original ones numbered by its position. */
  lemma RefsSnoc(r0: seq<RangeResource>, before: seq<RangeResource>, after: seq<RangeResource>, id: Option<string>)
    requires |before| >= |r0| && before[..|r0|] == r0
    requires forall k :: |r0| <= k < |before| ==> before[k] == Reference(ChildId(id, k))
    requires after == before + [Reference(ChildId(id, |before|))]
    ensures after[..|r0|] == r0
    ensures forall k :: |r0| <= k < |after| ==> after[k] == Reference(ChildId(id, k))
  {
    assert after[..|r0|] == before[..|r0|];
  }

  /** The references to the first `n` sub-ranges of a range with id `id`. */
  function ChildReferences(id: string, n: nat): (refs: seq<RangeResource>)
    ensures |refs| == n
    ensures forall k: nat :: k < n ==> refs[k] == Reference(ChildId(Some(id), k))
  {
    if n == 0 then [] else ChildReferences(id, n - 1) + [Reference(ChildId(Some(id), n - 1))]
  }

  /** The items of a range built from a fresh, named generator by any
      interleaving of `addCanvas` and `addSubRange` calls: all canvases in
      call order, then the sub-range references with ids `id-0`, `id-1`, ... */
  lemma GenerateAfterCalls(id: string, calls: seq<Call>)
    requires id != ""
    ensures Generate(Apply(SetId(NewRange(), id).value, calls)).Ok?
    ensures Generate(Apply(SetId(NewRange(), id).value, calls)).value.items
      == CanvasItems(CanvasCalls(calls)) + SubRangeItems(ChildReferences(id, SubRangeCalls(calls)))
  {
    var r := SetId(NewRange(), id).value;
    ApplyContents(r, calls);
    var built := Apply(r, calls);
    var refs := ChildReferences(id, SubRangeCalls(calls));
    assert built.subRanges == refs by {
      assert |built.subRanges| == |refs|;
      forall k | 0 <= k < |refs|
        ensures built.subRanges[k] == refs[k]
      {
      }
    }
    assert built.canvases == CanvasCalls(calls);
  }

  /** Sub-range suffixes are distinct: the references a parent holds carry
      pairwise different ids. */
  lemma ChildIdsDistinct(parentId: Option<string>, a: nat, b: nat)
    requires a != b
    ensures ChildId(parentId, a) != ChildId(parentId, b)
  {
    if ChildId(parentId, a) == ChildId(parentId, b) {
      DashSuffixInjective(Show(parentId), a, Show(parentId), b);
    }
  }
}
