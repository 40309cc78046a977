/** The table-of-contents builder of one manifest request (`RangeService`).

    The service owns a root range, a map from cumulative TOC keys to ranges
    (kept in insertion order, as a `LinkedHashMap` is) and a cursor to the
    range that receives canvases without TOC entries of their own. Java holds
    the ranges as mutable objects shared between the map, the root field and
    the cursor; here they live in the state record and are addressed by a
    `Node`: the root, or the key a range is stored under. */
module RangeService {
  import opened Wrappers
  import opened JavaStrings
  import opened RangeGenerator

  /** Where a range lives: the root field, or the TOC map under a key. */
  datatype Node = Root | Toc(key: string)

  /** `currentRange`: still null, one of the nodes, or a root object that a
      later `setRootRange` replaced and that nothing else refers to. */
  datatype Cursor = Unset | At(node: Node) | Detached

  /** The fields of the service: `root`, `tocRanges` (its entries and their
      insertion order) and `currentRange`. */
  datatype RangeState = RangeState(
    root: Option<Range>,
    toc: map<string, Range>,
    order: seq<string>,
    cursor: Cursor)

  /** A freshly constructed service: no root, no TOC ranges, no cursor. */
  function Initial(): RangeState {
    RangeState(None, map[], [], Unset)
  }

  /** The range a node refers to, or null. */
  function Lookup(st: RangeState, p: Node): Option<Range> {
    match p
    case Root => st.root
    case Toc(k) => if k in st.toc then Some(st.toc[k]) else None
  }

  predicate Has(st: RangeState, p: Node) {
    Lookup(st, p).Some?
  }

  /** The range at a node, or an empty generator when there is none. */
  function Get(st: RangeState, p: Node): Range {
    match Lookup(st, p)
    case Some(r) => r
    case None => NewRange()
  }

  /** The id of the range at a node, as Java renders it in a string. */
  function IdOf(st: RangeState, p: Node): string {
    Show(Get(st, p).id)
  }

  /** Replaces the range at a node (the mutation of a shared object). */
  function Store(st: RangeState, p: Node, r: Range): RangeState {
    match p
    case Root => st.(root := Some(r))
    case Toc(k) => st.(toc := st.toc[k := r])
  }

  /** The id `setRootRange` gives the root of manifest `manifestId`. */
  function RootId(manifestId: string): (id: string)
    ensures |id| > |manifestId| && id[..|manifestId|] == manifestId
  {
    manifestId + "/range/r0"
  }

  /** `setRootRange`: a fresh root with direction top-to-bottom, the given
      label and id `manifestId/range/r0`. The TOC map is left as it is, and
      a cursor that pointed at the old root keeps pointing at that old
      object, which is no longer reachable from the service. */
  function SetRootRange(st: RangeState, manifestId: string, rootLabel: string): (st': RangeState)
    ensures st'.root == Some(Range(Some(RootId(manifestId)), Some(rootLabel), [TopToBottom], [], []))
    ensures st'.toc == st.toc && st'.order == st.order
    ensures st.cursor != At(Root) ==> st'.cursor == st.cursor
    ensures st.cursor == At(Root) ==> st'.cursor == Detached
  {
    var labelled := SetLabel(AddViewingDirection(NewRange(), TopToBottom), rootLabel);
    assert labelled == Range(None, Some(rootLabel), [TopToBottom], [], []);
    var root := SetId(labelled, RootId(manifestId)).value;
    st.(root := Some(root), cursor := if st.cursor == At(Root) then Detached else st.cursor)
  }

  /** `getTocRanges`: the ranges of the TOC map in insertion order. */
  function TocRanges(st: RangeState): (rs: seq<Range>)
    ensures |rs| <= |st.order|
    ensures (forall k :: k in st.order ==> k in st.toc) ==>
      |rs| == |st.order| && forall i :: 0 <= i < |rs| ==> rs[i] == st.toc[st.order[i]]
  {
    OrderedValues(st.toc, st.order)
  }

  function OrderedValues(toc: map<string, Range>, keys: seq<string>): (rs: seq<Range>)
    ensures |rs| <= |keys|
    ensures (forall k :: k in keys ==> k in toc) ==>
      |rs| == |keys| && forall i :: 0 <= i < |rs| ==> rs[i] == toc[keys[i]]
  {
    if |keys| == 0 then []
    else
      var last := keys[|keys| - 1];
      OrderedValues(toc, keys[..|keys| - 1]) + (if last in toc then [toc[last]] else [])
  }

  // ---------------------------------------------------------------------
  // Operations.

  /** `range.addCanvas(reference)` on the range at a node; a null range
      throws. The reference carries the canvas id. */
  function AddCanvasTo(st: RangeState, p: Node, canvasId: string): (res: Result<RangeState>)
    ensures res.Ok? <==> Has(st, p)
    ensures res.Ok? ==> Has(res.value, p) && Get(res.value, p).canvases == Get(st, p).canvases + [canvasId]
    ensures res.Ok? ==> Get(res.value, p) == Get(st, p).(canvases := Get(res.value, p).canvases)
    ensures res.Ok? ==> forall q :: q != p ==> Lookup(res.value, q) == Lookup(st, q)
    ensures res.Ok? ==> res.value.toc.Keys == st.toc.Keys && res.value.root.Some? == st.root.Some?
    ensures res.Ok? ==> res.value.order == st.order && res.value.cursor == st.cursor
  {
    match Lookup(st, p)
    case None => Fail(NullPointer)
    case Some(r) => Ok(Store(st, p, AddCanvas(r, canvasId)))
  }

  /** The cumulative key after `n` segments: segments joined by the
      separator, built left to right as `addTocRange` does. */
  function Key(parts: seq<string>, n: nat, sep: string): string
    requires n <= |parts|
  {
    if n == 0 then ""
    else Key(parts, n - 1, sep) + (if n > 1 then sep else "") + parts[n - 1]
  }

  /** One step of the walk down a TOC path: an existing key is reused,
      otherwise a new range labelled with the segment is attached to the
      range at `at`, stored under the key, and becomes the walk's position. */
  function Descend(st: RangeState, at: Node, key: string, part: string): (res: Result<(RangeState, Node)>)
    ensures res.Ok? <==> key in st.toc || Has(st, at)
    ensures res.Ok? ==> res.value.1 == Toc(key)
    ensures key in st.toc ==> res == Ok((st, Toc(key)))
    ensures res.Ok? && key !in st.toc ==>
      var st' := res.value.0;
      var parent := Get(st, at);
      var childId := ChildId(parent.id, |parent.subRanges|);
      && st'.toc.Keys == st.toc.Keys + {key}
      && st'.order == st.order + [key]
      && st'.toc[key] == Range(Some(childId), Some(part), [], [], [])
      && Get(st', at) == parent.(subRanges := parent.subRanges + [Reference(childId)])
      && (forall q :: q != at && q != Toc(key) ==> Lookup(st', q) == Lookup(st, q))
      && st'.root.Some? == st.root.Some?
      && st'.cursor == st.cursor
  {
    if key in st.toc then Ok((st, Toc(key)))
    else
      match Lookup(st, at)
      case None => Fail(NullPointer)
      case Some(parent) =>
        var attached := AddSubRange(parent, SetLabel(NewRange(), part));
        var st1 := Store(st, at, attached.0);
        Ok((st1.(toc := st1.toc[key := attached.1], order := st1.order + [key]), Toc(key)))
  }

  /** The walk over the first `n` segments of a TOC path, from the root. */
  function Walk(st: RangeState, parts: seq<string>, n: nat, sep: string): (res: Result<(RangeState, Node)>)
    requires n <= |parts|
    ensures res.Ok? ==> res.value.1 == Leaf(parts, n, sep)
    ensures res.Ok? ==> res.value.0.root.Some? == st.root.Some?
  {
    if n == 0 then Ok((st, Root))
    else
      var w :- Walk(st, parts, n - 1, sep);
      Descend(w.0, w.1, Key(parts, n, sep), parts[n - 1])
  }

  /** The node a walk over `n` segments ends at: the root when there are
      none, otherwise the range stored under the full cumulative key. */
  function Leaf(parts: seq<string>, n: nat, sep: string): Node
    requires n <= |parts|
  {
    if n == 0 then Root else Toc(Key(parts, n, sep))
  }

  /** One TOC entry of `addTocRange`: split it into segments, walk them,
      add the canvas reference to the range reached and move the cursor. */
  function AddToc(st: RangeState, toc: string, canvasId: string, sep: string): (res: Result<RangeState>)
    requires |sep| > 0
    ensures var parts := Split(toc, sep);
      res.Ok? ==>
        && res.value.cursor == At(Leaf(parts, |parts|, sep))
        && Has(res.value, Leaf(parts, |parts|, sep))
        && var cs := Get(res.value, Leaf(parts, |parts|, sep)).canvases;
        |cs| > 0 && cs[|cs| - 1] == canvasId
  {
    AddPath(st, Split(toc, sep), canvasId, sep)
  }

  /** The body of the loop over TOC entries, for an entry split into `parts`. */
  function AddPath(st: RangeState, parts: seq<string>, canvasId: string, sep: string): (res: Result<RangeState>)
    ensures res.Ok? ==>
      && res.value.cursor == At(Leaf(parts, |parts|, sep))
      && Has(res.value, Leaf(parts, |parts|, sep))
      && var cs := Get(res.value, Leaf(parts, |parts|, sep)).canvases;
      |cs| > 0 && cs[|cs| - 1] == canvasId
  {
    var w :- Walk(st, parts, |parts|, sep);
    var st1 :- AddCanvasTo(w.0, w.1, canvasId);
    Ok(st1.(cursor := At(w.1)))
  }

  /** `addTocRange`: every TOC entry in list order. */
  function AddTocs(st: RangeState, tocs: seq<string>, canvasId: string, sep: string): (res: Result<RangeState>)
    requires |sep| > 0
    ensures |tocs| == 0 ==> res == Ok(st)
    ensures var parts := if |tocs| > 0 then Split(tocs[|tocs| - 1], sep) else [];
      res.Ok? && |tocs| > 0 ==>
        && res.value.cursor == At(Leaf(parts, |parts|, sep))
        && Has(res.value, Leaf(parts, |parts|, sep))
        && var cs := Get(res.value, Leaf(parts, |parts|, sep)).canvases;
        |cs| > 0 && cs[|cs| - 1] == canvasId
  {
    if |tocs| == 0 then Ok(st)
    else
      var st1 :- AddTocs(st, tocs[..|tocs| - 1], canvasId, sep);
      AddToc(st1, tocs[|tocs| - 1], canvasId, sep)
  }

  /** `updateRanges` for a canvas with id `canvasId` whose TOC entries are
      `tocs`: entries build ranges; without entries the canvas goes to the
      current range, but only once the TOC map holds something. */
  function UpdateRanges(st: RangeState, tocs: seq<string>, canvasId: string, sep: string): (res: Result<RangeState>)
    requires |sep| > 0
    ensures |tocs| == 0 && |st.toc| == 0 ==> res == Ok(st)
    ensures |tocs| == 0 && |st.toc| > 0 && st.cursor.At? && Has(st, st.cursor.node) ==>
      && res.Ok?
      && res.value.toc.Keys == st.toc.Keys && res.value.order == st.order
      && res.value.cursor == st.cursor
      && Get(res.value, st.cursor.node).canvases == Get(st, st.cursor.node).canvases + [canvasId]
      && (forall q :: q != st.cursor.node ==> Lookup(res.value, q) == Lookup(st, q))
  {
    if |tocs| > 0 then AddTocs(st, tocs, canvasId, sep)
    else if |st.toc| > 0 then
      match st.cursor
      case Unset => Fail(NullPointer)
      case Detached => Ok(st)
      case At(p) => AddCanvasTo(st, p, canvasId)
    else Ok(st)
  }

  // ---------------------------------------------------------------------
  // The invariant of a service whose root has been set.

  /** The insertion order lists every key of the map exactly once. */
  predicate KeysOrdered(st: RangeState) {
    && (forall i, j :: 0 <= i < j < |st.order| ==> st.order[i] != st.order[j])
    && (forall k :: k in st.toc ==> k in st.order)
    && (forall k :: k in st.order ==> k in st.toc)
  }

  /** The cursor is null only while the map is empty, and otherwise points
      at a range the service holds. */
  predicate CursorValid(st: RangeState) {
    match st.cursor
    case Unset => |st.toc| == 0
    case At(p) => Has(st, p)
    case Detached => true
  }

  /** Every range has an id, and every TOC range's id is longer than the
      root's (it extends an id by a suffix). */
  predicate Named(st: RangeState) {
    && st.root.Some? && st.root.value.id.Some?
    && (forall k :: k in st.toc ==> st.toc[k].id.Some?)
    && (forall k :: k in st.toc ==> |IdOf(st, Toc(k))| > |IdOf(st, Root)|)
  }

  /** Different keys hold ranges with different ids. */
  predicate TocIdsDistinct(st: RangeState) {
    forall k1, k2 :: k1 in st.toc && k2 in st.toc && k1 != k2 ==> IdOf(st, Toc(k1)) != IdOf(st, Toc(k2))
  }

  /** Each range's `j`-th sub-range entry is an id-only reference to the id
      `addSubRange` derived for it. */
  ghost predicate RefsNamed(st: RangeState) {
    forall p, j :: Has(st, p) && 0 <= j < |Get(st, p).subRanges| ==>
      Get(st, p).subRanges[j] == Reference(ChildId(Get(st, p).id, j))
  }

  /** Every TOC range is the sub-range of some range the service holds. */
  ghost predicate Linked(st: RangeState) {
    forall k :: k in st.toc ==> IsSubRangeId(st, IdOf(st, Toc(k)))
  }

  ghost predicate IsSubRangeId(st: RangeState, id: string) {
    exists p, j :: Has(st, p) && 0 <= j < |Get(st, p).subRanges| && id == ChildId(Get(st, p).id, j)
  }

  lemma SubRangeIdWitness(st: RangeState, p: Node, j: int, id: string)
    requires Has(st, p) && 0 <= j < |Get(st, p).subRanges| && id == ChildId(Get(st, p).id, j)
    ensures IsSubRangeId(st, id)
  {
  }

  /** Every sub-range reference resolves to a TOC range with that id. */
  ghost predicate RefsResolve(st: RangeState) {
    forall p, j :: Has(st, p) && 0 <= j < |Get(st, p).subRanges| ==> IsTocId(st, Get(st, p).subRanges[j].id)
  }

  ghost predicate IsTocId(st: RangeState, id: string) {
    exists k :: k in st.toc && IdOf(st, Toc(k)) == id
  }

  /** The TOC key a sub-range reference resolves to. */
  lemma ResolvedKey(st: RangeState, p: Node, j: int) returns (k: string)
    requires RefsResolve(st) && Has(st, p) && 0 <= j < |Get(st, p).subRanges|
    ensures k in st.toc && IdOf(st, Toc(k)) == Get(st, p).subRanges[j].id
  {
    assert IsTocId(st, Get(st, p).subRanges[j].id);
    k :| k in st.toc && IdOf(st, Toc(k)) == Get(st, p).subRanges[j].id;
  }

  /** The invariant of the ranges themselves; it also holds half-way
      through a TOC entry, before the cursor is moved. */
  ghost predicate WellFormed(st: RangeState) {
    && Named(st)
    && KeysOrdered(st)
    && TocIdsDistinct(st)
    && RefsNamed(st)
    && Linked(st)
    && RefsResolve(st)
  }

  /** The invariant between calls. */
  ghost predicate Valid(st: RangeState) {
    WellFormed(st) && CursorValid(st)
  }

  /** A cursor that points at a node points at a range the service holds. */
  predicate CursorHeld(st: RangeState) {
    st.cursor.At? ==> Has(st, st.cursor.node)
  }

  /** Two nodes whose ranges carry the same id are the same node: the root
      is shorter than every TOC range, and TOC ids are distinct. */
  lemma SameIdSameNode(st: RangeState, p: Node, q: Node)
    requires Named(st) && TocIdsDistinct(st) && Has(st, p) && Has(st, q)
    requires IdOf(st, p) == IdOf(st, q)
    ensures p == q
  {
  }

  /** The id a new sub-range of `at` receives is not held by any range yet. */
  lemma ChildIdLonger(st: RangeState, at: Node)
    requires Named(st) && Has(st, at)
    ensures |ChildId(Get(st, at).id, |Get(st, at).subRanges|)| > |IdOf(st, at)| >= |IdOf(st, Root)|
  {
  }

  lemma FreshChildId(st: RangeState, at: Node)
    requires Named(st) && TocIdsDistinct(st) && Linked(st) && Has(st, at)
    ensures forall k :: k in st.toc ==> IdOf(st, Toc(k)) != ChildId(Get(st, at).id, |Get(st, at).subRanges|)
  {
    var n := |Get(st, at).subRanges|;
    forall k | k in st.toc
      ensures IdOf(st, Toc(k)) != ChildId(Get(st, at).id, n)
    {
      if IdOf(st, Toc(k)) == ChildId(Get(st, at).id, n) {
        assert IsSubRangeId(st, IdOf(st, Toc(k)));
        var q, j :| Has(st, q) && 0 <= j < |Get(st, q).subRanges| && IdOf(st, Toc(k)) == ChildId(Get(st, q).id, j);
        DashSuffixInjective(IdOf(st, at), n, IdOf(st, q), j);
        SameIdSameNode(st, at, q);
        assert false;
      }
    }
  }

  /** A walk step from a range the service holds keeps the invariant and
      reaches a range the service holds. */
  lemma DescendWellFormed(st: RangeState, at: Node, key: string, part: string)
    requires WellFormed(st) && Has(st, at)
    ensures Descend(st, at, key, part).Ok?
    ensures WellFormed(Descend(st, at, key, part).value.0)
    ensures CursorHeld(st) ==> CursorHeld(Descend(st, at, key, part).value.0)
    ensures Has(Descend(st, at, key, part).value.0, Toc(key))
  {
    if key !in st.toc {
      if CursorHeld(st) {
        CursorAfterDescend(st, at, key, part);
      }
      NamedAfterDescend(st, at, key, part);
      KeysOrderedAfterDescend(st, at, key, part);
      FreshChildId(st, at);
      DistinctAfterDescend(st, at, key, part);
      RefsNamedAfterDescend(st, at, key, part);
      LinkedAfterDescend(st, at, key, part);
      ResolveAfterDescend(st, at, key, part);
    }
  }

  // The invariant's parts, one at a time, after a step that creates a range.

  lemma NamedAfterDescend(st: RangeState, at: Node, key: string, part: string)
    requires Named(st) && Has(st, at) && key !in st.toc
    ensures Named(Descend(st, at, key, part).value.0)
  {
    var st' := Descend(st, at, key, part).value.0;
    ChildIdLonger(st, at);
    assert IdOf(st', Root) == IdOf(st, Root);
    forall k | k in st'.toc
      ensures st'.toc[k].id.Some? && |IdOf(st', Toc(k))| > |IdOf(st', Root)|
    {
      if k != key && Toc(k) != at {
        assert Lookup(st', Toc(k)) == Lookup(st, Toc(k));
      }
    }
  }

  lemma CursorAfterDescend(st: RangeState, at: Node, key: string, part: string)
    requires CursorHeld(st) && Has(st, at) && key !in st.toc
    ensures CursorHeld(Descend(st, at, key, part).value.0)
  {
    var st' := Descend(st, at, key, part).value.0;
    if st.cursor.At? && st.cursor.node != at {
      assert Lookup(st', st.cursor.node) == Lookup(st, st.cursor.node);
    }
  }

  lemma KeysOrderedAfterDescend(st: RangeState, at: Node, key: string, part: string)
    requires KeysOrdered(st) && Has(st, at) && key !in st.toc
    ensures KeysOrdered(Descend(st, at, key, part).value.0)
  {
    var st' := Descend(st, at, key, part).value.0;
    assert st'.order == st.order + [key];
    forall i, j | 0 <= i < j < |st'.order|
      ensures st'.order[i] != st'.order[j]
    {
      if j == |st.order| {
        assert st.order[i] in st.toc;
      }
    }
  }

  lemma DistinctAfterDescend(st: RangeState, at: Node, key: string, part: string)
    requires TocIdsDistinct(st) && Has(st, at) && key !in st.toc
    requires forall k :: k in st.toc ==> IdOf(st, Toc(k)) != ChildId(Get(st, at).id, |Get(st, at).subRanges|)
    ensures TocIdsDistinct(Descend(st, at, key, part).value.0)
  {
    var st' := Descend(st, at, key, part).value.0;
    var childId := ChildId(Get(st, at).id, |Get(st, at).subRanges|);
    assert IdOf(st', Toc(key)) == childId;
    forall k | k in st.toc
      ensures IdOf(st', Toc(k)) == IdOf(st, Toc(k))
    {
      if Toc(k) != at {
        assert Lookup(st', Toc(k)) == Lookup(st, Toc(k));
      }
    }
    forall k1, k2 | k1 in st'.toc && k2 in st'.toc && k1 != k2
      ensures IdOf(st', Toc(k1)) != IdOf(st', Toc(k2))
    {
      if k1 == key {
        assert IdOf(st, Toc(k2)) != childId;
      } else if k2 == key {
        assert IdOf(st, Toc(k1)) != childId;
      } else {
        assert IdOf(st, Toc(k1)) != IdOf(st, Toc(k2));
      }
    }
  }

  lemma RefsNamedAfterDescend(st: RangeState, at: Node, key: string, part: string)
    requires RefsNamed(st) && Has(st, at) && key !in st.toc
    ensures RefsNamed(Descend(st, at, key, part).value.0)
  {
    var st' := Descend(st, at, key, part).value.0;
    forall p, j | Has(st', p) && 0 <= j < |Get(st', p).subRanges|
      ensures Get(st', p).subRanges[j] == Reference(ChildId(Get(st', p).id, j))
    {
      if p == at {
        var parent := Get(st, at);
        assert Get(st', p) == parent.(subRanges := parent.subRanges + [Reference(ChildId(parent.id, |parent.subRanges|))]);
        if j < |parent.subRanges| {
          assert Get(st', p).subRanges[j] == parent.subRanges[j];
        }
      } else if p != Toc(key) {
        assert Lookup(st', p) == Lookup(st, p);
        assert Has(st, p) && Get(st', p) == Get(st, p);
      }
    }
  }

  lemma LinkedAfterDescend(st: RangeState, at: Node, key: string, part: string)
    requires Linked(st) && Has(st, at) && key !in st.toc
    ensures Linked(Descend(st, at, key, part).value.0)
  {
    var st' := Descend(st, at, key, part).value.0;
    var n := |Get(st, at).subRanges|;
    forall k | k in st'.toc
      ensures IsSubRangeId(st', IdOf(st', Toc(k)))
    {
      if k == key {
        SubRangeIdWitness(st', at, n, IdOf(st', Toc(k)));
      } else {
        var id := IdOf(st, Toc(k));
        if Toc(k) != at {
          assert Lookup(st', Toc(k)) == Lookup(st, Toc(k));
        }
        assert IdOf(st', Toc(k)) == id;
        assert IsSubRangeId(st, id);
        var q, j :| Has(st, q) && 0 <= j < |Get(st, q).subRanges| && id == ChildId(Get(st, q).id, j);
        if q != at {
          assert Lookup(st', q) == Lookup(st, q);
        }
        SubRangeIdWitness(st', q, j, id);
      }
    }
  }

  lemma ResolveAfterDescend(st: RangeState, at: Node, key: string, part: string)
    requires RefsResolve(st) && Has(st, at) && key !in st.toc
    ensures RefsResolve(Descend(st, at, key, part).value.0)
  {
    var st' := Descend(st, at, key, part).value.0;
    var n := |Get(st, at).subRanges|;
    forall p, j | Has(st', p) && 0 <= j < |Get(st', p).subRanges|
      ensures exists k :: k in st'.toc && IdOf(st', Toc(k)) == Get(st', p).subRanges[j].id
    {
      if p == at && j == n {
        assert key in st'.toc && IdOf(st', Toc(key)) == Get(st', p).subRanges[j].id;
      } else if p != Toc(key) {
        if p != at {
          assert Lookup(st', p) == Lookup(st, p);
        }
        assert Has(st, p) && j < |Get(st, p).subRanges|;
        assert Get(st', p).subRanges[j] == Get(st, p).subRanges[j];
        var k :| k in st.toc && IdOf(st, Toc(k)) == Get(st, p).subRanges[j].id;
        if Toc(k) != at {
          assert Lookup(st', Toc(k)) == Lookup(st, Toc(k));
        }
        assert k in st'.toc && IdOf(st', Toc(k)) == Get(st', p).subRanges[j].id;
      }
    }
  }

  // ---------------------------------------------------------------------
  // Keys.

  /** The cumulative keys of the first `n` segments of a path. */
  function PrefixKeys(parts: seq<string>, n: nat, sep: string): set<string>
    requires n <= |parts|
  {
    set i | 1 <= i <= n :: Key(parts, i, sep)
  }

  lemma PrefixKeysSnoc(parts: seq<string>, n: nat, sep: string)
    requires 1 <= n <= |parts|
    ensures PrefixKeys(parts, n, sep) == PrefixKeys(parts, n - 1, sep) + {Key(parts, n, sep)}
  {
  }

  /** The cumulative key is `String.join` of the segments walked so far. */
  lemma {:induction false} KeyIsJoin(parts: seq<string>, n: nat, sep: string)
    requires 1 <= n <= |parts|
    ensures Key(parts, n, sep) == Join(parts[..n], sep)
  {
    if n > 1 {
      KeyIsJoin(parts, n - 1, sep);
      assert parts[..n] == parts[..n - 1] + [parts[n - 1]];
      JoinSnoc(parts[..n - 1], parts[n - 1], sep);
    }
  }

  /** A walk that completes stands at the range of the full key and has
      not moved the cursor. */
  lemma {:induction false} WalkLeaf(st: RangeState, parts: seq<string>, n: nat, sep: string)
    requires n <= |parts|
    requires Walk(st, parts, n, sep).Ok?
    ensures Walk(st, parts, n, sep).value.1 == Leaf(parts, n, sep)
    ensures Walk(st, parts, n, sep).value.0.cursor == st.cursor
  {
    if n > 0 {
      WalkLeaf(st, parts, n - 1, sep);
    }
  }

  /** A walk that completes has added exactly the missing prefix keys,
      appended in walk order after the keys already there. */
  lemma {:induction false} WalkKeys(st: RangeState, parts: seq<string>, n: nat, sep: string)
    requires n <= |parts|
    requires Walk(st, parts, n, sep).Ok?
    ensures Walk(st, parts, n, sep).value.0.toc.Keys == st.toc.Keys + PrefixKeys(parts, n, sep)
  {
    if n > 0 {
      WalkKeys(st, parts, n - 1, sep);
      PrefixKeysSnoc(parts, n, sep);
    }
  }

  /** A walk that completes keeps the keys already there at the front of
      the insertion order. */
  lemma {:induction false} WalkOrder(st: RangeState, parts: seq<string>, n: nat, sep: string)
    requires n <= |parts|
    requires Walk(st, parts, n, sep).Ok?
    ensures |Walk(st, parts, n, sep).value.0.order| >= |st.order|
    ensures Walk(st, parts, n, sep).value.0.order[..|st.order|] == st.order
  {
    if n > 0 {
      WalkOrder(st, parts, n - 1, sep);
      var w := Walk(st, parts, n - 1, sep).value;
      var w' := Descend(w.0, w.1, Key(parts, n, sep), parts[n - 1]).value;
      assert w'.0.order[..|w.0.order|] == w.0.order;
    }
  }

  /** Walking from a well-formed state always completes (no range on the
      way is null), keeps the state well-formed and reaches a held range. */
  lemma {:induction false} WalkWellFormed(st: RangeState, parts: seq<string>, n: nat, sep: string)
    returns (w: (RangeState, Node))
    requires n <= |parts|
    requires WellFormed(st)
    ensures Walk(st, parts, n, sep) == Ok(w)
    ensures WellFormed(w.0) && Has(w.0, w.1)
    ensures CursorHeld(st) ==> CursorHeld(w.0)
  {
    if n == 0 {
      w := (st, Root);
    } else {
      var m := n - 1;
      var prev := WalkWellFormed(st, parts, m, sep);
      var key := Key(parts, n, sep);
      DescendWellFormed(prev.0, prev.1, key, parts[m]);
      w := Descend(prev.0, prev.1, key, parts[m]).value;
      WalkUnfold(st, parts, m, n, sep, prev, w);
    }
  }

  /** The last step of a walk whose first `m` steps reached `prev`. */
  lemma WalkUnfold(st: RangeState, parts: seq<string>, m: nat, n: nat, sep: string,
                   prev: (RangeState, Node), next: (RangeState, Node))
    requires n == m + 1 <= |parts|
    requires Walk(st, parts, m, sep) == Ok(prev)
    requires Descend(prev.0, prev.1, Key(parts, n, sep), parts[m]) == Ok(next)
    ensures Walk(st, parts, n, sep) == Ok(next)
  {
  }

  /** Step `n` of a walk: a key already present is reused and changes
      nothing; a new key names a fresh range labelled with segment `n` and
      attached as the next sub-range of the range reached after `n - 1`
      segments (the root when `n` is 1). */
  lemma WalkAttaches(st: RangeState, parts: seq<string>, n: nat, sep: string)
    requires 1 <= n <= |parts|
    requires Walk(st, parts, n, sep).Ok?
    ensures Walk(st, parts, n - 1, sep).Ok?
    ensures
      var before := Walk(st, parts, n - 1, sep).value.0;
      var after := Walk(st, parts, n, sep).value.0;
      var key := Key(parts, n, sep);
      && (key in before.toc ==> after == before)
      && (key !in before.toc ==>
        var parent := Get(before, Leaf(parts, n - 1, sep));
        var childId := ChildId(parent.id, |parent.subRanges|);
        && after.toc[key] == Range(Some(childId), Some(parts[n - 1]), [], [], [])
        && Get(after, Leaf(parts, n - 1, sep)).subRanges == parent.subRanges + [Reference(childId)])
  {
  }

  /** A walk that succeeds keeps every key it started with and leaves every
      cumulative key of the path it walked stored. */
  lemma {:induction false} WalkStoresKeys(st: RangeState, parts: seq<string>, n: nat, sep: string)
    requires n <= |parts|
    requires Walk(st, parts, n, sep).Ok?
    ensures st.toc.Keys <= Walk(st, parts, n, sep).value.0.toc.Keys
    ensures forall i :: 1 <= i <= n ==> Key(parts, i, sep) in Walk(st, parts, n, sep).value.0.toc
  {
    if n > 0 {
      WalkStoresKeys(st, parts, n - 1, sep);
    }
  }

  // ---------------------------------------------------------------------
  // Canvas references held by the ranges.

  /** The number of canvas references held by the ranges stored under `keys`. */
  function SumCanvases(toc: map<string, Range>, keys: seq<string>): nat
  {
    if |keys| == 0 then 0
    else
      var last := keys[|keys| - 1];
      SumCanvases(toc, keys[..|keys| - 1]) + (if last in toc then |toc[last].canvases| else 0)
  }

  /** The number of canvas references held by the root and the TOC ranges. */
  function CanvasCount(st: RangeState): nat {
    |Get(st, Root).canvases| + SumCanvases(st.toc, st.order)
  }

  lemma {:induction false} SumFrame(toc: map<string, Range>, keys: seq<string>, k: string, r: Range)
    requires k !in keys
    ensures SumCanvases(toc[k := r], keys) == SumCanvases(toc, keys)
  {
    if |keys| > 0 {
      SumFrame(toc, keys[..|keys| - 1], k, r);
    }
  }

  lemma {:induction false} SumReplace(toc: map<string, Range>, keys: seq<string>, k: string, r: Range)
    requires k in toc
    requires forall i, j :: 0 <= i < j < |keys| ==> keys[i] != keys[j]
    ensures k in keys ==> SumCanvases(toc[k := r], keys) == SumCanvases(toc, keys) - |toc[k].canvases| + |r.canvases|
    ensures k !in keys ==> SumCanvases(toc[k := r], keys) == SumCanvases(toc, keys)
  {
    if |keys| > 0 {
      var init := keys[..|keys| - 1];
      var last := keys[|keys| - 1];
      if last == k {
        assert k !in init by {
          forall i | 0 <= i < |init|
            ensures init[i] != k
          {
            assert keys[i] != keys[|keys| - 1];
          }
        }
        SumFrame(toc, init, k, r);
      } else {
        SumReplace(toc, init, k, r);
      }
    } else {
      SumFrame(toc, keys, k, r);
    }
  }

  /** Storing a range with as many canvas references as the one it replaces
      keeps the count; storing one with one more adds one. */
  lemma StoreCount(st: RangeState, p: Node, r: Range)
    requires KeysOrdered(st) && Has(st, p)
    ensures CanvasCount(Store(st, p, r)) == CanvasCount(st) - |Get(st, p).canvases| + |r.canvases|
  {
    if p.Toc? {
      SumReplace(st.toc, st.order, p.key, r);
    }
  }

  /** A walk step moves no canvas reference. */
  lemma DescendCount(st: RangeState, at: Node, key: string, part: string)
    requires KeysOrdered(st) && Has(st, at)
    ensures CanvasCount(Descend(st, at, key, part).value.0) == CanvasCount(st)
  {
    if key !in st.toc {
      var attached := AddSubRange(Get(st, at), SetLabel(NewRange(), part));
      var st1 := Store(st, at, attached.0);
      assert Descend(st, at, key, part) == Ok((st1.(toc := st1.toc[key := attached.1], order := st1.order + [key]), Toc(key)));
      AttachCount(st, at, key, attached.0, attached.1);
    }
  }

  /** Replacing a range by one with as many canvases and filing a new empty
      range under a new key keeps the count. */
  lemma AttachCount(st: RangeState, at: Node, key: string, parent: Range, child: Range)
    requires KeysOrdered(st) && Has(st, at) && key !in st.toc
    requires |parent.canvases| == |Get(st, at).canvases| && child.canvases == []
    ensures var st1 := Store(st, at, parent);
      CanvasCount(st1.(toc := st1.toc[key := child], order := st1.order + [key])) == CanvasCount(st)
  {
    var st1 := Store(st, at, parent);
    var st' := st1.(toc := st1.toc[key := child], order := st1.order + [key]);
    StoreCount(st, at, parent);
    assert key !in st1.order;
    SumFrame(st1.toc, st1.order, key, child);
    SumSnoc(st'.toc, st1.order, key);
    assert Get(st', Root) == Get(st1, Root);
  }

  lemma SumSnoc(toc: map<string, Range>, keys: seq<string>, k: string)
    requires k in toc
    ensures SumCanvases(toc, keys + [k]) == SumCanvases(toc, keys) + |toc[k].canvases|
  {
    assert (keys + [k])[..|keys|] == keys;
  }

  lemma {:induction false} WalkCount(st: RangeState, parts: seq<string>, n: nat, sep: string)
    requires n <= |parts|
    requires KeysOrdered(st) && st.root.Some?
    ensures Walk(st, parts, n, sep).Ok?
    ensures KeysOrdered(Walk(st, parts, n, sep).value.0)
    ensures Walk(st, parts, n, sep).value.0.root.Some?
    ensures Has(Walk(st, parts, n, sep).value.0, Walk(st, parts, n, sep).value.1)
    ensures CanvasCount(Walk(st, parts, n, sep).value.0) == CanvasCount(st)
  {
    if n > 0 {
      WalkCount(st, parts, n - 1, sep);
      var w := Walk(st, parts, n - 1, sep).value;
      var key := Key(parts, n, sep);
      DescendCount(w.0, w.1, key, parts[n - 1]);
      if key !in w.0.toc {
        KeysOrderedAfterDescend(w.0, w.1, key, parts[n - 1]);
      }
    }
  }

  /** Two states whose ranges differ at most in their canvas references. */
  ghost predicate SameShape(st: RangeState, st': RangeState) {
    && st'.toc.Keys == st.toc.Keys
    && st'.order == st.order
    && (forall q :: Has(st', q) == Has(st, q))
    && (forall q :: Get(st', q).id == Get(st, q).id)
    && (forall q :: Get(st', q).subRanges == Get(st, q).subRanges)
  }

  lemma ShapeLinked(st: RangeState, st': RangeState)
    requires SameShape(st, st') && Linked(st)
    ensures Linked(st')
  {
    forall k | k in st'.toc
      ensures IsSubRangeId(st', IdOf(st', Toc(k)))
    {
      var id := IdOf(st, Toc(k));
      assert IdOf(st', Toc(k)) == id;
      assert IsSubRangeId(st, id);
      var q, j :| Has(st, q) && 0 <= j < |Get(st, q).subRanges| && id == ChildId(Get(st, q).id, j);
      SubRangeIdWitness(st', q, j, id);
    }
  }

  lemma ShapeResolve(st: RangeState, st': RangeState)
    requires SameShape(st, st') && RefsResolve(st)
    ensures RefsResolve(st')
  {
    forall q, j | Has(st', q) && 0 <= j < |Get(st', q).subRanges|
      ensures IsTocId(st', Get(st', q).subRanges[j].id)
    {
      var k := ResolvedKey(st, q, j);
      assert IdOf(st', Toc(k)) == IdOf(st, Toc(k));
    }
  }

  lemma ShapeNamed(st: RangeState, st': RangeState)
    requires SameShape(st, st') && Named(st)
    ensures Named(st')
  {
    assert IdOf(st', Root) == IdOf(st, Root);
    forall k | k in st'.toc
      ensures st'.toc[k].id.Some? && |IdOf(st', Toc(k))| > |IdOf(st', Root)|
    {
      assert Get(st', Toc(k)).id == Get(st, Toc(k)).id;
    }
  }

  lemma ShapeDistinct(st: RangeState, st': RangeState)
    requires SameShape(st, st') && TocIdsDistinct(st)
    ensures TocIdsDistinct(st')
  {
    assert forall k :: k in st.toc ==> IdOf(st', Toc(k)) == IdOf(st, Toc(k));
  }

  lemma ShapeRefsNamed(st: RangeState, st': RangeState)
    requires SameShape(st, st') && RefsNamed(st)
    ensures RefsNamed(st')
  {
    forall p, j | Has(st', p) && 0 <= j < |Get(st', p).subRanges|
      ensures Get(st', p).subRanges[j] == Reference(ChildId(Get(st', p).id, j))
    {
      assert Has(st, p) && Get(st', p).subRanges == Get(st, p).subRanges && Get(st', p).id == Get(st, p).id;
    }
  }

  lemma ShapeWellFormed(st: RangeState, st': RangeState)
    requires SameShape(st, st') && WellFormed(st)
    ensures WellFormed(st')
  {
    assert KeysOrdered(st');
    ShapeRefsNamed(st, st');
    ShapeNamed(st, st');
    ShapeDistinct(st, st');
    ShapeLinked(st, st');
    ShapeResolve(st, st');
  }

  /** Adding a canvas reference keeps the invariant and adds one to the count. */
  lemma AddCanvasWellFormed(st: RangeState, p: Node, canvasId: string)
    requires WellFormed(st) && Has(st, p)
    ensures AddCanvasTo(st, p, canvasId).Ok?
    ensures WellFormed(AddCanvasTo(st, p, canvasId).value)
    ensures CanvasCount(AddCanvasTo(st, p, canvasId).value) == CanvasCount(st) + 1
  {
    StoreCount(st, p, AddCanvas(Get(st, p), canvasId));
    AddCanvasShape(st, p, canvasId);
    ShapeWellFormed(st, AddCanvasTo(st, p, canvasId).value);
  }

  lemma AddCanvasShape(st: RangeState, p: Node, canvasId: string)
    requires Has(st, p)
    ensures AddCanvasTo(st, p, canvasId).Ok?
    ensures SameShape(st, AddCanvasTo(st, p, canvasId).value)
  {
    var st' := AddCanvasTo(st, p, canvasId).value;
    forall q
      ensures Has(st', q) == Has(st, q) && Get(st', q).id == Get(st, q).id && Get(st', q).subRanges == Get(st, q).subRanges
    {
      if q != p {
        assert Lookup(st', q) == Lookup(st, q);
      }
    }
  }

  lemma MoveCursorWellFormed(st: RangeState, c: Cursor)
    requires WellFormed(st)
    ensures WellFormed(st.(cursor := c))
  {
    var st' := st.(cursor := c);
    assert forall q :: Lookup(st', q) == Lookup(st, q);
    ShapeWellFormed(st, st');
  }

  // ---------------------------------------------------------------------
  // One TOC entry, a list of them, and `updateRanges`.

  /** A root is set and the insertion order lists every key once: enough
      for every walk and every canvas addition to complete. */
  predicate Rooted(st: RangeState) {
    st.root.Some? && KeysOrdered(st)
  }

  /** One TOC entry split into `parts`: the path's prefix keys are added,
      the canvas reference goes to the range of the full key (the root when
      there are no segments), and the cursor moves there. */
  lemma AddPathEffect(st: RangeState, parts: seq<string>, canvasId: string, sep: string)
    requires Rooted(st)
    ensures AddPath(st, parts, canvasId, sep).Ok?
    ensures var st' := AddPath(st, parts, canvasId, sep).value;
      && Rooted(st')
      && st'.cursor == At(Leaf(parts, |parts|, sep))
      && Has(st', Leaf(parts, |parts|, sep))
      && st'.toc.Keys == st.toc.Keys + PrefixKeys(parts, |parts|, sep)
      && |st'.order| >= |st.order| && st'.order[..|st.order|] == st.order
      && CanvasCount(st') == CanvasCount(st) + 1
      && |Get(st', st'.cursor.node).canvases| > 0
      && Get(st', st'.cursor.node).canvases[|Get(st', st'.cursor.node).canvases| - 1] == canvasId
  {
    WalkCount(st, parts, |parts|, sep);
    WalkLeaf(st, parts, |parts|, sep);
    WalkKeys(st, parts, |parts|, sep);
    WalkOrder(st, parts, |parts|, sep);
    var w := Walk(st, parts, |parts|, sep).value;
    StoreCount(w.0, w.1, AddCanvas(Get(w.0, w.1), canvasId));
    var st1 := AddCanvasTo(w.0, w.1, canvasId).value;
    var st' := st1.(cursor := At(w.1));
    assert AddPath(st, parts, canvasId, sep) == Ok(st');
    assert Get(st', w.1) == Get(st1, w.1);
  }

  /** One TOC entry from a well-formed state leaves a valid state. */
  lemma AddPathValid(st: RangeState, parts: seq<string>, canvasId: string, sep: string)
    requires WellFormed(st)
    ensures AddPath(st, parts, canvasId, sep).Ok?
    ensures Valid(AddPath(st, parts, canvasId, sep).value)
  {
    var w := WalkWellFormed(st, parts, |parts|, sep);
    AddCanvasWellFormed(w.0, w.1, canvasId);
    var st1 := AddCanvasTo(w.0, w.1, canvasId).value;
    MoveCursorWellFormed(st1, At(w.1));
    AddPathUnfold(st, parts, canvasId, sep, w.0, w.1, st1);
  }

  lemma AddPathUnfold(st: RangeState, parts: seq<string>, canvasId: string, sep: string,
                      walked: RangeState, leaf: Node, st1: RangeState)
    requires Walk(st, parts, |parts|, sep) == Ok((walked, leaf))
    requires AddCanvasTo(walked, leaf, canvasId) == Ok(st1)
    ensures AddPath(st, parts, canvasId, sep) == Ok(st1.(cursor := At(leaf)))
    ensures Has(st1.(cursor := At(leaf)), leaf)
  {
  }

  /** The prefix keys of every path in a list of TOC entries. */
  function TocKeys(tocs: seq<string>, sep: string): set<string>
    requires |sep| > 0
  {
    if |tocs| == 0 then {}
    else
      var parts := Split(tocs[|tocs| - 1], sep);
      TocKeys(tocs[..|tocs| - 1], sep) + PrefixKeys(parts, |parts|, sep)
  }

  /** `addTocRange` from a state with a root always completes. */
  lemma {:induction false} AddTocsRooted(st: RangeState, tocs: seq<string>, canvasId: string, sep: string)
    requires |sep| > 0 && Rooted(st)
    ensures AddTocs(st, tocs, canvasId, sep).Ok?
    ensures Rooted(AddTocs(st, tocs, canvasId, sep).value)
  {
    if |tocs| > 0 {
      var init := tocs[..|tocs| - 1];
      AddTocsRooted(st, init, canvasId, sep);
      var st1 := AddTocs(st, init, canvasId, sep).value;
      AddPathEffect(st1, Split(tocs[|tocs| - 1], sep), canvasId, sep);
    }
  }

  /** `addTocRange` keeps the keys already present, in their order, at the
      front of the insertion order: ranges are listed by first appearance. */
  lemma {:induction false} AddTocsOrder(st: RangeState, tocs: seq<string>, canvasId: string, sep: string)
    requires |sep| > 0 && Rooted(st)
    ensures AddTocs(st, tocs, canvasId, sep).Ok?
    ensures |AddTocs(st, tocs, canvasId, sep).value.order| >= |st.order|
    ensures AddTocs(st, tocs, canvasId, sep).value.order[..|st.order|] == st.order
  {
    AddTocsRooted(st, tocs, canvasId, sep);
    if |tocs| > 0 {
      var init := tocs[..|tocs| - 1];
      AddTocsOrder(st, init, canvasId, sep);
      AddTocsRooted(st, init, canvasId, sep);
      var st1 := AddTocs(st, init, canvasId, sep).value;
      AddPathEffect(st1, Split(tocs[|tocs| - 1], sep), canvasId, sep);
      PrefixTrans(st.order, st1.order, AddTocs(st, tocs, canvasId, sep).value.order);
    }
  }

  lemma PrefixTrans(a: seq<string>, b: seq<string>, c: seq<string>)
    requires |a| <= |b| <= |c| && b[..|a|] == a && c[..|b|] == b
    ensures c[..|a|] == a
  {
    assert c[..|a|] == c[..|b|][..|a|];
  }

  /** `addTocRange`: the map gains exactly the prefix keys of all paths. */
  lemma {:induction false} AddTocsKeys(st: RangeState, tocs: seq<string>, canvasId: string, sep: string)
    requires |sep| > 0 && Rooted(st)
    ensures AddTocs(st, tocs, canvasId, sep).Ok?
    ensures AddTocs(st, tocs, canvasId, sep).value.toc.Keys == st.toc.Keys + TocKeys(tocs, sep)
  {
    AddTocsRooted(st, tocs, canvasId, sep);
    if |tocs| > 0 {
      var init := tocs[..|tocs| - 1];
      AddTocsKeys(st, init, canvasId, sep);
      AddTocsRooted(st, init, canvasId, sep);
      var st1 := AddTocs(st, init, canvasId, sep).value;
      AddPathEffect(st1, Split(tocs[|tocs| - 1], sep), canvasId, sep);
    }
  }

  /** `addTocRange`: the canvas is referenced once per TOC entry. */
  lemma {:induction false} AddTocsCount(st: RangeState, tocs: seq<string>, canvasId: string, sep: string)
    requires |sep| > 0 && Rooted(st)
    ensures AddTocs(st, tocs, canvasId, sep).Ok?
    ensures CanvasCount(AddTocs(st, tocs, canvasId, sep).value) == CanvasCount(st) + |tocs|
  {
    AddTocsRooted(st, tocs, canvasId, sep);
    if |tocs| > 0 {
      var init := tocs[..|tocs| - 1];
      AddTocsCount(st, init, canvasId, sep);
      AddTocsRooted(st, init, canvasId, sep);
      var st1 := AddTocs(st, init, canvasId, sep).value;
      AddPathEffect(st1, Split(tocs[|tocs| - 1], sep), canvasId, sep);
    }
  }

  /** `addTocRange`: the cursor ends at the range of the last entry's full
      path, the root when that entry has no segments. */
  lemma AddTocsCursor(st: RangeState, tocs: seq<string>, canvasId: string, sep: string)
    requires |sep| > 0 && Rooted(st) && |tocs| > 0
    ensures AddTocs(st, tocs, canvasId, sep).Ok?
    ensures var last := Split(tocs[|tocs| - 1], sep);
      AddTocs(st, tocs, canvasId, sep).value.cursor == At(Leaf(last, |last|, sep))
  {
    var init := tocs[..|tocs| - 1];
    AddTocsRooted(st, init, canvasId, sep);
    var st1 := AddTocs(st, init, canvasId, sep).value;
    AddPathEffect(st1, Split(tocs[|tocs| - 1], sep), canvasId, sep);
  }

  /** `addTocRange` from a well-formed state leaves a valid state. */
  lemma {:induction false} AddTocsValid(st: RangeState, tocs: seq<string>, canvasId: string, sep: string)
    requires |sep| > 0 && WellFormed(st) && |tocs| > 0
    ensures AddTocs(st, tocs, canvasId, sep).Ok?
    ensures Valid(AddTocs(st, tocs, canvasId, sep).value)
  {
    var init := tocs[..|tocs| - 1];
    if |init| == 0 {
      assert AddTocs(st, init, canvasId, sep) == Ok(st);
      AddPathValid(st, Split(tocs[0], sep), canvasId, sep);
    } else {
      AddTocsValid(st, init, canvasId, sep);
      var st1 := AddTocs(st, init, canvasId, sep).value;
      AddPathValid(st1, Split(tocs[|tocs| - 1], sep), canvasId, sep);
    }
  }

  /** `updateRanges` from a valid state never meets a null range and leaves
      a valid state. */
  lemma UpdateRangesValid(st: RangeState, tocs: seq<string>, canvasId: string, sep: string)
    requires |sep| > 0 && Valid(st)
    ensures UpdateRanges(st, tocs, canvasId, sep).Ok?
    ensures Valid(UpdateRanges(st, tocs, canvasId, sep).value)
  {
    if |tocs| > 0 {
      AddTocsValid(st, tocs, canvasId, sep);
    } else if |st.toc| > 0 && st.cursor.At? {
      AddCanvasWellFormed(st, st.cursor.node, canvasId);
      var st' := AddCanvasTo(st, st.cursor.node, canvasId).value;
      assert Has(st', st.cursor.node);
    }
  }

  /** The number of canvas references `updateRanges` adds: one per TOC
      entry; otherwise one at the cursor once the map holds something. */
  lemma UpdateRangesCount(st: RangeState, tocs: seq<string>, canvasId: string, sep: string)
    requires |sep| > 0 && Rooted(st) && CursorValid(st)
    ensures UpdateRanges(st, tocs, canvasId, sep).Ok?
    ensures CanvasCount(UpdateRanges(st, tocs, canvasId, sep).value) == CanvasCount(st) +
      (if |tocs| > 0 then |tocs| else if |st.toc| > 0 && st.cursor != Detached then 1 else 0)
  {
    if |tocs| > 0 {
      AddTocsCount(st, tocs, canvasId, sep);
    } else if |st.toc| > 0 && st.cursor.At? {
      StoreCount(st, st.cursor.node, AddCanvas(Get(st, st.cursor.node), canvasId));
    }
  }

  /** The keys `updateRanges` leaves: the old ones and the prefix keys of
      the canvas's TOC paths, nothing else. */
  lemma UpdateRangesKeys(st: RangeState, tocs: seq<string>, canvasId: string, sep: string)
    requires |sep| > 0 && Rooted(st) && CursorValid(st)
    ensures UpdateRanges(st, tocs, canvasId, sep).Ok?
    ensures UpdateRanges(st, tocs, canvasId, sep).value.toc.Keys == st.toc.Keys + TocKeys(tocs, sep)
  {
    if |tocs| > 0 {
      AddTocsKeys(st, tocs, canvasId, sep);
    }
  }

  /** The state after `setRootRange` on a new service is valid. */
  lemma SetRootRangeValid(manifestId: string, rootLabel: string)
    ensures Valid(SetRootRange(Initial(), manifestId, rootLabel))
  {
    var st := SetRootRange(Initial(), manifestId, rootLabel);
    assert st.toc == map[] && st.order == [];
    assert forall p :: Has(st, p) ==> p == Root && |Get(st, p).subRanges| == 0;
  }

  /** Ranges held by a valid state carry pairwise different ids; the root
      in particular is never among the TOC ranges. */
  lemma IdsDistinct(st: RangeState, p: Node, q: Node)
    requires Valid(st) && Has(st, p) && Has(st, q) && p != q
    ensures IdOf(st, p) != IdOf(st, q)
  {
    if IdOf(st, p) == IdOf(st, q) {
      SameIdSameNode(st, p, q);
    }
  }
}
