/** The item metadata both manifest services copy into a manifest
    (`addMetadata` of `ManifestService` and of `ManifestV3Service`).

    Each configured field spec `schema.element[.qualifier]` is split on
    dots; a qualifier exists only when there are three pieces or more. The
    item's values for the field are read, hidden values are dropped, and a
    field with at least one visible value becomes one entry: its first value
    and the rest in order. The description and the license URI are added
    only when they are not blank. */
module ItemMetadata {
  import opened Wrappers
  import opened JavaStrings

  /** A parsed field spec. */
  datatype FieldSpec = FieldSpec(schema: string, element: string, qualifier: Option<string>)

  /** `field.split("\\.")` followed by reading pieces 0, 1 and, when there
      are more than two, 2. Fewer than two pieces make the read of piece 1
      throw. */
  function ParseFieldSpec(field: string): (res: Result<FieldSpec>)
    ensures var parts := Split(field, ".");
      && (res.Ok? <==> |parts| >= 2)
      && (res.Ok? ==> res.value.schema == parts[0] && res.value.element == parts[1])
      && (res.Ok? ==> (res.value.qualifier.Some? <==> |parts| >= 3))
      && (res.Ok? && |parts| >= 3 ==> res.value.qualifier == Some(parts[2]))
  {
    var parts := Split(field, ".");
    if |parts| < 2 then Fail(IndexOutOfBounds)
    else Ok(FieldSpec(parts[0], parts[1], if |parts| > 2 then Some(parts[2]) else None))
  }

  /** The spec written back as a configuration string. */
  function RenderFieldSpec(f: FieldSpec): string {
    match f.qualifier
    case None => Join([f.schema, f.element], ".")
    case Some(q) => Join([f.schema, f.element, q], ".")
  }

  /** The pieces of a spec contain no dot and are not empty. */
  predicate PlainSpec(f: FieldSpec) {
    && f.schema != "" && '.' !in f.schema
    && f.element != "" && '.' !in f.element
    && (f.qualifier.Some? ==> f.qualifier.value != "" && '.' !in f.qualifier.value)
  }

  /** Parsing a written-out spec gives the spec back. */
  lemma ParseRenderFieldSpec(f: FieldSpec)
    requires PlainSpec(f)
    ensures ParseFieldSpec(RenderFieldSpec(f)) == Ok(f)
  {
    match f.qualifier
    case None =>
      SplitJoinChar([f.schema, f.element], '.');
    case Some(q) =>
      SplitJoinChar([f.schema, f.element, q], '.');
  }

  /** What asking whether one value is hidden gives. */
  datatype Exposure = Visible | Hidden | ExposureError

  /** One metadata value of the item, with the exposure of its field. */
  datatype MetaValue = MetaValue(value: string, exposure: Exposure)

  /** The visible values, in order; a failed exposure lookup is rethrown as
      a runtime error. */
  function VisibleValues(ms: seq<MetaValue>): (res: Result<seq<string>>)
    ensures res.Ok? <==> forall k :: 0 <= k < |ms| ==> ms[k].exposure != ExposureError
    decreases |ms|
  {
    if |ms| == 0 then Ok([])
    else
      var last := ms[|ms| - 1];
      assert forall k :: 0 <= k < |ms| - 1 ==> ms[..|ms| - 1][k] == ms[k];
      var init :- VisibleValues(ms[..|ms| - 1]);
      match last.exposure
      case ExposureError => Fail(RuntimeError("exposure lookup failed"))
      case Hidden => Ok(init)
      case Visible => Ok(init + [last.value])
  }

  /** The reference filter: the values whose exposure is visible, in order. */
  function Shown(ms: seq<MetaValue>): seq<string> {
    if |ms| == 0 then []
    else (if ms[0].exposure == Visible then [ms[0].value] else []) + Shown(ms[1..])
  }

  lemma {:induction false} ShownAppend(a: seq<MetaValue>, b: seq<MetaValue>)
    ensures Shown(a + b) == Shown(a) + Shown(b)
    decreases |a|
  {
    if |a| > 0 {
      assert (a + b)[1..] == a[1..] + b;
      ShownAppend(a[1..], b);
    } else {
      assert a + b == b;
    }
  }

  /** When no lookup fails, the loop keeps exactly the visible values. */
  lemma {:induction false} VisibleValuesShown(ms: seq<MetaValue>)
    requires VisibleValues(ms).Ok?
    ensures VisibleValues(ms).value == Shown(ms)
    decreases |ms|
  {
    if |ms| > 0 {
      var init := ms[..|ms| - 1];
      var last := ms[|ms| - 1];
      VisibleValuesShown(init);
      assert ms == init + [last];
      ShownAppend(init, [last]);
      assert Shown([last]) == (if last.exposure == Visible then [last.value] else []) + Shown([]);
    }
  }

  /** A value is shown exactly when some visible value of the item has it. */
  lemma {:induction false} ShownMembers(ms: seq<MetaValue>, v: string)
    ensures v in Shown(ms) <==> exists k :: 0 <= k < |ms| && ms[k] == MetaValue(v, Visible)
    decreases |ms|
  {
    if |ms| > 0 {
      ShownMembers(ms[1..], v);
      if exists k :: 0 <= k < |ms[1..]| && ms[1..][k] == MetaValue(v, Visible) {
        var k :| 0 <= k < |ms[1..]| && ms[1..][k] == MetaValue(v, Visible);
        assert ms[k + 1] == MetaValue(v, Visible);
      }
      if exists k :: 0 <= k < |ms| && ms[k] == MetaValue(v, Visible) {
        var k :| 0 <= k < |ms| && ms[k] == MetaValue(v, Visible);
        if k > 0 {
          assert ms[1..][k - 1] == MetaValue(v, Visible);
        }
      }
    }
  }

  /** One `addMetadata(field, first, rest...)` call on the manifest. */
  datatype MetadataCall = MetadataCall(field: string, first: string, rest: seq<string>)

  /** The entry one field spec gives, if any. `lookup` is the item's values
      for a parsed spec (with any language), each with its exposure. */
  function FieldEntry(field: string, lookup: FieldSpec -> seq<MetaValue>): (res: Result<Option<MetadataCall>>)
    ensures res.Ok? <==> ParseFieldSpec(field).Ok? && VisibleValues(lookup(ParseFieldSpec(field).value)).Ok?
    ensures res.Ok? ==>
      var values := Shown(lookup(ParseFieldSpec(field).value));
      && (res.value.None? <==> values == [])
      && (res.value.Some? ==> res.value.value.field == field && [res.value.value.first] + res.value.value.rest == values)
  {
    var spec :- ParseFieldSpec(field);
    var values :- VisibleValues(lookup(spec));
    VisibleValuesShown(lookup(spec));
    if |values| == 0 then Ok(None)
    else
      assert values == [values[0]] + values[1..];
      Ok(Some(MetadataCall(field, values[0], values[1..])))
  }

  /** The entries of all configured fields, in configuration order. */
  function FieldEntries(fields: seq<string>, lookup: FieldSpec -> seq<MetaValue>): (res: Result<seq<MetadataCall>>)
    ensures res.Ok? <==> forall k :: 0 <= k < |fields| ==> FieldEntry(fields[k], lookup).Ok?
    decreases |fields|
  {
    if |fields| == 0 then Ok([])
    else
      var init := fields[..|fields| - 1];
      assert forall k :: 0 <= k < |init| ==> init[k] == fields[k];
      var es :- FieldEntries(init, lookup);
      var e :- FieldEntry(fields[|fields| - 1], lookup);
      Ok(es + (match e case None => [] case Some(c) => [c]))
  }

  /** The fields that yield an entry, in configuration order. */
  function EntryFields(fields: seq<string>, lookup: FieldSpec -> seq<MetaValue>): seq<string> {
    if |fields| == 0 then []
    else
      var init := fields[..|fields| - 1];
      var f := fields[|fields| - 1];
      EntryFields(init, lookup) + (if FieldEntry(f, lookup) == Ok(None) || FieldEntry(f, lookup).Fail? then [] else [f])
  }

  /** The emitted entries are, in order, one per field with a visible
      value, each the entry of its field (so carrying exactly that field's
      visible values). */
  lemma {:induction false} FieldEntriesContents(fields: seq<string>, lookup: FieldSpec -> seq<MetaValue>)
    requires FieldEntries(fields, lookup).Ok?
    ensures var es := FieldEntries(fields, lookup).value;
      && |es| == |EntryFields(fields, lookup)|
      && (forall k :: 0 <= k < |es| ==> FieldEntry(EntryFields(fields, lookup)[k], lookup) == Ok(Some(es[k])))
    decreases |fields|
  {
    if |fields| > 0 {
      var init := fields[..|fields| - 1];
      assert forall k :: 0 <= k < |init| ==> init[k] == fields[k];
      FieldEntriesContents(init, lookup);
    }
  }

  /** What the services add to the manifest from the item's metadata. */
  datatype ItemMeta = ItemMeta(entries: seq<MetadataCall>, description: Option<string>, license: Option<string>)

  /** A text that is added only when it is not blank. */
  function NotBlank(s: Option<string>): (r: Option<string>)
    ensures r.Some? <==> IsNotBlank(s)
    ensures r.Some? ==> r == s
  {
    if IsNotBlank(s) then s else None
  }

  /** `addMetadata`: the configured fields, then the first `dc.description`
      and the first `dc.rights.uri` value. */
  function AddItemMetadata(fields: seq<string>, lookup: FieldSpec -> seq<MetaValue>, description: Option<string>, licenseUri: Option<string>): (res: Result<ItemMeta>)
    ensures res.Ok? <==> FieldEntries(fields, lookup).Ok?
    ensures res.Ok? ==> res.value.entries == FieldEntries(fields, lookup).value
    ensures res.Ok? ==> (res.value.description.Some? <==> IsNotBlank(description))
    ensures res.Ok? ==> (res.value.license.Some? <==> IsNotBlank(licenseUri))
    ensures res.Ok? && res.value.description.Some? ==> res.value.description == description
    ensures res.Ok? && res.value.license.Some? ==> res.value.license == licenseUri
  {
    var entries :- FieldEntries(fields, lookup);
    Ok(ItemMeta(entries, NotBlank(description), NotBlank(licenseUri)))
  }
}
