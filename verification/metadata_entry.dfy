/** One metadata entry of a v3 resource (`MetadataEntryGenerator`): a field
    name, a first value and optional further values, turned into a label
    (the message for key `metadata.<field>`) and the values shown. */
module MetadataEntry {
  import opened Wrappers
  import opened JavaStrings

  /** The generator's three fields; `None` is Java's `null`. */
  datatype EntryGen = EntryGen(field: Option<string>, value: Option<string>, rest: Option<seq<string>>)

  /** A generated entry: the language tag, the message key of its label and
      the values it shows (a `null` value stays `None`). */
  datatype Metadata = Metadata(lang: Option<string>, labelKey: string, values: seq<Option<string>>)

  function NewEntryGen(): EntryGen {
    EntryGen(None, None, None)
  }

  /** `setField`: replaces the field name and leaves the values alone. */
  function SetField(g: EntryGen, field: string): (g': EntryGen)
    ensures g'.field == Some(field) && g'.value == g.value && g'.rest == g.rest
  {
    g.(field := Some(field))
  }

  /** `setValue(value, rest...)`: replaces the first value and the further
      values together; the field name is kept. */
  function SetValue(g: EntryGen, value: string, rest: seq<string>): (g': EntryGen)
    ensures g'.field == g.field && g'.value == Some(value) && g'.rest == Some(rest)
  {
    g.(value := Some(value), rest := Some(rest))
  }

  /** The label key `"metadata." + field`, with a missing field rendered as
      Java's string concatenation renders `null`. */
  function LabelKey(g: EntryGen): string {
    "metadata." + Show(g.field)
  }

  /** `generateValue(langTag)` as written: one value only, which is the
      first further value when there is one, and the first value otherwise. */
  function GenerateValue(g: EntryGen, langTag: Option<string>): (m: Metadata)
    ensures m.lang == langTag && m.labelKey == LabelKey(g)
    ensures |m.values| == 1
    ensures m.values[0] == g.value <==> !(g.rest.Some? && |g.rest.value| > 0) || g.value == Some(g.rest.value[0])
    ensures forall v :: v in m.values ==> v == g.value || (g.rest.Some? && v.Some? && v.value in g.rest.value)
  {
    if g.rest.Some? && |g.rest.value| > 0 then Metadata(langTag, LabelKey(g), [Some(g.rest.value[0])])
    else Metadata(langTag, LabelKey(g), [g.value])
  }

  /** A field set with two different values shows only the second one: the
      first value passed to `setValue` is lost. */
  lemma GenerateValueDropsFirst()
    ensures var g := SetValue(SetField(NewEntryGen(), "dc.title"), "A", ["B"]);
      Some("A") !in GenerateValue(g, None).values && GenerateValue(g, None).values == [Some("B")]
  {
  }

  /** Every value passed in, first value then the further ones in order. */
  function AllValues(g: EntryGen): (vs: seq<Option<string>>)
    ensures |vs| == 1 + (if g.rest.Some? then |g.rest.value| else 0)
    ensures vs[0] == g.value
    ensures g.rest.Some? ==> forall k :: 0 <= k < |g.rest.value| ==> vs[k + 1] == Some(g.rest.value[k])
  {
    [g.value] + (if g.rest.Some? then Somes(g.rest.value) else [])
  }

  function Somes(xs: seq<string>): (ys: seq<Option<string>>)
    ensures |ys| == |xs| && forall k :: 0 <= k < |xs| ==> ys[k] == Some(xs[k])
  {
    if |xs| == 0 then [] else Somes(xs[..|xs| - 1]) + [Some(xs[|xs| - 1])]
  }

  /** `generateValue` as evidently intended: the entry shows the first value
      followed by every further value. */
  function GenerateEntry(g: EntryGen, langTag: Option<string>): (m: Metadata)
    ensures m.lang == langTag && m.labelKey == LabelKey(g)
    ensures m.values == AllValues(g)
  {
    Metadata(langTag, LabelKey(g), AllValues(g))
  }

  /** The intended entry never loses a value, and agrees with the code as
      written exactly when there are no further values. */
  lemma GenerateEntryKeepsValues(g: EntryGen, langTag: Option<string>)
    ensures g.value in GenerateEntry(g, langTag).values
    ensures g.rest.Some? ==> forall v :: v in g.rest.value ==> Some(v) in GenerateEntry(g, langTag).values
    ensures (GenerateEntry(g, langTag) == GenerateValue(g, langTag)) <==> !(g.rest.Some? && |g.rest.value| > 0)
  {
    var m := GenerateEntry(g, langTag);
    if g.rest.Some? {
      forall v | v in g.rest.value
        ensures Some(v) in m.values
      {
        var k :| 0 <= k < |g.rest.value| && g.rest.value[k] == v;
        assert m.values[k + 1] == Some(v);
      }
      if |g.rest.value| > 0 {
        assert |m.values| > 1;
      }
    }
  }
}
