/** The IIIF 3 manifest builder (`ManifestV3Generator`).

    The id and the label are fixed by the constructor, which refuses an id
    that is not a URI. `setIdentifier` must be called with a non-empty value
    before generation, but the value is only checked, never emitted. Metadata
    arrives in batches whose `null` entries are skipped; generation copies
    the stored entries in order. The summary and the provider are stored
    but not emitted. */
module ManifestV3 {
  import opened Wrappers
  import Seqs

  /** One metadata pair of the manifest: its label and its value. */
  datatype MetaPair = MetaPair(labelValue: string, value: string)

  /** The fields of one `ManifestV3Generator`. */
  datatype ManifestV3Gen = ManifestV3Gen(
    id: string,
    labelText: string,
    metadata: seq<MetaPair>,
    summary: Option<string>,
    provider: Option<string>,
    identifier: Option<string>)

  /** A generated manifest. */
  datatype ManifestV3Doc = ManifestV3Doc(id: string, labelValue: string, metadata: seq<MetaPair>)

  /** The constructor. `isUri` stands for `new URI(id)` succeeding. */
  function NewManifestV3(id: string, labelText: string, isUri: string -> bool): (res: Result<ManifestV3Gen>)
    ensures res.Fail? <==> !isUri(id)
    ensures res.Fail? ==> res.failure.IllegalArgument?
    ensures res.Ok? ==> res.value.id == id && res.value.labelText == labelText
    ensures res.Ok? ==> res.value.metadata == [] && res.value.identifier.None?
    ensures res.Ok? ==> res.value.summary.None? && res.value.provider.None?
  {
    if !isUri(id) then Fail(IllegalArgument("L'ID fourni n'est pas une URI valide"))
    else Ok(ManifestV3Gen(id, labelText, [], None, None, None))
  }

  /** `setIdentifier`: an empty identifier is refused and nothing changes. */
  function SetIdentifier(g: ManifestV3Gen, identifier: string): (res: Result<ManifestV3Gen>)
    ensures res.Fail? <==> identifier == ""
    ensures res.Ok? ==> res.value == g.(identifier := Some(identifier))
  {
    if identifier == "" then Fail(RuntimeError("Invalid manifest identifier. Cannot be an empty string."))
    else Ok(g.(identifier := Some(identifier)))
  }

  /** The entries of a batch that are not `null`, in order. */
  function Present(entries: seq<Option<MetaPair>>): seq<MetaPair>
    decreases |entries|
  {
    if |entries| == 0 then []
    else
      var last := entries[|entries| - 1];
      Present(entries[..|entries| - 1]) + (match last case None => [] case Some(m) => [m])
  }

  /** Skipping `null`s splits over concatenation, so the kept entries keep
      their relative order. */
  lemma {:induction false} PresentAppend(a: seq<Option<MetaPair>>, b: seq<Option<MetaPair>>)
    ensures Present(a + b) == Present(a) + Present(b)
    decreases |b|
  {
    if |b| == 0 {
      assert a + b == a;
    } else {
      assert (a + b)[..|a + b| - 1] == a + b[..|b| - 1];
      PresentAppend(a, b[..|b| - 1]);
    }
  }

  /** An entry is kept exactly when it is a non-`null` entry of the batch,
      and the batch loses exactly its `null`s. */
  lemma {:induction false} PresentMembers(entries: seq<Option<MetaPair>>, m: MetaPair)
    ensures m in Present(entries) <==> Some(m) in entries
    ensures |Present(entries)| <= |entries|
    ensures None !in entries ==> |Present(entries)| == |entries|
    decreases |entries|
  {
    if |entries| > 0 {
      var init := entries[..|entries| - 1];
      PresentMembers(init, m);
      assert entries == init + [entries[|entries| - 1]];
    }
  }

  /** `addMetadata(metadata...)`: the non-`null` entries are appended. */
  function AddMetadata(g: ManifestV3Gen, entries: seq<Option<MetaPair>>): (g': ManifestV3Gen)
    ensures |g'.metadata| >= |g.metadata| && g'.metadata[..|g.metadata|] == g.metadata
    ensures forall m :: m in g'.metadata <==> m in g.metadata || Some(m) in entries
    ensures g'.id == g.id && g'.labelText == g.labelText && g'.identifier == g.identifier
  {
    PresentMembers(entries, MetaPair("", ""));
    var r := g.(metadata := g.metadata + Present(entries));
    assert forall m :: m in r.metadata <==> m in g.metadata || Some(m) in entries by {
      forall m
        ensures m in r.metadata <==> m in g.metadata || Some(m) in entries
      {
        PresentMembers(entries, m);
      }
    }
    r
  }

  /** The batch's kept entries go after those already stored. */
  lemma AddMetadataAppends(g: ManifestV3Gen, entries: seq<Option<MetaPair>>)
    ensures AddMetadata(g, entries).metadata == g.metadata + Present(entries)
  {
  }

  /** `setSummary`: the summary is stored and nothing else changes, and
      it never reaches the generated manifest. */
  function SetSummary(g: ManifestV3Gen, summaryText: string): (g': ManifestV3Gen)
    ensures g'.summary == Some(summaryText) && g'.(summary := g.summary) == g
    ensures Generate(g') == Generate(g)
  {
    g.(summary := Some(summaryText))
  }

  /** `setProvider`: the provider is stored and nothing else changes, and
      it never reaches the generated manifest. */
  function SetProvider(g: ManifestV3Gen, provider: string): (g': ManifestV3Gen)
    ensures g'.provider == Some(provider) && g'.(provider := g.provider) == g
    ensures Generate(g') == Generate(g)
  {
    g.(provider := Some(provider))
  }

  /** `generateResource`: refused until an identifier was set; then the
      constructor's id and label and the stored metadata, copied in order. */
  function Generate(g: ManifestV3Gen): (res: Result<ManifestV3Doc>)
    ensures res.Fail? <==> g.identifier.None?
    ensures res.Fail? ==> res.failure.RuntimeError?
  {
    if g.identifier.None? then Fail(RuntimeError("Le manifeste nécessite un identifiant."))
    else Ok(ManifestV3Doc(g.id, g.labelText, seq(|g.metadata|, k requires 0 <= k < |g.metadata| => MetaPair(g.metadata[k].labelValue, g.metadata[k].value))))
  }

  /** The emitted id and label are the constructor's whatever identifier
      was set, and neither the summary nor the provider is emitted. */
  lemma GenerateIgnoresIdentifier(g: ManifestV3Gen, a: string, b: string, summaryText: string, provider: string)
    requires a != "" && b != ""
    ensures Generate(SetIdentifier(g, a).value) == Generate(SetIdentifier(g, b).value)
    ensures Generate(SetSummary(SetIdentifier(g, a).value, summaryText)) == Generate(SetIdentifier(g, a).value)
    ensures Generate(SetProvider(SetIdentifier(g, a).value, provider)) == Generate(SetIdentifier(g, a).value)
    ensures Generate(SetIdentifier(g, a).value).value.id == g.id
    ensures Generate(SetIdentifier(g, a).value).value.labelValue == g.labelText
  {
  }

  /** Generation copies every stored entry, in order. */
  lemma GenerateCopies(g: ManifestV3Gen)
    requires g.identifier.Some?
    ensures Generate(g).Ok? && Generate(g).value.metadata == g.metadata
  {
    var ms := Generate(g).value.metadata;
    assert |ms| == |g.metadata|;
    forall k | 0 <= k < |ms|
      ensures ms[k] == g.metadata[k]
    {
    }
  }

  /** Batches of `addMetadata` calls one after another. */
  function AddMetadataBatches(g: ManifestV3Gen, batches: seq<seq<Option<MetaPair>>>): ManifestV3Gen
    decreases |batches|
  {
    if |batches| == 0 then g
    else AddMetadata(AddMetadataBatches(g, batches[..|batches| - 1]), batches[|batches| - 1])
  }

  /** All entries of the batches, batch after batch. */
  function Flatten(batches: seq<seq<Option<MetaPair>>>): seq<Option<MetaPair>>
    decreases |batches|
  {
    if |batches| == 0 then []
    else Flatten(batches[..|batches| - 1]) + batches[|batches| - 1]
  }

  /** A fresh manifest that received batches of metadata and then an
      identifier generates with the constructor's id and label and exactly
      the non-`null` entries of all batches, in call order. */
  lemma {:induction false} BuildManifest(id: string, labelText: string, isUri: string -> bool, batches: seq<seq<Option<MetaPair>>>, identifier: string)
    requires isUri(id) && identifier != ""
    ensures var g := AddMetadataBatches(NewManifestV3(id, labelText, isUri).value, batches);
      && SetIdentifier(g, identifier).Ok?
      && Generate(SetIdentifier(g, identifier).value) == Ok(ManifestV3Doc(id, labelText, Present(Flatten(batches))))
  {
    var g0 := NewManifestV3(id, labelText, isUri).value;
    BatchesMetadata(g0, batches);
    BatchesKeep(g0, batches);
    assert g0.metadata + Present(Flatten(batches)) == Present(Flatten(batches));
    var g := SetIdentifier(AddMetadataBatches(g0, batches), identifier).value;
    GenerateCopies(g);
  }

  lemma {:induction false} BatchesMetadata(g: ManifestV3Gen, batches: seq<seq<Option<MetaPair>>>)
    ensures AddMetadataBatches(g, batches).metadata == g.metadata + Present(Flatten(batches))
    decreases |batches|
  {
    if |batches| == 0 {
      assert g.metadata + [] == g.metadata;
    } else {
      var init := batches[..|batches| - 1];
      var last := batches[|batches| - 1];
      var g1, g2 := BatchesLast(g, batches, init);
      assert Flatten(batches) == Flatten(init) + last;
      BatchesMetadata(g, init);
      PresentAppend(Flatten(init), last);
      Seqs.AppendChain(g.metadata, g1.metadata, g2.metadata, Present(Flatten(init)), Present(Flatten(batches)), Present(last));
    }
  }

  /** The last batch appends its present entries after the earlier batches' ones. */
  lemma BatchesLast(g: ManifestV3Gen, batches: seq<seq<Option<MetaPair>>>, init: seq<seq<Option<MetaPair>>>)
    returns (g1: ManifestV3Gen, g2: ManifestV3Gen)
    requires |batches| > 0 && init == batches[..|batches| - 1]
    ensures g1 == AddMetadataBatches(g, init) && g2 == AddMetadataBatches(g, batches)
    ensures g2.metadata == g1.metadata + Present(batches[|batches| - 1])
  {
    g1 := AddMetadataBatches(g, init);
    g2 := AddMetadataBatches(g, batches);
    AddMetadataAppends(g1, batches[|batches| - 1]);
  }

  /** The batches touch neither the id, the label nor the identifier. */
  lemma {:induction false} BatchesKeep(g: ManifestV3Gen, batches: seq<seq<Option<MetaPair>>>)
    ensures AddMetadataBatches(g, batches).id == g.id && AddMetadataBatches(g, batches).labelText == g.labelText
    ensures AddMetadataBatches(g, batches).identifier == g.identifier
    decreases |batches|
  {
    if |batches| > 0 {
      BatchesKeep(g, batches[..|batches| - 1]);
    }
  }
}
