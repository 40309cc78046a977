# IIIF manifests and CLIP indexing in Calypso (DSpace), modelled in Dafny

This project models the parts of the Calypso DSpace customisation that
build IIIF presentation documents for an item, and the two event consumers
that keep the CLIP image index in step with the repository.

- **Table-of-contents ranges** (`RangeGenerator`, `RangeService`). Each
  canvas carries zero or more TOC entries `a|b|c`. Every prefix of an entry
  names one range, kept in a map in insertion order and created on first
  use as a sub-range of its parent, with id `parentId + "-" + n`. The
  canvas is then referenced from the range of the full path, which becomes
  the current range. A canvas with no entry goes into the current range,
  once some range exists.
- **Canvas sequencing** (`CanvasGenerator`, `CanvasItemsGenerator`,
  `CanvasItemsService`). Canvases are generated in bitstream order with a
  running ordinal. A canvas with a thumbnail must have both dimensions.
- **Metadata selection and matching.** The configured `schema.element[.qualifier]`
  fields are parsed, and hidden values are dropped. A blank description or
  licence is skipped. An OCR, transcription or seeAlso bitstream belongs to
  a page through its bundle name and its root name (the name up to its last
  dot).
- **Generators.** The metadata entry, the annotation, the annotation list,
  the text body and the IIIF 3 manifest.
- **Both manifest services.** The IIIF 2 `ManifestService`: identifier,
  metadata, canvas and range loop, sequence, renderings, seeAlso links.
  The IIIF 3 `ManifestV3Service`: identifier, label, metadata. Also both
  annotation list services and both seeAlso services.
- **Both CLIP consumers.** The additions consumer publishes, withdraws
  and removes images through a decision table; its update branch is
  modelled as written and, as corrected, leaves the index alone. The API consumer
  turns a bitstream event into an update, index or delete request.

Everything is pure functions over immutable datatypes:
- Java's `null` is `Option`.
- A thrown exception is the `Fail` case of `Result`, named by its Java
  class.
- A mutable generator is a record that each setter returns updated.
- A service loop is a recursive function over a sequence.

Collaborators whose code is not part of this model are parameters:
- `getIIIFToCs`, `getCanvas` and `getRootName`;
- URI parsing;
- the MIME-type lookup and the access-status lookup;
- the item's metadata lookup and the content reader.

## Model

| member | source | states |
|---|---|---|
| JavaStrings.Split | dspace/modules/additions/src/main/java/org/dspace/app/iiif/v3/service/RangeService.java:108 | `toc.split(sep)`: no piece contains the separator; the pieces are a prefix of the full leftmost split and every piece dropped is empty; the empty string splits into one empty piece |
| JavaStrings.SplitJoinChar | dspace/modules/additions/src/main/java/org/dspace/app/iiif/service/ManifestService.java:200-206 | splitting on a one-character separator undoes joining pieces free of it (whose last piece is non-empty), so a metadata field name written with "." gives back its schema, element and qualifier |
| JavaStrings.JoinSplitAll | dspace/modules/additions/src/main/java/org/dspace/app/iiif/v3/service/RangeService.java:108-115 | joining the pieces of the full split with the separator gives back the original string |
| JavaStrings.OnlySeparatorsSplitEmpty | dspace/modules/additions/src/main/java/org/dspace/app/iiif/v3/service/RangeService.java:108 | an entry made only of separators yields no segment at all |
| JavaStrings.SplitEmptyOnlySeparators | dspace/modules/additions/src/main/java/org/dspace/app/iiif/v3/service/RangeService.java:108 | conversely, a non-empty entry with no segment consists only of separators |
| JavaStrings.NatToStringInjective | dspace/modules/additions/src/main/java/org/dspace/app/iiif/v3/model/generator/RangeGenerator.java:98 | different sub-range counters render as different decimal strings |
| JavaStrings.ParseNatToString | dspace/modules/additions/src/main/java/org/dspace/app/iiif/v3/model/generator/RangeGenerator.java:98 | the decimal rendering of a counter reads back as the same number |
| JavaStrings.DashSuffixInjective | dspace/modules/additions/src/main/java/org/dspace/app/iiif/v3/model/generator/RangeGenerator.java:98 | a child id `parent + "-" + n` determines both the parent id and `n` |
| JavaStrings.LastIndexOf | dspace/modules/additions/src/main/java/org/dspace/app/iiif/service/CanvasSeeAlsoService.java:111 | the index of the last occurrence of the character, or -1 when it does not occur |
| RangeGenerator.SetId | dspace/modules/additions/src/main/java/org/dspace/app/iiif/v3/model/generator/RangeGenerator.java:42-48 | the empty id is refused; any other id replaces the old one and nothing else changes |
| RangeGenerator.AddCanvas | dspace/modules/additions/src/main/java/org/dspace/app/iiif/v3/model/generator/RangeGenerator.java:87-90 | exactly one canvas reference is appended at the end; nothing else changes |
| RangeGenerator.RangeReference | dspace/modules/additions/src/main/java/org/dspace/app/iiif/v3/service/RangeService.java:145-147 | a reference is a fresh range carrying only the id, and it fails exactly when the id is missing or empty |
| RangeGenerator.AddSubRange | dspace/modules/additions/src/main/java/org/dspace/app/iiif/v3/model/generator/RangeGenerator.java:97-101 | the child is named after the parent and the number of sub-ranges so far; the parent gains exactly one id-only reference to that name |
| RangeGenerator.Generate | dspace/modules/additions/src/main/java/org/dspace/app/iiif/v3/model/generator/RangeGenerator.java:109-130 | fails exactly without an id; otherwise the items are every canvas reference in order, followed by every sub-range reference in order |
| RangeGenerator.ApplyContents | dspace/modules/additions/src/main/java/org/dspace/app/iiif/v3/model/generator/RangeGenerator.java:65-101 | any sequence of setter calls keeps the id and label; it leaves exactly the added canvases after the old ones, and one numbered reference per `addSubRange` call |
| RangeGenerator.GenerateAfterCalls | dspace/modules/additions/src/main/java/org/dspace/app/iiif/v3/model/generator/RangeGenerator.java:109-130 | a range named with a non-empty id generates after any calls; its items are the canvases in call order, then references `id-0`, `id-1`, … |
| RangeGenerator.ChildIdsDistinct | dspace/modules/additions/src/main/java/org/dspace/app/iiif/v3/model/generator/RangeGenerator.java:98 | the sub-ranges of one parent receive pairwise different ids |
| RangeService.RootId | dspace/modules/additions/src/main/java/org/dspace/app/iiif/v3/service/RangeService.java:64 | the root id extends the manifest id |
| RangeService.SetRootRange | dspace/modules/additions/src/main/java/org/dspace/app/iiif/v3/service/RangeService.java:60-65 | a fresh root with direction top-to-bottom, the root label and id `manifestId/range/r0`; the TOC map is untouched; a cursor on the old root is detached from the new one |
| RangeService.TocRanges | dspace/modules/additions/src/main/java/org/dspace/app/iiif/v3/service/RangeService.java:71-73 | the ranges of the map in insertion order, one per key when every listed key is present |
| RangeService.AddCanvasTo | dspace/modules/additions/src/main/java/org/dspace/app/iiif/v3/service/RangeService.java:91 | adding to a null range throws; otherwise only that range gains the canvas, and every other range, the keys, the order and the cursor stay |
| RangeService.Descend | dspace/modules/additions/src/main/java/org/dspace/app/iiif/v3/service/RangeService.java:116-128 | an existing key is reused unchanged; a new key gets a range labelled with the segment, added as the next sub-range of the current one and appended to the insertion order |
| RangeService.UpdateRanges | dspace/modules/additions/src/main/java/org/dspace/app/iiif/v3/service/RangeService.java:81-94 | with no TOC entry and an empty map nothing changes; with no entry and a non-empty map only the current range gains the canvas, and the keys, order and cursor stay |
| RangeService.DescendWellFormed | dspace/modules/additions/src/main/java/org/dspace/app/iiif/v3/service/RangeService.java:116-128 | one step of the path walk keeps the range invariant: ids present and distinct, keys listed once, references named after their parent and resolving to stored ranges |
| RangeService.WalkWellFormed | dspace/modules/additions/src/main/java/org/dspace/app/iiif/v3/service/RangeService.java:111-129 | walking a whole TOC path keeps the invariant and ends at a stored range |
| RangeService.SameIdSameNode | dspace/modules/additions/src/main/java/org/dspace/app/iiif/v3/service/RangeService.java:98 | under the invariant, two stored ranges with the same id are the same range |
| RangeService.FreshChildId | dspace/modules/additions/src/main/java/org/dspace/app/iiif/v3/model/generator/RangeGenerator.java:98 | the id a new sub-range receives is not yet held by any TOC range |
| RangeService.AddCanvasWellFormed | dspace/modules/additions/src/main/java/org/dspace/app/iiif/v3/service/RangeService.java:131-132 | adding a canvas to a stored range keeps the invariant and adds exactly one canvas reference in total |
| RangeService.WalkCount | dspace/modules/additions/src/main/java/org/dspace/app/iiif/v3/service/RangeService.java:111-129 | walking a path never fails from a rooted state, and moves no canvas reference |
| RangeService.AddPathEffect | dspace/modules/additions/src/main/java/org/dspace/app/iiif/v3/service/RangeService.java:105-136 | one TOC entry adds exactly its prefix keys; the canvas goes to the range of the full path, and the cursor ends there |
| RangeService.AddPathValid | dspace/modules/additions/src/main/java/org/dspace/app/iiif/v3/service/RangeService.java:105-136 | one TOC entry from a well-formed state leaves a valid state |
| RangeService.AddTocsRooted | dspace/modules/additions/src/main/java/org/dspace/app/iiif/v3/service/RangeService.java:103-137 | `addTocRange` never meets a null range once a root is set |
| RangeService.AddTocsOrder | dspace/modules/additions/src/main/java/org/dspace/app/iiif/v3/service/RangeService.java:103-137 | the keys already present keep their place at the front of the insertion order |
| RangeService.AddTocsKeys | dspace/modules/additions/src/main/java/org/dspace/app/iiif/v3/service/RangeService.java:103-137 | the map gains exactly the prefix keys of all entries |
| RangeService.AddTocsCount | dspace/modules/additions/src/main/java/org/dspace/app/iiif/v3/service/RangeService.java:103-137 | the canvas is referenced exactly once per TOC entry |
| RangeService.AddTocsCursor | dspace/modules/additions/src/main/java/org/dspace/app/iiif/v3/service/RangeService.java:135 | the current range ends at the range of the last entry's full path |
| RangeService.AddTocsValid | dspace/modules/additions/src/main/java/org/dspace/app/iiif/v3/service/RangeService.java:103-137 | a non-empty list of entries from a well-formed state leaves a valid state |
| RangeService.Walk | dspace/modules/additions/src/main/java/org/dspace/app/iiif/v3/service/RangeService.java:111-129 | walking the first `n` pieces of a path ends at the range of the key those pieces build, and a state that has a root keeps it |
| RangeService.WalkAttaches | dspace/modules/additions/src/main/java/org/dspace/app/iiif/v3/service/RangeService.java:111-129 | at step `n` of a walk a key already present changes nothing, and a new key stores a fresh range labelled with segment `n`, attached as the next sub-range of the range reached after `n - 1` segments (the root at the first) |
| RangeService.WalkStoresKeys | dspace/modules/additions/src/main/java/org/dspace/app/iiif/v3/service/RangeService.java:111-129 | a walk that succeeds keeps every key it started with and leaves the cumulative key of each segment it walked stored |
| RangeService.AddPath | dspace/modules/additions/src/main/java/org/dspace/app/iiif/v3/service/RangeService.java:105-136 | after one path the range of its full key exists, is the current range, and lists the canvas last |
| RangeService.AddToc | dspace/modules/additions/src/main/java/org/dspace/app/iiif/v3/service/RangeService.java:106-136 | one TOC entry is cut at the separator; the range of its full path then exists, is the current range, and lists the canvas last |
| RangeService.AddTocs | dspace/modules/additions/src/main/java/org/dspace/app/iiif/v3/service/RangeService.java:103-137 | no entries leave the state as it was; otherwise the current range is the full-path range of the last entry, which exists and lists the canvas last |
| RangeService.UpdateRangesValid | dspace/modules/additions/src/main/java/org/dspace/app/iiif/v3/service/RangeService.java:81-94 | from a valid state `updateRanges` never meets a null range and leaves a valid state |
| RangeService.UpdateRangesCount | dspace/modules/additions/src/main/java/org/dspace/app/iiif/v3/service/RangeService.java:81-94 | the canvas is referenced once per TOC entry; with no entry, once when some range exists and not at all otherwise |
| RangeService.UpdateRangesKeys | dspace/modules/additions/src/main/java/org/dspace/app/iiif/v3/service/RangeService.java:81-94 | the keys afterwards are the old ones plus the prefix keys of the entries |
| RangeService.SetRootRangeValid | dspace/modules/additions/src/main/java/org/dspace/app/iiif/v3/service/RangeService.java:60-65 | a new service with its root set is valid |
| RangeService.IdsDistinct | dspace/modules/additions/src/main/java/org/dspace/app/iiif/v3/service/RangeService.java:120-125 | in a valid state different stored ranges carry different ids |
| Canvas.NewCanvas | dspace/modules/additions/src/main/java/org/dspace/app/iiif/v3/model/generator/CanvasGenerator.java:45-50 | the empty identifier is refused; otherwise a canvas with that identifier and every other field unset |
| Canvas.SetLabel | dspace/modules/additions/src/main/java/org/dspace/app/iiif/v3/model/generator/CanvasGenerator.java:57-60 | the label is replaced, nothing else changes, and whether the canvas generates does not depend on it |
| Canvas.SetWidthHeight | dspace/modules/additions/src/main/java/org/dspace/app/iiif/v3/model/generator/CanvasGenerator.java:62-66 | both dimensions are set together and nothing else changes; with dimensions the canvas always generates |
| Canvas.AddImage | dspace/modules/additions/src/main/java/org/dspace/app/iiif/v3/model/generator/CanvasGenerator.java:68-71 | the image is appended after the images already held, and nothing else changes |
| Canvas.AddThumbnail | dspace/modules/additions/src/main/java/org/dspace/app/iiif/v3/model/generator/CanvasGenerator.java:73-76 | the thumbnail is replaced and nothing else changes; the canvas then generates exactly when both dimensions are set |
| Canvas.AddMetadata | dspace/modules/additions/src/main/java/org/dspace/app/iiif/v3/model/generator/CanvasGenerator.java:78-83 | one entry is appended under the key `metadata.` + field, in the canvas language, holding the value and then each further value in order; nothing else changes |
| Canvas.Generate | dspace/modules/additions/src/main/java/org/dspace/app/iiif/v3/model/generator/CanvasGenerator.java:86-117 | fails exactly when a thumbnail is set without both dimensions; the size is set and the thumbnails (the images, then the thumbnail) are handed, in order, to `setThumbnails` only with a thumbnail; the metadata entries are handed to `setMetadata` in order |
| Canvas.ApplyFields | dspace/modules/additions/src/main/java/org/dspace/app/iiif/v3/model/generator/CanvasGenerator.java:57-83 | setter calls never change the identifier and keep width and height set together; they accumulate images in call order |
| Canvas.GenerateAfterCalls | dspace/modules/additions/src/main/java/org/dspace/app/iiif/v3/model/generator/CanvasGenerator.java:45-117 | a canvas built by any calls fails to generate exactly when some call set a thumbnail and none set the dimensions |
| CanvasItems.SetIdentifier | dspace/modules/additions/src/main/java/org/dspace/app/iiif/v3/model/generator/CanvasItemsGenerator.java:35-37 | the identifier is overwritten; the language and canvases stay |
| CanvasItems.AddCanvas | dspace/modules/additions/src/main/java/org/dspace/app/iiif/v3/model/generator/CanvasItemsGenerator.java:47-51 | the canvas's generation failure propagates; otherwise exactly its resource is appended and its id returned |
| CanvasItems.NewItemsService | dspace/modules/additions/src/main/java/org/dspace/app/iiif/v3/service/CanvasItemsService.java:27 | a new service starts at ordinal 0 with no canvas |
| CanvasItems.GetSequence | dspace/modules/additions/src/main/java/org/dspace/app/iiif/v3/service/CanvasItemsService.java:51-54 | the shared generator is named after the item; its counter and canvases stay |
| CanvasItems.AddCanvasFor | dspace/modules/additions/src/main/java/org/dspace/app/iiif/v3/service/CanvasItemsService.java:65-73 | asks for the canvas at the current ordinal; if it generates, it is appended and the counter moves by one, and otherwise the failure propagates |
| CanvasItems.BuiltAt | dspace/modules/additions/src/main/java/org/dspace/app/iiif/v3/service/CanvasItemsService.java:65-73 | the `i`-th built canvas is the one obtained for the `i`-th bitstream at ordinal `c0 + i` |
| CanvasItems.AddCanvasesOk | dspace/modules/additions/src/main/java/org/dspace/app/iiif/v3/service/CanvasItemsService.java:65-73 | a run of additions fails exactly when some bitstream's canvas breaks the dimension rule |
| CanvasItems.AddCanvasesOrdinals | dspace/modules/additions/src/main/java/org/dspace/app/iiif/v3/service/CanvasItemsService.java:65-73 | a successful run appends the canvases in bitstream order at consecutive ordinals, and the counter ends after the last |
| CanvasItems.AddCanvases | dspace/modules/additions/src/main/java/org/dspace/app/iiif/v3/service/CanvasItemsService.java:65-73 | a run over `n` bitstreams advances the ordinal by `n` and appends `n` canvases after those already held, keeping the sequence identifier |
| MetadataEntry.SetField | dspace/modules/additions/src/main/java/org/dspace/app/iiif/v3/model/generator/MetadataEntryGenerator.java:27-30 | only the field name changes |
| MetadataEntry.SetValue | dspace/modules/additions/src/main/java/org/dspace/app/iiif/v3/model/generator/MetadataEntryGenerator.java:36-40 | only the first value and the further values change |
| MetadataEntry.GenerateValue | dspace/modules/additions/src/main/java/org/dspace/app/iiif/v3/model/generator/MetadataEntryGenerator.java:47-58 | as written: one value only, which is the first further value when there is one (so the first value is lost) and the first value otherwise; label key `metadata.<field>` |
| MetadataEntry.GenerateValueDropsFirst | dspace/modules/additions/src/main/java/org/dspace/app/iiif/v3/model/generator/MetadataEntryGenerator.java:49-51 | a field given values `A` and `B` shows only `B` |
| MetadataEntry.GenerateEntry | dspace/modules/additions/src/main/java/org/dspace/app/iiif/v3/model/generator/MetadataEntryGenerator.java:36-58 | as intended: every value passed in, the first value followed by the further ones in order |
| MetadataEntry.GenerateEntryKeepsValues | dspace/modules/additions/src/main/java/org/dspace/app/iiif/v3/model/generator/MetadataEntryGenerator.java:47-58 | the intended entry keeps every value; it agrees with the code as written exactly when there are no further values |
| ItemMetadata.ParseFieldSpec | dspace/modules/additions/src/main/java/org/dspace/app/iiif/service/ManifestService.java:200-206 | a spec with fewer than two dot-separated pieces throws an index error; otherwise schema and element, with a qualifier only when there is a third piece |
| ItemMetadata.ParseRenderFieldSpec | dspace/modules/additions/src/main/java/org/dspace/app/iiif/service/ManifestService.java:200-206 | parsing a written-out spec whose pieces are dot-free and non-empty gives the spec back |
| ItemMetadata.VisibleValues | dspace/modules/additions/src/main/java/org/dspace/app/iiif/service/ManifestService.java:209-223 | fails exactly when some exposure lookup fails |
| ItemMetadata.VisibleValuesShown | dspace/modules/additions/src/main/java/org/dspace/app/iiif/service/ManifestService.java:209-223 | when no lookup fails, the loop keeps exactly the visible values, in order |
| ItemMetadata.ShownMembers | dspace/modules/additions/src/main/java/org/dspace/app/iiif/service/ManifestService.java:214-222 | a value is shown exactly when some visible metadata value of the item has it |
| ItemMetadata.FieldEntry | dspace/modules/additions/src/main/java/org/dspace/app/iiif/service/ManifestService.java:199-231 | one field spec yields an entry (first value and the rest) exactly when it has a visible value; the call fails when the spec or a lookup fails |
| ItemMetadata.FieldEntries | dspace/modules/additions/src/main/java/org/dspace/app/iiif/service/ManifestService.java:199-232 | the loop over the configured fields fails exactly when one field fails |
| ItemMetadata.FieldEntriesContents | dspace/modules/additions/src/main/java/org/dspace/app/iiif/service/ManifestService.java:199-232 | the entries are, in configuration order, one per field that has a visible value, holding exactly its visible values |
| ItemMetadata.NotBlank | dspace/modules/additions/src/main/java/org/dspace/app/iiif/service/ManifestService.java:233-241 | a description or licence is kept exactly when it is present and not blank |
| ItemMetadata.AddItemMetadata | dspace/modules/additions/src/main/java/org/dspace/app/iiif/v3/service/ManifestV3Service.java:124-168 | `addMetadata` of either service: the field entries, then the description and licence when not blank; it fails exactly when the field loop does |
| Links.RootName | dspace/modules/additions/src/main/java/org/dspace/app/iiif/service/CanvasSeeAlsoService.java:109-116 | the name cut before its last dot when that dot is not the first character, and the whole name otherwise |
| Links.RootNameOfExtension | dspace/modules/additions/src/main/java/org/dspace/app/iiif/service/CanvasSeeAlsoService.java:109-116 | for `stem.ext` with a dot-free extension, the root name is the stem |
| Links.CanvasSeeAlsoGate | dspace/modules/additions/src/main/java/org/dspace/app/iiif/service/CanvasSeeAlsoService.java:41-56 | OCR links are enabled exactly when the bundle, the label and a parseable profile are all configured |
| Links.OcrSources | dspace/modules/additions/src/main/java/org/dspace/app/iiif/service/CanvasSeeAlsoService.java:87-100 | the OCR bitstreams kept are exactly those whose root name equals the page's and whose format lookup succeeds |
| Links.OcrLinks | dspace/modules/additions/src/main/java/org/dspace/app/iiif/service/CanvasSeeAlsoService.java:89-100 | one link per kept OCR bitstream, in bundle order |
| Links.GetCanvasSeeAlso | dspace/modules/additions/src/main/java/org/dspace/app/iiif/service/CanvasSeeAlsoService.java:67-102 | there are no links when the service is disabled, the item or page is missing, or the item has no OCR bundle; otherwise the links of the first such bundle |
| Links.CanvasSeeAlsoLinks | dspace/modules/additions/src/main/java/org/dspace/app/iiif/service/CanvasSeeAlsoService.java:87-100 | a readable OCR bitstream with the page's root name gets its download link; every link carries the configured label and profile |
| Links.FirstPrefixed | dspace/modules/additions/src/main/java/org/dspace/app/iiif/service/CanvasTranscriptionsService.java:84-94 | the first bitstream whose root name starts with the page's root name, or none when no bitstream matches |
| Links.GetCanvasTranscriptions | dspace/modules/additions/src/main/java/org/dspace/app/iiif/service/CanvasTranscriptionsService.java:64-98 | a reference is returned only when the service is enabled and everything is given; it then carries the link URL and the configured label |
| Links.TranscriptionsFound | dspace/modules/additions/src/main/java/org/dspace/app/iiif/service/CanvasTranscriptionsService.java:71-97 | an enabled service finds a list exactly when the first transcription bundle holds a bitstream whose root name starts with the page's |
| Links.TranscriptionPrefixExample | dspace/modules/additions/src/main/java/org/dspace/app/iiif/service/CanvasTranscriptionsService.java:85 | because the match is a prefix test on root names, the transcription `p10.txt` is linked to the page `p1.jpg` |
| Links.BitstreamLinks | dspace/modules/additions/src/main/java/org/dspace/app/iiif/service/SeeAlsoService.java:64-79 | one download link per bitstream, in order |
| Links.GetSeeAlsos | dspace/modules/additions/src/main/java/org/dspace/app/iiif/v3/service/SeeAlsoService.java:59-91 | with no bundle configured, the single fallback link to the item's seeAlso list; otherwise the links of the bitstreams of every bundle with that name |
| Links.SeeAlsoMembers | dspace/modules/additions/src/main/java/org/dspace/app/iiif/service/SeeAlsoService.java:58-83 | every bitstream of a matching bundle gets its link, and a failed format lookup leaves the link without a format |
| Links.SeeAlsoSources | dspace/modules/additions/src/main/java/org/dspace/app/iiif/service/SeeAlsoService.java:58-83 | every link points at a bitstream of a matching bundle |
| Annotations.GenerateText | dspace/modules/additions/src/main/java/org/dspace/app/iiif/model/generator/ContentAsTextGenerator.java:47-57 | a text body fails exactly without text, and otherwise keeps its text and format |
| Annotations.NewAnnotation | dspace/modules/additions/src/main/java/org/dspace/app/iiif/v3/model/generator/AnnotationGenerator.java:41-52 | the empty identifier is refused; otherwise an annotation with that identifier and language tag and no body |
| Annotations.Entries | dspace/modules/additions/src/main/java/org/dspace/app/iiif/v3/model/generator/AnnotationGenerator.java:131-136 | one metadata entry per entry generator, in order, each with all its values (as corrected; see "## Findings") and the annotation's language tag |
| Annotations.GenerateAnnotation | dspace/modules/additions/src/main/java/org/dspace/app/iiif/v3/model/generator/AnnotationGenerator.java:111-138 | fails exactly without an identifier, when the identifier or a set link's id is not a URI (an illegal-argument error from `URI.create`, :115 and `ExternalLinksGenerator.java:112`), or when a set canvas or text body cannot be generated; keeps the identifier; emits metadata exactly when some was set, each entry with all its values (as corrected; see "## Findings") |
| Annotations.AnnotationBodies | dspace/modules/additions/src/main/java/org/dspace/app/iiif/v3/model/generator/AnnotationGenerator.java:117-129 | one body per kind that is set, in the order canvas, text, link |
| Annotations.MotivationUnread | dspace/modules/additions/src/main/java/org/dspace/app/iiif/v3/model/generator/AnnotationGenerator.java:60-63 | the motivation never changes the generated annotation |
| Annotations.SetLinkReplacesLink | dspace/modules/additions/src/main/java/org/dspace/app/iiif/v3/model/generator/AnnotationGenerator.java:93-96 | setting a link on an annotation that generates keeps it generating exactly when the link's id is a URI, and then replaces only the link body and keeps every other body |
| Annotations.SetListIdentifier | dspace/modules/additions/src/main/java/org/dspace/app/iiif/v3/model/generator/AnnotationListGenerator.java:42-44 | the identifier is overwritten; the annotations stay |
| Annotations.AddResource | dspace/modules/additions/src/main/java/org/dspace/app/iiif/v3/model/generator/AnnotationListGenerator.java:50-52 | the annotation is generated at once (a failure propagates) and appended |
| Annotations.GenerateList | dspace/modules/additions/src/main/java/org/dspace/app/iiif/v3/model/generator/AnnotationListGenerator.java:55-65 | fails exactly without an identifier or, with an illegal-argument error, when the identifier is not a URI (`URI.create`, :59); otherwise the annotations in order |
| Annotations.AddResourcesOk | dspace/modules/additions/src/main/java/org/dspace/app/iiif/v3/model/generator/AnnotationListGenerator.java:50-52 | a run of additions fails exactly when one annotation fails to generate |
| Annotations.AddResourcesOrder | dspace/modules/additions/src/main/java/org/dspace/app/iiif/v3/model/generator/AnnotationListGenerator.java:50-52 | every added annotation appears once, generated, in order, after the existing ones |
| Annotations.SetText | dspace/modules/additions/src/main/java/org/dspace/app/iiif/v3/model/generator/AnnotationGenerator.java:82-85 | only the text body is replaced; the annotation then generates exactly when it would without a text body and the new body has text |
| Annotations.SetLink | dspace/modules/additions/src/main/java/org/dspace/app/iiif/v3/model/generator/AnnotationGenerator.java:93-96 | only the link body is replaced; the annotation then generates exactly when it would without a link and the link's id is a URI |
| Annotations.AddResources | dspace/modules/additions/src/main/java/org/dspace/app/iiif/v3/model/generator/AnnotationListGenerator.java:50-52 | a successful run adds exactly one annotation per generator, after those already listed, and keeps the list identifier |
| AnnotationLists.SeeAlsoLoop | dspace/modules/additions/src/main/java/org/dspace/app/iiif/service/AnnotationListService.java:103-116 | the loop over seeAlso bitstreams fails exactly when some bitstream's format lookup fails or its annotation id or content URL is not a URI |
| AnnotationLists.SeeAlsoLoopOrder | dspace/modules/additions/src/main/java/org/dspace/app/iiif/service/AnnotationListService.java:103-116 | one linking annotation per bitstream is appended, in order |
| AnnotationLists.GetSeeAlsoAnnotations | dspace/modules/additions/src/main/java/org/dspace/app/iiif/v3/service/AnnotationListService.java:64-92 | fails exactly when the item lookup fails, a format lookup fails, an annotation id or content URL is not a URI, or the list id is not a URI; otherwise a list named after the item's seeAlso path |
| AnnotationLists.SeeAlsoListed | dspace/modules/additions/src/main/java/org/dspace/app/iiif/service/AnnotationListService.java:87-118 | the list holds one annotation per seeAlso bitstream, in order |
| AnnotationLists.SeeAlsoAnnotation | dspace/modules/additions/src/main/java/org/dspace/app/iiif/service/AnnotationListService.java:112-115 | the linking annotation listed for a seeAlso bitstream is what its generator gives once its MIME type is known and its ids are URIs |
| AnnotationLists.TranscriptionCanvasId | dspace/modules/additions/src/main/java/org/dspace/app/iiif/v3/service/AnnotationListService.java:111 | the canvas id the transcriptions are painted on is never empty, so the canvas constructor accepts it |
| AnnotationLists.TranscriptionsMembers | dspace/modules/additions/src/main/java/org/dspace/app/iiif/service/AnnotationListService.java:155-167 | a bitstream is kept exactly when its root name starts with the page's and its format is `text/plain` or `text/html` |
| AnnotationLists.TranscriptionAnnotation | dspace/modules/additions/src/main/java/org/dspace/app/iiif/service/AnnotationListService.java:161-164 | the painting annotation listed for a readable text bitstream whose annotation id is a URI is what its generator, painted on the page canvas, gives |
| AnnotationLists.Scan | dspace/modules/additions/src/main/java/org/dspace/app/iiif/service/AnnotationListService.java:155-168 | a scan that does not throw keeps the list identifier and the annotations already listed, and adds at most one per bitstream |
| AnnotationLists.ScanServesPrefix | dspace/modules/additions/src/main/java/org/dspace/app/iiif/service/AnnotationListService.java:155-176 | a scan that completes has served the transcriptions of some prefix of the bundle, and stops early only at a failed format lookup |
| AnnotationLists.ScanCompletes | dspace/modules/additions/src/main/java/org/dspace/app/iiif/service/AnnotationListService.java:155-168 | when every candidate is readable, with an annotation id that is a URI, the scan runs to the end |
| AnnotationLists.GetTranscriptionsAnnotations | dspace/modules/additions/src/main/java/org/dspace/app/iiif/v3/service/AnnotationListService.java:94-136 | the list is named after the given list id, which comes from the request; a missing bitstream, a bitstream without a bundle or item, or a failed find gives an empty list when that id is a URI and an illegal-argument error (`URI.create` in `generateResource`, :135) when it is not |
| AnnotationLists.TranscriptionsServed | dspace/modules/additions/src/main/java/org/dspace/app/iiif/service/AnnotationListService.java:131-180 | with every candidate readable, the list is served exactly when the list id is a URI, and then holds one painting annotation per transcription of the page, in bundle order |
| Manifest.BundlePages | dspace/modules/additions/src/main/java/org/dspace/app/iiif/service/ManifestService.java:168-179 | the pages of one bundle, one per bitstream in order, each carrying the bundle's TOC prefix exactly when prefixes are in use |
| Manifest.PagesAt | dspace/modules/additions/src/main/java/org/dspace/app/iiif/service/ManifestService.java:168-180 | bitstream `j` of bundle `i` is the page after all bitstreams of the earlier bundles |
| Manifest.AddPage | dspace/modules/additions/src/main/java/org/dspace/app/iiif/service/ManifestService.java:176-178 | a page adds the canvas it is given at the current ordinal, which must generate, advances the ordinal by one, and records the canvas and then the range update |
| Manifest.AddPages | dspace/modules/additions/src/main/java/org/dspace/app/iiif/service/ManifestService.java:174-179 | a run over `n` pages advances the ordinal by `n`; after the events already recorded, each page adds its canvas at the next ordinal and then updates the ranges with that canvas, two events per page |
| Manifest.AddPagesValid | dspace/modules/additions/src/main/java/org/dspace/app/iiif/service/ManifestService.java:174-179 | from a valid range state the loop fails exactly when some canvas breaks the dimension rule, and it otherwise leaves a valid range state |
| Manifest.AddPagesItems | dspace/modules/additions/src/main/java/org/dspace/app/iiif/service/ManifestService.java:174-179 | the canvas loop gives the same sequence as adding the canvases alone |
| Manifest.AddPagesRanges | dspace/modules/additions/src/main/java/org/dspace/app/iiif/service/ManifestService.java:174-179 | the loop adds exactly the pages' TOC prefix keys to the range map |
| Manifest.PagesTraceAt | dspace/modules/additions/src/main/java/org/dspace/app/iiif/service/ManifestService.java:176-178 | page `k` adds its canvas at ordinal `c0 + k` and then updates the ranges with that same canvas id |
| Manifest.EmittedRangesShape | dspace/modules/additions/src/main/java/org/dspace/app/iiif/service/ManifestService.java:182-189 | the manifest receives no range while the map is empty; otherwise the root, then the TOC ranges in insertion order |
| Manifest.EmittedRangesDistinct | dspace/modules/additions/src/main/java/org/dspace/app/iiif/service/ManifestService.java:182-189 | the ranges the manifest receives carry pairwise different ids |
| Manifest.EmittedRanges | dspace/modules/additions/src/main/java/org/dspace/app/iiif/service/ManifestService.java:182-189 | the manifest receives no range exactly while the map is empty; otherwise the root comes first, followed by at most one range per key |
| Manifest.AddCanvasAndRangeCanvases | dspace/modules/additions/src/main/java/org/dspace/app/iiif/service/ManifestService.java:158-190 | fails exactly when a canvas breaks the dimension rule; otherwise the sequence holds one canvas per page, in order |
| Manifest.AddCanvasAndRangeRanges | dspace/modules/additions/src/main/java/org/dspace/app/iiif/service/ManifestService.java:158-190 | no range is emitted exactly when the pages yield no TOC key; otherwise the root first and one range per key, all with pairwise different ids |
| Manifest.AddCanvasAndRangeTrace | dspace/modules/additions/src/main/java/org/dspace/app/iiif/service/ManifestService.java:158-179 | the root is set first; dimensions are guessed exactly when neither default is configured, and before any page |
| Manifest.AddCanvasAndRange | dspace/modules/additions/src/main/java/org/dspace/app/iiif/service/ManifestService.java:158-190 | the ordinal ends at the number of IIIF bitstreams, the root is set before anything else, and ranges are emitted exactly when some TOC key exists |
| Manifest.BundlesNamed | dspace/modules/additions/src/main/java/org/dspace/app/iiif/service/ManifestService.java:338-343 | exactly the bundles with the configured rendering name, in order |
| Manifest.BitstreamRenderingsMembers | dspace/modules/additions/src/main/java/org/dspace/app/iiif/service/ManifestService.java:378-396 | a bitstream gets a rendering link exactly when its MIME type is known and matches the required type, if any |
| Manifest.BitstreamRenderings | dspace/modules/additions/src/main/java/org/dspace/app/iiif/service/ManifestService.java:380-395 | a bundle gives at most one link per bitstream, and one for each when every bitstream qualifies |
| Manifest.RenderingFormats | dspace/modules/additions/src/main/java/org/dspace/app/iiif/service/ManifestService.java:388-394 | every rendering link carries the bitstream's MIME type, which is the required type when there is one |
| Manifest.ItemPageRendering | dspace/modules/additions/src/main/java/org/dspace/app/iiif/service/ManifestService.java:355-361 | the link to the item's page (`/full`, `text/html`) is made exactly when a non-empty item label is configured |
| Manifest.RenderingsMembers | dspace/modules/additions/src/main/java/org/dspace/app/iiif/service/ManifestService.java:375-399 | a link comes from the bundle loop exactly when it is the link of a qualifying bitstream of one of the bundles |
| Manifest.AddRenderingMembers | dspace/modules/additions/src/main/java/org/dspace/app/iiif/service/ManifestService.java:332-362 | a rendering of the item is exactly a qualifying bitstream link from the selected bundles, or the item page link |
| Manifest.AddRendering | dspace/modules/additions/src/main/java/org/dspace/app/iiif/service/ManifestService.java:332-362 | every link comes from the rendering bundles or is the item page link; with a non-empty item label that `/full` page link, as HTML, comes last |
| Manifest.RenderingModes | dspace/modules/additions/src/main/java/org/dspace/app/iiif/service/ManifestService.java:336-349 | with a bundle configured, bundles of that name and any known MIME type; otherwise the IIIF bundles and PDFs only |
| ManifestV3.NewManifestV3 | dspace/modules/additions/src/main/java/org/dspace/app/iiif/v3/model/generator/ManifestV3Generator.java:71-87 | a non-URI id is refused with an illegal-argument error; otherwise the id and label are fixed and everything else is empty |
| ManifestV3.SetIdentifier | dspace/modules/additions/src/main/java/org/dspace/app/iiif/v3/model/generator/ManifestV3Generator.java:63-69 | the empty identifier is refused; otherwise only the identifier changes |
| ManifestV3.PresentMembers | dspace/modules/additions/src/main/java/org/dspace/app/iiif/v3/model/generator/ManifestV3Generator.java:90-96 | an entry is kept exactly when it is a non-null entry of the batch |
| ManifestV3.AddMetadata | dspace/modules/additions/src/main/java/org/dspace/app/iiif/v3/model/generator/ManifestV3Generator.java:90-96 | the stored entries stay in front, and afterwards an entry is stored exactly when it was stored before or is a non-null entry of the batch |
| ManifestV3.SetSummary | dspace/modules/additions/src/main/java/org/dspace/app/iiif/v3/model/generator/ManifestV3Generator.java:99-101 | the summary is stored, nothing else changes, and the generated manifest does not show it |
| ManifestV3.SetProvider | dspace/modules/additions/src/main/java/org/dspace/app/iiif/v3/model/generator/ManifestV3Generator.java:119-121 | the provider is stored, nothing else changes, and the generated manifest does not show it |
| ManifestV3.Generate | dspace/modules/additions/src/main/java/org/dspace/app/iiif/v3/model/generator/ManifestV3Generator.java:126-142 | fails exactly while no identifier was set |
| ManifestV3.GenerateIgnoresIdentifier | dspace/modules/additions/src/main/java/org/dspace/app/iiif/v3/model/generator/ManifestV3Generator.java:126-142 | the emitted id and label are the constructor's whatever identifier was set; the summary and provider are not emitted |
| ManifestV3.GenerateCopies | dspace/modules/additions/src/main/java/org/dspace/app/iiif/v3/model/generator/ManifestV3Generator.java:133-139 | generation copies every stored entry, in order |
| ManifestV3.BuildManifest | dspace/modules/additions/src/main/java/org/dspace/app/iiif/v3/model/generator/ManifestV3Generator.java:63-142 | a fresh manifest given batches of metadata and then an identifier emits the constructor's id and label, and exactly the non-null entries in call order |
| Populate.MetadataCalls | dspace/modules/additions/src/main/java/org/dspace/app/iiif/service/ManifestService.java:224-241 | a metadata call for each entry, a description call exactly for a kept description, a licence call exactly for a kept licence |
| Populate.PopulateV3Calls | dspace/modules/additions/src/main/java/org/dspace/app/iiif/v3/service/ManifestV3Service.java:109-115 | the IIIF 3 service fails exactly when a field fails; otherwise it sets the identifier, then the label, ends with the viewing hint, adds exactly the fields' entries in between, and adds no canvas, range, rendering or link |
| Populate.PopulateV3 | dspace/modules/additions/src/main/java/org/dspace/app/iiif/v3/service/ManifestV3Service.java:109-115 | the IIIF 3 service fails exactly when a metadata field fails; otherwise it opens with the identifier, ends with the viewing hint, and makes only first-phase calls |
| Populate.HeadRest | dspace/modules/additions/src/main/java/org/dspace/app/iiif/service/ManifestService.java:137-143 | the calls before the canvas loop are all of the first stage and never set the identifier again |
| Populate.PopulateV2Order | dspace/modules/additions/src/main/java/org/dspace/app/iiif/service/ManifestService.java:134-148 | the IIIF 2 service fails exactly when the metadata or a canvas fails; otherwise it sets the identifier once and first, then calls stage by stage: the emitted ranges in order, one sequence of the built canvases, and the selected renderings in order |
| Populate.PopulateV2 | dspace/modules/additions/src/main/java/org/dspace/app/iiif/service/ManifestService.java:134-148 | the IIIF 2 service fails exactly when a metadata field or the canvas loop fails; otherwise it opens with the identifier, adds the sequence of the loop's canvases, and ends with one call per seeAlso link |
| Populate.PopulateV2SeeAlsos | dspace/modules/additions/src/main/java/org/dspace/app/iiif/service/ManifestService.java:272-279 | with the links the seeAlso service gives for the item, the IIIF 2 manifest ends with one seeAlso call for the fallback link when no seeAlso bundle is configured, and otherwise one per bitstream of the bundles bearing that name, in order |
| Populate.Assembly | dspace/modules/additions/src/main/java/org/dspace/app/iiif/service/ManifestService.java:134-148 | whatever the ranges, canvases, renderings and links, the assembled calls satisfy the call-order property |
| Content.FirstNamed | dspace/modules/additions/src/main/java/org/dspace/app/iiif/service/CanvasSeeAlsoService.java:76-84 | the first bundle with the configured name, and none exactly when no bundle has it |
| Content.NamedBitstreamsMembers | dspace/modules/additions/src/main/java/org/dspace/app/iiif/service/SeeAlsoService.java:60-82 | a bitstream is collected exactly when it sits in a bundle with the configured name |
| ClipEvents.AsItem | dspace/modules/additions/src/main/java/ca/umontreal/bib/calypso/clip/ClipConsumer.java:116-117 | a cast to item succeeds exactly on an item; `null` then throws a null-pointer error, and anything else a class-cast error |
| ClipEvents.AsBitstream | dspace/modules/additions/src/main/java/ca/umontreal/bib/calypso/clip/ClipConsumer.java:144 | a cast to bitstream succeeds exactly on a bitstream; `null` then throws a null-pointer error, and anything else a class-cast error |
| ClipEvents.FirstOwner | dspace/modules/additions/src/main/java/ca/umontreal/bib/calypso/clip/ClipConsumer.java:145 | the first bundle of a bitstream, with an index error exactly when it has none |
| ClipEvents.FirstItem | dspace/modules/additions/src/main/java/ca/umontreal/bib/calypso/clip/ClipConsumer.java:146 | the first item of a bundle, with an index error exactly when it has none |
| ClipAdditions.SendClipRequest | dspace/modules/additions/src/main/java/ca/umontreal/bib/calypso/clip/ClipConsumer.java:227-255 | a request is built exactly for POST, PUT and DELETE, at server URL + endpoint; POST and PUT carry the body and DELETE none |
| ClipAdditions.DeleteBitstream | dspace/modules/additions/src/main/java/ca/umontreal/bib/calypso/clip/ClipConsumer.java:222-224 | the removal of a bitstream is one body-less DELETE at `/` + its id |
| ClipAdditions.BitstreamSteps | dspace/modules/additions/src/main/java/ca/umontreal/bib/calypso/clip/ClipConsumer.java:200-219 | one bitstream yields at most one step |
| ClipAdditions.BitstreamStepsCases | dspace/modules/additions/src/main/java/ca/umontreal/bib/calypso/clip/ClipConsumer.java:200-219 | a bitstream is sent exactly when its MIME type starts with `image/` and the item's collection is known; the handling throws exactly on a missing collection, a failed or null format lookup |
| ClipAdditions.BundlesStepsMembers | dspace/modules/additions/src/main/java/ca/umontreal/bib/calypso/clip/ClipConsumer.java:130-137 | a step of the item loop is exactly a step of some bitstream in a bundle other than `THUMBNAIL` and `LICENCE` |
| ClipAdditions.PublishItem | dspace/modules/additions/src/main/java/ca/umontreal/bib/calypso/clip/ClipConsumer.java:109-138 | a deposit, reinstatement or mapping fails before its loop exactly when the item is missing, or is archived and open access but lacks its name, handle or collection; the loop then throws exactly when the item is archived and open access and holds, in a bundle that is not skipped, a bitstream whose format lookup fails or has no MIME type; it sends only POSTs, and only for an archived, open-access item (`actionBitstream`, :200-204) |
| ClipAdditions.CreateBitstream | dspace/modules/additions/src/main/java/ca/umontreal/bib/calypso/clip/ClipConsumer.java:140-154 | an added bitstream fails before its test exactly when it has no bundle or its bundle no item; past that it throws exactly when the item is open access and archived, the bundle is not skipped, and the collection is missing or the format cannot be read; it sends at most one POST, to the bitstream's own id (`actionBitstream`, :200-204) |
| ClipAdditions.WithdrawItem | dspace/modules/additions/src/main/java/ca/umontreal/bib/calypso/clip/ClipConsumer.java:158-167 | removing an item sends only body-less DELETEs, and one for every bitstream of every bundle that is not skipped |
| ClipAdditions.UpdateItem | dspace/modules/additions/src/main/java/ca/umontreal/bib/calypso/clip/ClipConsumer.java:179-195 | the modification branch of the code as written re-sends only with PUT, and only for an open-access item |
| ClipAdditions.ConsumeAsWritten | dspace/modules/additions/src/main/java/ca/umontreal/bib/calypso/clip/ClipConsumer.java:99-197 | as written, POSTs come only from deposits and additions, DELETEs only from the bitstream-subject withdrawal test and deletions, PUTs only from modifications outside that test, and other events do nothing |
| ClipAdditions.Consume | dspace/modules/additions/src/main/java/ca/umontreal/bib/calypso/clip/ClipConsumer.java:63-197 | as corrected, POSTs come only from deposits and additions and DELETEs only from withdrawals and deletions; no event sends a PUT, and every other event does nothing |
| ClipAdditions.PushRequests | dspace/modules/additions/src/main/java/ca/umontreal/bib/calypso/clip/ClipConsumer.java:130-137 | a Send step the publish or update loop lists is exactly the image request of an image bitstream in a bundle that is not skipped (steps after a throw are listed but never sent; see `PublishRequests`) |
| ClipAdditions.UnindexRequests | dspace/modules/additions/src/main/java/ca/umontreal/bib/calypso/clip/ClipConsumer.java:160-167 | a request of a removal loop is exactly the DELETE of a bitstream in a bundle that is not skipped, and that loop never throws |
| ClipAdditions.ConsumeAsWrittenCasts | dspace/modules/additions/src/main/java/ca/umontreal/bib/calypso/clip/ClipConsumer.java:156-195 | as written, every update of a bitstream subject ends in a class-cast error, and an item withdrawal does nothing |
| ClipAdditions.WithdrawCounterexample | dspace/modules/additions/src/main/java/ca/umontreal/bib/calypso/clip/ClipConsumer.java:156-195 | for one concrete withdrawn item with a JPEG page, the code as written removes nothing while the intended handling sends its DELETE; a modification of that JPEG throws as written and sends nothing as intended |
| ClipAdditions.ConsumeAsWrittenWithdrawFirst | dspace/modules/additions/src/main/java/ca/umontreal/bib/calypso/clip/ClipConsumer.java:156-179 | as written, a `WITHDRAW` modification is never taken as an update: anything it sends is a DELETE |
| ClipAdditions.ConsumeIgnores | dspace/modules/additions/src/main/java/ca/umontreal/bib/calypso/clip/ClipConsumer.java:78-79 | an event outside the table gives no step; a modification of a bitstream, which only edits its metadata, leaves the index alone |
| ClipAdditions.BitstreamsPush | dspace/modules/additions/src/main/java/ca/umontreal/bib/calypso/clip/ClipConsumer.java:200-219 | over bitstreams whose formats can be read, the inner loop sends exactly one push request per image bitstream, in order, and never throws (the loop at :133-135) |
| ClipAdditions.BundlesPush | dspace/modules/additions/src/main/java/ca/umontreal/bib/calypso/clip/ClipConsumer.java:130-137 | over bundles whose kept bitstreams can be read, the loop sends exactly one push request per image of a bundle that is not skipped, in bundle and bitstream order (`actionBitstream`, :200-219) |
| ClipAdditions.PushLoopRaises | dspace/modules/additions/src/main/java/ca/umontreal/bib/calypso/clip/ClipConsumer.java:200-204 | the push loop raises nothing exactly when every bitstream of every bundle that is not skipped has a readable MIME type (the loop at :130-137) |
| ClipAdditions.RequestsSent | dspace/modules/additions/src/main/java/ca/umontreal/bib/calypso/clip/ClipConsumer.java:99-197 | a request counted as sent is a request step of the handling |
| ClipAdditions.RequestsNoRaise | dspace/modules/additions/src/main/java/ca/umontreal/bib/calypso/clip/ClipConsumer.java:99-197 | with no exception, the requests sent are exactly the request steps |
| ClipAdditions.RequestsSendAll | dspace/modules/additions/src/main/java/ca/umontreal/bib/calypso/clip/ClipConsumer.java:99-197 | steps that only send raise nothing and send their requests in full, in order |
| ClipAdditions.PublishRequests | dspace/modules/additions/src/main/java/ca/umontreal/bib/calypso/clip/ClipConsumer.java:109-138 | every request a deposit, reinstatement or mapping actually sends is the POST of an image in a bundle that is not skipped, of an archived, open-access item; the handling throws exactly when the item is missing, or is archived and open access and lacks its name, handle or collection or holds an unreadable bitstream; when it does not throw it sends exactly one POST per such image, in bundle and bitstream order (`actionBitstream`, :200-219) |
| ClipAdditions.CreateRequests | dspace/modules/additions/src/main/java/ca/umontreal/bib/calypso/clip/ClipConsumer.java:140-154 | an added bitstream is sent exactly when it is an image in a bundle that is not skipped, of an archived, open-access item with a known collection; what is sent is what is listed, and the handling throws exactly when the bitstream has no bundle or item, or when it would be pushed but the collection is missing or its format cannot be read (`actionBitstream`, :200-219) |
| ClipAdditions.WithdrawRequests | dspace/modules/additions/src/main/java/ca/umontreal/bib/calypso/clip/ClipConsumer.java:81-83 | a withdrawn item has exactly the bitstreams of its bundles that are not skipped removed, with no exception |
| ClipAdditions.DeleteRequest | dspace/modules/additions/src/main/java/ca/umontreal/bib/calypso/clip/ClipConsumer.java:170-177 | a deleted bitstream is always removed with one DELETE; a subject that is not a bitstream throws |
| ClipAdditions.HandleClipResponse | dspace/modules/additions/src/main/java/ca/umontreal/bib/calypso/clip/ClipConsumer.java:262-278 | an answer throws an I/O error exactly when its status is 422; any other status is at most logged |
| ClipAdditions.Raised | dspace/modules/additions/src/main/java/ca/umontreal/bib/calypso/clip/ClipConsumer.java:99-197 | the handling raises nothing exactly when every step is a request |
| ClipAdditions.RequestsAll | dspace/modules/additions/src/main/java/ca/umontreal/bib/calypso/clip/ClipConsumer.java:99-197 | with no exception, every request of the handling is sent, in order |
| ClipAdditions.Deliver | dspace/modules/additions/src/main/java/ca/umontreal/bib/calypso/clip/ClipConsumer.java:255-278 | the requests sent are the handling's own, in order and never more; only the last can have been answered 422, and when nothing is raised every step was sent and none was answered 422 |
| ClipAdditions.DeliverSends | dspace/modules/additions/src/main/java/ca/umontreal/bib/calypso/clip/ClipConsumer.java:259-264 | the requests actually sent are a prefix of the handling's requests; a 422 answer ends the handling, and with no 422 every request is sent |
| ClipApi.ActionOf | dspace-api/src/main/java/ca/umontreal/bib/calypso/clip/ClipConsumer.java:95-117 | MODIFY and MODIFY_METADATA update, ADD indexes, DELETE and REMOVE delete; exactly the kinds accepted by `isValidEventType` have an action |
| ClipApi.IsValidEventType | dspace-api/src/main/java/ca/umontreal/bib/calypso/clip/ClipConsumer.java:129-133 | a kind of change is accepted exactly when it is neither a creation nor an installation |
| ClipApi.MethodOf | dspace-api/src/main/java/ca/umontreal/bib/calypso/clip/ClipConsumer.java:173-194 | updates are sent with PUT, indexing with POST and removal with DELETE, and each method belongs to one action only |
| ClipApi.BitstreamUrl | dspace-api/src/main/java/ca/umontreal/bib/calypso/clip/ClipConsumer.java:209-222 | the API URL is the server URL, `/api/core/bitstream/`, the id and `/content`, in that order |
| ClipApi.ProcessModifiedBitstream | dspace-api/src/main/java/ca/umontreal/bib/calypso/clip/ClipConsumer.java:147-170 | processing fails, wrapped as a processing error, exactly when the bitstream's first bundle has no item or that item no collection; otherwise one request with the action's method at `/` + id, with a body unless it is a removal |
| ClipApi.MethodOfInjective | dspace-api/src/main/java/ca/umontreal/bib/calypso/clip/ClipConsumer.java:173-194 | the three actions use three different HTTP methods: PUT, POST, DELETE |
| ClipApi.ToUpper | dspace-api/src/main/java/ca/umontreal/bib/calypso/clip/ClipConsumer.java:243 | upper-casing keeps the length and maps each character on its own |
| ClipApi.BitstreamUrlIsContentId | dspace-api/src/main/java/ca/umontreal/bib/calypso/clip/ClipConsumer.java:209-222 | the API URL is the bitstream's download URL under `dspace.server.url + "/api/core/bitstream"` and determines the bitstream id |
| ClipApi.ConsumerClip | dspace-api/src/main/java/ca/umontreal/bib/calypso/clip/ClipConsumer.java:236-287 | a request is built exactly when the upper-cased method is POST, PUT or DELETE; the body is attached only when the method as given is exactly `POST` or `PUT` |
| ClipApi.ConsumerClipMethods | dspace-api/src/main/java/ca/umontreal/bib/calypso/clip/ClipConsumer.java:243-262 | each action's method yields its request, with a body exactly for POST and PUT; a lower-case `post` would go out without its body |
| ClipApi.Respond | dspace-api/src/main/java/ca/umontreal/bib/calypso/clip/ClipConsumer.java:265-286 | a status in [200, 300) is a success, other statuses are warnings, an I/O failure is logged, and nothing is ever thrown |
| ClipApi.Consume | dspace-api/src/main/java/ca/umontreal/bib/calypso/clip/ClipConsumer.java:75-126 | an event whose subject is not a bitstream is ignored, and so is a kind of change that is not accepted, once the bitstream's first bundle has been read |
| ClipApi.ConsumeFails | dspace-api/src/main/java/ca/umontreal/bib/calypso/clip/ClipConsumer.java:82-121 | the handling throws exactly for a bitstream with no bundle, or for an accepted event whose first bundle has no item or whose item has no collection |
| ClipApi.ConsumeRequest | dspace-api/src/main/java/ca/umontreal/bib/calypso/clip/ClipConsumer.java:147-202 | an accepted event on a reachable bitstream gives one request with the action's method at `/` + id; POST and PUT carry the image record with the bitstream's API URL and collection |
| ClipApi.SameDeleteRequest | dspace-api/src/main/java/ca/umontreal/bib/calypso/clip/ClipConsumer.java:191-194 | both consumers remove a deleted bitstream with the same DELETE request |

## Left out

- TOC entries, the separator and the canvas factory are parameters.
  `IIIFUtils.getIIIFToCs`, `TOC_SEPARATOR`, `CanvasService.getCanvas` and
  `guessCanvasDimensions` are not part of this model. The separator is a
  non-empty literal string, so no regular-expression meta-characters are
  modelled.
- The root range label is a parameter: its `I18nUtil` message lookup is not
  modelled. Nor are message lookups for metadata labels, which keep only
  their key.
- JSON serialisation, HTTP transport, Base64 encoding and the reading of
  bitstream content are left out. The additions CLIP image record omits its
  Base64 content. A transcription's text is given as a function of the
  bitstream.
- Database errors (`SQLException`) appear only as a failed format lookup or
  a failed metadata exposure lookup. Other database paths are not modelled.
- The access status is a boolean "is open access" on the item. The access
  status service is not part of this model.
- URI validity (`new URI(...)` and `URI.create(...)`) is a parameter
  `isUri`, a property of the string. The annotation id, the annotation-list
  id and a link's id are parsed with it (`AnnotationGenerator.java:115`,
  `AnnotationListGenerator.java:59`, `ExternalLinksGenerator.java:112`); a
  string it rejects gives an illegal-argument error. Which strings
  `java.net.URI` accepts is not modelled.
- The server URL of the CLIP consumers is taken as well-formed. The API
  consumer's `new URL(...)`, outside its `try`, would otherwise throw.
- ClipApi.ToUpper: upper-cases ASCII letters only, not the full Unicode
  case mapping of `String.toUpperCase`.
- Logging and `log.info` arguments are left out. The exception is the
  bundle read at dspace-api `ClipConsumer.java:87`, because that read can
  throw.
- `getManifestId` is a parameter. The logo, related link, search service,
  viewing hint and thumbnail of the IIIF 2 manifest appear only as calls on
  the manifest, without their payloads.
- The IIIF 2 generators (`ManifestGenerator`, `CanvasItemsGenerator`,
  `AnnotationGenerator`, `AnnotationListGenerator`, `ExternalLinksGenerator`
  and `CanvasGenerator` without `v3`) are not part of this model. The IIIF 2
  services are modelled through the calls they make, and the v3 generators,
  with their URI parsing, stand in for the resources, in the IIIF 2
  annotation lists as well.
- The IIIF 2 `CanvasService`, `RangeService`, `SequenceService` and
  `model.generator.RangeGenerator` that `ManifestService` uses
  (`ManifestService.java:17-22`, `:59-65`, called at `:176-178`) are not
  part of this model. The v3 `RangeService`, `RangeGenerator` and
  `CanvasItemsService` models stand in for them. So Manifest.AddPagesValid,
  Manifest.AddPagesRanges and Manifest.EmittedRangesDistinct are proved of
  that stand-in, not of the IIIF 2 code.
- A range's canvas reference is modelled as the bare canvas id. The source
  builds an id-only canvas with `canvasService.getRangeCanvasReference`
  (v3 `RangeService.java:90`, `:132`) and generates it in
  `RangeGenerator.addCanvas` (`RangeGenerator.java:88`). That canvas always
  generates, because only its id is checked, so nothing is lost.
- Canvas.Generate: records what is handed to the presentation library's `setThumbnails` and `setMetadata` one call at a time (CanvasGenerator.java:103-113), and assumes those setters append rather than replace; the library is not part of this model.
- ClipAdditions.Deliver: every request gets an HTTP status. An
  `IOException` thrown by `client.execute` itself (additions
  `ClipConsumer.java:259`), before any status exists, is not modelled.
- Annotations.Entries: uses the corrected MetadataEntry.GenerateEntry, which
  keeps every value. The code as written calls `generateValue`
  (`AnnotationGenerator.java:133`), which keeps only the second value when
  several are given; see "## Findings".
- Annotations.GenerateAnnotation: its metadata comes from
  Annotations.Entries, so it is the corrected behaviour, not the code as
  written.
- Canvas.AddMetadata: uses the corrected MetadataEntry.GenerateEntry. The
  code as written calls `generateValue` (`CanvasGenerator.java:82`), which
  keeps only the second value when several are given; see "## Findings".
- `ClipAddEventConsumer` (the older consumer in `ca.udem.bibudem.calypso`)
  is not modelled.
- The API consumer's JSON record takes the bitstream's name as its
  `itemHandle` field and the bundle's name as its `itemName` field. The
  model keeps this argument order exactly as written, in the `imageHandle`
  and `imageName` fields of `ApiImage`.
- `CanvasGenerator.addMetadata` calls `generateValue()` without a language
  tag, which matches no overload of `MetadataEntryGenerator`. The model
  passes the tag in as a parameter.
- RangeService.SetRootRange: does not prove that the root id survives
  later `updateRanges` calls. Only the invariants and counts listed above
  are proved.
- `ExternalLinksGenerator`, `ImageContentGenerator` and the profile
  utilities are context only. A link is modelled as its id, label, format,
  profile and type.

## Findings

| source | as written | input that shows it | evidently intended | confidence | as-written member | corrected member |
|---|---|---|---|---|---|---|
| dspace/modules/additions/src/main/java/org/dspace/app/iiif/v3/model/generator/MetadataEntryGenerator.java:49-55 | when further values are given, the entry shows only `rest[0]` and drops the first value and every later one | `setValue("A", "B")` then `generateValue(tag)` shows `B` only | the entry shows the first value followed by all further values, as the services pass `values.get(0)` and then the rest | medium; not executed | MetadataEntry.GenerateValue (with MetadataEntry.GenerateValueDropsFirst) | MetadataEntry.GenerateEntry (with MetadataEntry.GenerateEntryKeepsValues) |
| dspace/modules/additions/src/main/java/ca/umontreal/bib/calypso/clip/ClipConsumer.java:156-195 | the withdrawal branch tests for a BITSTREAM subject and both it and the bitstream-modification branch cast that subject to `Item` | an item withdrawal (MODIFY, ITEM, `WITHDRAW`) with one JPEG in `ORIGINAL` sends nothing; any MODIFY of a bitstream throws `ClassCastException` | withdrawals are announced on the item (as the comment at lines 81-83 says) and remove its bitstreams; editing a bitstream only changes its metadata and has no effect on the index (lines 78-79) | high; not executed | ClipAdditions.ConsumeAsWritten (with ClipAdditions.ConsumeAsWrittenCasts and ClipAdditions.WithdrawCounterexample) | ClipAdditions.Consume (with ClipAdditions.WithdrawRequests and ClipAdditions.ConsumeIgnores) |

Elsewhere the model uses the corrected members. Annotation metadata
(`Annotations.Entries`) and canvas metadata keep every value.
