/** What the two CLIP indexing consumers see of a repository event and
    what they ask of the CLIP server.

    An event names the type of its subject and the kind of change, carries
    an optional detail, and resolves to a subject and an object, either of
    which may be absent. Items and bitstreams are given as the consumers
    read them: an item with its archive and access state, the values it
    reports for its name, handle and owning collection, and its bundles; a
    bitstream with the bundles that hold it, each with the items that hold
    the bundle. A request is the HTTP method, the full URL and the JSON
    body, if any. */
module ClipEvents {
  import opened Wrappers
  import opened Content

  /** The subject types (`Constants`) the consumers distinguish. */
  datatype SubjectType = BitstreamType | BundleType | ItemType | CollectionType | CommunityType | OtherType

  /** The kinds of change of `Event`. */
  datatype EventType = Create | Modify | ModifyMetadata | Add | Remove | Delete | Install

  /** An item as the consumers read it. `openAccess` is the outcome of
      the access-status lookup compared with `OPEN_ACCESS`. */
  datatype ItemRecord = ItemRecord(
    id: string,
    name: Option<string>,
    handle: Option<string>,
    owningCollection: Option<string>,
    archived: bool,
    openAccess: bool,
    bundles: seq<Bundle>)

  /** One bundle holding a bitstream, with the items holding that bundle. */
  datatype Owner = Owner(bundleName: string, items: seq<ItemRecord>)

  /** A bitstream with its storage id and its owning bundles, in order. */
  datatype BitstreamRecord = BitstreamRecord(bitstream: Bitstream, internalId: string, owners: seq<Owner>)

  /** What `getSubject` or `getObject` resolves to. */
  datatype Resolved = ItemObj(item: ItemRecord) | BitstreamObj(bits: BitstreamRecord) | OtherObj | NullObj

  datatype Event = Event(subjectType: SubjectType, eventType: EventType, detail: Option<string>, subject: Resolved, eventObject: Resolved)

  /** The document handed over with a request: the image record of the
      additions consumer (its Base64 content is not modelled), the `Image`
      record of the API consumer with its six fields in declaration order,
      where `imageHandle` and `imageName` are its `itemHandle` and
      `itemName`, or a bare text. */
  datatype Body =
    | ClipImage(uuid: string, itemId: string, itemName: Option<string>, itemHandle: Option<string>, collectionId: string)
    | ApiImage(itemId: string, uuid: string, imageHandle: string, imageName: string, collectionId: string, url: string)
    | IdText(text: string)

  datatype Request = Request(httpMethod: string, url: string, body: Option<Body>)

  /** `(Item) o`: a cast of `null` gives `null`, whose first use throws. */
  function AsItem(o: Resolved): (res: Result<ItemRecord>)
    ensures res.Ok? <==> o.ItemObj?
    ensures res.Ok? ==> res.value == o.item
    ensures o.NullObj? ==> res == Fail(NullPointer)
    ensures o.BitstreamObj? || o.OtherObj? ==> res == Fail(ClassCast)
  {
    match o
    case ItemObj(item) => Ok(item)
    case NullObj => Fail(NullPointer)
    case _ => Fail(ClassCast)
  }

  /** `(Bitstream) o`, under the same rule. */
  function AsBitstream(o: Resolved): (res: Result<BitstreamRecord>)
    ensures res.Ok? <==> o.BitstreamObj?
    ensures res.Ok? ==> res.value == o.bits
    ensures o.NullObj? ==> res == Fail(NullPointer)
    ensures o.ItemObj? || o.OtherObj? ==> res == Fail(ClassCast)
  {
    match o
    case BitstreamObj(bits) => Ok(bits)
    case NullObj => Fail(NullPointer)
    case _ => Fail(ClassCast)
  }

  /** `bts.getBundles().get(0)`: the first owning bundle. */
  function FirstOwner(bits: BitstreamRecord): (res: Result<Owner>)
    ensures res.Ok? <==> |bits.owners| > 0
    ensures res.Ok? ==> res.value == bits.owners[0]
    ensures res.Fail? ==> res.failure == IndexOutOfBounds
  {
    if |bits.owners| == 0 then Fail(IndexOutOfBounds) else Ok(bits.owners[0])
  }

  /** `bdl.getItems().get(0)`: the first item holding a bundle. */
  function FirstItem(owner: Owner): (res: Result<ItemRecord>)
    ensures res.Ok? <==> |owner.items| > 0
    ensures res.Ok? ==> res.value == owner.items[0]
    ensures res.Fail? ==> res.failure == IndexOutOfBounds
  {
    if |owner.items| == 0 then Fail(IndexOutOfBounds) else Ok(owner.items[0])
  }
}
