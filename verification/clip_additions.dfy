/** The CLIP consumer of the repository add-ons
    (`ca.umontreal.bib.calypso.clip.ClipConsumer` in the additions module).

    An event is handled by the first matching branch of a decision table:
    a deposited, reinstated or newly mapped item is published (POST of
    every image in its bundles), a bitstream added to an archived item is
    published, a withdrawn item is removed (DELETE of every bitstream), and
    a deleted bitstream is removed. Editing a bitstream changes only its
    metadata, so a modified bitstream leaves the index alone; the code as
    written casts it to an item instead (see `ConsumeAsWritten`). The bundles `THUMBNAIL` and `LICENCE` are
    never looked at. Handling yields the steps the consumer takes in order:
    a request to send, or an exception that ends the handling. */
module ClipAdditions {
  import opened Wrappers
  import opened JavaStrings
  import opened Content
  import opened ClipEvents

  datatype Step = Send(request: Request) | Throw(failure: Failure)

  /** How a bitstream is handled: sent with its item's fields under a
      method when it is an image, or removed. */
  datatype Mode =
    | Push(httpMethod: string, itemId: string, itemName: Option<string>, itemHandle: Option<string>, collectionId: Option<string>)
    | Unindex

  /** The bundles the consumer never looks into. */
  predicate Skipped(name: string) {
    name == "THUMBNAIL" || name == "LICENCE"
  }

  /** `mimeType.indexOf("image/") == 0`. */
  predicate IsImage(mime: string) {
    StartsWith(mime, "image/")
  }

  /** A bitstream whose format lookup gives an image MIME type. */
  predicate ImageBitstream(b: Bitstream) {
    b.format.Mime? && b.format.mime.Some? && IsImage(b.format.mime.value)
  }

  /** `sendClipRequest`: POST and PUT carry the body, DELETE carries none,
      and any other method is only logged. */
  function SendClipRequest(server: string, endpoint: string, httpMethod: string, body: Option<Body>): (r: Option<Request>)
    ensures r.Some? <==> httpMethod == "POST" || httpMethod == "PUT" || httpMethod == "DELETE"
    ensures r.Some? ==> r.value.httpMethod == httpMethod && r.value.url == server + endpoint
    ensures r.Some? ==> (r.value.body.Some? <==> httpMethod != "DELETE" && body.Some?)
    ensures r.Some? && httpMethod != "DELETE" ==> r.value.body == body
  {
    if httpMethod == "POST" || httpMethod == "PUT" then Some(Request(httpMethod, server + endpoint, body))
    else if httpMethod == "DELETE" then Some(Request(httpMethod, server + endpoint, None))
    else None
  }

  /** The step of a request that was built, if one was. */
  function Sent(r: Option<Request>): seq<Step> {
    if r.Some? then [Send(r.value)] else []
  }

  /** `deleteBitstream`. */
  function DeleteBitstream(server: string, b: Bitstream): (steps: seq<Step>)
    ensures steps == [Send(Request("DELETE", server + "/" + b.id, None))]
  {
    assert server + ("/" + b.id) == server + "/" + b.id;
    Sent(SendClipRequest(server, "/" + b.id, "DELETE", None))
  }

  /** The request that publishes an image bitstream under a `Push` mode. */
  function PushRequest(server: string, b: Bitstream, m: Mode): Request
    requires m.Push? && m.collectionId.Some?
  {
    Request(m.httpMethod, server + "/" + b.id, Some(ClipImage(b.id, m.itemId, m.itemName, m.itemHandle, m.collectionId.value)))
  }

  /** A bitstream under a mode. For `Push` the caller first reads the owning
      collection's id (`null` throws), then `actionBitstream` reads the
      format: a failed lookup or a `null` MIME type throws, and only images
      are sent, to `"/" + uuid`. */
  function BitstreamSteps(server: string, b: Bitstream, m: Mode): (steps: seq<Step>)
    ensures |steps| <= 1
  {
    match m
    case Unindex => DeleteBitstream(server, b)
    case Push(httpMethod, itemId, itemName, itemHandle, coll) =>
      if coll.None? then [Throw(NullPointer)]
      else
        match b.format
        case LookupError => [Throw(RuntimeError("format lookup failed"))]
        case Mime(None) => [Throw(NullPointer)]
        case Mime(Some(mime)) =>
          if IsImage(mime) then Sent(SendClipRequest(server, "/" + b.id, httpMethod, Some(ClipImage(b.id, itemId, itemName, itemHandle, coll.value))))
          else []
  }

  /** What one bitstream contributes, classified: a `Push` in POST or PUT
      sends exactly the images' requests and throws exactly on an unreadable
      format or a missing collection; `Unindex` always sends the DELETE. */
  lemma BitstreamStepsCases(server: string, b: Bitstream, m: Mode, r: Request)
    requires m.Push? ==> m.httpMethod == "POST" || m.httpMethod == "PUT"
    ensures m.Push? ==> (Send(r) in BitstreamSteps(server, b, m) <==>
      m.collectionId.Some? && ImageBitstream(b) && r == PushRequest(server, b, m))
    ensures m.Push? ==> ((exists f :: Throw(f) in BitstreamSteps(server, b, m)) <==>
      m.collectionId.None? || b.format.LookupError? || b.format.mime.None?)
    ensures m.Unindex? ==> BitstreamSteps(server, b, m) == [Send(Request("DELETE", server + "/" + b.id, None))]
  {
    if m.Push? && m.collectionId.None? {
      assert Throw(NullPointer) in BitstreamSteps(server, b, m);
    } else if m.Push? && b.format.LookupError? {
      assert Throw(RuntimeError("format lookup failed")) in BitstreamSteps(server, b, m);
    } else if m.Push? && b.format.mime.None? {
      assert Throw(NullPointer) in BitstreamSteps(server, b, m);
    } else if m.Push? {
      assert server + ("/" + b.id) == server + "/" + b.id;
    }
  }

  /** The loop over the bitstreams of one bundle. */
  function BitstreamsSteps(server: string, bs: seq<Bitstream>, m: Mode): seq<Step>
    decreases |bs|
  {
    if |bs| == 0 then []
    else BitstreamsSteps(server, bs[..|bs| - 1], m) + BitstreamSteps(server, bs[|bs| - 1], m)
  }

  /** One bundle of an item: a skipped bundle contributes nothing. */
  function BundleSteps(server: string, bundle: Bundle, m: Mode): seq<Step> {
    if Skipped(bundle.name) then [] else BitstreamsSteps(server, bundle.bitstreams, m)
  }

  /** The loop over the bundles of an item. */
  function BundlesSteps(server: string, bundles: seq<Bundle>, m: Mode): seq<Step>
    decreases |bundles|
  {
    if |bundles| == 0 then []
    else BundlesSteps(server, bundles[..|bundles| - 1], m) + BundleSteps(server, bundles[|bundles| - 1], m)
  }

  lemma {:induction false} BitstreamsStepsMembers(server: string, bs: seq<Bitstream>, m: Mode, st: Step)
    ensures st in BitstreamsSteps(server, bs, m) <==> exists j :: 0 <= j < |bs| && st in BitstreamSteps(server, bs[j], m)
    decreases |bs|
  {
    if |bs| > 0 {
      var init := bs[..|bs| - 1];
      BitstreamsStepsMembers(server, init, m, st);
      if exists j :: 0 <= j < |init| && st in BitstreamSteps(server, init[j], m) {
        var j :| 0 <= j < |init| && st in BitstreamSteps(server, init[j], m);
        assert bs[j] == init[j];
      }
    }
  }

  lemma {:induction false} BundlesStepsLoop(server: string, bundles: seq<Bundle>, m: Mode, st: Step)
    ensures st in BundlesSteps(server, bundles, m) <==> exists i :: 0 <= i < |bundles| && st in BundleSteps(server, bundles[i], m)
    decreases |bundles|
  {
    if |bundles| > 0 {
      var init := bundles[..|bundles| - 1];
      BundlesStepsLoop(server, init, m, st);
      assert BundlesSteps(server, bundles, m) == BundlesSteps(server, init, m) + BundleSteps(server, bundles[|bundles| - 1], m);
      if exists i :: 0 <= i < |init| && st in BundleSteps(server, init[i], m) {
        var i :| 0 <= i < |init| && st in BundleSteps(server, init[i], m);
        assert bundles[i] == init[i];
      }
      if exists i :: 0 <= i < |bundles| && st in BundleSteps(server, bundles[i], m) {
        var i :| 0 <= i < |bundles| && st in BundleSteps(server, bundles[i], m);
        if i < |init| {
          assert init[i] == bundles[i];
        }
      }
    }
  }

  /** A step of the item loop is exactly a step of some bitstream in a bundle
      that is not skipped. */
  lemma BundlesStepsMembers(server: string, bundles: seq<Bundle>, m: Mode, st: Step)
    ensures st in BundlesSteps(server, bundles, m) <==>
      exists i, j :: 0 <= i < |bundles| && !Skipped(bundles[i].name) && 0 <= j < |bundles[i].bitstreams|
        && st in BitstreamSteps(server, bundles[i].bitstreams[j], m)
  {
    BundlesStepsLoop(server, bundles, m, st);
    forall i | 0 <= i < |bundles|
      ensures st in BitstreamsSteps(server, bundles[i].bitstreams, m) <==>
        exists j :: 0 <= j < |bundles[i].bitstreams| && st in BitstreamSteps(server, bundles[i].bitstreams[j], m)
    {
      BitstreamsStepsMembers(server, bundles[i].bitstreams, m, st);
    }
  }

  /** A `Send` step a `Push` loop over an item's bundles lists is exactly the
      publication of an image in a bundle that is not skipped. Steps listed
      after a `Throw` are never sent; `Requests` keeps only those before it. */
  lemma PushRequests(server: string, bundles: seq<Bundle>, m: Mode, r: Request)
    requires m.Push? && (m.httpMethod == "POST" || m.httpMethod == "PUT") && m.collectionId.Some?
    ensures Send(r) in BundlesSteps(server, bundles, m) <==>
      exists i, j :: 0 <= i < |bundles| && !Skipped(bundles[i].name) && 0 <= j < |bundles[i].bitstreams|
        && ImageBitstream(bundles[i].bitstreams[j]) && r == PushRequest(server, bundles[i].bitstreams[j], m)
  {
    BundlesStepsMembers(server, bundles, m, Send(r));
    forall i, j | 0 <= i < |bundles| && 0 <= j < |bundles[i].bitstreams|
      ensures Send(r) in BitstreamSteps(server, bundles[i].bitstreams[j], m) <==>
        ImageBitstream(bundles[i].bitstreams[j]) && r == PushRequest(server, bundles[i].bitstreams[j], m)
    {
      BitstreamStepsCases(server, bundles[i].bitstreams[j], m, r);
    }
  }

  /** A request of an `Unindex` loop is exactly the DELETE of a bitstream in
      a bundle that is not skipped, and the loop never throws. */
  lemma UnindexRequests(server: string, bundles: seq<Bundle>, r: Request)
    ensures Send(r) in BundlesSteps(server, bundles, Unindex) <==>
      exists i, j :: 0 <= i < |bundles| && !Skipped(bundles[i].name) && 0 <= j < |bundles[i].bitstreams|
        && r == Request("DELETE", server + "/" + bundles[i].bitstreams[j].id, None)
    ensures forall st :: st in BundlesSteps(server, bundles, Unindex) ==> st.Send?
  {
    BundlesStepsMembers(server, bundles, Unindex, Send(r));
    forall st | st in BundlesSteps(server, bundles, Unindex)
      ensures st.Send?
    {
      BundlesStepsMembers(server, bundles, Unindex, st);
    }
  }

  /** The HTTP method every request of a mode uses. */
  function ModeMethod(m: Mode): string {
    if m.Push? then m.httpMethod else "DELETE"
  }

  /** Every request of the loop over an item's bundles uses the mode's
      method. */
  lemma BundlesSendMethod(server: string, bundles: seq<Bundle>, m: Mode)
    ensures forall st :: st in BundlesSteps(server, bundles, m) && st.Send? ==> st.request.httpMethod == ModeMethod(m)
  {
    forall st | st in BundlesSteps(server, bundles, m) && st.Send?
      ensures st.request.httpMethod == ModeMethod(m)
    {
      BundlesStepsMembers(server, bundles, m, st);
    }
  }

  /** A bitstream whose format can be read: the lookup succeeds and names a
      MIME type, so `actionBitstream` does not throw on it. */
  predicate Readable(b: Bitstream) {
    b.format.Mime? && b.format.mime.Some?
  }

  /** Every bitstream of a bundle that is not skipped can be read. */
  predicate AllReadable(bundles: seq<Bundle>) {
    forall i, j :: 0 <= i < |bundles| && !Skipped(bundles[i].name) && 0 <= j < |bundles[i].bitstreams| ==>
      Readable(bundles[i].bitstreams[j])
  }

  /** The image bitstreams among `bs`, in order. */
  function ImagesIn(bs: seq<Bitstream>): seq<Bitstream>
    decreases |bs|
  {
    if |bs| == 0 then []
    else ImagesIn(bs[..|bs| - 1]) + (if ImageBitstream(bs[|bs| - 1]) then [bs[|bs| - 1]] else [])
  }

  /** The image bitstreams of the bundles that are not skipped, bundle by
      bundle. */
  function ImagesOf(bundles: seq<Bundle>): seq<Bitstream>
    decreases |bundles|
  {
    if |bundles| == 0 then []
    else ImagesOf(bundles[..|bundles| - 1]) + (if Skipped(bundles[|bundles| - 1].name) then [] else ImagesIn(bundles[|bundles| - 1].bitstreams))
  }

  /** One request per bitstream, published under a `Push` mode. */
  function PushRequestsOf(server: string, bs: seq<Bitstream>, m: Mode): seq<Request>
    requires m.Push? && m.collectionId.Some?
  {
    seq(|bs|, k requires 0 <= k < |bs| => PushRequest(server, bs[k], m))
  }

  /** The steps that send `rs`, in order. */
  function SendAll(rs: seq<Request>): seq<Step> {
    seq(|rs|, k requires 0 <= k < |rs| => Send(rs[k]))
  }

  lemma SendPushAppend(server: string, a: seq<Bitstream>, b: seq<Bitstream>, m: Mode)
    requires m.Push? && m.collectionId.Some?
    ensures SendAll(PushRequestsOf(server, a + b, m)) == SendAll(PushRequestsOf(server, a, m)) + SendAll(PushRequestsOf(server, b, m))
  {
    var l := SendAll(PushRequestsOf(server, a + b, m));
    var r := SendAll(PushRequestsOf(server, a, m)) + SendAll(PushRequestsOf(server, b, m));
    assert |l| == |r|;
    forall k | 0 <= k < |l|
      ensures l[k] == r[k]
    {
      if k < |a| {
        assert (a + b)[k] == a[k];
      } else {
        assert (a + b)[k] == b[k - |a|];
      }
    }
  }

  /** When every bitstream can be read, the loop over one bundle sends
      exactly one request per image, in order, and nothing else. */
  lemma {:induction false} BitstreamsPush(server: string, bs: seq<Bitstream>, m: Mode)
    requires m.Push? && (m.httpMethod == "POST" || m.httpMethod == "PUT") && m.collectionId.Some?
    requires forall j :: 0 <= j < |bs| ==> Readable(bs[j])
    ensures BitstreamsSteps(server, bs, m) == SendAll(PushRequestsOf(server, ImagesIn(bs), m))
    decreases |bs|
  {
    if |bs| > 0 {
      var init := bs[..|bs| - 1];
      var b := bs[|bs| - 1];
      BitstreamsPush(server, init, m);
      var tail := if ImageBitstream(b) then [b] else [];
      assert BitstreamSteps(server, b, m) == SendAll(PushRequestsOf(server, tail, m)) by {
        assert server + ("/" + b.id) == server + "/" + b.id;
      }
      SendPushAppend(server, ImagesIn(init), tail, m);
    }
  }

  /** When every bitstream of a bundle that is not skipped can be read, the
      loop over the bundles sends exactly one request per image, in bundle
      and bitstream order, and nothing else. */
  lemma {:induction false} BundlesPush(server: string, bundles: seq<Bundle>, m: Mode)
    requires m.Push? && (m.httpMethod == "POST" || m.httpMethod == "PUT") && m.collectionId.Some?
    requires AllReadable(bundles)
    ensures BundlesSteps(server, bundles, m) == SendAll(PushRequestsOf(server, ImagesOf(bundles), m))
    decreases |bundles|
  {
    var n := |bundles|;
    if n > 0 {
      var init := bundles[..n - 1];
      var last := bundles[n - 1];
      assert AllReadable(init) by {
        forall i, j | 0 <= i < |init| && !Skipped(init[i].name) && 0 <= j < |init[i].bitstreams|
          ensures Readable(init[i].bitstreams[j])
        {
          assert init[i] == bundles[i];
        }
      }
      BundlesPush(server, init, m);
      var tail := if Skipped(last.name) then [] else ImagesIn(last.bitstreams);
      if !Skipped(last.name) {
        BitstreamsPush(server, last.bitstreams, m);
      }
      SendPushAppend(server, ImagesOf(init), tail, m);
    }
  }

  /** The loop over the bundles throws exactly when some bitstream of a
      bundle that is not skipped cannot be read. */
  lemma PushLoopRaises(server: string, bundles: seq<Bundle>, m: Mode)
    requires m.Push? && (m.httpMethod == "POST" || m.httpMethod == "PUT") && m.collectionId.Some?
    ensures Raised(BundlesSteps(server, bundles, m)).None? <==> AllReadable(bundles)
  {
    var steps := BundlesSteps(server, bundles, m);
    if AllReadable(bundles) {
      BundlesPush(server, bundles, m);
    } else {
      var i, j :| 0 <= i < |bundles| && !Skipped(bundles[i].name) && 0 <= j < |bundles[i].bitstreams|
        && !Readable(bundles[i].bitstreams[j]);
      var b := bundles[i].bitstreams[j];
      var f := if b.format.LookupError? then RuntimeError("format lookup failed") else NullPointer;
      assert BitstreamSteps(server, b, m) == [Throw(f)];
      BundlesStepsMembers(server, bundles, m, Throw(f));
      var k :| 0 <= k < |steps| && steps[k] == Throw(f);
    }
  }

  // ---------------------------------------------------------------------
  // The decision table.

  /** An item is deposited or reinstated, or mapped into a collection. */
  predicate IsPublishEvent(e: Event) {
    || (e.subjectType == ItemType && (e.eventType == Install || (e.eventType == Modify && e.detail == Some("REINSTATE"))))
    || (e.subjectType == CollectionType && e.eventType == Add)
  }

  predicate IsCreateEvent(e: Event) {
    e.subjectType == BitstreamType && e.eventType == Create
  }

  /** The withdrawal test as the code writes it: a bitstream subject. */
  predicate IsWithdrawEventAsWritten(e: Event) {
    e.subjectType == BitstreamType && e.eventType == Modify && e.detail == Some("WITHDRAW")
  }

  /** The withdrawal of an item, which is announced on the item itself. */
  predicate IsWithdrawEvent(e: Event) {
    e.subjectType == ItemType && e.eventType == Modify && e.detail == Some("WITHDRAW")
  }

  predicate IsDeleteEvent(e: Event) {
    e.subjectType == BitstreamType && e.eventType == Delete
  }

  predicate IsUpdateEvent(e: Event) {
    e.subjectType == BitstreamType && e.eventType == Modify
  }

  /** The item of a publish event: the subject of an item event, the object
      of a collection event. */
  function PublishedItem(e: Event): Resolved {
    if e.subjectType == ItemType then e.subject else e.eventObject
  }

  /** A thrown exception ends the handling. */
  function Steps(r: Result<seq<Step>>): seq<Step> {
    match r
    case Ok(steps) => steps
    case Fail(f) => [Throw(f)]
  }

  /** The publish branch: only an archived open-access item is looked at;
      its id, name, handle and collection are read before the loop. */
  function PublishItem(server: string, e: Event): (res: Result<seq<Step>>)
    ensures res.Fail? <==>
      || !PublishedItem(e).ItemObj?
      || (var item := PublishedItem(e).item;
          item.archived && item.openAccess && (item.name.None? || item.handle.None? || item.owningCollection.None?))
    ensures res.Ok? && res.value != [] ==> PublishedItem(e).item.archived && PublishedItem(e).item.openAccess
    ensures res.Ok? ==> forall st :: st in res.value && st.Send? ==> st.request.httpMethod == "POST"
    ensures res.Ok? ==> (Raised(res.value).None? <==>
      var item := PublishedItem(e).item;
      !(item.archived && item.openAccess) || AllReadable(item.bundles))
  {
    var item :- AsItem(PublishedItem(e));
    var m := PublishMode(item);
    BundlesSendMethod(server, item.bundles, m);
    if !(item.archived && item.openAccess) then Ok([])
    else if item.name.None? || item.handle.None? || item.owningCollection.None? then Fail(NullPointer)
    else
      PushLoopRaises(server, item.bundles, m);
      Ok(BundlesSteps(server, item.bundles, m))
  }

  /** The bitstream-added branch: the first bundle of the bitstream and the
      first item of that bundle; the access status, the archive state and the
      bundle name are tested in that order. */
  function CreateBitstream(server: string, e: Event): (res: Result<seq<Step>>)
    ensures res.Fail? <==> !e.subject.BitstreamObj? || |e.subject.bits.owners| == 0 || |e.subject.bits.owners[0].items| == 0
    ensures res.Ok? ==> |res.value| <= 1
    ensures res.Ok? ==> forall st :: st in res.value && st.Send? ==>
      st.request.httpMethod == "POST" && st.request.url == server + "/" + e.subject.bits.bitstream.id
    ensures res.Ok? ==> (Raised(res.value).None? <==>
      var item := e.subject.bits.owners[0].items[0];
      !(item.openAccess && item.archived && !Skipped(e.subject.bits.owners[0].bundleName))
      || (item.owningCollection.Some? && Readable(e.subject.bits.bitstream)))
  {
    var bits :- AsBitstream(e.subject);
    var owner :- FirstOwner(bits);
    var item :- FirstItem(owner);
    if item.openAccess && item.archived && !Skipped(owner.bundleName) then
      var m := PublishMode(item);
      var steps := BitstreamSteps(server, bits.bitstream, m);
      assert Raised(steps).Some? <==> exists f :: Throw(f) in steps by {
        if Raised(steps).Some? {
          var k :| 0 <= k < |steps| && !steps[k].Send?;
          assert Throw(steps[k].failure) in steps;
        }
      }
      BitstreamStepsCases(server, bits.bitstream, m, Request("POST", "", None));
      Ok(steps)
    else Ok([])
  }

  /** The withdrawal branch: every bitstream of a bundle that is not
      skipped is removed, whatever the access status. */
  function WithdrawItem(server: string, item: ItemRecord): (steps: seq<Step>)
    ensures forall st :: st in steps ==> st.Send? && st.request.httpMethod == "DELETE" && st.request.body.None?
    ensures forall i, j :: 0 <= i < |item.bundles| && !Skipped(item.bundles[i].name) && 0 <= j < |item.bundles[i].bitstreams| ==>
      Send(Request("DELETE", server + "/" + item.bundles[i].bitstreams[j].id, None)) in steps
  {
    WithdrawAll(server, item.bundles);
    BundlesSteps(server, item.bundles, Unindex)
  }

  /** The `Unindex` loop sends only bodiless DELETEs, one for every
      bitstream of a bundle that is not skipped. */
  lemma WithdrawAll(server: string, bundles: seq<Bundle>)
    ensures forall st :: st in BundlesSteps(server, bundles, Unindex) ==>
      st.Send? && st.request.httpMethod == "DELETE" && st.request.body.None?
    ensures forall i, j :: 0 <= i < |bundles| && !Skipped(bundles[i].name) && 0 <= j < |bundles[i].bitstreams| ==>
      Send(Request("DELETE", server + "/" + bundles[i].bitstreams[j].id, None)) in BundlesSteps(server, bundles, Unindex)
  {
    forall st | st in BundlesSteps(server, bundles, Unindex)
      ensures st.Send? && st.request.httpMethod == "DELETE" && st.request.body.None?
    {
      BundlesStepsMembers(server, bundles, Unindex, st);
    }
    forall i, j | 0 <= i < |bundles| && !Skipped(bundles[i].name) && 0 <= j < |bundles[i].bitstreams|
      ensures Send(Request("DELETE", server + "/" + bundles[i].bitstreams[j].id, None)) in BundlesSteps(server, bundles, Unindex)
    {
      UnindexRequests(server, bundles, Request("DELETE", server + "/" + bundles[i].bitstreams[j].id, None));
    }
  }

  /** The update branch of the code as written: every image of an
      open-access item is sent again. */
  function UpdateItem(server: string, item: ItemRecord): (steps: seq<Step>)
    ensures steps != [] ==> item.openAccess
    ensures forall st :: st in steps && st.Send? ==> st.request.httpMethod == "PUT"
  {
    BundlesSendMethod(server, item.bundles, Push("PUT", item.id, item.name, item.handle, item.owningCollection));
    if item.openAccess then BundlesSteps(server, item.bundles, Push("PUT", item.id, item.name, item.handle, item.owningCollection))
    else []
  }

  /** `consume` as written: the withdrawal and update branches cast the
      event's subject, a bitstream, to an item. */
  function ConsumeAsWritten(server: string, e: Event): (steps: seq<Step>)
    ensures forall st :: st in steps && st.Send? ==>
      || (st.request.httpMethod == "POST" && (IsPublishEvent(e) || IsCreateEvent(e)))
      || (st.request.httpMethod == "DELETE" && (IsWithdrawEventAsWritten(e) || IsDeleteEvent(e)))
      || (st.request.httpMethod == "PUT" && IsUpdateEvent(e) && !IsWithdrawEventAsWritten(e))
    ensures steps != [] ==>
      IsPublishEvent(e) || IsCreateEvent(e) || IsWithdrawEventAsWritten(e) || IsDeleteEvent(e) || IsUpdateEvent(e)
  {
    Steps(
      if IsPublishEvent(e) then PublishItem(server, e)
      else if IsCreateEvent(e) then CreateBitstream(server, e)
      else if IsWithdrawEventAsWritten(e) then
        var item :- AsItem(e.subject);
        Ok(WithdrawItem(server, item))
      else if IsDeleteEvent(e) then
        var bits :- AsBitstream(e.subject);
        Ok(DeleteBitstream(server, bits.bitstream))
      else if IsUpdateEvent(e) then
        var item :- AsItem(e.subject);
        Ok(UpdateItem(server, item))
      else Ok([]))
  }

  /** `consume` as evidently intended: a withdrawal is recognised on its
      item, and a modified bitstream, whose edit changes only metadata,
      leaves the index alone. Only POSTs of publications and DELETEs of
      removals are sent. */
  function Consume(server: string, e: Event): (steps: seq<Step>)
    ensures forall st :: st in steps && st.Send? ==>
      || (st.request.httpMethod == "POST" && (IsPublishEvent(e) || IsCreateEvent(e)))
      || (st.request.httpMethod == "DELETE" && (IsWithdrawEvent(e) || IsDeleteEvent(e)))
    ensures steps != [] ==> IsPublishEvent(e) || IsCreateEvent(e) || IsWithdrawEvent(e) || IsDeleteEvent(e)
  {
    Steps(
      if IsPublishEvent(e) then PublishItem(server, e)
      else if IsCreateEvent(e) then CreateBitstream(server, e)
      else if IsWithdrawEvent(e) then
        var item :- AsItem(e.subject);
        Ok(WithdrawItem(server, item))
      else if IsDeleteEvent(e) then
        var bits :- AsBitstream(e.subject);
        Ok(DeleteBitstream(server, bits.bitstream))
      else Ok([]))
  }

  // ---------------------------------------------------------------------
  // What the code as written does with bitstream modifications.

  /** Every modification of a bitstream that resolves ends in a
      `ClassCastException` before any request, and a withdrawn item, which
      is announced on the item, is left in the index. */
  lemma ConsumeAsWrittenCasts(server: string, e: Event)
    ensures IsUpdateEvent(e) && e.subject.BitstreamObj? ==> ConsumeAsWritten(server, e) == [Throw(ClassCast)]
    ensures IsWithdrawEvent(e) ==> ConsumeAsWritten(server, e) == []
  {
  }

  /** A concrete withdrawal: an item holding one JPEG in its `ORIGINAL`
      bundle. As written nothing is removed; as intended its DELETE is
      sent. A modification of that JPEG throws as written and, as intended,
      sends nothing. */
  lemma WithdrawCounterexample()
    ensures var jpeg := Bitstream("b1", "page.jpg", Mime(Some("image/jpeg")));
      var item := ItemRecord("i1", Some("Atlas"), Some("1866/1"), Some("c1"), true, true, [Bundle("ORIGINAL", [jpeg])]);
      var withdraw := Event(ItemType, Modify, Some("WITHDRAW"), ItemObj(item), NullObj);
      var modification := Event(BitstreamType, Modify, None, BitstreamObj(BitstreamRecord(jpeg, "s1", [Owner("ORIGINAL", [item])])), NullObj);
      && ConsumeAsWritten("https://clip", withdraw) == []
      && Consume("https://clip", withdraw) == [Send(Request("DELETE", "https://clip/b1", None))]
      && ConsumeAsWritten("https://clip", modification) == [Throw(ClassCast)]
      && Consume("https://clip", modification) == []
  {
    var jpeg := Bitstream("b1", "page.jpg", Mime(Some("image/jpeg")));
    var item := ItemRecord("i1", Some("Atlas"), Some("1866/1"), Some("c1"), true, true, [Bundle("ORIGINAL", [jpeg])]);
    assert IsImage("image/jpeg");
    assert !Skipped("ORIGINAL");
    assert "https://clip" + "/" + "b1" == "https://clip/b1";
    var bundles := item.bundles;
    assert BundlesSteps("https://clip", bundles, Unindex) == BundlesSteps("https://clip", bundles[..0], Unindex) + BitstreamsSteps("https://clip", [jpeg], Unindex);
    assert BitstreamsSteps("https://clip", [jpeg], Unindex) == BitstreamsSteps("https://clip", [jpeg][..0], Unindex) + BitstreamSteps("https://clip", jpeg, Unindex);
  }

  /** As written, the withdrawal test comes before the update test, so a
      bitstream modification marked `WITHDRAW` never reaches the PUT
      branch. */
  lemma ConsumeAsWrittenWithdrawFirst(server: string, e: Event)
    requires IsWithdrawEventAsWritten(e)
    ensures forall st :: st in ConsumeAsWritten(server, e) && st.Send? ==> st.request.httpMethod == "DELETE"
  {
    if e.subject.ItemObj? {
      forall st | st in ConsumeAsWritten(server, e) && st.Send?
        ensures st.request.httpMethod == "DELETE"
      {
        UnindexRequests(server, e.subject.item.bundles, st.request);
      }
    }
  }

  // ---------------------------------------------------------------------
  // The decision table as intended, branch by branch.

  /** Events outside the table, and modifications of a bitstream, are
      ignored. */
  lemma ConsumeIgnores(server: string, e: Event)
    requires !IsPublishEvent(e) && !IsCreateEvent(e) && !IsWithdrawEvent(e) && !IsDeleteEvent(e)
    ensures Consume(server, e) == []
  {
  }

  /** The mode the publish branch runs its loop under. */
  function PublishMode(item: ItemRecord): Mode {
    Push("POST", item.id, item.name, item.handle, item.owningCollection)
  }

  /** `r` is the POST of an image in a bundle that is not skipped, of an
      archived open-access item whose name, handle and collection are set. */
  predicate PublishesImage(server: string, e: Event, r: Request) {
    && PublishedItem(e).ItemObj?
    && var item := PublishedItem(e).item;
    && item.archived && item.openAccess
    && item.name.Some? && item.handle.Some? && item.owningCollection.Some?
    && (exists i, j ::
      0 <= i < |item.bundles| && !Skipped(item.bundles[i].name) && 0 <= j < |item.bundles[i].bitstreams|
      && ImageBitstream(item.bundles[i].bitstreams[j])
      && r == Request("POST", server + "/" + item.bundles[i].bitstreams[j].id,
        Some(ClipImage(item.bundles[i].bitstreams[j].id, item.id, item.name, item.handle, item.owningCollection.value))))
  }

  /** A publish event. Whatever is sent publishes an image of an archived
      open-access item; the handling throws exactly when the item is
      missing, or when it is archived and open access and lacks its name,
      handle or collection or holds a bitstream whose format cannot be read;
      and when it does not throw it sends exactly one POST per image in a
      bundle that is not skipped, in bundle and bitstream order. */
  lemma PublishRequests(server: string, e: Event, r: Request)
    requires IsPublishEvent(e)
    ensures r in Requests(Consume(server, e)) ==> PublishesImage(server, e, r)
    ensures Raised(Consume(server, e)).None? ==> (r in Requests(Consume(server, e)) <==> PublishesImage(server, e, r))
    ensures Raised(Consume(server, e)).None? <==>
      && PublishedItem(e).ItemObj?
      && var item := PublishedItem(e).item;
      (item.archived && item.openAccess ==>
        item.name.Some? && item.handle.Some? && item.owningCollection.Some? && AllReadable(item.bundles))
    ensures Raised(Consume(server, e)).None? && PublishedItem(e).ItemObj? ==>
      var item := PublishedItem(e).item;
      item.archived && item.openAccess ==>
        Requests(Consume(server, e)) == PushRequestsOf(server, ImagesOf(item.bundles), PublishMode(item))
  {
    var steps := Consume(server, e);
    RequestsSent(steps, r);
    RequestsNoRaise(steps, r);
    var o := PublishedItem(e);
    if o.ItemObj? {
      var item := o.item;
      if item.archived && item.openAccess && item.name.Some? && item.handle.Some? && item.owningCollection.Some? {
        var m := PublishMode(item);
        assert steps == BundlesSteps(server, item.bundles, m);
        PushRequests(server, item.bundles, m, r);
        PushLoopRaises(server, item.bundles, m);
        if AllReadable(item.bundles) {
          BundlesPush(server, item.bundles, m);
          RequestsSendAll(PushRequestsOf(server, ImagesOf(item.bundles), m));
        }
      }
    }
  }

  /** A bitstream added to an item is published only when the item is open
      access and archived and the bundle is not skipped, and only if it is
      an image. */
  lemma CreateRequests(server: string, e: Event, r: Request)
    requires IsCreateEvent(e)
    ensures r in Requests(Consume(server, e)) <==> Send(r) in Consume(server, e)
    ensures Raised(Consume(server, e)).None? <==>
      && e.subject.BitstreamObj?
      && var bits := e.subject.bits;
      && |bits.owners| > 0 && |bits.owners[0].items| > 0
      && var item := bits.owners[0].items[0];
      (item.openAccess && item.archived && !Skipped(bits.owners[0].bundleName) ==>
        item.owningCollection.Some? && Readable(bits.bitstream))
    ensures Send(r) in Consume(server, e) <==>
      && e.subject.BitstreamObj?
      && var bits := e.subject.bits;
      && |bits.owners| > 0 && |bits.owners[0].items| > 0
      && var item := bits.owners[0].items[0];
      && item.openAccess && item.archived && !Skipped(bits.owners[0].bundleName)
      && item.owningCollection.Some? && ImageBitstream(bits.bitstream)
      && r == Request("POST", server + "/" + bits.bitstream.id,
        Some(ClipImage(bits.bitstream.id, item.id, item.name, item.handle, item.owningCollection.value)))
  {
    if e.subject.BitstreamObj? {
      var bits := e.subject.bits;
      if |bits.owners| > 0 && |bits.owners[0].items| > 0 {
        var item := bits.owners[0].items[0];
        BitstreamStepsCases(server, bits.bitstream, Push("POST", item.id, item.name, item.handle, item.owningCollection), r);
      }
    }
    RequestsSent(Consume(server, e), r);
    if Send(r) in Consume(server, e) {
      assert Consume(server, e) == [Send(r)];
    }
  }

  /** A withdrawn item has every bitstream of a bundle that is not skipped
      removed, images or not, with no access check and no exception. */
  lemma WithdrawRequests(server: string, e: Event, r: Request)
    requires IsWithdrawEvent(e) && e.subject.ItemObj?
    ensures Send(r) in Consume(server, e) <==>
      var bundles := e.subject.item.bundles;
      exists i, j :: 0 <= i < |bundles| && !Skipped(bundles[i].name) && 0 <= j < |bundles[i].bitstreams|
        && r == Request("DELETE", server + "/" + bundles[i].bitstreams[j].id, None)
    ensures forall st :: st in Consume(server, e) ==> st.Send?
  {
    UnindexRequests(server, e.subject.item.bundles, r);
  }

  /** A deleted bitstream is always removed, whatever it held. */
  lemma DeleteRequest(server: string, e: Event)
    requires IsDeleteEvent(e)
    ensures e.subject.BitstreamObj? ==> Consume(server, e) == [Send(Request("DELETE", server + "/" + e.subject.bits.bitstream.id, None))]
    ensures !e.subject.BitstreamObj? ==> exists f :: Consume(server, e) == [Throw(f)]
  {
    if !e.subject.BitstreamObj? {
      assert Consume(server, e) == [Throw(AsBitstream(e.subject).failure)];
    }
  }

  // ---------------------------------------------------------------------
  // Running the steps.

  /** `handleClipResponse`, for a status other than 200: a validation
      error (422) is raised, anything else is only logged. */
  function HandleClipResponse(status: int): (f: Option<Failure>)
    ensures f.Some? <==> status == 422
    ensures f.Some? ==> f.value.IOError?
  {
    if status == 422 then Some(IOError("Clip API Error: 422")) else None
  }

  /** The requests the steps send before the first exception. */
  function Requests(steps: seq<Step>): seq<Request>
    decreases |steps|
  {
    if |steps| == 0 then []
    else match steps[0]
      case Throw(_) => []
      case Send(r) => [r] + Requests(steps[1..])
  }

  /** The first exception among the steps, if any. */
  function Raised(steps: seq<Step>): (f: Option<Failure>)
    ensures f.None? <==> forall k :: 0 <= k < |steps| ==> steps[k].Send?
    decreases |steps|
  {
    if |steps| == 0 then None
    else match steps[0]
      case Throw(f) => Some(f)
      case Send(_) =>
        assert forall k :: 1 <= k < |steps| ==> steps[1..][k - 1] == steps[k];
        Raised(steps[1..])
  }

  /** Every request sent is a request of the steps. */
  lemma {:induction false} RequestsSent(steps: seq<Step>, r: Request)
    ensures r in Requests(steps) ==> Send(r) in steps
    decreases |steps|
  {
    if |steps| > 0 && steps[0].Send? {
      RequestsSent(steps[1..], r);
      if r in Requests(steps[1..]) {
        assert Send(r) in steps[1..];
      }
    }
  }

  /** With no exception, the requests sent are exactly those of the steps. */
  lemma RequestsNoRaise(steps: seq<Step>, r: Request)
    ensures Raised(steps).None? ==> (r in Requests(steps) <==> Send(r) in steps)
  {
    if Raised(steps).None? {
      RequestsAll(steps);
      if Send(r) in steps {
        var k :| 0 <= k < |steps| && steps[k] == Send(r);
        assert Requests(steps)[k] == r;
      }
    }
  }

  /** Steps that only send are sent in full. */
  lemma RequestsSendAll(rs: seq<Request>)
    ensures Raised(SendAll(rs)).None? && Requests(SendAll(rs)) == rs
  {
    RequestsAll(SendAll(rs));
  }

  /** With no exception every step's request is sent, in order. */
  lemma {:induction false} RequestsAll(steps: seq<Step>)
    requires Raised(steps).None?
    ensures Requests(steps) == seq(|steps|, k requires 0 <= k < |steps| => steps[k].request)
    decreases |steps|
  {
    if |steps| > 0 {
      RequestsAll(steps[1..]);
    }
  }

  /** What handling an event comes to when the server answers `status`. */
  datatype Outcome = Outcome(sent: seq<Request>, raised: Option<Failure>)

  /** The steps in order, each request answered by `status`: a 422 answer
      raises and ends the handling like an exception. */
  function Deliver(steps: seq<Step>, status: Request -> int): (out: Outcome)
    ensures |out.sent| <= |steps|
    ensures forall k :: 0 <= k < |out.sent| ==> steps[k] == Send(out.sent[k])
    ensures forall k :: 0 <= k < |out.sent| - 1 ==> status(out.sent[k]) != 422
    ensures out.raised.None? ==> forall k :: 0 <= k < |out.sent| ==> status(out.sent[k]) != 422
    ensures out.raised.None? ==> |out.sent| == |steps|
    decreases |steps|
  {
    if |steps| == 0 then Outcome([], None)
    else match steps[0]
      case Throw(f) => Outcome([], Some(f))
      case Send(r) =>
        if status(r) != 200 && HandleClipResponse(status(r)).Some? then Outcome([r], HandleClipResponse(status(r)))
        else
          var rest := Deliver(steps[1..], status);
          assert forall k :: 1 <= k < 1 + |rest.sent| ==> ([r] + rest.sent)[k] == rest.sent[k - 1] && steps[k] == steps[1..][k - 1];
          Outcome([r] + rest.sent, rest.raised)
  }

  /** The requests sent are a prefix of the intended ones; the handling ends
      quietly exactly when no step throws and no answer is 422, and then
      every intended request was sent. */
  lemma {:induction false} DeliverSends(steps: seq<Step>, status: Request -> int)
    ensures var out := Deliver(steps, status);
      && |out.sent| <= |Requests(steps)| && out.sent == Requests(steps)[..|out.sent|]
      && (out.raised.None? <==> Raised(steps).None? && forall k :: 0 <= k < |Requests(steps)| ==> status(Requests(steps)[k]) != 422)
      && (out.raised.None? ==> out.sent == Requests(steps))
    decreases |steps|
  {
    if |steps| > 0 && steps[0].Send? {
      var r := steps[0].request;
      DeliverSends(steps[1..], status);
      var rs := Requests(steps[1..]);
      assert Requests(steps) == [r] + rs;
      if status(r) == 422 {
        assert Deliver(steps, status) == Outcome([r], Some(IOError("Clip API Error: 422")));
        assert Requests(steps)[..1] == [r];
        assert status(Requests(steps)[0]) == 422;
      } else {
        var rest := Deliver(steps[1..], status);
        assert Deliver(steps, status) == Outcome([r] + rest.sent, rest.raised);
        assert Raised(steps) == Raised(steps[1..]);
        var reqs := Requests(steps);
        assert forall k :: 1 <= k < |reqs| ==> reqs[k] == rs[k - 1];
        assert (forall k :: 0 <= k < |reqs| ==> status(reqs[k]) != 422)
          <==> (forall k :: 0 <= k < |rs| ==> status(rs[k]) != 422) by {
          if forall k :: 0 <= k < |rs| ==> status(rs[k]) != 422 {
            forall k | 0 <= k < |reqs|
              ensures status(reqs[k]) != 422
            {
              if k > 0 {
                assert reqs[k] == rs[k - 1];
              }
            }
          }
          if forall k :: 0 <= k < |reqs| ==> status(reqs[k]) != 422 {
            forall k | 0 <= k < |rs|
              ensures status(rs[k]) != 422
            {
              assert reqs[k + 1] == rs[k];
            }
          }
        }
      }
    }
  }
}
