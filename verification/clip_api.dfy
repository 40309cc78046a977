/** The CLIP consumer of the API module
    (`ca.umontreal.bib.calypso.clip.ClipConsumer` in `dspace-api`).

    Only events about a bitstream are handled. The kinds of change
    MODIFY, MODIFY_METADATA, ADD, DELETE and REMOVE are accepted whatever
    the subject type and map to the actions update, index and delete, which
    become a PUT, a POST or a DELETE at `"/" + id`. Reading the bitstream's
    first bundle, that bundle's first item and the item's owning collection
    can throw; sending never does, since `consumerClip` catches every
    failure and only logs the answer. */
module ClipApi {
  import opened Wrappers
  import opened JavaStrings
  import opened Content
  import opened ClipEvents
  import ClipAdditions

  /** `isValidEventType`: the subject type is not consulted, and only
      creations and installations are refused. */
  function IsValidEventType(t: EventType, s: SubjectType): (ok: bool)
    ensures ok <==> t != Create && t != Install
  {
    t == Modify || t == ModifyMetadata || t == Add || t == Delete || t == Remove
  }

  /** The actions `"update"`, `"index"` and `"delete"`. */
  datatype Action = Update | Index | Unindex

  /** The `switch` on the kind of change; its default branch is the `None`. */
  function ActionOf(t: EventType): (a: Option<Action>)
    ensures a.Some? <==> IsValidEventType(t, OtherType)
    ensures a == Some(Update) <==> t == Modify || t == ModifyMetadata
    ensures a == Some(Index) <==> t == Add
    ensures a == Some(Unindex) <==> t == Delete || t == Remove
  {
    match t
    case Modify => Some(Update)
    case ModifyMetadata => Some(Update)
    case Add => Some(Index)
    case Delete => Some(Unindex)
    case Remove => Some(Unindex)
    case _ => None
  }

  /** The method each action's helper passes to `consumerClip`. */
  function MethodOf(a: Action): (m: string)
    ensures m == "PUT" <==> a == Update
    ensures m == "POST" <==> a == Index
    ensures m == "DELETE" <==> a == Unindex
  {
    match a
    case Update => "PUT"
    case Index => "POST"
    case Unindex => "DELETE"
  }

  /** Each action has its own method, and a method names its action back. */
  lemma MethodOfInjective(a: Action, b: Action)
    ensures MethodOf(a) == MethodOf(b) <==> a == b
    ensures MethodOf(a) == "PUT" || MethodOf(a) == "POST" || MethodOf(a) == "DELETE"
  {
  }

  /** `Character.toUpperCase` on the ASCII letters. */
  function UpperChar(c: char): char {
    if 'a' <= c <= 'z' then (c as int - 32) as char else c
  }

  /** `String.toUpperCase` on ASCII text. */
  function ToUpper(s: string): (u: string)
    ensures |u| == |s|
    ensures forall k :: 0 <= k < |s| ==> u[k] == UpperChar(s[k])
  {
    seq(|s|, k requires 0 <= k < |s| => UpperChar(s[k]))
  }

  /** `buildBitstreamUrl`: the configured server URL (`null` when unset, as
      string concatenation renders it), the bitstream path and the id. */
  function BitstreamUrl(baseUrl: Option<string>, id: string): (u: string)
    ensures var p := Show(baseUrl) + "/api/core/bitstream/";
      && |u| == |p| + |id| + 8
      && u[..|p|] == p && u[|p|..|u| - 8] == id && u[|u| - 8..] == "/content"
  {
    Show(baseUrl) + "/api/core/bitstream/" + id + "/content"
  }

  /** The API URL of a bitstream is its download URL under the prefix
      `dspace.server.url + "/api/core/bitstream"`, and it determines the
      bitstream's id. */
  lemma BitstreamUrlIsContentId(baseUrl: Option<string>, b: Bitstream, c: Bitstream, iiifEndpoint: string)
    ensures BitstreamUrl(baseUrl, b.id) == ContentId(Endpoints(iiifEndpoint, Show(baseUrl) + "/api/core/bitstream"), b)
    ensures BitstreamUrl(baseUrl, b.id) == BitstreamUrl(baseUrl, c.id) ==> b.id == c.id
  {
    var p := Show(baseUrl) + "/api/core/bitstream/";
    assert BitstreamUrl(baseUrl, b.id) == p + b.id + "/content";
    assert BitstreamUrl(baseUrl, c.id) == p + c.id + "/content";
    if BitstreamUrl(baseUrl, b.id) == BitstreamUrl(baseUrl, c.id) {
      var u := BitstreamUrl(baseUrl, b.id);
      assert b.id == u[|p|..|u| - 8];
      assert c.id == u[|p|..|u| - 8];
    }
  }

  /** `consumerClip`: the method is matched upper-cased, an unsupported one
      is refused and the refusal caught, and the body is attached only when
      the method as given is exactly `"POST"` or `"PUT"`. */
  function ConsumerClip(server: string, body: Body, endpoint: string, httpMethod: string): (r: Option<Request>)
    ensures r.Some? <==> ToUpper(httpMethod) in {"POST", "PUT", "DELETE"}
    ensures r.Some? ==> r.value.httpMethod == ToUpper(httpMethod) && r.value.url == server + endpoint
    ensures r.Some? ==> (r.value.body.Some? <==> httpMethod == "POST" || httpMethod == "PUT")
    ensures r.Some? && r.value.body.Some? ==> r.value.body.value == body
  {
    var verb := ToUpper(httpMethod);
    if verb != "POST" && verb != "PUT" && verb != "DELETE" then None
    else Some(Request(verb, server + endpoint, if httpMethod == "POST" || httpMethod == "PUT" then Some(body) else None))
  }

  /** For the methods the consumer passes, the request keeps the method and
      carries a body exactly for POST and PUT; a lower-case `"post"` would
      be sent as a POST without its body. */
  lemma ConsumerClipMethods(server: string, body: Body, endpoint: string, a: Action)
    ensures var r := ConsumerClip(server, body, endpoint, MethodOf(a));
      && r.Some? && r.value.httpMethod == MethodOf(a)
      && (r.value.body == Some(body) <==> a != Unindex)
      && (r.value.body.None? <==> a == Unindex)
    ensures ConsumerClip(server, body, endpoint, "post") == Some(Request("POST", server + endpoint, None))
  {
    assert ToUpper(MethodOf(a)) == MethodOf(a);
    assert ToUpper("post") == "POST";
  }

  /** What the server's answer comes to: nothing was sent, a success, a
      logged warning, or a logged I/O error. */
  datatype Report = NotSent | Succeeded | Warned | ErrorLogged

  /** The answer handling of `consumerClip`; `answer` is the status code,
      or `None` when the exchange failed with an I/O error. */
  function Respond(r: Option<Request>, answer: Option<int>): (rep: Report)
    ensures rep == NotSent <==> r.None?
    ensures rep == Succeeded <==> r.Some? && answer.Some? && 200 <= answer.value < 300
    ensures rep == ErrorLogged <==> r.Some? && answer.None?
  {
    if r.None? then NotSent
    else match answer
      case None => ErrorLogged
      case Some(status) => if 200 <= status && status < 300 then Succeeded else Warned
  }

  /** The checked exception `processModifiedBitstream` throws, which
      `consume` wraps and throws again. */
  const ProcessingError: Failure := CheckedException("Error processing modified bitstream")

  /** `processModifiedBitstream` with its helpers: the first bundle's name,
      the collection of its first item, then the URL, then the request of
      the action. */
  function ProcessModifiedBitstream(server: string, baseUrl: Option<string>, bits: BitstreamRecord, a: Action): (res: Result<Option<Request>>)
    requires |bits.owners| > 0
    ensures res.Fail? <==> !Reachable(bits)
    ensures res.Fail? ==> res.failure == ProcessingError
    ensures res.Ok? ==>
      && res.value.Some?
      && res.value.value.httpMethod == MethodOf(a)
      && res.value.value.url == server + "/" + bits.bitstream.id
      && (res.value.value.body.None? <==> a == Unindex)
  {
    var owner := bits.owners[0];
    if |owner.items| == 0 || owner.items[0].owningCollection.None? then Fail(ProcessingError)
    else
      var id := bits.bitstream.id;
      var image := ApiImage(id, bits.internalId, bits.bitstream.name, owner.bundleName, owner.items[0].owningCollection.value, BitstreamUrl(baseUrl, id));
      match a
      case Update => Ok(ConsumerClip(server, image, "/" + id, "PUT"))
      case Index => Ok(ConsumerClip(server, image, "/" + id, "POST"))
      case Unindex => Ok(ConsumerClip(server, IdText(id), "/" + id, "DELETE"))
  }

  /** `consume`. The name of the bitstream's first bundle is logged before
      the event type is checked, so a bitstream outside every bundle throws
      whatever the event. */
  function Consume(server: string, baseUrl: Option<string>, e: Event): (res: Result<Option<Request>>)
    ensures !e.subject.BitstreamObj? ==> res == Ok(None)
    ensures e.subject.BitstreamObj? && |e.subject.bits.owners| > 0 && !IsValidEventType(e.eventType, e.subjectType) ==> res == Ok(None)
  {
    if !e.subject.BitstreamObj? then Ok(None)
    else
      var bits := e.subject.bits;
      if |bits.owners| == 0 then Fail(IndexOutOfBounds)
      else if !IsValidEventType(e.eventType, e.subjectType) then Ok(None)
      else
        match ActionOf(e.eventType)
        case None => Ok(None)
        case Some(a) => ProcessModifiedBitstream(server, baseUrl, bits, a)
  }

  /** A bitstream whose first bundle's first item has an owning collection:
      what the handling reads before it builds a request. */
  predicate Reachable(bits: BitstreamRecord) {
    |bits.owners| > 0 && |bits.owners[0].items| > 0 && bits.owners[0].items[0].owningCollection.Some?
  }

  /** The handling throws exactly when the bitstream has no bundle, or when
      an accepted event meets a bitstream whose item or collection is
      missing; sending never throws. */
  lemma ConsumeFails(server: string, baseUrl: Option<string>, e: Event)
    ensures Consume(server, baseUrl, e).Fail? <==>
      e.subject.BitstreamObj? && (|e.subject.bits.owners| == 0 || (IsValidEventType(e.eventType, e.subjectType) && !Reachable(e.subject.bits)))
  {
  }

  /** An accepted event on a reachable bitstream gives exactly one request:
      the action's method at `"/" + id`, with the `Image` record (whose URL
      is the bitstream's API URL) for POST and PUT and no body for DELETE. */
  lemma ConsumeRequest(server: string, baseUrl: Option<string>, e: Event)
    requires e.subject.BitstreamObj? && Reachable(e.subject.bits) && IsValidEventType(e.eventType, e.subjectType)
    ensures var bits := e.subject.bits;
      var res := Consume(server, baseUrl, e);
      && res.Ok? && res.value.Some?
      && res.value.value.httpMethod == MethodOf(ActionOf(e.eventType).value)
      && res.value.value.url == server + "/" + bits.bitstream.id
      && (res.value.value.body.Some? <==> e.eventType != Delete && e.eventType != Remove)
      && (res.value.value.body.Some? ==>
        && res.value.value.body.value.ApiImage?
        && res.value.value.body.value.itemId == bits.bitstream.id
        && res.value.value.body.value.url == BitstreamUrl(baseUrl, bits.bitstream.id)
        && res.value.value.body.value.collectionId == bits.owners[0].items[0].owningCollection.value)
  {
    var bits := e.subject.bits;
    var a := ActionOf(e.eventType).value;
    var image := ApiImage(bits.bitstream.id, bits.internalId, bits.bitstream.name, bits.owners[0].bundleName, bits.owners[0].items[0].owningCollection.value, BitstreamUrl(baseUrl, bits.bitstream.id));
    ConsumerClipMethods(server, if a == Unindex then IdText(bits.bitstream.id) else image, "/" + bits.bitstream.id, a);
    assert server + ("/" + bits.bitstream.id) == server + "/" + bits.bitstream.id;
  }

  /** Both consumers remove a deleted bitstream with the same request. */
  lemma SameDeleteRequest(server: string, baseUrl: Option<string>, e: Event)
    requires e.subjectType == BitstreamType && e.eventType == Delete
    requires e.subject.BitstreamObj? && Reachable(e.subject.bits)
    ensures Consume(server, baseUrl, e).Ok? && Consume(server, baseUrl, e).value.Some?
    ensures ClipAdditions.Consume(server, e) == [ClipAdditions.Send(Consume(server, baseUrl, e).value.value)]
  {
    ConsumeRequest(server, baseUrl, e);
    ClipAdditions.DeleteRequest(server, e);
  }
}
