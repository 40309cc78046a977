/** Bitstreams, bundles and items as the IIIF services read them, the
    endpoint constants the services share, and the external links they
    emit. */
module Content {
  import opened Wrappers

  /** What asking a bitstream for its format gives: a MIME type (which may
      be `null`), or a database error. */
  datatype FormatLookup = Mime(mime: Option<string>) | LookupError

  datatype Bitstream = Bitstream(id: string, name: string, format: FormatLookup)

  datatype Bundle = Bundle(name: string, bitstreams: seq<Bitstream>)

  datatype Item = Item(id: string, bundles: seq<Bundle>)

  /** The base URLs every resource service is configured with: the IIIF
      endpoint and the prefix of bitstream download URLs. */
  datatype Endpoints = Endpoints(iiifEndpoint: string, bitstreamPathPrefix: string)

  /** An external link (`ExternalLinksGenerator`): an id, and the optional
      label, format, type and profile. */
  datatype Link = Link(id: string, labelValue: Option<string>, format: Option<string>, linkType: Option<string>, profile: Option<string>)

  /** The download URL of a bitstream. */
  function ContentId(e: Endpoints, b: Bitstream): string {
    e.bitstreamPathPrefix + "/" + b.id + "/content"
  }

  /** The MIME type a lookup yields when the services swallow the database
      error: `null` in both failure cases. */
  function MimeOrNull(f: FormatLookup): Option<string> {
    match f
    case Mime(m) => m
    case LookupError => None
  }

  /** `bundle.getName().equals(name)` for a configured name that may be
      `null`: a `null` name matches no bundle. */
  predicate Named(b: Bundle, name: Option<string>) {
    name.Some? && b.name == name.value
  }

  /** The index of the first bundle with the configured name. */
  function FirstNamed(bundles: seq<Bundle>, name: Option<string>): (r: Option<nat>)
    ensures r.Some? ==> r.value < |bundles| && Named(bundles[r.value], name)
    ensures r.Some? ==> forall k :: 0 <= k < r.value ==> !Named(bundles[k], name)
    ensures r.None? <==> forall k :: 0 <= k < |bundles| ==> !Named(bundles[k], name)
    decreases |bundles|
  {
    if |bundles| == 0 then None
    else if Named(bundles[0], name) then Some(0)
    else
      match FirstNamed(bundles[1..], name)
      case None => None
      case Some(i) => Some(i + 1)
  }

  /** The bitstreams of every bundle with the configured name, bundle by
      bundle and in bundle order. */
  function NamedBitstreams(bundles: seq<Bundle>, name: Option<string>): (bs: seq<Bitstream>)
    decreases |bundles|
  {
    if |bundles| == 0 then []
    else
      var last := bundles[|bundles| - 1];
      NamedBitstreams(bundles[..|bundles| - 1], name) + (if Named(last, name) then last.bitstreams else [])
  }

  /** A bitstream is collected exactly when it sits in a bundle with the
      configured name. */
  lemma {:induction false} NamedBitstreamsMembers(bundles: seq<Bundle>, name: Option<string>, b: Bitstream)
    ensures b in NamedBitstreams(bundles, name) <==>
      exists i :: 0 <= i < |bundles| && Named(bundles[i], name) && b in bundles[i].bitstreams
    decreases |bundles|
  {
    if |bundles| > 0 {
      var init := bundles[..|bundles| - 1];
      NamedBitstreamsMembers(init, name, b);
      if exists i :: 0 <= i < |init| && Named(init[i], name) && b in init[i].bitstreams {
        var i :| 0 <= i < |init| && Named(init[i], name) && b in init[i].bitstreams;
        assert bundles[i] == init[i];
      }
      if exists i :: 0 <= i < |bundles| && Named(bundles[i], name) && b in bundles[i].bitstreams {
        var i :| 0 <= i < |bundles| && Named(bundles[i], name) && b in bundles[i].bitstreams;
        if i < |init| {
          assert init[i] == bundles[i];
        }
      }
    }
  }

  /** The collected bitstreams of a bundle list are those of its first part
      followed by those of the rest. */
  lemma {:induction false} NamedBitstreamsAppend(a: seq<Bundle>, b: seq<Bundle>, name: Option<string>)
    ensures NamedBitstreams(a + b, name) == NamedBitstreams(a, name) + NamedBitstreams(b, name)
    decreases |b|
  {
    if |b| > 0 {
      var bi := b[..|b| - 1];
      assert (a + b)[..|a + b| - 1] == a + bi;
      NamedBitstreamsAppend(a, bi, name);
    } else {
      assert a + b == a;
    }
  }
}
