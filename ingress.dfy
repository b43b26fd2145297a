/**
 * The ingress parser and handler table that main.js injects in `wireIngress`.
 *
 * A raw payload is an envelope with two known places that may carry a feed
 * type code (`raw.msg.feedType` and `raw.json.message.feedType`), an optional
 * top-level `feedType`, and other fields that this core never looks at.
 * Feed type codes are numbers; JavaScript truthiness makes a missing code and
 * the code 0 alike.
 */
module Ingress {
  import opened Wrappers

  /** An object found at `raw.msg` or `raw.json.message`. */
  datatype Probe = Probe(feedType: Option<int>, fields: map<string, string>)

  /** The object found at `raw.json`. */
  datatype JsonBody = JsonBody(message: Option<Probe>, fields: map<string, string>)

  /** A raw inbound payload; `fields` holds every other top-level field, opaque here. */
  datatype Envelope = Envelope(
    msg: Option<Probe>,
    json: Option<JsonBody>,
    feedType: Option<int>,
    fields: map<string, string>)

  /** The two kinds the parser returns: `"message"` and `"feed"`. */
  datatype Kind = MessageKind | FeedKind

  /** The parser's result `{kind, data}`. */
  datatype Parsed = Parsed(kind: Kind, data: Envelope)

  /** JavaScript truthiness of a feed type code: present and not 0. */
  predicate Truthy(code: Option<int>)
  {
    code.Some? && code.value != 0
  }

  /** `raw?.msg?.feedType` */
  function MsgFeedType(raw: Envelope): Option<int>
  {
    if raw.msg.Some? then raw.msg.value.feedType else None
  }

  /** `raw?.json?.message?.feedType` */
  function JsonFeedType(raw: Envelope): Option<int>
  {
    if raw.json.Some? && raw.json.value.message.Some? then raw.json.value.message.value.feedType
    else None
  }

  /** The places the parser probes for a feed type, first place first. */
  function FeedTypeLocations(raw: Envelope): seq<Option<int>>
  {
    [MsgFeedType(raw), JsonFeedType(raw)]
  }

  /**
   * Reference definition of the probing order: the first truthy code among
   * `codes`, if any.
   */
  function FirstTruthy(codes: seq<Option<int>>): (r: Option<int>)
    ensures r.Some? <==> exists i :: 0 <= i < |codes| && Truthy(codes[i])
    ensures r.Some? ==> Truthy(r) && exists i :: 0 <= i < |codes| && codes[i] == r && forall j :: 0 <= j < i ==> !Truthy(codes[j])
  {
    if codes == [] then None
    else if Truthy(codes[0]) then codes[0]
    else
      var r := FirstTruthy(codes[1..]);
      assert forall i :: 1 <= i < |codes| ==> codes[i] == codes[1..][i - 1];
      r
  }

  /**
   * The parser lambda: a payload with a truthy feed type at either known
   * place is a feed carrying that code at top level; any other payload is a
   * message, passed on unchanged.
   */
  function Parse(raw: Envelope): (p: Parsed)
    ensures p.kind == FeedKind <==> Truthy(MsgFeedType(raw)) || Truthy(JsonFeedType(raw))
    ensures p.kind == MessageKind ==> p.data == raw
    ensures p.kind == FeedKind ==> Truthy(p.data.feedType) && p.data == raw.(feedType := p.data.feedType)
    ensures Truthy(MsgFeedType(raw)) ==> p.data.feedType == MsgFeedType(raw)
    ensures !Truthy(MsgFeedType(raw)) && Truthy(JsonFeedType(raw)) ==> p.data.feedType == JsonFeedType(raw)
  {
    var ft :=
      if Truthy(MsgFeedType(raw)) then MsgFeedType(raw)
      else if Truthy(JsonFeedType(raw)) then JsonFeedType(raw)
      else None;
    if Truthy(ft) then Parsed(FeedKind, raw.(feedType := ft))
    else Parsed(MessageKind, raw)
  }

  /** The parser agrees with the reference probing order over its two places. */
  lemma ParseIsFirstTruthy(raw: Envelope)
    ensures Parse(raw) ==
      match FirstTruthy(FeedTypeLocations(raw))
      case Some(code) => Parsed(FeedKind, raw.(feedType := Some(code)))
      case None => Parsed(MessageKind, raw)
  {
    var codes := FeedTypeLocations(raw);
    assert codes[1..] == [JsonFeedType(raw)];
    assert codes[1..][1..] == [];
  }

  /** Parsing the data of a parsed payload again gives the same result. */
  lemma ParseStable(raw: Envelope)
    ensures Parse(Parse(raw).data) == Parse(raw)
  {
  }

  /** The handlers of the handler table. */
  datatype Handler = OnMessage | OnNewMember | OnLeaveMember | OnKickMember | OnFeed

  /** The router call a handler makes: `router.routeMessage` or `router.routeFeed`, with its argument. */
  datatype Route = RouteMessage(payload: Envelope) | RouteFeed(payload: Envelope)

  const NEW_MEMBER_FEED_TYPE := 4
  const LEAVE_MEMBER_FEED_TYPE := 2
  const KICK_MEMBER_FEED_TYPE := 6

  /** The fixed feed type code a membership handler writes, if `h` is one. */
  function FixedFeedType(h: Handler): Option<int>
  {
    match h
    case OnNewMember => Some(NEW_MEMBER_FEED_TYPE)
    case OnLeaveMember => Some(LEAVE_MEMBER_FEED_TYPE)
    case OnKickMember => Some(KICK_MEMBER_FEED_TYPE)
    case _ => None
  }

  /**
   * The handler table: what handler `h` forwards to the router for argument
   * `x`. A membership handler forwards a copy whose feed type is its fixed
   * code; `onFeed` and `onMessage` forward their argument as it is.
   */
  function Forward(h: Handler, x: Envelope): (r: Route)
    ensures r.RouteMessage? <==> h == OnMessage
    ensures r.payload == x.(feedType := r.payload.feedType)
    ensures FixedFeedType(h).Some? ==> r.payload.feedType == FixedFeedType(h)
    ensures FixedFeedType(h).None? ==> r.payload == x
  {
    match h
    case OnMessage => RouteMessage(x)
    case OnNewMember => RouteFeed(x.(feedType := Some(NEW_MEMBER_FEED_TYPE)))
    case OnLeaveMember => RouteFeed(x.(feedType := Some(LEAVE_MEMBER_FEED_TYPE)))
    case OnKickMember => RouteFeed(x.(feedType := Some(KICK_MEMBER_FEED_TYPE)))
    case OnFeed => RouteFeed(x)
  }

  /**
   * A membership handler's override is unconditional: two arguments that
   * differ at most in their feed type are forwarded alike.
   */
  lemma MemberOverrideIgnoresIncoming(h: Handler, x: Envelope, y: Envelope)
    requires FixedFeedType(h).Some?
    requires x.(feedType := None) == y.(feedType := None)
    ensures Forward(h, x) == Forward(h, y)
  {
  }

  /**
   * A membership handler wins over the classifier: whatever feed type the
   * parser attached, the forwarded copy carries the handler's fixed code.
   */
  lemma MemberOverridesClassifier(h: Handler, raw: Envelope)
    requires FixedFeedType(h).Some?
    ensures Forward(h, Parse(raw).data) == Forward(h, raw)
  {
  }

  /** Handing a handler's output to the same handler again changes nothing. */
  lemma ForwardIdempotent(h: Handler, x: Envelope)
    ensures Forward(h, Forward(h, x).payload) == Forward(h, x)
  {
  }
}
