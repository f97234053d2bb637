/**
 The Redis subscriber loop on raw payloads: strip the identifier envelope, skip one's own
 messages and whatever does not parse, and hand the rest to the resident document.
 */
module RedisRouting {
  import opened Common
  import opened Wire

  /** What the subscriber hands to a document actor. */
  datatype Delivery = Delivery(document: Bytes, frame: Bytes)

  function Route(me: Bytes, resident: set<Bytes>, payload: Bytes): Option<Delivery> {
    match Unwrap(payload)
    case None => None
    case Some((sender, frame)) =>
      if sender == me then None
      else
        match ParseFrame(frame)
        case None => None
        case Some(f) =>
          var name := ParseRoutingKey(f.key).0;
          if name in resident then Some(Delivery(name, frame)) else None
  }

  function RouteAll(me: Bytes, resident: set<Bytes>, payloads: seq<Bytes>): seq<Delivery> {
    if payloads == [] then []
    else RouteAll(me, resident, payloads[..|payloads| - 1])
         + One(Route(me, resident, payloads[|payloads| - 1]))
  }

  function One(d: Option<Delivery>): seq<Delivery> {
    if d.Some? then [d.value] else []
  }

  method Subscribe(me: Bytes, resident: set<Bytes>, payloads: seq<Bytes>) returns (out: seq<Delivery>)
    ensures out == RouteAll(me, resident, payloads)
  {
    out := [];
    for k := 0 to |payloads|
      invariant out == RouteAll(me, resident, payloads[..k])
    {
      assert payloads[..k + 1][..k] == payloads[..k];
      var payload := payloads[k];
      if payload == [] {
        continue;
      }
      var idLen: nat := payload[0];
      if |payload| < 1 + idLen {
        continue;
      }
      if payload[1..1 + idLen] == me {
        continue;
      }
      var frame := payload[1 + idLen..];
      var parsed := Parse(frame);
      if parsed.None? {
        continue;
      }
      var name := ParseRoutingKey(parsed.value.key).0;
      if name in resident {
        out := out + [Delivery(name, frame)];
      }
    }
    assert payloads[..|payloads|] == payloads;
  }

  lemma RoutingOne(me: Bytes, resident: set<Bytes>, front: seq<Bytes>, p: Bytes)
    ensures RouteAll(me, resident, front + [p]) == RouteAll(me, resident, front) + One(Route(me, resident, p))
  {
    assert (front + [p])[..|front|] == front;
  }

  lemma {:induction false} RoutingConcat(me: Bytes, resident: set<Bytes>, a: seq<Bytes>, b: seq<Bytes>)
    ensures RouteAll(me, resident, a + b) == RouteAll(me, resident, a) + RouteAll(me, resident, b)
    decreases |b|
  {
    if b == [] {
      assert a + b == a;
    } else {
      var front, p := b[..|b| - 1], b[|b| - 1];
      RoutingConcat(me, resident, a, front);
      EndOfConcat(a, b);
      Associates(RouteAll(me, resident, a), RouteAll(me, resident, front), One(Route(me, resident, p)));
    }
  }

  /** Every payload is routed on its own, in the order of arrival, and none is lost or repeated. */
  lemma RoutingKeepsOrder(me: Bytes, resident: set<Bytes>, a: seq<Bytes>, p: Bytes, b: seq<Bytes>)
    ensures RouteAll(me, resident, []) == []
    ensures RouteAll(me, resident, a + [p] + b) ==
      RouteAll(me, resident, a) + One(Route(me, resident, p)) + RouteAll(me, resident, b)
  {
    RoutingConcat(me, resident, a + [p], b);
    RoutingOne(me, resident, a, p);
  }

  /** The payload is a parsable frame for the document, wrapped by `sender`. */
  predicate SentBy(sender: Bytes, payload: Bytes, d: Delivery) {
    && |sender| <= 255
    && payload == MessagePrefix(sender) + d.frame
    && ParseFrame(d.frame).Some?
    && ParseRoutingKey(ParseFrame(d.frame).value.key).0 == d.document
  }

  /** Any payload at all is routed exactly if another node could have published it for a resident. */
  lemma RoutedMeansPublished(me: Bytes, resident: set<Bytes>, payload: Bytes, d: Delivery)
    ensures Route(me, resident, payload) == Some(d) <==>
      d.document in resident && exists sender :: sender != me && SentBy(sender, payload, d)
  {
    if Route(me, resident, payload) == Some(d) {
      var sender := Unwrap(payload).value.0;
      assert payload == [payload[0]] + sender + d.frame;
      assert SentBy(sender, payload, d);
    }
    if d.document in resident {
      forall sender | sender != me && SentBy(sender, payload, d)
        ensures Route(me, resident, payload) == Some(d)
      {
        EnvelopeUnwraps(sender, d.frame);
      }
    }
  }

  /**
   A frame published for a document by any node: a subscriber routes it, unchanged and to that
   document, exactly if it came from another node and the document is resident.
   */
  lemma PublishedFramesAreRouted(me: Bytes, resident: set<Bytes>, sender: Bytes, name: Str,
                                 ty: MessageType, body: Bytes)
    requires |sender| <= 255 && 0 !in name
    ensures var frame := Envelope(name, ty, body);
      Route(me, resident, MessagePrefix(sender) + frame) ==
        if sender != me && name in resident then Some(Delivery(name, frame)) else None
  {
    var frame := Envelope(name, ty, body);
    EnvelopeUnwraps(sender, frame);
    EnvelopeRoundTrip(name, ty, body);
    SplittingRestoresTheParts(name, None);
  }
}
