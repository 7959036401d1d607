/** Which payloads each parse mode accepts, and what each of them means, over every text. */
module PayloadGrammar {
  import opened Contracts
  import opened ActionRender
  import opened ActionParse
  import opened ParseModes
  import opened DualGrammar
  import opened XmlGrammar

  /** Read in a format, the payload means the envelope. */
  ghost predicate Says(s: string, format: Format, e: Envelope, maxCalls: int) {
    if format == JsonFormat then JsonGrammatical(s, e, maxCalls) else Describes(s, e, maxCalls)
  }

  /** In a format, a payload means at most one envelope. */
  lemma AtMostOne(s: string, format: Format, maxCalls: int)
    ensures forall e, f :: Says(s, format, e, maxCalls) && Says(s, format, f, maxCalls) ==> e == f
  {
    hide *;
    forall e ensures Says(s, format, e, maxCalls) <==> Reads(s, format, maxCalls) == Ok(e) {
      SaysExact(s, format, maxCalls, e);
    }
  }

  function Reads(s: string, format: Format, maxCalls: int): Parsed {
    if format == JsonFormat then ParseJsonDual(s, maxCalls) else ParseXml(s, maxCalls)
  }

  lemma SaysExact(s: string, format: Format, maxCalls: int, e: Envelope)
    ensures Reads(s, format, maxCalls) == Ok(e) <==> Says(s, format, e, maxCalls)
  {
    hide ParseJsonDual, ParseXml, JsonGrammatical, Describes;
    JsonExactly(s, maxCalls, e);
    XmlExactly(s, maxCalls, e);
  }

  lemma NothingSaid(s: string, format: Format, maxCalls: int)
    ensures Reads(s, format, maxCalls).Err? <==> forall e :: !Says(s, format, e, maxCalls)
  {
    hide Reads, Says;
    forall e ensures Reads(s, format, maxCalls) == Ok(e) <==> Says(s, format, e, maxCalls) {
      SaysExact(s, format, maxCalls, e);
    }
    if Reads(s, format, maxCalls).Ok? {
      assert Says(s, format, Reads(s, format, maxCalls).envelope, maxCalls);
    }
  }

  /** Over every payload, limit and mode: a single-format mode returns exactly the envelope the payload means in its
      format, and the dual mode the one it means in either, preferring XML when it means one in both only if an XML
      tool-call opener stands ahead of every JSON one. */
  lemma ModesExactly(s: string, mode: Mode, maxCalls: int, e: Envelope, format: Format)
    ensures ParsePayload(s, mode, maxCalls) == Action(e, format) <==>
      match mode
      case JsonOnly => format == JsonFormat && Says(s, JsonFormat, e, maxCalls)
      case XmlOnly => format == XmlFormat && Says(s, XmlFormat, e, maxCalls)
      case Dual =>
        && Says(s, format, e, maxCalls)
        && var other := if format == JsonFormat then XmlFormat else JsonFormat;
        (forall f :: !Says(s, other, f, maxCalls)) || (XmlAhead(s) <==> format == XmlFormat)
  {
    hide ParsePayload, ParseJsonDual, ParseXml, Says, XmlAhead;
    SaysExact(s, JsonFormat, maxCalls, e);
    SaysExact(s, XmlFormat, maxCalls, e);
    NothingSaid(s, JsonFormat, maxCalls);
    NothingSaid(s, XmlFormat, maxCalls);
    match mode
    case JsonOnly => OneFormat(s, maxCalls, e, format);
    case XmlOnly => OneFormat(s, maxCalls, e, format);
    case Dual => DualFormat(s, maxCalls, e, format);
  }
}
