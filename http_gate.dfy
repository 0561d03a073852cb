/**
  The request gate in front of logEvent: only a POST whose body parses reaches
  it, and the alert's fields are turned into text the way JavaScript string
  concatenation does.
*/
module HttpGate {
  import opened Wrappers

  /** The parts of the EventNotificationAlert element that logEvent reads. */
  datatype Alert = Alert(macAddress: Option<string>, eventType: Option<string>)

  /** What parsing the request body as XML yields: an error, or a document that may lack the alert element. */
  datatype Body = Unparsable(reason: string) | Parsed(alert: Option<Alert>)

  /** The device id and event type handed on to the debounce state machine. */
  datatype EventKey = EventKey(macAddress: string, eventType: string)

  /** The status every response ends with: the handler never sets one, so the server's default applies. */
  const DefaultStatus: int := 200

  /** A field as it reads in a string concatenation: an absent field reads "undefined". */
  function Text(field: Option<string>): string
  {
    match field
    case Some(v) => v
    case None => "undefined"
  }

  /**
    The event a request delivers, if any. Non-POST requests are not read; a
    parse error is only logged; a document without the alert element makes
    logEvent fail on its first field access, before it changes anything.
  */
  function Route(verb: string, body: Body): (e: Option<EventKey>)
    ensures e.Some? <==> verb == "POST" && body.Parsed? && body.alert.Some?
    ensures e.Some? ==>
      e.value == EventKey(Text(body.alert.value.macAddress), Text(body.alert.value.eventType))
  {
    if verb != "POST" then None
    else match body
      case Unparsable(_) => None
      case Parsed(None) => None
      case Parsed(Some(a)) => Some(EventKey(Text(a.macAddress), Text(a.eventType)))
  }

  /** Missing required fields are not rejected: they become the text "undefined" in the state id. */
  lemma MissingFieldsAreNotRejected(eventType: string)
    ensures Route("POST", Parsed(Some(Alert(None, Some(eventType))))) == Some(EventKey("undefined", eventType))
    ensures Route("POST", Parsed(Some(Alert(None, None)))) == Some(EventKey("undefined", "undefined"))
  {
  }
}
