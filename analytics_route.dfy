/**
 * `POST /api/analytics`: two guards against a fixed list of event names. The
 * success path that would store the event is commented out in the source, so
 * a valid event falls off the end of the `try` block and the handler returns
 * nothing.
 */
module AnalyticsRoute {
  import opened Opt
  import opened Http
  import LeadStore

  const VALID_EVENTS: seq<string> :=
    ["page_view", "cta_click", "intent_yes", "intent_no", "form_submit", "form_error"]

  /** The fields of the JSON body the route reads. */
  datatype AnalyticsBody = AnalyticsBody(event: JsonValue, source: JsonValue)

  /** A parse failure and the JSON `null` throw; anything else is read field by field. */
  datatype AnalyticsRequest = Unparsable | NullBody | ObjectBody(body: AnalyticsBody)

  const EVENT_REQUIRED := "Event is required"
  const INVALID_EVENT := "Invalid event name"

  /** The handler's return value; `None` is the implicit `undefined`. */
  function Post(req: AnalyticsRequest): (r: Option<Response>)
    ensures r.Some? ==> r.value.status == 400 || r.value == ErrorResponse(500, INTERNAL_ERROR)
    ensures r.Some? ==> r.value.status != 201
    ensures !req.ObjectBody? ==> r == Some(ErrorResponse(500, INTERNAL_ERROR))
  {
    match req
    case Unparsable => Some(ErrorResponse(500, INTERNAL_ERROR))
    case NullBody => Some(ErrorResponse(500, INTERNAL_ERROR))
    case ObjectBody(b) =>
      if !IsNonEmptyString(b.event) then Some(ErrorResponse(400, EVENT_REQUIRED))
      else if b.event.s !in VALID_EVENTS then Some(ErrorResponse(400, INVALID_EVENT))
      else None
  }

  /**
   * The answer to an object body, by cases: a missing, empty or non-string
   * event is "Event is required" (checked first, so it wins over the list); a
   * string off the list is "Invalid event name"; a listed one gives no
   * response at all. The `source` field never matters.
   */
  lemma PostCases(b: AnalyticsBody)
    ensures !IsNonEmptyString(b.event) ==> Post(ObjectBody(b)) == Some(ErrorResponse(400, EVENT_REQUIRED))
    ensures IsNonEmptyString(b.event) && b.event.s !in VALID_EVENTS ==>
              Post(ObjectBody(b)) == Some(ErrorResponse(400, INVALID_EVENT))
    ensures Post(ObjectBody(b)) == None <==> b.event.JStr? && b.event.s in VALID_EVENTS
    ensures forall src :: Post(ObjectBody(b.(source := src))) == Post(ObjectBody(b))
  {
  }

  /** The list holds exactly the names of the store's `AnalyticsEvent` type. */
  lemma ValidEventsAreStoreEvents(name: string)
    ensures name in VALID_EVENTS <==> exists e :: LeadStore.EventName(e) == name
  {
    if name in VALID_EVENTS {
      var i :| 0 <= i < |VALID_EVENTS| && VALID_EVENTS[i] == name;
      var events := [LeadStore.PageView, LeadStore.CtaClick, LeadStore.IntentYes,
                     LeadStore.IntentNo, LeadStore.FormSubmit, LeadStore.FormError];
      assert LeadStore.EventName(events[i]) == name;
    }
  }
}
