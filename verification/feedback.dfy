/** The feedback endpoint (`POST` in app/api/smartcare/feedback/route.js):
    checks the three required fields, builds the record to store, and maps
    the store's outcome to the HTTP response. */
module FeedbackRoute {
  import opened Wrappers

  /** A JSON value as `request.json()` yields it; arrays and objects, which
      are always truthy, share one case. */
  datatype Json = JNull | JBool(b: bool) | JNumber(n: real) | JString(s: string) | JComposite

  /** JavaScript truthiness of a destructured field; `None` is `undefined`. */
  predicate Truthy(v: Option<Json>) {
    match v
    case None => false
    case Some(j) =>
      match j
      case JNull => false
      case JBool(b) => b
      case JNumber(n) => n != 0.0
      case JString(s) => s != ""
      case JComposite => true
  }

  /** `typeof accurate === 'boolean'`. */
  predicate IsBoolean(v: Option<Json>) {
    v.Some? && v.value.JBool?
  }

  /** The four fields the handler destructures from the body. */
  datatype RequestBody = RequestBody(
    babyId: Option<Json>,
    insightType: Option<Json>,
    accurate: Option<Json>,
    userId: Option<Json>)

  /** The document handed to `SmartCareFeedback.create`. */
  datatype FeedbackRecord = FeedbackRecord(
    babyId: Json,
    insightType: Json,
    accurate: bool,
    userId: Json,
    timestamp: int)

  datatype ResponseBody =
    | ErrorBody(error: string)
    | SuccessBody(status: string, message: string, feedbackId: string)

  datatype Response = Response(status: int, body: ResponseBody)

  /** What `create` did with a record: stored it under an id, or threw. */
  datatype StoreOutcome = Created(id: string) | StoreFailed

  const MissingFields := Response(400, ErrorBody("Missing required fields"))
  const RecordFailed := Response(500, ErrorBody("Failed to record feedback"))
  const Anonymous := JString("anonymous")

  predicate Accepted(body: RequestBody) {
    Truthy(body.babyId) && Truthy(body.insightType) && IsBoolean(body.accurate)
  }

  /** The required-field check and the record built from an accepted body;
      `now` is the time the record is stamped with. */
  function Validate(body: RequestBody, now: int): (r: Result<FeedbackRecord, Response>)
    ensures r.Failure? <==> !Accepted(body)
    ensures r.Failure? ==> r.error == MissingFields
    ensures r.Success? ==>
      && body.babyId == Some(r.value.babyId)
      && body.insightType == Some(r.value.insightType)
      && body.accurate == Some(JBool(r.value.accurate))
      && r.value.timestamp == now
      && Truthy(Some(r.value.userId))
      && (Truthy(body.userId) ==> body.userId == Some(r.value.userId))
      && (!Truthy(body.userId) ==> r.value.userId == Anonymous)
  {
    if !Truthy(body.babyId) || !Truthy(body.insightType) || !IsBoolean(body.accurate) then
      Failure(MissingFields)
    else
      var userId := if Truthy(body.userId) then body.userId.value else Anonymous;
      Success(FeedbackRecord(body.babyId.value, body.insightType.value, body.accurate.value.b, userId, now))
  }

  /** The handler. `body` is `None` when the request is not valid JSON or is
      the JSON `null`, whose destructuring throws a `TypeError`; both end in
      the catch block's 500. `store` says what `create` does with a record. */
  function PostFeedback(body: Option<RequestBody>, now: int, store: FeedbackRecord -> StoreOutcome): (r: Response)
    ensures body.None? ==> r == RecordFailed
    ensures body.Some? && !Accepted(body.value) ==> r == MissingFields
    ensures body.Some? && Accepted(body.value) ==>
      var rec := Validate(body.value, now).value;
      match store(rec)
      case Created(id) => r == Response(200, SuccessBody("success", "Feedback recorded successfully", id))
      case StoreFailed => r == RecordFailed
  {
    if body.None? then RecordFailed
    else
      match Validate(body.value, now)
      case Failure(response) => response
      case Success(rec) =>
        match store(rec)
        case Created(id) => Response(200, SuccessBody("success", "Feedback recorded successfully", id))
        case StoreFailed => RecordFailed
  }

  /** The storage schema's enum of insight types. */
  predicate SchemaInsightType(v: Json) {
    v == JString("feeding") || v == JString("sleep") || v == JString("growth")
  }

  /** Only a boolean `accurate` passes: "yes", 1 and null are refused, and
      `false` is accepted because the check is on the type. */
  lemma AccurateMustBeBoolean(babyId: Json, insightType: Json, now: int)
    requires Truthy(Some(babyId)) && Truthy(Some(insightType))
    ensures Validate(RequestBody(Some(babyId), Some(insightType), Some(JString("yes")), None), now) == Failure(MissingFields)
    ensures Validate(RequestBody(Some(babyId), Some(insightType), Some(JNumber(1.0)), None), now) == Failure(MissingFields)
    ensures Validate(RequestBody(Some(babyId), Some(insightType), Some(JNull), None), now) == Failure(MissingFields)
    ensures Validate(RequestBody(Some(babyId), Some(insightType), None, None), now) == Failure(MissingFields)
    ensures Validate(RequestBody(Some(babyId), Some(insightType), Some(JBool(false)), None), now)
            == Success(FeedbackRecord(babyId, insightType, false, Anonymous, now))
  {
  }

  /** The handler does not check the insight type against the schema's enum:
      an unknown type reaches the store, and a store failure becomes a 500. */
  lemma UnknownInsightTypeReachesStore(now: int, store: FeedbackRecord -> StoreOutcome)
    ensures var body := RequestBody(Some(JString("b1")), Some(JString("diaper")), Some(JBool(true)), None);
      && Validate(body, now).Success?
      && !SchemaInsightType(Validate(body, now).value.insightType)
      && (store(Validate(body, now).value) == StoreFailed ==> PostFeedback(Some(body), now, store) == RecordFailed)
  {
  }
}
