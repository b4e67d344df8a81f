/** The three HTTP helpers and the four `core_*` calls of utilities.py. A
    request is an abstract exchange: it raised, or a response came back with
    a status and a body. The helpers keep a response only on their one
    accepted status; the `core_*` calls wrap it in a `{success, data}`
    envelope, and on every other path end in their `except` and give None. */
module Upstream {
  import opened Common
  import opened ReportTable
  import Timestamps

  datatype Verb = Get | Post | Patch

  /** A response body as `res.json().get("data")` sees it. */
  datatype Body<D> =
    | NotAnObject              // `.json()` raises, or the JSON is not an object
    | Object(data: Option<D>)  // an object; `data` is None when "data" is missing or null

  /** What `rq.request` did. */
  datatype Exchange<D> = Raised | Responded(status: int, body: Body<D>)

  /** The dictionary a `core_*` call returns when it returns one. */
  datatype Envelope<D> = Envelope(success: bool, data: Option<D>)

  /** `make_get_request`, `make_post_request`, `make_patch_request`: the
      response when its status is the one the helper accepts, else None. */
  function Accept<D>(verb: Verb, x: Exchange<D>): Option<Body<D>>
  {
    match x
    case Raised => None
    case Responded(status, body) =>
      match verb
      case Get => if status == 200 then Some(body) else None
      case Post => if status == 201 then Some(body) else None
      case Patch => if status == 200 then Some(body) else None
  }

  /** The shared shape of the `core_*` calls once their request is made. The
      branch meant to build `{"success": False, ...}` calls `.json()` on None,
      so it raises too and the `except` returns None. */
  function Core<D>(verb: Verb, x: Exchange<D>): Option<Envelope<D>>
  {
    match Accept(verb, x)
    case Some(Object(d)) => Some(Envelope(true, d))
    case _ => None
  }

  /** `dict.get(k)`: None (`JNull`) when the key is missing. */
  function Lookup(m: map<string, Json>, k: string): Json
  {
    if k in m then m[k] else JNull
  }

  /** The `data` of a login response: an object whose "jwt" entry is `jwt`
      (`JNull` when missing), or some other JSON value. */
  datatype Session = SessionObject(jwt: Json) | NotADict

  /** `core_login`: POST to the sign-in route. */
  function CoreLogin(x: Exchange<Session>): Option<Envelope<Session>>
  {
    Core(Post, x)
  }

  /** `core_list_report_not_delivered`: GET the undelivered reports. */
  function CoreListReports(x: Exchange<seq<map<string, Json>>>): Option<Envelope<seq<map<string, Json>>>>
  {
    Core(Get, x)
  }

  /** The JSON body `core_get_activity_data` posts. */
  datatype Payload = Payload(activityId: Json, startDate: string, endDate: string)

  /** One date argument: `convert_iso_to_yyyy_mm_dd(report.get(key))`, which
      raises unless the entry is a string the converter accepts. */
  function DateArgument(v: Json): Option<string>
  {
    match v
    case JStr(s) => Timestamps.ToDate(s)
    case _ => None
  }

  /** The payload of `core_get_activity_data`, built before the request; None
      when a date conversion raises, in which case no request is made. */
  function ActivityPayload(report: map<string, Json>): Option<Payload>
  {
    var start :- DateArgument(Lookup(report, "startDate"));
    var end :- DateArgument(Lookup(report, "endDate"));
    Some(Payload(Lookup(report, "activityId"), start, end))
  }

  /** `core_get_activity_data`: `x` is the exchange of the request, made
      only when the payload could be built. */
  function CoreActivityData(report: map<string, Json>, x: Exchange<seq<Record>>)
    : Option<Envelope<seq<Record>>>
  {
    if ActivityPayload(report).None? then None else Core(Post, x)
  }

  /** `core_deliver_report`: PATCH to the report's own route. The response
      data is never looked at. */
  function CoreDeliver(x: Exchange<Json>): Option<Envelope<Json>>
  {
    Core(Patch, x)
  }

  /** The endpoint `core_deliver_report` patches: `/` and `str(report.get('id'))`. */
  function DeliverEndpoint(report: map<string, Json>): string
  {
    "/" + Str(Lookup(report, "id"))
  }

  // ---------------------------------------------------------------------------
  // Properties

  /** GET and PATCH keep a response only on status 200, POST only on 201. */
  lemma AcceptStatus<D>(x: Exchange<D>)
    ensures Accept(Get, x).Some? <==> x.Responded? && x.status == 200
    ensures Accept(Post, x).Some? <==> x.Responded? && x.status == 201
    ensures Accept(Patch, x).Some? <==> x.Responded? && x.status == 200
    ensures forall v :: Accept(v, x).Some? ==> Accept(v, x).value == x.body
  {
  }

  /** A `core_*` call returns an envelope exactly when the helper kept the
      response and its body is a JSON object; that envelope always says
      `success: True` and carries the body's data. No call ever returns
      `success: False`. */
  lemma CoreEnvelope<D>(verb: Verb, x: Exchange<D>)
    ensures Core(verb, x).Some? <==> Accept(verb, x).Some? && x.body.Object?
    ensures Core(verb, x).Some? ==> Core(verb, x) == Some(Envelope(true, x.body.data))
    ensures forall d :: Core(verb, x) != Some(Envelope(false, d))
  {
  }

  /** The activity request is made, and can succeed, only when both dates
      convert; its dates are then the converted ones. */
  lemma ActivityPayloadSpec(report: map<string, Json>)
    ensures ActivityPayload(report).Some? <==>
      && "startDate" in report && report["startDate"].JStr?
      && "endDate" in report && report["endDate"].JStr?
      && Timestamps.ToDate(report["startDate"].s).Some?
      && Timestamps.ToDate(report["endDate"].s).Some?
    ensures ActivityPayload(report).Some? ==>
      && ActivityPayload(report).value.startDate == Timestamps.ToDate(report["startDate"].s).value
      && ActivityPayload(report).value.endDate == Timestamps.ToDate(report["endDate"].s).value
      && ActivityPayload(report).value.activityId == Lookup(report, "activityId")
    ensures forall x :: CoreActivityData(report, x).Some? ==> ActivityPayload(report).Some?
  {
  }

  /** With canonical timestamps in the report, the payload carries their
      first ten characters. */
  lemma ActivityPayloadDates(report: map<string, Json>, start: Timestamps.DateTime, end: Timestamps.DateTime)
    requires Timestamps.Valid(start) && start.micro % 1000 == 0
    requires Timestamps.Valid(end) && end.micro % 1000 == 0
    requires Lookup(report, "startDate") == JStr(Timestamps.IsoString(start))
    requires Lookup(report, "endDate") == JStr(Timestamps.IsoString(end))
    ensures ActivityPayload(report) ==
      Some(Payload(Lookup(report, "activityId"), Timestamps.IsoString(start)[..10], Timestamps.IsoString(end)[..10]))
  {
    IsoDateArgument(start);
    IsoDateArgument(end);
  }

  /** A canonical timestamp is sent as its first ten characters. */
  lemma IsoDateArgument(dt: Timestamps.DateTime)
    requires Timestamps.Valid(dt) && dt.micro % 1000 == 0
    ensures DateArgument(JStr(Timestamps.IsoString(dt))) == Some(Timestamps.IsoString(dt)[..10])
  {
    Timestamps.ConvertIso(dt);
  }
}
