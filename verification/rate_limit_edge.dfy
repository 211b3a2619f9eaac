/**
 * The `check-rate-limit` edge function as a pure request-to-response
 * function. The store's `check_rate_limit` procedure is not part of this
 * model: it is the parameter `store`, and the handler's result records the
 * one query it put to the store (if any) next to the response it sent.
 */
module EdgeHandler {
  import opened Wrappers
  import opened Text

  /** Instants and durations, in milliseconds. */
  type Millis = int

  const DefaultMaxAttempts: int := 5
  const DefaultWindowMinutes: int := 15

  const MissingActionText := "action_type is required"
  const TooManyAttemptsText := "Too many attempts. Please try again later."
  const InternalErrorText := "Internal server error"

  /** The headers every response carries (section 3.2 "CORS protocol" of the WHATWG Fetch Standard). */
  const CorsHeaders: map<string, string> := map[
    "Access-Control-Allow-Origin" := "*",
    "Access-Control-Allow-Headers" := "authorization, x-client-info, apikey, content-type"
  ]

  /** CORS headers plus the JSON content type, on every response that has a body. */
  const JsonHeaders: map<string, string> := CorsHeaders["Content-Type" := "application/json"]

  /** The two proxy headers the handler reads; `None` is a header that is absent. */
  datatype Headers = Headers(forwardedFor: Option<string>, realIp: Option<string>)

  /**
   * What `await req.json()` yields. `None` in a field is a property that is
   * absent from the JSON object (so the destructuring default applies).
   */
  datatype RequestBody =
    | Unparsable
    | JsonNull
    | Fields(actionType: Option<string>, maxAttempts: Option<int>, windowMinutes: Option<int>)

  datatype Request = Request(verb: string, headers: Headers, body: RequestBody)

  /** The arguments of the store call: `p_identifier`, `p_action_type`, `p_max_attempts`, `p_window_minutes`. */
  datatype StoreQuery = StoreQuery(identifier: string, actionType: string, maxAttempts: int, windowMinutes: int)

  /** The store's answer when it has one: `{allowed, remaining, reset_at}`. */
  datatype Verdict = Verdict(allowed: bool, remaining: int, resetAt: Millis)

  /** The store call reports an error, returns no data, or returns a verdict. */
  datatype StoreAnswer = StoreError | NoData | Data(verdict: Verdict)

  /** The JSON objects the handler writes. */
  datatype Payload =
    | ErrorMessage(error: string)
    | Allowance(verdict: Verdict)
    | Denied(error: string, resetAt: Millis, remaining: int)

  datatype Body = NoBody | Json(payload: Payload)

  datatype Response = Response(status: int, headers: map<string, string>, body: Body)

  /** The query put to the store (`None`: the store was not consulted) and the response sent. */
  datatype Exchange = Exchange(query: Option<StoreQuery>, response: Response)

  /** The first comma-separated element of `x-forwarded-for`, trimmed. */
  function FirstForwarded(forwardedFor: string): (r: string)
    ensures |r| > 0 ==> !IsJsWhitespace(r[0]) && !IsJsWhitespace(r[|r| - 1])
    ensures ',' !in r
  {
    var piece := Split(forwardedFor, ',')[0];
    var a := TrimStart(piece);
    var r := TrimEnd(a);
    assert forall i :: 0 <= i < |r| ==> r[i] == piece[|piece| - |a| + i];
    r
  }

  /** The client identifier: forwarded address, else `x-real-ip`, else "unknown" (empty values count as absent). */
  function ClientIp(h: Headers): (r: string)
    ensures r != ""
    ensures h.forwardedFor.Some? && FirstForwarded(h.forwardedFor.value) != "" ==> r == FirstForwarded(h.forwardedFor.value)
    ensures r == "unknown" || r == h.realIp.GetOr("") || (h.forwardedFor.Some? && r == FirstForwarded(h.forwardedFor.value))
  {
    var first := if h.forwardedFor.Some? then FirstForwarded(h.forwardedFor.value) else "";
    if first != "" then first
    else if h.realIp.Some? && h.realIp.value != "" then h.realIp.value
    else "unknown"
  }

  /** A list `ip, proxy, ...` identifies the client by its first address, whatever `x-real-ip` holds. */
  lemma ClientIpOfChain(ip: string, rest: string, realIp: Option<string>)
    requires ip != "" && ',' !in ip
    requires !IsJsWhitespace(ip[0]) && !IsJsWhitespace(ip[|ip| - 1])
    ensures ClientIp(Headers(Some(ip + "," + rest), realIp)) == ip
  {
    SplitCons(ip, ',', rest);
    TrimOfTrimmed(ip);
  }

  /** Without a usable forwarded address, the identifier is the real IP when non-empty, else "unknown". */
  lemma ClientIpFallback(h: Headers)
    requires h.forwardedFor.None? || FirstForwarded(h.forwardedFor.value) == ""
    ensures h.realIp.Some? && h.realIp.value != "" ==> ClientIp(h) == h.realIp.value
    ensures h.realIp.None? || h.realIp.value == "" ==> ClientIp(h) == "unknown"
  {
  }

  /** The response once the store has answered `answer` to a query with `maxAttempts`. */
  function Respond(answer: StoreAnswer, maxAttempts: int, now: Millis): (resp: Response)
    ensures resp.headers == JsonHeaders && resp.body.Json?
    ensures answer.StoreError? ==> resp.status == 200 && resp.body.payload == Allowance(Verdict(true, maxAttempts, now))
    ensures answer.NoData? ==> resp.status == 500
    ensures answer.Data? && !answer.verdict.allowed ==>
      resp.status == 429 && resp.body.payload == Denied(TooManyAttemptsText, answer.verdict.resetAt, 0)
    ensures answer.Data? && answer.verdict.allowed ==>
      resp.status == 200 && resp.body.payload == Allowance(answer.verdict)
  {
    match answer
    case StoreError => Response(200, JsonHeaders, Json(Allowance(Verdict(true, maxAttempts, now))))
    case NoData => Response(500, JsonHeaders, Json(ErrorMessage(InternalErrorText)))
    case Data(v) =>
      if !v.allowed then Response(429, JsonHeaders, Json(Denied(TooManyAttemptsText, v.resetAt, 0)))
      else Response(200, JsonHeaders, Json(Allowance(v)))
  }

  /** The query the handler puts to the store for a request with a non-empty action type. */
  function QueryFor(h: Headers, actionType: string, maxAttempts: Option<int>, windowMinutes: Option<int>): (q: StoreQuery)
    ensures q.identifier == ClientIp(h) && q.actionType == actionType
    ensures maxAttempts.None? ==> q.maxAttempts == DefaultMaxAttempts
    ensures windowMinutes.None? ==> q.windowMinutes == DefaultWindowMinutes
    ensures maxAttempts.Some? ==> q.maxAttempts == maxAttempts.value
    ensures windowMinutes.Some? ==> q.windowMinutes == windowMinutes.value
  {
    StoreQuery(ClientIp(h), actionType, maxAttempts.GetOr(DefaultMaxAttempts), windowMinutes.GetOr(DefaultWindowMinutes))
  }

  /** The `Deno.serve` handler. */
  function Handle(req: Request, now: Millis, store: StoreQuery -> StoreAnswer): (x: Exchange)
    ensures forall k :: k in CorsHeaders ==> k in x.response.headers && x.response.headers[k] == CorsHeaders[k]
    ensures x.response.status in {200, 400, 429, 500}
    ensures req.verb == "OPTIONS" ==> x.query.None? && x.response.body.NoBody?
    ensures x.response.body.NoBody? ==> req.verb == "OPTIONS"
    ensures x.response.status == 400 ==> x.query.None?
    ensures x.response.status == 429 <==> x.query.Some? && store(x.query.value).Data? && !store(x.query.value).verdict.allowed
  {
    if req.verb == "OPTIONS" then
      Exchange(None, Response(200, CorsHeaders, NoBody))
    else
      match req.body
      case Unparsable => Exchange(None, Response(500, JsonHeaders, Json(ErrorMessage(InternalErrorText))))
      case JsonNull => Exchange(None, Response(500, JsonHeaders, Json(ErrorMessage(InternalErrorText))))
      case Fields(actionType, maxAttempts, windowMinutes) =>
        if actionType.None? || actionType.value == "" then
          Exchange(None, Response(400, JsonHeaders, Json(ErrorMessage(MissingActionText))))
        else
          var q := QueryFor(req.headers, actionType.value, maxAttempts, windowMinutes);
          Exchange(Some(q), Respond(store(q), q.maxAttempts, now))
  }

  /** A missing or empty `action_type` gets 400 with the fixed text, and the store is never consulted. */
  lemma MissingActionRejected(req: Request, now: Millis, store: StoreQuery -> StoreAnswer)
    requires req.verb != "OPTIONS" && req.body.Fields?
    ensures var x := Handle(req, now, store);
      (req.body.actionType.None? || req.body.actionType.value == "") <==>
      (x.response.status == 400 && x.response.body == Json(ErrorMessage(MissingActionText)) && x.query.None?)
  {
  }

  /** Any non-empty action type reaches the store with the identifier, the action, and the (defaulted) limits. */
  lemma ActionForwarded(req: Request, now: Millis, store: StoreQuery -> StoreAnswer)
    requires req.verb != "OPTIONS" && req.body.Fields?
    requires req.body.actionType.Some? && req.body.actionType.value != ""
    ensures Handle(req, now, store).query ==
      Some(StoreQuery(ClientIp(req.headers), req.body.actionType.value,
                      req.body.maxAttempts.GetOr(5), req.body.windowMinutes.GetOr(15)))
  {
  }

  /** A store error fails open: 200, allowed, `remaining` is the requested (or default) maximum, reset now. */
  lemma StoreErrorFailsOpen(req: Request, now: Millis, store: StoreQuery -> StoreAnswer)
    requires Handle(req, now, store).query.Some?
    requires store(Handle(req, now, store).query.value).StoreError?
    ensures var x := Handle(req, now, store);
      x.response.status == 200 &&
      x.response.body == Json(Allowance(Verdict(true, x.query.value.maxAttempts, now))) &&
      x.query.value.maxAttempts == req.body.maxAttempts.GetOr(DefaultMaxAttempts)
  {
  }

  /** An allowed verdict is passed on unchanged with 200; a refused one becomes 429 with no attempts left. */
  lemma VerdictMapped(req: Request, now: Millis, store: StoreQuery -> StoreAnswer)
    requires Handle(req, now, store).query.Some?
    requires store(Handle(req, now, store).query.value).Data?
    ensures var x := Handle(req, now, store);
      var v := store(x.query.value).verdict;
      (v.allowed ==> x.response == Response(200, JsonHeaders, Json(Allowance(v)))) &&
      (!v.allowed ==> x.response == Response(429, JsonHeaders, Json(Denied(TooManyAttemptsText, v.resetAt, 0))))
  {
  }

  /** A 500 carries only the generic text and arises from an unreadable body or a store call without data. */
  lemma InternalErrorCases(req: Request, now: Millis, store: StoreQuery -> StoreAnswer)
    ensures var x := Handle(req, now, store);
      x.response.status == 500 <==>
        req.verb != "OPTIONS" &&
        (req.body.Unparsable? || req.body.JsonNull? || (x.query.Some? && store(x.query.value).NoData?))
    ensures var x := Handle(req, now, store);
      x.response.status == 500 ==> x.response.body == Json(ErrorMessage(InternalErrorText))
  {
  }
}
