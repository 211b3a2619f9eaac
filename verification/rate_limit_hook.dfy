/**
 * The client hook `useRateLimit`: `checkRateLimit` calls the edge function
 * and normalises whatever comes back, and `formatTimeRemaining` renders the
 * wait until a reset instant. The function-invocation transport is the
 * parameter `invoke`; instants are integer milliseconds.
 */
module RateLimitHook {
  import opened Wrappers
  import opened Text

  type Millis = int

  const MinuteMs: int := 60000

  /** The `remaining` the hook reports when it fails open, whatever the caller asked for. */
  const FailOpenRemaining: int := 5

  /** `UseRateLimitOptions`: omitted limits are `None`. */
  datatype Options = Options(actionType: string, maxAttempts: Option<int>, windowMinutes: Option<int>)

  /** The body sent to the edge function. */
  datatype InvokeBody = InvokeBody(actionType: string, maxAttempts: int, windowMinutes: int)

  /** A JSON object with the fields the hook reads or returns; `None` is an absent field. */
  datatype ResultBody = ResultBody(allowed: Option<bool>, remaining: Option<int>, resetAt: Option<Millis>, error: Option<string>)

  /**
   * How the invocation ends: it throws, it reports an `error`, or it returns
   * `data` (`None` is a null body). Which of the last two a 429 from the edge
   * function arrives as is up to the client library, so both are inputs.
   */
  datatype InvokeOutcome = Threw | InvokeError | Returned(data: Option<ResultBody>)

  /**
   * One call of `checkRateLimit`: the body sent, the value returned, and the
   * successive values of `isChecking` the call writes.
   */
  datatype HookCall = HookCall(sent: InvokeBody, result: Option<ResultBody>, checking: seq<bool>)

  /** `{allowed: true, remaining: 5, reset_at: now}`. */
  function FailOpen(now: Millis): ResultBody {
    ResultBody(Some(true), Some(FailOpenRemaining), Some(now), None)
  }

  /** JavaScript truthiness of an optional string field. */
  predicate Truthy(s: Option<string>) {
    s.Some? && s.value != ""
  }

  /** Whether a returned body is the edge function's refusal: it carries both `error` and `reset_at`. */
  predicate IsRefusal(data: Option<ResultBody>) {
    data.Some? && Truthy(data.value.error) && data.value.resetAt.Some?
  }

  function BodyFor(opts: Options): (b: InvokeBody)
    ensures b.actionType == opts.actionType
    ensures opts.maxAttempts.None? ==> b.maxAttempts == 5
    ensures opts.windowMinutes.None? ==> b.windowMinutes == 15
    ensures opts.maxAttempts.Some? ==> b.maxAttempts == opts.maxAttempts.value
    ensures opts.windowMinutes.Some? ==> b.windowMinutes == opts.windowMinutes.value
  {
    InvokeBody(opts.actionType, opts.maxAttempts.GetOr(5), opts.windowMinutes.GetOr(15))
  }

  /** `checkRateLimit(options)`. */
  function CheckRateLimit(opts: Options, now: Millis, invoke: InvokeBody -> InvokeOutcome): (c: HookCall)
    ensures c.sent == BodyFor(opts)
    ensures |c.checking| == 2 && c.checking[0] && !c.checking[|c.checking| - 1]
    ensures !invoke(c.sent).Returned? ==> c.result == Some(FailOpen(now))
    ensures invoke(c.sent).Returned? && IsRefusal(invoke(c.sent).data) ==>
      var d := invoke(c.sent).data.value;
      c.result == Some(ResultBody(Some(false), Some(0), d.resetAt, d.error))
    ensures invoke(c.sent).Returned? && !IsRefusal(invoke(c.sent).data) ==> c.result == invoke(c.sent).data
  {
    var sent := BodyFor(opts);
    var result :=
      match invoke(sent)
      case Threw => Some(FailOpen(now))
      case InvokeError => Some(FailOpen(now))
      case Returned(data) =>
        if IsRefusal(data) then Some(ResultBody(Some(false), Some(0), data.value.resetAt, data.value.error))
        else data;
    HookCall(sent, result, [true, false])
  }

  /** On a transport error the hook reports 5 remaining attempts even when the caller asked for another limit. */
  lemma FailOpenIgnoresLimit(opts: Options, now: Millis, invoke: InvokeBody -> InvokeOutcome)
    requires invoke(BodyFor(opts)).InvokeError? || invoke(BodyFor(opts)).Threw?
    ensures CheckRateLimit(opts, now, invoke).result.value.allowed == Some(true)
    ensures CheckRateLimit(opts, now, invoke).result.value.remaining == Some(5)
    ensures opts.maxAttempts.Some? && opts.maxAttempts.value != 5 ==>
      CheckRateLimit(opts, now, invoke).result.value.remaining != Some(BodyFor(opts).maxAttempts)
  {
  }

  /** A body with `error` but no `reset_at` is handed back unchanged, `allowed` field and all. */
  lemma ErrorWithoutResetPassesThrough(opts: Options, now: Millis, invoke: InvokeBody -> InvokeOutcome)
    requires invoke(BodyFor(opts)).Returned?
    requires invoke(BodyFor(opts)).data.Some? && invoke(BodyFor(opts)).data.value.resetAt.None?
    ensures CheckRateLimit(opts, now, invoke).result == invoke(BodyFor(opts)).data
  {
  }

  /** The hook reports a refusal only when the edge function's answer carried one. */
  lemma RefusalOnlyFromEdge(opts: Options, now: Millis, invoke: InvokeBody -> InvokeOutcome)
    requires CheckRateLimit(opts, now, invoke).result.Some?
    requires CheckRateLimit(opts, now, invoke).result.value.allowed == Some(false)
    ensures invoke(BodyFor(opts)).Returned?
    ensures invoke(BodyFor(opts)).data.Some?
    ensures invoke(BodyFor(opts)).data.value.allowed == Some(false) || IsRefusal(invoke(BodyFor(opts)).data)
  {
  }

  /** Whole minutes until `resetAt`, rounded up; 0 once the instant has passed. */
  function WaitMinutes(resetAt: Millis, now: Millis): (n: nat)
    ensures resetAt <= now ==> n == 0
    ensures resetAt > now ==> n >= 1 && (n - 1) * MinuteMs < resetAt - now <= n * MinuteMs
  {
    if resetAt <= now then 0 else (resetAt - now + MinuteMs - 1) / MinuteMs
  }

  /** A later reset instant never gives fewer minutes. */
  lemma WaitMinutesMonotone(r1: Millis, r2: Millis, now: Millis)
    requires r1 <= r2
    ensures WaitMinutes(r1, now) <= WaitMinutes(r2, now)
  {
  }

  /** `formatTimeRemaining(resetAt)` at instant `now`. */
  function FormatTimeRemaining(resetAt: Millis, now: Millis): (r: string)
    ensures r == "now" <==> resetAt <= now
    ensures r == "1 minute" <==> 0 < resetAt - now <= MinuteMs
    ensures resetAt - now > MinuteMs ==> WaitMinutes(resetAt, now) >= 2 && r == NatToString(WaitMinutes(resetAt, now)) + " minutes"
    ensures r != "0 minutes"
  {
    if resetAt - now <= 0 then "now"
    else
      var n := WaitMinutes(resetAt, now);
      if n == 1 then "1 minute"
      else
        var r := NatToString(n) + " minutes";
        assert |r| > 8;
        assert r[0] != '0';
        r
  }
}
