/**
 * The operator console over the `rate_limits` table: the blocked flag and
 * countdown it shows per record, the reset / delete / clear-all writes as
 * transforms of the table, the search box and the statistics cards.
 */
module RateLimitConsole {
  import opened Wrappers
  import opened Text
  import opened Seqs

  type Millis = int

  const MinuteMs: int := 60000

  /** The thresholds the console hard-codes for display: 5 attempts in 15 minutes. */
  const ConsoleMaxAttempts: int := 5
  const ConsoleWindowMs: int := 15 * 60 * 1000

  /** The id the clear-all delete excludes (`.neq('id', ...)`). */
  const NilUuid: string := "00000000-0000-0000-0000-000000000000"

  datatype RateLimit = RateLimit(
    id: string,
    identifier: string,
    actionType: string,
    attemptCount: int,
    windowStart: Millis,
    createdAt: Millis,
    updatedAt: Millis)

  datatype Stats = Stats(total: nat, blocked: nat, loginAttempts: nat, registrationAttempts: nat)

  /** `isBlocked`: at least 5 attempts and the 15-minute window not yet over. */
  predicate IsBlocked(r: RateLimit, now: Millis) {
    r.attemptCount >= ConsoleMaxAttempts && now < r.windowStart + ConsoleWindowMs
  }

  /** The same blocking rule for the thresholds a caller may pass to the store. */
  predicate BlockedUnder(r: RateLimit, now: Millis, maxAttempts: int, windowMinutes: int) {
    r.attemptCount >= maxAttempts && now < r.windowStart + windowMinutes * MinuteMs
  }

  /** The console's flag is the blocking rule at the default thresholds. */
  lemma ConsoleUsesDefaults(r: RateLimit, now: Millis)
    ensures IsBlocked(r, now) <==> BlockedUnder(r, now, 5, 15)
  {
  }

  /** Under stricter thresholds (fewer attempts, longer window) every record the console flags is blocking. */
  lemma ConsoleFlagSound(r: RateLimit, now: Millis, maxAttempts: int, windowMinutes: int)
    requires maxAttempts <= 5 && windowMinutes >= 15
    ensures IsBlocked(r, now) ==> BlockedUnder(r, now, maxAttempts, windowMinutes)
  {
  }

  /** For any other pair of thresholds some record and instant make the console's flag wrong. */
  lemma ConsoleFlagDisagrees(maxAttempts: int, windowMinutes: int)
    requires maxAttempts != 5 || windowMinutes != 15
    ensures exists r: RateLimit, now: Millis :: IsBlocked(r, now) != BlockedUnder(r, now, maxAttempts, windowMinutes)
  {
    if windowMinutes < 1 {
      var r := RateLimit("", "", "login", 5, 0, 0, 0);
      assert IsBlocked(r, 0) && !BlockedUnder(r, 0, maxAttempts, windowMinutes);
    } else if maxAttempts < 5 {
      var r := RateLimit("", "", "login", maxAttempts, 0, 0, 0);
      assert !IsBlocked(r, 0) && BlockedUnder(r, 0, maxAttempts, windowMinutes);
    } else if maxAttempts > 5 {
      var r := RateLimit("", "", "login", 5, 0, 0, 0);
      assert IsBlocked(r, 0) && !BlockedUnder(r, 0, maxAttempts, windowMinutes);
    } else if windowMinutes < 15 {
      var r := RateLimit("", "", "login", 5, 0, 0, 0);
      var now := windowMinutes * MinuteMs;
      assert IsBlocked(r, now) && !BlockedUnder(r, now, maxAttempts, windowMinutes);
    } else {
      var r := RateLimit("", "", "login", 5, 0, 0, 0);
      assert !IsBlocked(r, ConsoleWindowMs) && BlockedUnder(r, ConsoleWindowMs, maxAttempts, windowMinutes);
    }
  }

  /** `resetRateLimit(id)`: the matching record gets zero attempts and a window starting now. */
  function Reset(t: seq<RateLimit>, id: string, now: Millis): (r: seq<RateLimit>)
    ensures |r| == |t|
    ensures forall i :: 0 <= i < |t| && t[i].id == id ==>
      r[i].id == id && r[i].identifier == t[i].identifier && r[i].actionType == t[i].actionType &&
      r[i].createdAt == t[i].createdAt && r[i].updatedAt == t[i].updatedAt &&
      r[i].attemptCount == 0 && r[i].windowStart == now && !IsBlocked(r[i], now)
    ensures forall i :: 0 <= i < |t| && t[i].id != id ==> r[i] == t[i]
  {
    seq(|t|, i requires 0 <= i < |t| =>
      if t[i].id == id then t[i].(attemptCount := 0, windowStart := now) else t[i])
  }

  /** A reset record stays unblocked for as long as no attempt is recorded against it. */
  lemma ResetUnblocksAtAllLaterTimes(t: seq<RateLimit>, id: string, now: Millis, later: Millis)
    ensures forall i :: 0 <= i < |t| && t[i].id == id ==> !IsBlocked(Reset(t, id, now)[i], later)
  {
  }

  /** `deleteRateLimit(id)`: the table without the record(s) carrying `id`. */
  function Delete(t: seq<RateLimit>, id: string): (r: seq<RateLimit>)
    ensures forall x :: x in r <==> x in t && x.id != id
    ensures SubsequenceOf(r, t)
  {
    Filter(t, (x: RateLimit) => x.id != id)
  }

  /** Deleting an id that is present removes at least one record; an absent id changes nothing. */
  lemma DeleteSize(t: seq<RateLimit>, id: string)
    ensures (exists i :: 0 <= i < |t| && t[i].id == id) ==> |Delete(t, id)| < |t|
    ensures (forall i :: 0 <= i < |t| ==> t[i].id != id) ==> Delete(t, id) == t
  {
    if exists i :: 0 <= i < |t| && t[i].id == id {
      var i :| 0 <= i < |t| && t[i].id == id;
      if |Delete(t, id)| == |t| {
        SubsequenceSameLength(Delete(t, id), t);
      }
    } else {
      FilterAll(t, (x: RateLimit) => x.id != id);
    }
  }

  /** A subsequence as long as the sequence is the sequence itself. */
  lemma {:induction false} SubsequenceSameLength<T>(sub: seq<T>, s: seq<T>)
    requires SubsequenceOf(sub, s) && |sub| == |s|
    ensures sub == s
    decreases |s|
  {
    if |s| > 0 {
      if sub[0] == s[0] && SubsequenceOf(sub[1..], s[1..]) {
        SubsequenceSameLength(sub[1..], s[1..]);
        assert sub == [sub[0]] + sub[1..];
      } else {
        SubsequenceShorter(sub, s[1..]);
        assert false;
      }
    }
  }

  lemma {:induction false} SubsequenceShorter<T>(sub: seq<T>, s: seq<T>)
    requires SubsequenceOf(sub, s)
    ensures |sub| <= |s|
    decreases |s|
  {
    if |sub| > 0 {
      if sub[0] == s[0] && SubsequenceOf(sub[1..], s[1..]) {
        SubsequenceShorter(sub[1..], s[1..]);
      } else {
        SubsequenceShorter(sub, s[1..]);
      }
    }
  }

  /** `clearAllRateLimits`: the records left by deleting every id other than the nil UUID. */
  function ClearAll(t: seq<RateLimit>): (r: seq<RateLimit>)
    ensures forall x :: x in r <==> x in t && x.id == NilUuid
    ensures SubsequenceOf(r, t)
  {
    Filter(t, (x: RateLimit) => x.id == NilUuid)
  }

  /** A table without a nil-UUID record is left empty by clear-all. */
  lemma ClearAllEmpties(t: seq<RateLimit>)
    requires forall i :: 0 <= i < |t| ==> t[i].id != NilUuid
    ensures ClearAll(t) == []
  {
    FilterNone(t, (x: RateLimit) => x.id == NilUuid);
  }

  /**
   * Minutes and seconds left of the 15-minute window at `now`, or `None`
   * when it is over: floor of the remaining milliseconds in minutes, then
   * of the leftover in seconds.
   */
  function TimeLeft(windowStart: Millis, now: Millis): (left: Option<(nat, nat)>)
    ensures left.None? <==> now >= windowStart + ConsoleWindowMs
    ensures left.Some? ==>
      var (m, s) := left.value;
      var rem := windowStart + ConsoleWindowMs - now;
      s < 60 && m * MinuteMs + s * 1000 <= rem < m * MinuteMs + (s + 1) * 1000
    ensures left.Some? && windowStart < now ==> left.value.0 <= 14
    ensures left.Some? && windowStart == now ==> left.value == (15, 0)
  {
    var rem := windowStart + ConsoleWindowMs - now;
    if rem <= 0 then None
    else Some((rem / MinuteMs, (rem % MinuteMs) / 1000))
  }

  /** `getTimeRemaining(window_start)`: "Expired" or "<M>m <S>s". */
  function GetTimeRemaining(windowStart: Millis, now: Millis): (text: string)
    ensures text == "Expired" <==> now >= windowStart + ConsoleWindowMs
    ensures text != "Expired" ==>
      text == NatToString(TimeLeft(windowStart, now).value.0) + "m " + NatToString(TimeLeft(windowStart, now).value.1) + "s"
  {
    match TimeLeft(windowStart, now)
    case None => "Expired"
    case Some((m, s)) =>
      var text := NatToString(m) + "m " + NatToString(s) + "s";
      assert text[|text| - 1] == 's';
      text
  }

  /** A record matches the search when the lower-cased term occurs in its lower-cased identifier or action type. */
  predicate MatchesSearch(r: RateLimit, term: string) {
    Contains(Lower(r.identifier), Lower(term)) || Contains(Lower(r.actionType), Lower(term))
  }

  /** `filteredRateLimits`. */
  function Search(t: seq<RateLimit>, term: string): (r: seq<RateLimit>)
    ensures forall x :: x in r <==> x in t && MatchesSearch(x, term)
    ensures SubsequenceOf(r, t)
  {
    Filter(t, (x: RateLimit) => MatchesSearch(x, term))
  }

  /** An empty search shows the whole table in its order. */
  lemma SearchEmptyKeepsAll(t: seq<RateLimit>)
    ensures Search(t, "") == t
  {
    forall i | 0 <= i < |t|
      ensures MatchesSearch(t[i], "")
    {
      ContainsEmpty(Lower(t[i].identifier));
    }
    FilterAll(t, (x: RateLimit) => MatchesSearch(x, ""));
  }

  predicate IsLogin(r: RateLimit) { r.actionType == "login" }
  predicate IsRegistration(r: RateLimit) { r.actionType == "registration" }

  /**
   * The statistics cards: records, records blocked at `now`, and records per
   * action type; each card is zero exactly when no record qualifies, and the
   * blocked card equals the total exactly when every record is blocked.
   */
  function ComputeStats(t: seq<RateLimit>, now: Millis): (s: Stats)
    ensures s.total == |t|
    ensures s.blocked <= s.total
    ensures s.loginAttempts + s.registrationAttempts <= s.total
    ensures s.blocked == 0 <==> forall i :: 0 <= i < |t| ==> !IsBlocked(t[i], now)
    ensures s.blocked == s.total <==> forall i :: 0 <= i < |t| ==> IsBlocked(t[i], now)
    ensures s.loginAttempts == 0 <==> forall i :: 0 <= i < |t| ==> !IsLogin(t[i])
    ensures s.loginAttempts == s.total <==> forall i :: 0 <= i < |t| ==> IsLogin(t[i])
    ensures s.registrationAttempts == 0 <==> forall i :: 0 <= i < |t| ==> !IsRegistration(t[i])
    ensures s.registrationAttempts == s.total <==> forall i :: 0 <= i < |t| ==> IsRegistration(t[i])
  {
    var isBlocked := (x: RateLimit) => IsBlocked(x, now);
    CountDisjoint(t, IsLogin, IsRegistration);
    CountZeroIff(t, isBlocked);
    CountFullIff(t, isBlocked);
    CountZeroIff(t, IsLogin);
    CountFullIff(t, IsLogin);
    CountZeroIff(t, IsRegistration);
    CountFullIff(t, IsRegistration);
    Stats(|t|, Count(t, isBlocked), Count(t, IsLogin), Count(t, IsRegistration))
  }

  /** The cards of an empty table are all zero. */
  lemma StatsOfEmpty(now: Millis)
    ensures ComputeStats([], now) == Stats(0, 0, 0, 0)
  {
  }

  /** One more record adds one to the total and one to each card whose condition it meets. */
  lemma StatsAddRecord(t: seq<RateLimit>, r: RateLimit, now: Millis)
    ensures var before, after := ComputeStats(t, now), ComputeStats(t + [r], now);
      after == Stats(before.total + 1,
                     before.blocked + (if IsBlocked(r, now) then 1 else 0),
                     before.loginAttempts + (if IsLogin(r) then 1 else 0),
                     before.registrationAttempts + (if IsRegistration(r) then 1 else 0))
  {
    var isBlocked := (x: RateLimit) => IsBlocked(x, now);
    CountSnoc(t, r, isBlocked);
    CountSnoc(t, r, IsLogin);
    CountSnoc(t, r, IsRegistration);
    assert ComputeStats(t, now).blocked == Count(t, isBlocked);
    assert ComputeStats(t + [r], now).blocked == Count(t + [r], isBlocked);
  }

  /** Badge colour class per action type, grey for any other. */
  function ActionTypeColor(actionType: string): (c: string)
    ensures actionType !in {"login", "registration", "password_reset"} ==> c == "bg-gray-500"
    ensures c == "bg-gray-500" ==> actionType !in {"login", "registration", "password_reset"}
  {
    if actionType == "login" then "bg-blue-500"
    else if actionType == "registration" then "bg-green-500"
    else if actionType == "password_reset" then "bg-purple-500"
    else "bg-gray-500"
  }
}
