/**
 * The programmer console's log viewer: the search and level filter, the
 * counters, and the per-level badge and icon.
 */
module SystemLogs {
  import opened Text
  import opened Seqs

  datatype LogEntry = LogEntry(id: string, timestamp: string, level: string, source: string, message: string)

  /** The lower-cased term occurs in the lower-cased message or source. */
  predicate MatchesSearch(log: LogEntry, term: string) {
    Contains(Lower(log.message), Lower(term)) || Contains(Lower(log.source), Lower(term))
  }

  /** The level filter is "all" or names the entry's level exactly. */
  predicate MatchesLevel(log: LogEntry, levelFilter: string) {
    levelFilter == "all" || log.level == levelFilter
  }

  /** `filteredLogs`. */
  function FilteredLogs(logs: seq<LogEntry>, term: string, levelFilter: string): (r: seq<LogEntry>)
    ensures forall x :: x in r <==> x in logs && MatchesSearch(x, term) && MatchesLevel(x, levelFilter)
    ensures SubsequenceOf(r, logs)
  {
    Filter(logs, (x: LogEntry) => MatchesSearch(x, term) && MatchesLevel(x, levelFilter))
  }

  /** An empty term with the filter on "all" shows every log in its order. */
  lemma UnfilteredKeepsAll(logs: seq<LogEntry>)
    ensures FilteredLogs(logs, "", "all") == logs
  {
    forall i | 0 <= i < |logs|
      ensures MatchesSearch(logs[i], "")
    {
      ContainsEmpty(Lower(logs[i].message));
    }
    FilterAll(logs, (x: LogEntry) => MatchesSearch(x, "") && MatchesLevel(x, "all"));
  }

  datatype LogStats = LogStats(total: nat, errors: nat, warnings: nat)

  predicate IsError(log: LogEntry) { log.level == "error" }
  predicate IsWarning(log: LogEntry) { log.level == "warn" }

  /**
   * The three counters above the viewer. Each level counter is zero exactly
   * when no log has that level, and equals the total exactly when all do.
   */
  function ComputeStats(logs: seq<LogEntry>): (s: LogStats)
    ensures s.total == |logs|
    ensures s.errors + s.warnings <= s.total
    ensures s.errors == 0 <==> forall i :: 0 <= i < |logs| ==> !IsError(logs[i])
    ensures s.warnings == 0 <==> forall i :: 0 <= i < |logs| ==> !IsWarning(logs[i])
    ensures s.errors == s.total <==> forall i :: 0 <= i < |logs| ==> IsError(logs[i])
    ensures s.warnings == s.total <==> forall i :: 0 <= i < |logs| ==> IsWarning(logs[i])
  {
    CountDisjoint(logs, IsError, IsWarning);
    FilterEmptyIff(logs, IsError);
    FilterEmptyIff(logs, IsWarning);
    CountFullIff(logs, IsError);
    CountFullIff(logs, IsWarning);
    LogStats(|logs|, Count(logs, IsError), Count(logs, IsWarning))
  }

  /** No logs, no counts. */
  lemma StatsOfEmpty()
    ensures ComputeStats([]) == LogStats(0, 0, 0)
  {
  }

  /** One more log raises the total by one, and a counter by one exactly when the log has its level. */
  lemma StatsAddLog(logs: seq<LogEntry>, log: LogEntry)
    ensures var before, after := ComputeStats(logs), ComputeStats(logs + [log]);
      after == LogStats(before.total + 1,
                        before.errors + (if IsError(log) then 1 else 0),
                        before.warnings + (if IsWarning(log) then 1 else 0))
  {
    CountSnoc(logs, log, IsError);
    CountSnoc(logs, log, IsWarning);
    assert ComputeStats(logs + [log]) ==
      LogStats(|logs + [log]|, Count(logs + [log], IsError), Count(logs + [log], IsWarning));
  }

  const GreyBadge := "bg-gray-500 text-white"

  datatype Badge = Badge(className: string, text: string)

  /** `getLevelBadge`: the class per level, grey for any other, and the level upper-cased as text. */
  function LevelBadge(level: string): (b: Badge)
    ensures b.text == Upper(level)
    ensures b.className == GreyBadge <==> level !in {"error", "warn", "info"}
    ensures level == "error" ==> b.className == "bg-destructive text-destructive-foreground"
    ensures level == "warn" ==> b.className == "bg-yellow-500 text-white"
    ensures level == "info" ==> b.className == "bg-blue-500 text-white"
  {
    var className :=
      if level == "error" then "bg-destructive text-destructive-foreground"
      else if level == "warn" then "bg-yellow-500 text-white"
      else if level == "info" then "bg-blue-500 text-white"
      else GreyBadge;
    Badge(className, Upper(level))
  }

  datatype Icon = AlertCircle | AlertTriangle | InfoIcon | FileTextIcon

  /** `getLevelIcon`: one icon each for error, warn and info, and a neutral one for the rest (debug included). */
  function LevelIcon(level: string): (i: Icon)
    ensures i == AlertCircle <==> level == "error"
    ensures i == AlertTriangle <==> level == "warn"
    ensures i == InfoIcon <==> level == "info"
  {
    match level
    case "error" => AlertCircle
    case "warn" => AlertTriangle
    case "info" => InfoIcon
    case _ => FileTextIcon
  }
}
