/** The owner's audit-log page: the search box and the two drop-downs select,
    in order, the log records that satisfy all three filters. */
module AuditLogs {
  import opened Text
  import opened Seqs

  datatype LogStatus = Success | Failed

  /** The status as the page's string union spells it. */
  function StatusName(st: LogStatus): string
  {
    match st
    case Success => "success"
    case Failed => "failed"
  }

  datatype AuditLog = AuditLog(
    id: string,
    timestamp: string,
    action: string,
    accessor: string,
    location: string,
    ipAddress: string,
    device: string,
    status: LogStatus)

  /** Case-insensitive substring search over action, accessor and location. */
  predicate MatchesSearch(log: AuditLog, searchTerm: string)
  {
    var term := Lower(searchTerm);
    || Contains(Lower(log.action), term)
    || Contains(Lower(log.accessor), term)
    || Contains(Lower(log.location), term)
  }

  /** The type drop-down: case-sensitive substring tests on the action. */
  predicate MatchesType(log: AuditLog, filterType: string)
  {
    || filterType == "all"
    || (filterType == "access" && Contains(log.action, "Accessed"))
    || (filterType == "update" && Contains(log.action, "Updated"))
    || (filterType == "system" && (Contains(log.action, "Linked") || Contains(log.action, "Login")))
  }

  /** The status drop-down: "all" or the exact status name. */
  predicate MatchesStatus(log: AuditLog, filterStatus: string)
  {
    filterStatus == "all" || StatusName(log.status) == filterStatus
  }

  /** The callback handed to `auditLogs.filter`. */
  function Keep(searchTerm: string, filterType: string, filterStatus: string): AuditLog -> bool
  {
    log => MatchesSearch(log, searchTerm) && MatchesType(log, filterType) && MatchesStatus(log, filterStatus)
  }

  /** `filteredLogs`: the logs passing all three filters, in their original
      order; a log survives exactly when each filter accepts it, with all its
      copies. */
  function FilteredLogs(logs: seq<AuditLog>, searchTerm: string, filterType: string, filterStatus: string)
    : (r: seq<AuditLog>)
    ensures Subsequence(r, logs)
    ensures forall log :: log in r <==>
      log in logs && MatchesSearch(log, searchTerm) && MatchesType(log, filterType) && MatchesStatus(log, filterStatus)
    ensures forall log :: multiset(r)[log] ==
                         if MatchesSearch(log, searchTerm) && MatchesType(log, filterType) && MatchesStatus(log, filterStatus)
                         then multiset(logs)[log] else 0
  {
    Filter(Keep(searchTerm, filterType, filterStatus), logs)
  }

  /** With an empty search and both drop-downs on "all", every log is shown. */
  lemma NoFilterKeepsAll(logs: seq<AuditLog>)
    ensures FilteredLogs(logs, "", "all", "all") == logs
  {
    forall log | log in logs ensures Keep("", "all", "all")(log) {
      assert "" <= Lower(log.action)[0..];
    }
    FilterKeepsAll(Keep("", "all", "all"), logs);
  }

  /** The IP address, the device, the id and the timestamp never decide
      whether a log is shown. */
  lemma UnsearchedFieldsIrrelevant(log: AuditLog, ip: string, device: string, id: string, timestamp: string,
                                   searchTerm: string, filterType: string, filterStatus: string)
    ensures var other := log.(ipAddress := ip, device := device, id := id, timestamp := timestamp);
      Keep(searchTerm, filterType, filterStatus)(other) == Keep(searchTerm, filterType, filterStatus)(log)
  {
  }

  /** Search ignores case: two terms that lower to the same text select the
      same logs. */
  lemma SearchIgnoresCase(logs: seq<AuditLog>, t1: string, t2: string, filterType: string, filterStatus: string)
    requires Lower(t1) == Lower(t2)
    ensures FilteredLogs(logs, t1, filterType, filterStatus) == FilteredLogs(logs, t2, filterType, filterStatus)
  {
    FilterCongruent(Keep(t1, filterType, filterStatus), Keep(t2, filterType, filterStatus), logs);
  }

  /** Typing more text into the search box only narrows the result, keeping
      the order. */
  lemma LongerSearchNarrows(logs: seq<AuditLog>, term: string, more: string, filterType: string, filterStatus: string)
    ensures Subsequence(FilteredLogs(logs, term + more, filterType, filterStatus),
                        FilteredLogs(logs, term, filterType, filterStatus))
  {
    LowerAppend(term, more);
    forall log | Keep(term + more, filterType, filterStatus)(log)
      ensures Keep(term, filterType, filterStatus)(log)
    {
      if Contains(Lower(log.action), Lower(term) + Lower(more)) {
        ContainsPrefixOfPattern(Lower(log.action), Lower(term), Lower(more));
      } else if Contains(Lower(log.accessor), Lower(term) + Lower(more)) {
        ContainsPrefixOfPattern(Lower(log.accessor), Lower(term), Lower(more));
      } else {
        ContainsPrefixOfPattern(Lower(log.location), Lower(term), Lower(more));
      }
    }
    FilterMonotone(Keep(term + more, filterType, filterStatus), Keep(term, filterType, filterStatus), logs);
  }

  /** Any specific type shows a subsequence of what "all" shows. */
  lemma TypeNarrowsAll(logs: seq<AuditLog>, searchTerm: string, filterType: string, filterStatus: string)
    ensures Subsequence(FilteredLogs(logs, searchTerm, filterType, filterStatus),
                        FilteredLogs(logs, searchTerm, "all", filterStatus))
  {
    FilterMonotone(Keep(searchTerm, filterType, filterStatus), Keep(searchTerm, "all", filterStatus), logs);
  }

  /** A type other than the four offered values selects nothing. */
  lemma UnknownTypeSelectsNothing(logs: seq<AuditLog>, searchTerm: string, filterType: string, filterStatus: string)
    requires filterType !in {"all", "access", "update", "system"}
    ensures FilteredLogs(logs, searchTerm, filterType, filterStatus) == []
  {
    var r := FilteredLogs(logs, searchTerm, filterType, filterStatus);
    assert forall log :: log !in r;
  }

  /** The three type categories, with search and status on "all". */
  lemma TypeCategories(log: AuditLog)
    ensures Keep("", "access", "all")(log) <==> Contains(log.action, "Accessed")
    ensures Keep("", "update", "all")(log) <==> Contains(log.action, "Updated")
    ensures Keep("", "system", "all")(log) <==> Contains(log.action, "Linked") || Contains(log.action, "Login")
  {
    assert "" <= Lower(log.action)[0..];
  }

  /** A status other than "all" shows only logs with exactly that status. */
  lemma StatusIsExact(logs: seq<AuditLog>, searchTerm: string, filterType: string, filterStatus: string)
    requires filterStatus != "all"
    ensures forall log :: log in FilteredLogs(logs, searchTerm, filterType, filterStatus) ==>
      StatusName(log.status) == filterStatus
  {
  }
}
