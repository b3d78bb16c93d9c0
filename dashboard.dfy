/**
 * The usage dashboard: the status badge of a log row, the quota card, the
 * page of logs fetched for the table (range, sort column, endpoint paths
 * merged in), and the aggregates shown in the cards.
 *
 * The database queries are parameters: each is a function from what the page
 * asks for to what the database answers, so every answer is covered.
 */
module Dashboard {
  import opened Wrappers
  import opened MockApiCall

  /* ---------- Status badge ---------- */

  datatype Variant = Default | Destructive | Secondary

  /** The badge variant of a response status: success, client or server error, or anything else. */
  method StatusVariant(status: int) returns (variant: Variant)
    ensures variant == Default <==> 200 <= status < 300
    ensures variant == Destructive <==> status >= 400
    ensures variant == Secondary <==> status < 200 || 300 <= status < 400
  {
    variant := Secondary;
    if 200 <= status < 300 {
      variant := Default;
    }
    if 400 <= status < 500 {
      variant := Destructive;
    }
    if status >= 500 {
      variant := Destructive;
    }
  }

  /* ---------- Quota card ---------- */

  /** The "Quota Remaining" card: the limit minus the requests used. */
  function Remaining(q: Quota): int
  {
    q.limit - q.used
  }

  /**
   * The card reads the same row the route checks, with the same default when
   * the row is missing or cannot be read: it shows a positive number exactly
   * when the route would still admit a request, and each admitted request lowers it by one.
   */
  lemma RemainingAgreesWithRoute(row: Option<Quota>)
    ensures Remaining(Effective(row)) > 0 <==> !Exhausted(Effective(row))
    ensures row.None? ==> Remaining(Effective(row)) == PlanLimit
    ensures !Exhausted(Effective(row)) ==> Remaining(Consumed(row)) == Remaining(Effective(row)) - 1
  {
  }

  /* ---------- Page range ---------- */

  /** The first row of a page. */
  function RangeFrom(pageIndex: nat, pageSize: nat): int
  {
    pageIndex * pageSize
  }

  /** The last row of a page (the range is inclusive at both ends). */
  function RangeTo(pageIndex: nat, pageSize: nat): int
  {
    RangeFrom(pageIndex, pageSize) + pageSize - 1
  }

  /**
   * Pages tile the rows: each page holds exactly `pageSize` rows, the next page
   * starts right after it, and row `r` lies on page `r / pageSize` and on no other.
   */
  lemma PagesTile(pageIndex: nat, pageSize: nat, r: nat)
    ensures RangeTo(pageIndex, pageSize) - RangeFrom(pageIndex, pageSize) + 1 == pageSize
    ensures RangeFrom(pageIndex + 1, pageSize) == RangeTo(pageIndex, pageSize) + 1
    ensures pageSize > 0 ==>
      (RangeFrom(pageIndex, pageSize) <= r <= RangeTo(pageIndex, pageSize) <==> pageIndex == r / pageSize)
  {
    if pageSize > 0 {
      var q := r / pageSize;
      assert q * pageSize <= r < q * pageSize + pageSize;
      if pageIndex < q {
        MulMonotone(pageIndex + 1, q, pageSize);
      } else if pageIndex > q {
        MulMonotone(q + 1, pageIndex, pageSize);
      }
    }
  }

  lemma MulMonotone(a: nat, b: nat, c: nat)
    requires a <= b
    ensures a * c <= b * c
  {
    var k := b - a;
    assert b * c == a * c + k * c;
  }

  /* ---------- Sort column ---------- */

  /** One entry of the table's sorting state. */
  datatype SortRule = SortRule(id: string, desc: bool)

  const AllowedSortColumns: seq<string> := ["request_time", "response_status", "response_time_ms"]

  /** The column and direction the logs query orders by. */
  function OrderBy(sorting: seq<SortRule>): (order: (string, bool))
  {
    var col := if sorting == [] then "request_time" else sorting[0].id;
    var desc := if sorting == [] then true else sorting[0].desc;
    (if col in AllowedSortColumns then col else "request_time", !desc)
  }

  /**
   * The query always orders by an allowed column: the requested one when it is
   * allowed, otherwise `request_time`; with no sorting, newest first. The
   * direction is the opposite of `desc`, and an allowed order is kept as it is.
   */
  lemma OrderByAllowList(sorting: seq<SortRule>)
    ensures OrderBy(sorting).0 in AllowedSortColumns
    ensures sorting != [] && sorting[0].id in AllowedSortColumns ==> OrderBy(sorting).0 == sorting[0].id
    ensures sorting != [] && sorting[0].id !in AllowedSortColumns ==> OrderBy(sorting).0 == "request_time"
    ensures sorting == [] ==> OrderBy(sorting) == ("request_time", false)
    ensures sorting != [] ==> OrderBy(sorting).1 == !sorting[0].desc
    ensures var (col, ascending) := OrderBy(sorting); OrderBy([SortRule(col, !ascending)]) == (col, ascending)
  {
  }

  /* ---------- Logs, endpoint paths, merging ---------- */

  /**
   * A row of `api_requests`. `requestTime` is the timestamp in milliseconds, or
   * `None` when it is not a valid date; `endpointId` is `None` when null.
   */
  datatype Log = Log(id: string, requestTime: Option<int>, endpointId: Option<string>, status: int, responseTimeMs: int)

  /** A row of `api_endpoints` as the page selects it. */
  datatype EndpointRow = EndpointRow(id: string, path: string)

  /** A log with the endpoint path merged in; `path` is `None` when the log has no endpoint. */
  datatype MergedLog = MergedLog(log: Log, path: Option<string>)

  /** An endpoint id JavaScript treats as present: neither null nor the empty string. */
  predicate HasEndpoint(log: Log)
  {
    log.endpointId.Some? && log.endpointId.value != ""
  }

  /** The distinct present endpoint ids of the logs, in order of first appearance. */
  function EndpointIds(logs: seq<Log>): seq<string>
  {
    if logs == [] then []
    else
      var ids := EndpointIds(logs[..|logs| - 1]);
      var last := logs[|logs| - 1];
      if HasEndpoint(last) && last.endpointId.value !in ids then ids + [last.endpointId.value] else ids
  }

  /** The id list has no repeats and no empty id, and holds exactly the ids some log carries. */
  lemma {:induction false} EndpointIdsSpec(logs: seq<Log>)
    ensures forall i, j :: 0 <= i < j < |EndpointIds(logs)| ==> EndpointIds(logs)[i] != EndpointIds(logs)[j]
    ensures forall x :: x in EndpointIds(logs) <==> exists i :: 0 <= i < |logs| && HasEndpoint(logs[i]) && logs[i].endpointId.value == x
  {
    if logs != [] {
      var init := logs[..|logs| - 1];
      EndpointIdsSpec(init);
      forall x | x in EndpointIds(logs)
        ensures exists i :: 0 <= i < |logs| && HasEndpoint(logs[i]) && logs[i].endpointId.value == x
      {
        if x in EndpointIds(init) {
          var i :| 0 <= i < |init| && HasEndpoint(init[i]) && init[i].endpointId.value == x;
          assert logs[i] == init[i];
        } else {
          assert HasEndpoint(logs[|logs| - 1]) && logs[|logs| - 1].endpointId.value == x;
        }
      }
      forall x | exists i :: 0 <= i < |logs| && HasEndpoint(logs[i]) && logs[i].endpointId.value == x
        ensures x in EndpointIds(logs)
      {
        var i :| 0 <= i < |logs| && HasEndpoint(logs[i]) && logs[i].endpointId.value == x;
        if i < |init| {
          assert init[i] == logs[i];
        }
      }
    }
  }

  /** The endpoint-id-to-path map of the fetched rows: a later row with the same id overwrites an earlier one. */
  function PathMap(rows: seq<EndpointRow>): map<string, string>
  {
    if rows == [] then map[]
    else PathMap(rows[..|rows| - 1])[rows[|rows| - 1].id := rows[|rows| - 1].path]
  }

  /** Exactly the fetched ids are mapped. */
  lemma {:induction false} PathMapDomain(rows: seq<EndpointRow>, id: string)
    ensures id in PathMap(rows) <==> exists i :: 0 <= i < |rows| && rows[i].id == id
  {
    if rows != [] {
      var init := rows[..|rows| - 1];
      PathMapDomain(init, id);
      if exists i :: 0 <= i < |rows| && rows[i].id == id {
        var i :| 0 <= i < |rows| && rows[i].id == id;
        if i < |init| {
          assert init[i] == rows[i];
        }
      }
      if exists i :: 0 <= i < |init| && init[i].id == id {
        var i :| 0 <= i < |init| && init[i].id == id;
        assert rows[i] == init[i];
      }
    }
  }

  /** An id is mapped to the path of the last fetched row that carries it. */
  lemma {:induction false} PathMapLast(rows: seq<EndpointRow>, k: nat)
    requires k < |rows|
    requires forall j :: k < j < |rows| ==> rows[j].id != rows[k].id
    ensures rows[k].id in PathMap(rows) && PathMap(rows)[rows[k].id] == rows[k].path
  {
    if k < |rows| - 1 {
      var init := rows[..|rows| - 1];
      assert init[k] == rows[k];
      PathMapLast(init, k);
    }
  }

  /** Building the path map row by row, as the page's accumulator does. */
  method BuildPathMap(rows: seq<EndpointRow>) returns (paths: map<string, string>)
    ensures paths == PathMap(rows)
  {
    paths := map[];
    var i := 0;
    while i < |rows|
      invariant 0 <= i <= |rows|
      invariant paths == PathMap(rows[..i])
    {
      assert rows[..i + 1][..i] == rows[..i];
      paths := paths[rows[i].id := rows[i].path];
      i := i + 1;
    }
    assert rows[..i] == rows;
  }

  const UnknownPath: string := "Unknown Path"

  /** One log with its endpoint path merged in. */
  function MergeOne(log: Log, paths: map<string, string>): MergedLog
  {
    MergedLog(log, if HasEndpoint(log) then Some(if log.endpointId.value in paths then paths[log.endpointId.value] else UnknownPath) else None)
  }

  /** Every log with its endpoint path merged in, in the same order. */
  function MergePaths(logs: seq<Log>, paths: map<string, string>): (merged: seq<MergedLog>)
    ensures |merged| == |logs|
    ensures forall i :: 0 <= i < |logs| ==> merged[i] == MergeOne(logs[i], paths)
  {
    if logs == [] then [] else [MergeOne(logs[0], paths)] + MergePaths(logs[1..], paths)
  }

  /**
   * Merging keeps each log as it was, in order; a log gets no path exactly when
   * it has no endpoint, and "Unknown Path" when no fetched row has its id.
   */
  lemma MergeSpec(logs: seq<Log>, rows: seq<EndpointRow>, i: nat)
    requires i < |logs|
    ensures MergePaths(logs, PathMap(rows))[i].log == logs[i]
    ensures !HasEndpoint(logs[i]) <==> MergePaths(logs, PathMap(rows))[i].path.None?
    ensures HasEndpoint(logs[i]) && (forall k :: 0 <= k < |rows| ==> rows[k].id != logs[i].endpointId.value) ==>
      MergePaths(logs, PathMap(rows))[i].path == Some(UnknownPath)
  {
    if HasEndpoint(logs[i]) {
      PathMapDomain(rows, logs[i].endpointId.value);
    }
  }

  /** A log whose id some fetched row carries gets the path of the last such row. */
  lemma MergeFound(logs: seq<Log>, rows: seq<EndpointRow>, i: nat, k: nat)
    requires i < |logs| && HasEndpoint(logs[i])
    requires k < |rows| && rows[k].id == logs[i].endpointId.value
    requires forall j :: k < j < |rows| ==> rows[j].id != rows[k].id
    ensures MergePaths(logs, PathMap(rows))[i].path == Some(rows[k].path)
  {
    PathMapLast(rows, k);
  }

  /* ---------- Aggregates ---------- */

  function TotalResponseTime(logs: seq<MergedLog>): int
  {
    if logs == [] then 0 else TotalResponseTime(logs[..|logs| - 1]) + logs[|logs| - 1].log.responseTimeMs
  }

  /** `Math.round(total / count)`: the nearest integer, halves rounded up; 0 for no logs. */
  function AverageResponseTime(logs: seq<MergedLog>): (avg: int)
    ensures logs == [] ==> avg == 0
    ensures logs != [] ==>
      2 * TotalResponseTime(logs) - |logs| < 2 * |logs| * avg <= 2 * TotalResponseTime(logs) + |logs|
  {
    if logs == [] then 0
    else
      var n, t := |logs|, TotalResponseTime(logs);
      var avg := (2 * t + n) / (2 * n);
      assert (2 * n) * avg + (2 * t + n) % (2 * n) == 2 * t + n;
      avg
  }

  /** A uniform response time is shown as it is. */
  lemma AverageOfUniform(logs: seq<MergedLog>, ms: int)
    requires logs != []
    requires forall i :: 0 <= i < |logs| ==> logs[i].log.responseTimeMs == ms
    ensures AverageResponseTime(logs) == ms
  {
    UniformTotal(logs, ms);
    var n := |logs|;
    assert 2 * TotalResponseTime(logs) == (2 * n) * ms;
    RoundingUnique(2 * n, n, AverageResponseTime(logs), ms);
  }

  /** Within less than half a step of `m`, the only multiple of `d` is `d * m`. */
  lemma RoundingUnique(d: int, n: int, a: int, m: int)
    requires 0 < n < d
    requires d * m - n < d * a <= d * m + n
    ensures a == m
  {
    if a < m {
      MulMonotoneInt(a + 1, m, d);
    } else if a > m {
      MulMonotoneInt(m + 1, a, d);
    }
  }

  lemma {:induction false} UniformTotal(logs: seq<MergedLog>, ms: int)
    requires forall i :: 0 <= i < |logs| ==> logs[i].log.responseTimeMs == ms
    ensures TotalResponseTime(logs) == |logs| * ms
  {
    if logs != [] {
      UniformTotal(logs[..|logs| - 1], ms);
    }
  }

  lemma MulMonotoneInt(a: int, b: int, c: nat)
    requires a <= b
    ensures a * c <= b * c
  {
    var k := b - a;
    assert b * c == a * c + k * c;
  }

  /** The logs with a valid timestamp at or after `cutoff` (the moment 24 hours before now). */
  function RequestsSince(logs: seq<MergedLog>, cutoff: int): (count: nat)
    ensures count <= |logs|
  {
    if logs == [] then 0
    else
      var t := logs[|logs| - 1].log.requestTime;
      RequestsSince(logs[..|logs| - 1], cutoff) + (if t.Some? && t.value >= cutoff then 1 else 0)
  }

  /**
   * Every log is counted exactly when every log has a valid time at or after
   * the cutoff, and none is counted exactly when none has; a later cutoff
   * never counts more.
   */
  lemma {:induction false} RequestsSinceSpec(logs: seq<MergedLog>, cutoff: int, later: int)
    requires cutoff <= later
    ensures RequestsSince(logs, cutoff) == |logs| <==>
      forall i :: 0 <= i < |logs| ==> logs[i].log.requestTime.Some? && logs[i].log.requestTime.value >= cutoff
    ensures RequestsSince(logs, cutoff) == 0 <==>
      forall i :: 0 <= i < |logs| ==> !(logs[i].log.requestTime.Some? && logs[i].log.requestTime.value >= cutoff)
    ensures RequestsSince(logs, later) <= RequestsSince(logs, cutoff)
  {
    if logs != [] {
      var init := logs[..|logs| - 1];
      RequestsSinceSpec(init, cutoff, later);
      assert forall i :: 0 <= i < |init| ==> init[i] == logs[i];
    }
  }

  /* ---------- The page ---------- */

  /**
   * The logs of a non-empty page with their endpoint paths: the paths of the
   * logs' endpoint ids as the endpoints query returns them, none when there is
   * no id to look up or the query fails.
   */
  function MergedPage(logs: seq<Log>, endpointsQuery: seq<string> -> Option<seq<EndpointRow>>): seq<MergedLog>
  {
    var ids := EndpointIds(logs);
    MergePaths(logs, PathMap(if ids == [] then [] else endpointsQuery(ids).GetOr([])))
  }

  /** The endpoint lookup and the merge, as `fetchData` performs them. */
  method LoadPaths(logs: seq<Log>, endpointsQuery: seq<string> -> Option<seq<EndpointRow>>)
    returns (merged: seq<MergedLog>)
    ensures merged == MergedPage(logs, endpointsQuery)
  {
    var ids := EndpointIds(logs);
    var paths: map<string, string> := map[];
    if ids != [] {
      var fetched := endpointsQuery(ids);
      if fetched.Some? {
        paths := BuildPathMap(fetched.value);
      }
    }
    merged := MergePaths(logs, paths);
  }

  /** What the logs query answers: the rows of the requested range, or an error message. */
  datatype LogsAnswer = LogsData(logs: seq<Log>) | LogsError(message: string)

  const LoadErrorPrefix: string := "Failed to load usage data. Reason: Failed to fetch request logs: "

  /** The load error and the logs and aggregates the page shows. */
  datatype LogsView = LogsView(error: Option<string>, logs: seq<MergedLog>, average: Option<int>, today: Option<int>)

  /**
   * What the page shows for the logs query's answer, from what it showed
   * before: the load error, with the logs and aggregates left as they were;
   * nothing and zeros for an empty page; otherwise the merged logs and their aggregates.
   */
  function ShowAnswer(before: LogsView, answer: LogsAnswer,
                      endpointsQuery: seq<string> -> Option<seq<EndpointRow>>, cutoff: int): (view: LogsView)
  {
    match answer
    case LogsError(message) => before.(error := Some(LoadErrorPrefix + message))
    case LogsData(logs) =>
      if logs == [] then LogsView(None, [], Some(0), Some(0))
      else
        var merged := MergedPage(logs, endpointsQuery);
        LogsView(None, merged, Some(AverageResponseTime(merged)), Some(RequestsSince(merged, cutoff)))
  }

  /**
   * An error is shown exactly when the logs query fails, and then nothing else
   * changes; otherwise the page shows every fetched log, in order, and both aggregates.
   */
  lemma ShowAnswerSpec(before: LogsView, answer: LogsAnswer,
                       endpointsQuery: seq<string> -> Option<seq<EndpointRow>>, cutoff: int)
    ensures var view := ShowAnswer(before, answer, endpointsQuery, cutoff);
      (answer.LogsError? <==> view.error.Some?)
      && (answer.LogsError? ==> view.logs == before.logs && view.average == before.average && view.today == before.today)
      && (answer.LogsData? ==> |view.logs| == |answer.logs| && view.average.Some? && view.today.Some?)
      && (answer.LogsData? ==> forall i :: 0 <= i < |view.logs| ==> view.logs[i].log == answer.logs[i])
  {
  }

  /** The part of `fetchData` after the logs query: the early exit on an error or an empty page, then the merge. */
  method ShowLogs(before: LogsView, answer: LogsAnswer, endpointsQuery: seq<string> -> Option<seq<EndpointRow>>, cutoff: int)
    returns (view: LogsView)
    ensures view == ShowAnswer(before, answer, endpointsQuery, cutoff)
  {
    if answer.LogsError? {
      return before.(error := Some(LoadErrorPrefix + answer.message));
    }
    var logs := answer.logs;
    if logs == [] {
      return LogsView(None, [], Some(0), Some(0));
    }
    var merged := LoadPaths(logs, endpointsQuery);
    view := LogsView(None, merged, Some(AverageResponseTime(merged)), Some(RequestsSince(merged, cutoff)));
  }

  /** The state of the dashboard page. */
  class DashboardPage {
    var loading: bool
    var redirectedToSignIn: bool
    var totalRequests: Option<int>
    var rowCount: int
    /** `requestsUsed` and `requestsLimit`. */
    var quota: Quota
    /** `error`, `requestLogs`, `avgResponseTime` and `requestsToday`. */
    var shown: LogsView
    var pageIndex: nat
    var pageSize: nat
    var sorting: seq<SortRule>

    /** The page as first rendered: loading, nothing used of 10, first page of 10, newest first. */
    constructor ()
      ensures loading && !redirectedToSignIn && totalRequests.None? && rowCount == 0
      ensures quota == Quota(0, PlanLimit) && shown == LogsView(None, [], None, None)
      ensures pageIndex == 0 && pageSize == 10 && sorting == [SortRule("request_time", true)]
    {
      loading := true;
      redirectedToSignIn := false;
      totalRequests := None;
      rowCount := 0;
      quota := Quota(0, PlanLimit);
      shown := LogsView(None, [], None, None);
      pageIndex := 0;
      pageSize := 10;
      sorting := [SortRule("request_time", true)];
    }

    /**
     * `fetchData`. `quotaRow` is today's quota row as read (`None` when missing
     * or when the read fails); `totalCount` the exact count of the user's logs;
     * `logsQuery` answers for (column, ascending, from, to); `endpointsQuery`
     * gives the endpoint rows for a list of ids, or `None` on an error.
     * Without a user the page only redirects to sign-in; otherwise it shows the
     * quota (with the route's default), the count, and what the logs query for
     * the current page and order gives.
     */
    method FetchData(user: Option<UserId>, quotaRow: Option<Quota>, totalCount: Option<int>,
                     logsQuery: (string, bool, int, int) -> LogsAnswer,
                     endpointsQuery: seq<string> -> Option<seq<EndpointRow>>, cutoff: int)
      modifies this
      ensures !loading && pageIndex == old(pageIndex) && pageSize == old(pageSize) && sorting == old(sorting)
      ensures user.None? ==>
        redirectedToSignIn && shown == old(shown).(error := None) && quota == old(quota)
        && totalRequests == old(totalRequests) && rowCount == old(rowCount)
      ensures user.Some? ==>
        quota == Effective(quotaRow) && totalRequests == Some(totalCount.GetOr(0)) && rowCount == totalCount.GetOr(0)
        && redirectedToSignIn == old(redirectedToSignIn)
        && shown == ShowAnswer(old(shown).(error := None),
                               logsQuery(OrderBy(sorting).0, OrderBy(sorting).1, RangeFrom(pageIndex, pageSize), RangeTo(pageIndex, pageSize)),
                               endpointsQuery, cutoff)
    {
      loading := true;
      shown := shown.(error := None);
      if user.None? {
        redirectedToSignIn := true;
        loading := false;
        return;
      }
      quota := Effective(quotaRow);
      totalRequests := Some(totalCount.GetOr(0));
      rowCount := totalCount.GetOr(0);

      var from := RangeFrom(pageIndex, pageSize);
      var to := RangeTo(pageIndex, pageSize);
      var order := OrderBy(sorting);
      var answer := logsQuery(order.0, order.1, from, to);
      shown := ShowLogs(shown, answer, endpointsQuery, cutoff);
      loading := false;
    }

    /** Choosing another page size goes back to the first page. */
    method OnPageSizeChange(size: nat)
      modifies this
      ensures pageSize == size && pageIndex == 0
      ensures sorting == old(sorting) && shown == old(shown)
      ensures loading == old(loading) && redirectedToSignIn == old(redirectedToSignIn) && quota == old(quota)
      ensures totalRequests == old(totalRequests) && rowCount == old(rowCount)
    {
      pageSize := size;
      pageIndex := 0;
    }

    /** Moving to another page changes the page index and nothing else. */
    method OnPageChange(index: nat)
      modifies this
      ensures pageIndex == index && pageSize == old(pageSize) && sorting == old(sorting) && shown == old(shown)
      ensures loading == old(loading) && redirectedToSignIn == old(redirectedToSignIn) && quota == old(quota)
      ensures totalRequests == old(totalRequests) && rowCount == old(rowCount)
    {
      pageIndex := index;
    }

    /** Sorting by other columns changes the sort rules and nothing else. */
    method OnSortingChange(rules: seq<SortRule>)
      modifies this
      ensures sorting == rules && pageIndex == old(pageIndex) && pageSize == old(pageSize) && shown == old(shown)
      ensures loading == old(loading) && redirectedToSignIn == old(redirectedToSignIn) && quota == old(quota)
      ensures totalRequests == old(totalRequests) && rowCount == old(rowCount)
    {
      sorting := rules;
    }
  }
}
