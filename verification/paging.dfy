/** Reading a result set page by page (the offset loops of internal/service). */
module Paging {

  const PAGE: int := 100

  /** One page of a result set. */
  function PageAt<T>(rows: seq<T>, offset: nat): seq<T>
    requires offset <= |rows|
  {
    if offset + PAGE <= |rows| then rows[offset..offset + PAGE] else rows[offset..]
  }

  /** The result set as each of several queries sees it; rows may join it at the end from one query
      to the next. */
  ghost predicate Growing<T>(views: seq<seq<T>>) {
    forall i, j :: 0 <= i <= j < |views| ==> views[i] <= views[j]
  }

  /** The loop of allShifts and allTrips: page after page, each from its own query, until as many rows are
      read as the last query counted. It reads exactly what the last query saw. */
  method ReadAll<T>(views: seq<seq<T>>) returns (result: seq<T>)
    requires Growing(views) && 0 < |views| && |views[|views| - 1]| <= 100 * |views|
    ensures exists last :: 0 <= last < |views| && result == views[last]
  {
    result := [];
    var query := 0;
    while true
      invariant 0 <= query < |views|
      invariant |result| == PAGE * query && result <= views[query]
      decreases |views| - query
    {
      var rows := views[query];
      var page := PageAt(rows, PAGE * query);
      result := result + page;
      if |result| >= |rows| {
        return;
      }
      assert rows <= views[|views| - 1];
      query := query + 1;
      assert rows <= views[query];
    }
  }
}
