/** The contract every sample stream shares (IMU, depth, power, motor output,
    servo output, control input): append-only insert guarded by run
    existence, "latest" by the greatest (t_us, id), and a by-run time-window
    scan ordered by t_us and capped by `limit`. */
module Stream {
  import opened Common
  import opened SampleModel
  import Sorting

  /** Default and bounds of the `limit` query parameter. */
  const DefaultLimit: int := 5000
  const MaxLimit: int := 200000

  // ---------------------------------------------------------------------
  // Table invariants
  // ---------------------------------------------------------------------

  /** Ids are assigned in insertion order, so the rows of a table are kept
      with strictly ascending ids. */
  ghost predicate IdsAscending<P>(rows: seq<Sample<P>>)
  {
    forall i, j :: 0 <= i < j < |rows| ==> rows[i].id < rows[j].id
  }

  ghost predicate IdsBelow<P>(rows: seq<Sample<P>>, bound: int)
  {
    forall i :: 0 <= i < |rows| ==> rows[i].id < bound
  }

  /** Referential integrity: every row's `run_id` names an existing run. */
  ghost predicate RunsExist<P>(rows: seq<Sample<P>>, runIds: set<int>)
  {
    forall row | row in rows :: row.runId in runIds
  }

  // ---------------------------------------------------------------------
  // Latest
  // ---------------------------------------------------------------------

  /** The selection of a "latest" query: every row, or the rows of one run. */
  predicate Selected<P>(row: Sample<P>, runId: Option<int>)
  {
    runId.None? || row.runId == runId.value
  }

  /** The lexicographic order on (t_us, id). */
  predicate LexLe<P>(a: Sample<P>, b: Sample<P>)
  {
    a.tUs < b.tUs || (a.tUs == b.tUs && a.id <= b.id)
  }

  /** The row of the selection with the greatest (t_us, id), if any. */
  function Latest<P>(rows: seq<Sample<P>>, runId: Option<int>): (r: Option<Sample<P>>)
    ensures r.None? <==> forall i :: 0 <= i < |rows| ==> !Selected(rows[i], runId)
    ensures r.Some? ==> r.value in rows && Selected(r.value, runId)
    ensures r.Some? ==> forall i :: 0 <= i < |rows| && Selected(rows[i], runId) ==> LexLe(rows[i], r.value)
  {
    if rows == [] then None
    else
      var init := rows[..|rows| - 1];
      var last := rows[|rows| - 1];
      var best := Latest(init, runId);
      assert rows == init + [last];
      if !Selected(last, runId) then best
      else if best.Some? && !LexLe(best.value, last) then best
      else Some(last)
  }

  /** What a "latest" route answers: "Run not found" for an unknown run
      filter, `emptyDetail` for an empty selection, otherwise the selected
      row with the greatest (t_us, id). Without a run filter no run check is
      made and the selection is global. */
  ghost predicate LatestAnswer<P>(rows: seq<Sample<P>>, runIds: set<int>, runId: Option<int>,
                                  emptyDetail: string, r: Result<Sample<P>>)
  {
    if runId.Some? && runId.value !in runIds then
      r == Failure(NotFound(RunNotFound))
    else if forall i :: 0 <= i < |rows| ==> !Selected(rows[i], runId) then
      r == Failure(NotFound(emptyDetail))
    else
      && r.Success?
      && r.value in rows
      && Selected(r.value, runId)
      && forall i :: 0 <= i < |rows| && Selected(rows[i], runId) ==> LexLe(rows[i], r.value)
  }

  /** The "latest" route, shared by the six stream kinds. */
  function GetLatest<P>(rows: seq<Sample<P>>, runIds: set<int>, runId: Option<int>,
                        emptyDetail: string): (r: Result<Sample<P>>)
    ensures LatestAnswer(rows, runIds, runId, emptyDetail, r)
  {
    if runId.Some? && runId.value !in runIds then Failure(NotFound(RunNotFound))
    else
      match Latest(rows, runId)
      case None => Failure(NotFound(emptyDetail))
      case Some(row) => Success(row)
  }

  /** With unique ids the greatest (t_us, id) is a single row: any row of
      the selection that no other selected row exceeds is the one Latest
      returns. */
  lemma {:induction false} LatestIsUnique<P>(rows: seq<Sample<P>>, runId: Option<int>, x: Sample<P>)
    requires IdsAscending(rows)
    requires x in rows && Selected(x, runId)
    requires forall i :: 0 <= i < |rows| && Selected(rows[i], runId) ==> LexLe(rows[i], x)
    ensures Latest(rows, runId) == Some(x)
  {
    var l := Latest(rows, runId).value;
    var i :| 0 <= i < |rows| && rows[i] == x;
    var j :| 0 <= j < |rows| && rows[j] == l;
    assert LexLe(rows[j], x) && LexLe(rows[i], l);
    assert rows[i].id == rows[j].id;
    assert i == j;
  }

  /** A row appended with a fresh id and a t_us no smaller than any earlier
      selected row is the new latest: among equal t_us the later insert wins. */
  lemma {:induction false} LatestAfterAppend<P>(rows: seq<Sample<P>>, runId: Option<int>, row: Sample<P>)
    requires IdsAscending(rows)
    requires forall i :: 0 <= i < |rows| ==> rows[i].id < row.id
    requires Selected(row, runId)
    requires forall i :: 0 <= i < |rows| && Selected(rows[i], runId) ==> rows[i].tUs <= row.tUs
    ensures Latest(rows + [row], runId) == Some(row)
  {
    var all := rows + [row];
    assert IdsAscending(all);
    forall i | 0 <= i < |all| && Selected(all[i], runId)
      ensures LexLe(all[i], row)
    {
      if i < |rows| {
        assert all[i] == rows[i];
      }
    }
    LatestIsUnique(all, runId, row);
  }

  // ---------------------------------------------------------------------
  // By-run range scan
  // ---------------------------------------------------------------------

  /** The row belongs to `runId` and lies within the inclusive bounds that
      are given. */
  predicate InWindow<P>(row: Sample<P>, runId: int, tStart: Option<int>, tEnd: Option<int>)
  {
    && row.runId == runId
    && (tStart.None? || tStart.value <= row.tUs)
    && (tEnd.None? || row.tUs <= tEnd.value)
  }

  /** The rows the WHERE clause of the by-run query keeps, in table order. */
  function Matching<P>(rows: seq<Sample<P>>, runId: int, tStart: Option<int>, tEnd: Option<int>): (r: seq<Sample<P>>)
    ensures forall x | x in r :: x in rows
    ensures forall x | x in rows :: multiset(r)[x] == if InWindow(x, runId, tStart, tEnd) then multiset(rows)[x] else 0
  {
    if rows == [] then []
    else
      var init := rows[..|rows| - 1];
      var last := rows[|rows| - 1];
      assert rows == init + [last];
      var m := Matching(init, runId, tStart, tEnd);
      if InWindow(last, runId, tStart, tEnd) then m + [last] else m
  }

  function TimeKey<P>(row: Sample<P>): int
  {
    row.tUs
  }

  /** The by-run query: the matching rows ordered by t_us ascending, then the
      first `limit` of them. No tie-break among equal t_us is promised; the
      sort used here is one admissible order. */
  function RangeScan<P>(rows: seq<Sample<P>>, runId: int, tStart: Option<int>, tEnd: Option<int>, limit: nat): (r: seq<Sample<P>>)
    ensures |r| == Min(limit, |Matching(rows, runId, tStart, tEnd)|)
    ensures forall i, j :: 0 <= i < j < |r| ==> r[i].tUs <= r[j].tUs
  {
    var sorted := Sorting.SortBy(Matching(rows, runId, tStart, tEnd), TimeKey);
    sorted[..Min(limit, |sorted|)]
  }

  /** Every returned row is a row of the table, of the requested run and
      within the bounds; no row is returned more often than it matches. */
  lemma {:induction false} RangeScanSound<P>(rows: seq<Sample<P>>, runId: int, tStart: Option<int>, tEnd: Option<int>, limit: nat)
    ensures multiset(RangeScan(rows, runId, tStart, tEnd, limit)) <= multiset(Matching(rows, runId, tStart, tEnd))
    ensures forall i :: 0 <= i < |RangeScan(rows, runId, tStart, tEnd, limit)| ==>
              var x := RangeScan(rows, runId, tStart, tEnd, limit)[i]; x in rows && InWindow(x, runId, tStart, tEnd)
  {
    var m := Matching(rows, runId, tStart, tEnd);
    var sorted := Sorting.SortBy(m, TimeKey);
    var k := Min(limit, |sorted|);
    var r := RangeScan(rows, runId, tStart, tEnd, limit);
    assert r == sorted[..k];
    assert sorted == r + sorted[k..];
    assert multiset(sorted) == multiset(r) + multiset(sorted[k..]);
    forall i | 0 <= i < |r|
      ensures r[i] in rows && InWindow(r[i], runId, tStart, tEnd)
    {
      assert r[i] in multiset(r);
      assert multiset(m)[r[i]] > 0;
    }
  }

  /** When no more rows match than `limit` allows, the scan returns all of
      them: it is a permutation of the matching rows. */
  lemma {:induction false} RangeScanComplete<P>(rows: seq<Sample<P>>, runId: int, tStart: Option<int>, tEnd: Option<int>, limit: nat)
    requires |Matching(rows, runId, tStart, tEnd)| <= limit
    ensures multiset(RangeScan(rows, runId, tStart, tEnd, limit)) == multiset(Matching(rows, runId, tStart, tEnd))
  {
    var sorted := Sorting.SortBy(Matching(rows, runId, tStart, tEnd), TimeKey);
    assert sorted[..|sorted|] == sorted;
  }

  /** Truncation keeps the earliest rows: no matching row left out has a
      smaller t_us than a returned one. */
  lemma {:induction false} RangeScanKeepsEarliest<P>(rows: seq<Sample<P>>, runId: int, tStart: Option<int>, tEnd: Option<int>, limit: nat, x: Sample<P>)
    requires x in rows && InWindow(x, runId, tStart, tEnd)
    requires x !in RangeScan(rows, runId, tStart, tEnd, limit)
    ensures forall i :: 0 <= i < |RangeScan(rows, runId, tStart, tEnd, limit)| ==>
              RangeScan(rows, runId, tStart, tEnd, limit)[i].tUs <= x.tUs
  {
    var m := Matching(rows, runId, tStart, tEnd);
    var sorted := Sorting.SortBy(m, TimeKey);
    var k := Min(limit, |sorted|);
    var r := RangeScan(rows, runId, tStart, tEnd, limit);
    assert r == sorted[..k];
    assert multiset(rows)[x] > 0;
    assert x in multiset(sorted);
    var j :| 0 <= j < |sorted| && sorted[j] == x;
    assert forall t | 0 <= t < k :: sorted[t] == r[t];
    assert j >= k;
    forall i | 0 <= i < |r|
      ensures r[i].tUs <= x.tUs
    {
      assert r[i] == sorted[i];
      assert TimeKey(sorted[i]) <= TimeKey(sorted[j]);
    }
  }

  /** An inverted window (t_start_us > t_end_us) matches nothing, so the
      scan is empty; this is not an error. */
  lemma {:induction false} InvertedWindowIsEmpty<P>(rows: seq<Sample<P>>, runId: int, tStart: int, tEnd: int, limit: nat)
    requires tStart > tEnd
    ensures RangeScan(rows, runId, Some(tStart), Some(tEnd), limit) == []
  {
    var m := Matching(rows, runId, Some(tStart), Some(tEnd));
    assert forall x | x in m :: multiset(m)[x] == 0;
    assert multiset(m) == multiset{};
  }

  /** What a by-run route answers: a `limit` outside [1, 200000] (default
      5000) is a validation error, an unknown run is "Run not found", and
      otherwise the result is the range scan, which may be empty. */
  ghost predicate ListAnswer<P>(rows: seq<Sample<P>>, runIds: set<int>, runId: int,
                                tStart: Option<int>, tEnd: Option<int>, limit: Option<int>,
                                r: Result<seq<Sample<P>>>)
  {
    var lim := if limit.Some? then limit.value else DefaultLimit;
    if !(1 <= lim <= MaxLimit) then
      r == Failure(ValidationError)
    else if runId !in runIds then
      r == Failure(NotFound(RunNotFound))
    else
      && r.Success?
      && |r.value| == Min(lim, |Matching(rows, runId, tStart, tEnd)|)
      && (forall i, j :: 0 <= i < j < |r.value| ==> r.value[i].tUs <= r.value[j].tUs)
      && r.value == RangeScan(rows, runId, tStart, tEnd, lim)
  }

  /** The by-run route, shared by the six stream kinds. */
  function ListByRun<P>(rows: seq<Sample<P>>, runIds: set<int>, runId: int,
                        tStart: Option<int>, tEnd: Option<int>, limit: Option<int>): (r: Result<seq<Sample<P>>>)
    ensures ListAnswer(rows, runIds, runId, tStart, tEnd, limit, r)
  {
    var lim := if limit.Some? then limit.value else DefaultLimit;
    if !(1 <= lim <= MaxLimit) then Failure(ValidationError)
    else if runId !in runIds then Failure(NotFound(RunNotFound))
    else Success(RangeScan(rows, runId, tStart, tEnd, lim))
  }

  // ---------------------------------------------------------------------
  // Cascade
  // ---------------------------------------------------------------------

  /** The rows that survive deleting run `runId`, in table order. */
  function DropRun<P>(rows: seq<Sample<P>>, runId: int): (r: seq<Sample<P>>)
    ensures forall x | x in r :: x in rows && x.runId != runId
    ensures forall x | x in rows && x.runId != runId :: x in r
    ensures IdsAscending(rows) ==> IdsAscending(r)
    ensures |r| <= |rows|
  {
    if rows == [] then []
    else
      var rest := DropRun(rows[1..], runId);
      assert rows == [rows[0]] + rows[1..];
      assert IdsAscending(rows) ==> IdsAscending(rest) && forall y | y in rest :: rows[0].id < y.id by {
        if IdsAscending(rows) {
          TailAscending(rows);
        }
      }
      if rows[0].runId == runId then rest
      else
        assert IdsAscending(rows) ==> IdsAscending([rows[0]] + rest) by {
          if IdsAscending(rows) {
            PrependAscending(rows[0], rest);
          }
        }
        [rows[0]] + rest
  }

  /** The tail of an ascending sequence is ascending and above its head. */
  lemma TailAscending<P>(rows: seq<Sample<P>>)
    requires IdsAscending(rows) && rows != []
    ensures IdsAscending(rows[1..]) && forall y | y in rows[1..] :: rows[0].id < y.id
  {
    forall y | y in rows[1..]
      ensures rows[0].id < y.id
    {
      var k :| 0 <= k < |rows[1..]| && rows[1..][k] == y;
      assert rows[k + 1] == y;
    }
  }

  /** A row whose id is below every id of an ascending sequence can go in
      front of it. */
  lemma PrependAscending<P>(x: Sample<P>, rest: seq<Sample<P>>)
    requires IdsAscending(rest) && forall y | y in rest :: x.id < y.id
    ensures IdsAscending([x] + rest)
  {
    forall i, j | 0 <= i < j < |[x] + rest|
      ensures ([x] + rest)[i].id < ([x] + rest)[j].id
    {
      assert ([x] + rest)[j] == rest[j - 1];
      if i > 0 {
        assert ([x] + rest)[i] == rest[i - 1];
      }
    }
  }

  // ---------------------------------------------------------------------
  // The table object
  // ---------------------------------------------------------------------

  /** One sample table: its rows and the next value of its id sequence. */
  class Table<P> {
    var rows: seq<Sample<P>>
    var nextId: int

    ghost predicate Valid()
      reads this
    {
      nextId >= 1 && IdsAscending(rows) && IdsBelow(rows, nextId)
    }

    constructor ()
      ensures Valid() && rows == [] && nextId == 1
    {
      rows := [];
      nextId := 1;
    }

    /** `db.add(row); db.commit()`: the request is stored verbatim under the
        next id, after every existing row. */
    method Append(req: SampleCreate<P>, ghost runIds: set<int>) returns (row: Sample<P>)
      requires Valid()
      requires RunsExist(rows, runIds) && req.runId in runIds
      modifies this
      ensures Valid() && RunsExist(rows, runIds)
      ensures row == ToRow(req, old(nextId))
      ensures rows == old(rows) + [row]
      ensures nextId == old(nextId) + 1
      ensures forall i :: 0 <= i < |old(rows)| ==> old(rows)[i].id < row.id
    {
      row := ToRow(req, nextId);
      rows := rows + [row];
      nextId := nextId + 1;
    }

    /** The cascading delete of one run's rows from this table. */
    method DeleteRun(runId: int, ghost runIds: set<int>)
      requires Valid()
      requires RunsExist(rows, runIds)
      modifies this
      ensures Valid()
      ensures rows == DropRun(old(rows), runId)
      ensures nextId == old(nextId)
      ensures RunsExist(rows, runIds - {runId})
      ensures forall row | row in rows :: row in old(rows)
    {
      rows := DropRun(rows, runId);
    }
  }
}
