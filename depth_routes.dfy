/** The depth routes: insert one sample, the latest sample
    (globally or within a run) and the samples of one run by time window. */
module DepthRoutes {
  import opened Common
  import opened SampleModel
  import opened DepthModel
  import Stream
  import Database

  const NoDepthSamples: string := "No depth samples found"

  /** `CreateDepthSample`: an insert for an unknown run fails "Run not found"
      and stores nothing; otherwise exactly one row carrying the submitted
      fields is appended under the table's next id. */
  method CreateDepthSample(db: Database.Store, req: SampleCreate<DepthData>) returns (r: Result<Sample<DepthData>>)
    requires db.Valid()
    modifies db.depth
    ensures db.Valid()
    ensures req.runId !in db.RunIds() ==> r == Failure(NotFound(RunNotFound))
    ensures r.Failure? ==> db.depth.rows == old(db.depth.rows) && db.depth.nextId == old(db.depth.nextId)
    ensures req.runId in db.RunIds() ==>
              && r == Success(ToRow(req, old(db.depth.nextId)))
              && db.depth.rows == old(db.depth.rows) + [r.value]
              && db.depth.nextId == old(db.depth.nextId) + 1
  {
    if req.runId !in db.RunIds() {
      return Failure(NotFound(RunNotFound));
    }
    var row := db.depth.Append(req, db.RunIds());
    return Success(row);
  }

  /** `GetLatestDepthSample`: the row with the greatest (t_us, id), globally or
      within an existing run; "No depth samples found" for an empty selection. */
  function GetLatestDepthSample(db: Database.Store, runId: Option<int>): (r: Result<Sample<DepthData>>)
    reads db, db.depth
    ensures Stream.LatestAnswer(db.depth.rows, db.RunIds(), runId, NoDepthSamples, r)
  {
    Stream.GetLatest(db.depth.rows, db.RunIds(), runId, NoDepthSamples)
  }

  /** `ListDepthForRun`: the run's rows within the inclusive t_us bounds,
      ascending in t_us and capped by `limit`; may be empty. */
  function ListDepthForRun(db: Database.Store, runId: int, tStart: Option<int>, tEnd: Option<int>,
                    limit: Option<int>): (r: Result<seq<Sample<DepthData>>>)
    reads db, db.depth
    ensures Stream.ListAnswer(db.depth.rows, db.RunIds(), runId, tStart, tEnd, limit, r)
  {
    Stream.ListByRun(db.depth.rows, db.RunIds(), runId, tStart, tEnd, limit)
  }
}
