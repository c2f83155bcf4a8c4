/** The power (battery telemetry) routes: insert one sample, the latest sample
    (globally or within a run) and the samples of one run by time window. */
module PowerRoutes {
  import opened Common
  import opened SampleModel
  import opened PowerModel
  import Stream
  import Database

  const NoPowerSamples: string := "No power samples found"

  /** `CreatePowerSample`: an insert for an unknown run fails "Run not found"
      and stores nothing; otherwise exactly one row carrying the submitted
      fields is appended under the table's next id. */
  method CreatePowerSample(db: Database.Store, req: SampleCreate<PowerData>) returns (r: Result<Sample<PowerData>>)
    requires db.Valid()
    modifies db.power
    ensures db.Valid()
    ensures req.runId !in db.RunIds() ==> r == Failure(NotFound(RunNotFound))
    ensures r.Failure? ==> db.power.rows == old(db.power.rows) && db.power.nextId == old(db.power.nextId)
    ensures req.runId in db.RunIds() ==>
              && r == Success(ToRow(req, old(db.power.nextId)))
              && db.power.rows == old(db.power.rows) + [r.value]
              && db.power.nextId == old(db.power.nextId) + 1
  {
    if req.runId !in db.RunIds() {
      return Failure(NotFound(RunNotFound));
    }
    var row := db.power.Append(req, db.RunIds());
    return Success(row);
  }

  /** `GetLatestPowerSample`: the row with the greatest (t_us, id), globally or
      within an existing run; "No power samples found" for an empty selection. */
  function GetLatestPowerSample(db: Database.Store, runId: Option<int>): (r: Result<Sample<PowerData>>)
    reads db, db.power
    ensures Stream.LatestAnswer(db.power.rows, db.RunIds(), runId, NoPowerSamples, r)
  {
    Stream.GetLatest(db.power.rows, db.RunIds(), runId, NoPowerSamples)
  }

  /** `ListPowerForRun`: the run's rows within the inclusive t_us bounds,
      ascending in t_us and capped by `limit`; may be empty. */
  function ListPowerForRun(db: Database.Store, runId: int, tStart: Option<int>, tEnd: Option<int>,
                    limit: Option<int>): (r: Result<seq<Sample<PowerData>>>)
    reads db, db.power
    ensures Stream.ListAnswer(db.power.rows, db.RunIds(), runId, tStart, tEnd, limit, r)
  {
    Stream.ListByRun(db.power.rows, db.RunIds(), runId, tStart, tEnd, limit)
  }
}
