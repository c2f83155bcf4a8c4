/** The IMU routes: insert one sample, the latest sample
    (globally or within a run) and the samples of one run by time window. */
module ImuRoutes {
  import opened Common
  import opened SampleModel
  import opened ImuModel
  import Stream
  import Database

  const NoImuSamples: string := "No IMU samples found"

  /** `CreateImuSample`: an insert for an unknown run fails "Run not found"
      and stores nothing; otherwise exactly one row carrying the submitted
      fields is appended under the table's next id. */
  method CreateImuSample(db: Database.Store, req: SampleCreate<ImuData>) returns (r: Result<Sample<ImuData>>)
    requires db.Valid()
    modifies db.imu
    ensures db.Valid()
    ensures req.runId !in db.RunIds() ==> r == Failure(NotFound(RunNotFound))
    ensures r.Failure? ==> db.imu.rows == old(db.imu.rows) && db.imu.nextId == old(db.imu.nextId)
    ensures req.runId in db.RunIds() ==>
              && r == Success(ToRow(req, old(db.imu.nextId)))
              && db.imu.rows == old(db.imu.rows) + [r.value]
              && db.imu.nextId == old(db.imu.nextId) + 1
  {
    if req.runId !in db.RunIds() {
      return Failure(NotFound(RunNotFound));
    }
    var row := db.imu.Append(req, db.RunIds());
    return Success(row);
  }

  /** `GetLatestImuSample`: the row with the greatest (t_us, id), globally or
      within an existing run; "No IMU samples found" for an empty selection. */
  function GetLatestImuSample(db: Database.Store, runId: Option<int>): (r: Result<Sample<ImuData>>)
    reads db, db.imu
    ensures Stream.LatestAnswer(db.imu.rows, db.RunIds(), runId, NoImuSamples, r)
  {
    Stream.GetLatest(db.imu.rows, db.RunIds(), runId, NoImuSamples)
  }

  /** `ListImuForRun`: the run's rows within the inclusive t_us bounds,
      ascending in t_us and capped by `limit`; may be empty. */
  function ListImuForRun(db: Database.Store, runId: int, tStart: Option<int>, tEnd: Option<int>,
                    limit: Option<int>): (r: Result<seq<Sample<ImuData>>>)
    reads db, db.imu
    ensures Stream.ListAnswer(db.imu.rows, db.RunIds(), runId, tStart, tEnd, limit, r)
  {
    Stream.ListByRun(db.imu.rows, db.RunIds(), runId, tStart, tEnd, limit)
  }
}
