/** The servo output routes: insert one sample, the latest sample
    (globally or within a run) and the samples of one run by time window. */
module ServoRoutes {
  import opened Common
  import opened SampleModel
  import opened ServoModel
  import Stream
  import Database

  const NoServoOutputs: string := "No servo outputs found"

  /** `CreateServoOutput`: an insert for an unknown run fails "Run not found"
      and stores nothing; otherwise exactly one row carrying the submitted
      fields is appended under the table's next id. Every channel
      outside [0, 255] is rejected before the run check. */
  method CreateServoOutput(db: Database.Store, req: SampleCreate<ServoData>) returns (r: Result<Sample<ServoData>>)
    requires db.Valid()
    modifies db.servo
    ensures db.Valid()
    ensures !ServoModel.ChannelsInRange(req.payload) ==> r == Failure(ValidationError)
    ensures ServoModel.ChannelsInRange(req.payload) && req.runId !in db.RunIds() ==> r == Failure(NotFound(RunNotFound))
    ensures r.Failure? ==> db.servo.rows == old(db.servo.rows) && db.servo.nextId == old(db.servo.nextId)
    ensures ServoModel.ChannelsInRange(req.payload) && req.runId in db.RunIds() ==>
              && r == Success(ToRow(req, old(db.servo.nextId)))
              && db.servo.rows == old(db.servo.rows) + [r.value]
              && db.servo.nextId == old(db.servo.nextId) + 1
  {
    if !ServoModel.ChannelsInRange(req.payload) {
      return Failure(ValidationError);
    }
    if req.runId !in db.RunIds() {
      return Failure(NotFound(RunNotFound));
    }
    var row := db.servo.Append(req, db.RunIds());
    return Success(row);
  }

  /** `GetLatestServoOutput`: the row with the greatest (t_us, id), globally or
      within an existing run; "No servo outputs found" for an empty selection. */
  function GetLatestServoOutput(db: Database.Store, runId: Option<int>): (r: Result<Sample<ServoData>>)
    reads db, db.servo
    ensures Stream.LatestAnswer(db.servo.rows, db.RunIds(), runId, NoServoOutputs, r)
  {
    Stream.GetLatest(db.servo.rows, db.RunIds(), runId, NoServoOutputs)
  }

  /** `ListServoOutputsForRun`: the run's rows within the inclusive t_us bounds,
      ascending in t_us and capped by `limit`; may be empty. */
  function ListServoOutputsForRun(db: Database.Store, runId: int, tStart: Option<int>, tEnd: Option<int>,
                    limit: Option<int>): (r: Result<seq<Sample<ServoData>>>)
    reads db, db.servo
    ensures Stream.ListAnswer(db.servo.rows, db.RunIds(), runId, tStart, tEnd, limit, r)
  {
    Stream.ListByRun(db.servo.rows, db.RunIds(), runId, tStart, tEnd, limit)
  }
}
