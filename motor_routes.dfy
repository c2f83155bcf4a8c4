/** The motor output routes: insert one sample, the latest sample
    (globally or within a run) and the samples of one run by time window. */
module MotorRoutes {
  import opened Common
  import opened SampleModel
  import opened MotorModel
  import Stream
  import Database

  const NoMotorOutputs: string := "No motor outputs found"

  /** `CreateMotorOutput`: an insert for an unknown run fails "Run not found"
      and stores nothing; otherwise exactly one row carrying the submitted
      fields is appended under the table's next id. Every channel
      outside [0, 255] is rejected before the run check. */
  method CreateMotorOutput(db: Database.Store, req: SampleCreate<MotorData>) returns (r: Result<Sample<MotorData>>)
    requires db.Valid()
    modifies db.motor
    ensures db.Valid()
    ensures !MotorModel.ChannelsInRange(req.payload) ==> r == Failure(ValidationError)
    ensures MotorModel.ChannelsInRange(req.payload) && req.runId !in db.RunIds() ==> r == Failure(NotFound(RunNotFound))
    ensures r.Failure? ==> db.motor.rows == old(db.motor.rows) && db.motor.nextId == old(db.motor.nextId)
    ensures MotorModel.ChannelsInRange(req.payload) && req.runId in db.RunIds() ==>
              && r == Success(ToRow(req, old(db.motor.nextId)))
              && db.motor.rows == old(db.motor.rows) + [r.value]
              && db.motor.nextId == old(db.motor.nextId) + 1
  {
    if !MotorModel.ChannelsInRange(req.payload) {
      return Failure(ValidationError);
    }
    if req.runId !in db.RunIds() {
      return Failure(NotFound(RunNotFound));
    }
    var row := db.motor.Append(req, db.RunIds());
    return Success(row);
  }

  /** `GetLatestMotorOutput`: the row with the greatest (t_us, id), globally or
      within an existing run; "No motor outputs found" for an empty selection. */
  function GetLatestMotorOutput(db: Database.Store, runId: Option<int>): (r: Result<Sample<MotorData>>)
    reads db, db.motor
    ensures Stream.LatestAnswer(db.motor.rows, db.RunIds(), runId, NoMotorOutputs, r)
  {
    Stream.GetLatest(db.motor.rows, db.RunIds(), runId, NoMotorOutputs)
  }

  /** `ListMotorOutputsForRun`: the run's rows within the inclusive t_us bounds,
      ascending in t_us and capped by `limit`; may be empty. */
  function ListMotorOutputsForRun(db: Database.Store, runId: int, tStart: Option<int>, tEnd: Option<int>,
                    limit: Option<int>): (r: Result<seq<Sample<MotorData>>>)
    reads db, db.motor
    ensures Stream.ListAnswer(db.motor.rows, db.RunIds(), runId, tStart, tEnd, limit, r)
  {
    Stream.ListByRun(db.motor.rows, db.RunIds(), runId, tStart, tEnd, limit)
  }
}
