/** The control input routes: insert one sample, the latest sample
    (globally or within a run) and the samples of one run by time window. */
module InputsRoutes {
  import opened Common
  import opened SampleModel
  import opened InputsModel
  import Stream
  import Database

  const NoControlInputs: string := "No control inputs found"

  /** `CreateControlInput`: an insert for an unknown run fails "Run not found"
      and stores nothing; otherwise exactly one row carrying the submitted
      fields is appended under the table's next id. */
  method CreateControlInput(db: Database.Store, req: SampleCreate<ControlData>) returns (r: Result<Sample<ControlData>>)
    requires db.Valid()
    modifies db.inputs
    ensures db.Valid()
    ensures req.runId !in db.RunIds() ==> r == Failure(NotFound(RunNotFound))
    ensures r.Failure? ==> db.inputs.rows == old(db.inputs.rows) && db.inputs.nextId == old(db.inputs.nextId)
    ensures req.runId in db.RunIds() ==>
              && r == Success(ToRow(req, old(db.inputs.nextId)))
              && db.inputs.rows == old(db.inputs.rows) + [r.value]
              && db.inputs.nextId == old(db.inputs.nextId) + 1
  {
    if req.runId !in db.RunIds() {
      return Failure(NotFound(RunNotFound));
    }
    var row := db.inputs.Append(req, db.RunIds());
    return Success(row);
  }

  /** `GetLatestControlInput`: the row with the greatest (t_us, id), globally or
      within an existing run; "No control inputs found" for an empty selection. */
  function GetLatestControlInput(db: Database.Store, runId: Option<int>): (r: Result<Sample<ControlData>>)
    reads db, db.inputs
    ensures Stream.LatestAnswer(db.inputs.rows, db.RunIds(), runId, NoControlInputs, r)
  {
    Stream.GetLatest(db.inputs.rows, db.RunIds(), runId, NoControlInputs)
  }

  /** `ListControlInputsForRun`: the run's rows within the inclusive t_us bounds,
      ascending in t_us and capped by `limit`; may be empty. */
  function ListControlInputsForRun(db: Database.Store, runId: int, tStart: Option<int>, tEnd: Option<int>,
                    limit: Option<int>): (r: Result<seq<Sample<ControlData>>>)
    reads db, db.inputs
    ensures Stream.ListAnswer(db.inputs.rows, db.RunIds(), runId, tStart, tEnd, limit, r)
  {
    Stream.ListByRun(db.inputs.rows, db.RunIds(), runId, tStart, tEnd, limit)
  }
}
