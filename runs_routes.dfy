/** The write side of the `/runs` routes: request validation and
    `create_run`. The read routes are the queries of module Registry. */
module RunRoutes {
  import opened Common
  import opened RunModel
  import Registry
  import Database

  /** The `RunCreate` request body. A field absent from the body is `None`;
      `name` and `platform` are required, the rest default to null. */
  datatype RunCreate = RunCreate(
    name: Option<string>,
    platform: Option<string>,
    vehicle: Option<string>,
    operator: Option<string>,
    notes: Option<string>,
    configJson: Option<string>)

  /** Request validation and row construction: the run stored under `id`
      when the body is accepted. A body is accepted exactly when `name` and
      `platform` are present and the run it describes fits the columns of
      the `runs` table; no minimum length is enforced, and `notes` and
      `config_json` are unbounded. */
  function NewRun(req: RunCreate, id: int): (r: Result<Run>)
    ensures r.Failure? <==> req.name.None? || req.platform.None? ||
                            !WellFormed(Run(id, req.name.value, req.platform.value, req.vehicle,
                                            req.operator, req.notes, req.configJson))
    ensures r.Failure? ==> r.error == ValidationError
    ensures r.Success? ==> && r.value.id == id && WellFormed(r.value)
                           && Some(r.value.name) == req.name && Some(r.value.platform) == req.platform
                           && r.value.vehicle == req.vehicle && r.value.operator == req.operator
                           && r.value.notes == req.notes && r.value.configJson == req.configJson
  {
    if req.name.None? || |req.name.value| > NameMaxLen then Failure(ValidationError)
    else if req.platform.None? || |req.platform.value| > PlatformMaxLen then Failure(ValidationError)
    else if !FitsOptional(req.vehicle, VehicleMaxLen) then Failure(ValidationError)
    else if !FitsOptional(req.operator, OperatorMaxLen) then Failure(ValidationError)
    else Success(Run(id, req.name.value, req.platform.value, req.vehicle, req.operator, req.notes, req.configJson))
  }

  /** `create_run`: stores exactly the submitted fields under a fresh id
      (greater than every existing one), leaves existing runs as they were,
      and the new run is then the latest. */
  method CreateRun(db: Database.Store, req: RunCreate) returns (r: Result<Run>)
    requires db.Valid()
    modifies db
    ensures db.Valid()
    ensures r == NewRun(req, old(db.nextRunId))
    ensures r.Failure? ==> db.runs == old(db.runs) && db.nextRunId == old(db.nextRunId)
    ensures r.Success? ==> db.runs == old(db.runs) + [r.value] && db.nextRunId == old(db.nextRunId) + 1
    ensures r.Success? ==> r.value.id !in old(db.RunIds()) && db.RunIds() == old(db.RunIds()) + {r.value.id}
    ensures r.Success? ==> Registry.LatestRun(db.runs) == Success(r.value)
  {
    r := NewRun(req, db.nextRunId);
    if r.Success? {
      ghost var before := db.runs;
      assert forall x | x in before :: x.id < r.value.id;
      db.AddRun(r.value);
      Registry.LatestRunAfterAppend(before, r.value);
    }
  }
}
