# AUV telemetry store: a verified model

The AUV software records telemetry per **run** (one mission or test
session). A run has a name, a platform and optional vehicle, operator, notes
and configuration text. Six kinds of **sample streams** hang off a run:
IMU, depth, power, motor outputs, servo outputs and control inputs. Every
sample carries the run's id, a producer timestamp `t_us`, an optional
sequence number and its own payload. The HTTP API can create a run, list
runs newest first, fetch the latest run, and fetch one run by id. For each
stream it can insert a sample, return the latest sample (globally or within
a run), and list a run's samples in a time window. Deleting a run removes
its samples from every stream. A joystick **controller** maps stick
positions to bytes and posts them as control inputs, at most once per
minimum interval after a successful post, numbering its posts.

The model in Dafny:

- `common.dfy`: `Option`, the `Result`/`Error` pair standing for HTTP 422
  (`ValidationError`) and 404 (`NotFound(detail)`), and "Run not found".
- `run_model.dfy`, `sample_model.dfy` and the six `*_model.dfy` files: the
  run record with its column length bounds, the generic sample row
  `Sample<P>`, the insert request `SampleCreate<P>`, and each stream's payload.
- `sorting.dfy`: a stable sort by an integer key, proved sorted and a
  permutation. It stands for the database's `ORDER BY`.
- `stream.dfy`: the semantics shared by the six streams.
  - "latest" is the selected row with the greatest `(t_us, id)`;
  - the by-run scan is a window filter, an ascending `t_us` sort and a limit;
  - the cascade delete;
  - `Table<P>`, a class holding a stream's rows and its id sequence.
- `registry.dfy`: the read side of the runs table (list, latest, get, delete).
- `store.dfy`: the database as a class `Store`. It owns the runs and the six
  tables, and its `Valid()` keeps these invariants:
  - ids ascend;
  - every sample's run exists (the foreign key);
  - motor and servo channels stay in [0, 255].
- `runs_routes.dfy` and one `*_routes.dfy` per stream: the HTTP handlers.
  Each insert is a method that changes the store. Each query is a function
  of the store.
- `controller.dfy`: the controller as a class with its run id, post
  counter and last-post time. The clock readings and the outcomes of the
  HTTP requests are parameters.
- `scenarios.dfy`: end-to-end runs on a fresh store.

Behaviour modelled as the code has it:

- Request validation comes before the handler's run lookup. A by-run query
  with a `limit` outside [1, 200000] is a validation error even for an
  unknown run. A motor or servo channel outside [0, 255] is rejected before
  the run is looked up.
- "Latest" breaks `t_us` ties by the larger id (the later insert). The
  by-run listing orders by `t_us` only, so its contract promises ascending
  `t_us`. It does not promise any order among equal timestamps.
- The controller starts with run id 1. It never clears the run id, although
  the comment on the HTTP-error path (controller.py:153) says it should.
  Its lazy run creation posts an empty body, and the runs route rejects
  that body because `name` and `platform` are required
  (`AuvController.EmptyRunCreateRejected`). A controller without a run id
  could therefore never get one from this server.
- The controller increments its counter before posting. A failed post
  still uses up a `seq` value and leaves the last-post time unchanged, so
  the next call is not throttled.

## Model

| member | source | states |
|---|---|---|
| RunRoutes.NewRun | src/auvsoftware/api/routes/runs.py:21-27 | a run request fails with a validation error exactly when name or platform is missing, or a field exceeds its length bound (128/32/64/64); otherwise the run carries every submitted field under the given id |
| RunRoutes.CreateRun | src/auvsoftware/api/routes/runs.py:44-50 | an invalid request changes nothing; a valid one appends the run under the next id, which no existing run has, and that run becomes the latest run |
| Registry.ListRuns | src/auvsoftware/api/routes/runs.py:53-57 | the listing is a permutation of the stored runs ordered by descending id |
| Registry.ListRunsStrictlyDescending | src/auvsoftware/api/routes/runs.py:55 | with unique ascending ids the listing is strictly descending, so each run appears once |
| Registry.LatestRun | src/auvsoftware/api/routes/runs.py:60-66 | fails "No runs found" exactly when there are no runs; otherwise returns a stored run whose id is the maximum |
| Registry.LatestRunAfterAppend | src/auvsoftware/api/routes/runs.py:60-66 | a run added with an id above all existing ids is the latest run |
| Registry.GetRun | src/auvsoftware/api/routes/runs.py:69-74 | succeeds exactly when a run with that id exists and returns that run; otherwise "Run not found" |
| Registry.DropRun | src/auvsoftware/database/models/run.py:81-120 | deleting a run keeps exactly the other runs and keeps ids ascending |
| Registry.RunIdsDrop | src/auvsoftware/database/models/run.py:81-120 | after deleting a run the run ids are exactly the previous ids without the deleted one |
| Sorting.SortBy | src/auvsoftware/api/routes/runs.py:55 | the result is sorted by the key and is a permutation of the input |
| Sorting.InsertBy | src/auvsoftware/api/routes/runs.py:55 | inserting into a sorted sequence keeps it sorted and adds exactly one element |
| SampleModel.ToRow | src/auvsoftware/api/routes/imu.py:64-67 | the stored row carries the request's run id, t_us, seq and payload unchanged, under the assigned id |
| Database.Store.constructor | src/auvsoftware/database/models/run.py:26-42 | an empty database: no runs, empty streams, run ids start at 1 |
| Database.Store.AddRun | src/auvsoftware/database/models/run.py:37-41 | the primary key is unique and auto-incremented: the run is appended under the sequence's next id, which no stored run has; the sequence advances; ids stay strictly ascending (kept by `Valid`); the set of run ids gains exactly the new id |
| Database.Store.DeleteRun | src/auvsoftware/database/models/run.py:81-120 | deleting a run removes it and, in each of the six streams, exactly the rows referencing it; the invariants (foreign key, ascending ids, channel ranges) are kept |
| Database.Store.DropSensorSamples | src/auvsoftware/database/models/imu.py:46-50 | the cascade over the IMU, depth and power tables removes exactly the deleted run's rows and keeps those tables referencing only the remaining runs |
| Database.Store.DropActuationSamples | src/auvsoftware/database/models/motor.py:38-43 | the cascade over the motor, servo and control-input tables removes exactly the deleted run's rows, keeps the channel ranges and keeps those tables referencing only the remaining runs |
| Stream.Table.constructor | src/auvsoftware/database/models/imu.py:37-41 | an empty stream table whose id sequence starts at 1 |
| Stream.Table.Append | src/auvsoftware/database/models/imu.py:37-50 | an insert appends one row under the next id, above every existing id, keeping ids ascending and every row's run existing |
| Stream.Table.DeleteRun | src/auvsoftware/database/models/imu.py:46-50 | the cascade removes exactly the rows of the deleted run, keeps the rest in order, and leaves no row referencing it |
| Stream.DropRun | src/auvsoftware/database/models/imu.py:46-50 | the surviving rows are exactly those of other runs, with ids still ascending |
| Stream.Latest | src/auvsoftware/api/routes/imu.py:81-89 | none exactly when no row is selected; otherwise a selected row that no selected row exceeds in (t_us, id) |
| Stream.GetLatest | src/auvsoftware/api/routes/imu.py:72-91 | an unknown run filter gives "Run not found", an empty selection the stream's own detail, otherwise the selected row with the greatest (t_us, id) |
| Stream.LatestIsUnique | src/auvsoftware/api/routes/imu.py:87 | with unique ids the row with the greatest (t_us, id) is unique, so any selected row that is not exceeded is the answer |
| Stream.LatestAfterAppend | src/auvsoftware/api/routes/imu.py:87 | a row inserted later with a t_us no smaller than the others is the new latest, even on a t_us tie |
| Stream.Matching | src/auvsoftware/api/routes/imu.py:105-110 | the filtered rows are exactly the rows of the run within the inclusive bounds, each as often as stored |
| Stream.RangeScan | src/auvsoftware/api/routes/imu.py:112-113 | the result has min(limit, number of matching rows) elements in ascending t_us |
| Stream.RangeScanSound | src/auvsoftware/api/routes/imu.py:105-113 | every returned row is a stored row of the run within the bounds, and none is returned more often than it matches |
| Stream.RangeScanComplete | src/auvsoftware/api/routes/imu.py:105-113 | when the matching rows fit within the limit, the result is a permutation of all of them |
| Stream.RangeScanKeepsEarliest | src/auvsoftware/api/routes/imu.py:112 | a matching row cut off by the limit has a t_us no smaller than any returned row |
| Stream.InvertedWindowIsEmpty | src/auvsoftware/api/routes/imu.py:107-110 | a start bound after the end bound gives an empty list, not an error |
| Stream.ListByRun | src/auvsoftware/api/routes/imu.py:94-113 | a limit outside [1, 200000] (default 5000) is a validation error; an unknown run is "Run not found"; otherwise the window scan |
| ImuRoutes.CreateImuSample | src/auvsoftware/api/routes/imu.py:59-68 | an unknown run fails "Run not found" and stores nothing; otherwise exactly one row with the submitted fields is appended under the next id |
| ImuRoutes.GetLatestImuSample | src/auvsoftware/api/routes/imu.py:71-91 | the latest answer over the IMU table, with "No IMU samples found" for an empty selection |
| ImuRoutes.ListImuForRun | src/auvsoftware/api/routes/imu.py:94-113 | the by-run answer over the IMU table |
| DepthRoutes.CreateDepthSample | src/auvsoftware/api/routes/depth.py:45-54 | an unknown run fails "Run not found" and stores nothing; otherwise exactly one row with the submitted fields is appended under the next id |
| DepthRoutes.GetLatestDepthSample | src/auvsoftware/api/routes/depth.py:57-72 | the latest answer over the depth table, with "No depth samples found" for an empty selection |
| DepthRoutes.ListDepthForRun | src/auvsoftware/api/routes/depth.py:75-94 | the by-run answer over the depth table |
| PowerRoutes.CreatePowerSample | src/auvsoftware/api/routes/power.py:64-73 | an unknown run fails "Run not found" and stores nothing; otherwise exactly one row with the submitted fields is appended under the next id |
| PowerRoutes.GetLatestPowerSample | src/auvsoftware/api/routes/power.py:76-91 | the latest answer over the power table, with "No power samples found" for an empty selection |
| PowerRoutes.ListPowerForRun | src/auvsoftware/api/routes/power.py:94-113 | the by-run answer over the power table |
| MotorRoutes.CreateMotorOutput | src/auvsoftware/api/routes/motor.py:22-67 | a channel outside [0, 255] is a validation error before the run check; an unknown run fails "Run not found"; failures store nothing; otherwise one row is appended under the next id |
| MotorRoutes.GetLatestMotorOutput | src/auvsoftware/api/routes/motor.py:70-85 | the latest answer over the motor table, with "No motor outputs found" for an empty selection |
| MotorRoutes.ListMotorOutputsForRun | src/auvsoftware/api/routes/motor.py:88-107 | the by-run answer over the motor table |
| ServoRoutes.CreateServoOutput | src/auvsoftware/api/routes/servo.py:22-57 | a channel outside [0, 255] is a validation error before the run check; an unknown run fails "Run not found"; failures store nothing; otherwise one row is appended under the next id |
| ServoRoutes.GetLatestServoOutput | src/auvsoftware/api/routes/servo.py:60-75 | the latest answer over the servo table, with "No servo outputs found" for an empty selection |
| ServoRoutes.ListServoOutputsForRun | src/auvsoftware/api/routes/servo.py:78-97 | the by-run answer over the servo table |
| InputsRoutes.CreateControlInput | src/auvsoftware/api/routes/inputs.py:58-67 | an unknown run fails "Run not found" and stores nothing; otherwise exactly one row with the submitted fields is appended under the next id |
| InputsRoutes.GetLatestControlInput | src/auvsoftware/api/routes/inputs.py:70-85 | the latest answer over the control-input table, with "No control inputs found" for an empty selection |
| InputsRoutes.ListControlInputsForRun | src/auvsoftware/api/routes/inputs.py:88-107 | the by-run answer over the control-input table |
| AuvController.Truncate | src/auvsoftware/controller.py:47 | the integer conversion truncates toward zero: it lies within one of its argument, on the side of zero |
| AuvController.Map | src/auvsoftware/controller.py:40-47 | an axis in [-1, 1] maps into [0, 255], with -1 to 0 and 1 to 255 |
| AuvController.MapMonotone | src/auvsoftware/controller.py:40-47 | the mapping never decreases as the axis increases |
| AuvController.ReadAxes | src/auvsoftware/controller.py:60 | one mapped value per axis, each in [0, 255] when the axis is in [-1, 1] |
| AuvController.SelectControls | src/auvsoftware/controller.py:158-168 | the selection fails exactly when there are fewer than 5 axes or 6 buttons; otherwise x, y, z, yaw are axes 0, 1, 4, 3 and s1, s2, s3 are buttons 4, 5, 0 |
| AuvController.ProcessPostsByteAxes | src/auvsoftware/controller.py:158-183 | for axes in [-1, 1] the posted x, y, z and yaw are sticks 0, 1, 4 and 3 read through `map`, so byte values in [0, 255], and s1, s2, s3 are buttons 4, 5 and 0 |
| AuvController.EmptyRunCreateRejected | src/auvsoftware/controller.py:85-88 | the empty run-creation body is rejected by the runs route as a validation error |
| AuvController.Controller.constructor | src/auvsoftware/controller.py:22-27 | the controller starts with run id 1, counter 0 and last post at time 0 |
| AuvController.Controller.EnsureRunId | src/auvsoftware/controller.py:74-100 | a known run id is kept; otherwise success exactly when the creation response carries an id, which is then adopted |
| AuvController.Controller.UpdateDB | src/auvsoftware/controller.py:102-156 | throttled calls change nothing; a failed run acquisition posts nothing; otherwise the counter is incremented, the payload carries run id, timestamp, counter and the reading with 0 defaults, and the last-post time advances only on success; posted seq values strictly increase |
| AuvController.Controller.Process | src/auvsoftware/controller.py:158-183 | no joystick, or too few axes or buttons (an index error), changes nothing and posts nothing; otherwise the selected controls always go through the update, with its guarantees: a throttled call or a failed run acquisition posts nothing and keeps counter and last-post time; a post increments the counter, carries the run id, timestamp, counter and selected controls, and advances the last-post time only on success |
| AuvController.FailedPostKeepsRunId | src/auvsoftware/controller.py:148-156 | after a failed post the controller keeps run id 1 and its last-post time |
| Scenarios.SeaTrial | src/auvsoftware/api/routes/runs.py:44-66 | on an empty database the first run gets id 1 and is the latest run |
| Scenarios.TieGoesToLaterRow | src/auvsoftware/api/routes/imu.py:87 | of two rows of a run with the same t_us, the one with the larger id is the latest |
| Scenarios.LatestBreaksTiesById | src/auvsoftware/api/routes/imu.py:71-91 | of two IMU samples with the same t_us, the later insert is the latest |
| Scenarios.OutOfRangeMotorRejected | src/auvsoftware/api/routes/motor.py:22-34 | a motor channel of 256 is a validation error and nothing is stored |
| Scenarios.MatchingKeepsMiddle | src/auvsoftware/api/routes/depth.py:86-91 | rows at 100, 200 and 300 filtered by [150, 250] leave exactly the row at 200 |
| Scenarios.WindowKeepsMiddle | src/auvsoftware/api/routes/depth.py:86-93 | rows inserted at 100, 200 and 300 scan in the window [150, 250] to exactly the row at 200 |
| Scenarios.DepthWindow | src/auvsoftware/api/routes/depth.py:75-94 | the by-run depth query for [150, 250] returns exactly the sample at 200 |
| Scenarios.UnknownRunLatest | src/auvsoftware/api/routes/power.py:76-91 | a latest-power query for a never-created run fails "Run not found" |
| Scenarios.UnknownRunListing | src/auvsoftware/api/routes/imu.py:102-103 | a by-run query with the default limit for a missing run fails "Run not found" |
| Scenarios.DeleteCascades | src/auvsoftware/database/models/imu.py:46-50 | after a run is deleted, its by-run query fails "Run not found" and no IMU row references it |

## Left out

- Server timestamps (`created_at`, `updated_at`) and the response
  serialisation to JSON. HTTP status codes appear only as the two error
  kinds.
- A sample request missing a mandatory field, or carrying a value of the
  wrong type. The request datatypes cannot represent one; validation of
  these is the framework's, not the routes'.
- Column widths: integers are unbounded here. In storage, run and sample
  ids are 32-bit integers and `t_us` and `seq` are 64-bit integers, so
  values beyond those ranges would fail in the database. Motor and servo
  values are not at issue: the routes bound them to [0, 255].
- InputsRoutes.CreateControlInput: stores any `s1`, `s2`, `s3`. The request
  leaves them unbounded but the columns are small integers, so a value such
  as 40000 passes the route and then fails in storage. The model does not
  capture that failure.
- Floating-point values are `real`. The model has no rounding, NaN or
  infinities, so `AuvController.Map` is exact arithmetic followed by
  truncation.
- Concurrency and transactions: each handler is one atomic step. Sessions
  and connection handling are not modelled.
- The composite `(run_id, t_us)` indexes only speed up queries, so they do
  not appear.
- Id sequences: ids are modelled as consecutive. A real sequence may skip
  values, e.g. after a rolled-back insert. The contracts rely only on ids
  ascending.
- Stream.RangeScan: among rows with equal `t_us` the model returns them in
  insertion order, while the database gives no order. The contracts promise
  only ascending `t_us`.
- Controller I/O:
  - pygame device handling, the wall clock and the HTTP session are left
    out. `now`, `nowUs`, the run-creation response and the post outcome
    are parameters.
  - The endless loops that call `process` are left out.
  - Printing is left out.
- AuvController.EnsureRunId: a creation response whose `id` is not an
  integer would raise in `int()`. That case is not modelled.
- AuvController.Controller.Process: an index error is returned as an
  outcome. In the code it is an exception that ends the loop.
