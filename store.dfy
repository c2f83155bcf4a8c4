/** The database: the `runs` table with its id sequence and the six sample
    tables, each of whose `run_id` column references `runs.id` with
    ON DELETE CASCADE. */
module Database {
  import opened Common
  import opened RunModel
  import opened SampleModel
  import Registry
  import Stream
  import opened ImuModel
  import opened DepthModel
  import opened PowerModel
  import opened MotorModel
  import opened ServoModel
  import opened InputsModel

  class Store {
    var runs: seq<Run>
    var nextRunId: int
    const imu: Stream.Table<ImuData>
    const depth: Stream.Table<DepthData>
    const power: Stream.Table<PowerData>
    const motor: Stream.Table<MotorData>
    const servo: Stream.Table<ServoData>
    const inputs: Stream.Table<ControlData>

    /** The ids of the stored runs. */
    function RunIds(): set<int>
      reads this
    {
      Registry.RunIds(runs)
    }

    /** The database invariant: runs carry unique ascending ids below the
        sequence's next value and fit their columns, and the sample tables
        satisfy their invariant over the stored run ids. */
    ghost predicate Valid()
      reads this, imu, depth, power, motor, servo, inputs
    {
      && nextRunId >= 1
      && Registry.IdsAscending(runs)
      && (forall r | r in runs :: r.id < nextRunId && WellFormed(r))
      && TablesValid(RunIds())
    }

    /** Every table is valid and references only runs in `ids`. */
    ghost predicate TablesValid(ids: set<int>)
      reads imu, depth, power, motor, servo, inputs
    {
      SensorsValid(ids) && ActuationValid(ids)
    }

    /** The IMU, depth and power tables are valid and reference only runs
        in `ids`. */
    ghost predicate SensorsValid(ids: set<int>)
      reads imu, depth, power
    {
      && imu.Valid() && Stream.RunsExist(imu.rows, ids)
      && depth.Valid() && Stream.RunsExist(depth.rows, ids)
      && power.Valid() && Stream.RunsExist(power.rows, ids)
    }

    /** The motor, servo and control-input tables are valid and reference
        only runs in `ids`; stored motor and servo channels lie in [0, 255]
        because the routes admit nothing else. */
    ghost predicate ActuationValid(ids: set<int>)
      reads motor, servo, inputs
    {
      && motor.Valid() && Stream.RunsExist(motor.rows, ids)
      && servo.Valid() && Stream.RunsExist(servo.rows, ids)
      && inputs.Valid() && Stream.RunsExist(inputs.rows, ids)
      && (forall row | row in motor.rows :: MotorModel.ChannelsInRange(row.payload))
      && (forall row | row in servo.rows :: ServoModel.ChannelsInRange(row.payload))
    }

    /** Adding run ids keeps the tables' invariant. */
    lemma TablesValidGrow(a: set<int>, b: set<int>)
      requires TablesValid(a) && a <= b
      ensures TablesValid(b)
    {
    }

    /** An empty database. */
    constructor ()
      ensures Valid()
      ensures runs == [] && nextRunId == 1 && RunIds() == {}
      ensures imu.rows == [] && depth.rows == [] && power.rows == []
      ensures motor.rows == [] && servo.rows == [] && inputs.rows == []
      ensures fresh(imu) && fresh(depth) && fresh(power) && fresh(motor) && fresh(servo) && fresh(inputs)
    {
      runs := [];
      nextRunId := 1;
      imu := new Stream.Table();
      depth := new Stream.Table();
      power := new Stream.Table();
      motor := new Stream.Table();
      servo := new Stream.Table();
      inputs := new Stream.Table();
    }

    /** Inserting a row into `runs`: the run takes the sequence's next id. */
    method AddRun(run: Run)
      requires Valid()
      requires run.id == nextRunId && WellFormed(run)
      modifies this
      ensures Valid()
      ensures runs == old(runs) + [run] && nextRunId == old(nextRunId) + 1
      ensures run.id !in old(RunIds()) && RunIds() == old(RunIds()) + {run.id}
    {
      ghost var before := runs;
      ghost var ids := RunIds();
      Registry.AppendAscending(runs, run);
      runs := runs + [run];
      nextRunId := nextRunId + 1;
      assert forall r | r in runs :: r in before || r == run;
      Registry.RunIdsAppend(before, run);
      TablesValidGrow(ids, RunIds());
    }

    /** Deleting a run as the schema declares it: the run row and, in the
        same step, every row of the six sample tables that references it.
        No row of any table references the run afterwards. */
    method DeleteRun(id: int)
      requires Valid()
      modifies this, imu, depth, power, motor, servo, inputs
      ensures Valid()
      ensures runs == Registry.DropRun(old(runs), id) && nextRunId == old(nextRunId)
      ensures id !in RunIds()
      ensures imu.rows == Stream.DropRun(old(imu.rows), id)
      ensures depth.rows == Stream.DropRun(old(depth.rows), id)
      ensures power.rows == Stream.DropRun(old(power.rows), id)
      ensures motor.rows == Stream.DropRun(old(motor.rows), id)
      ensures servo.rows == Stream.DropRun(old(servo.rows), id)
      ensures inputs.rows == Stream.DropRun(old(inputs.rows), id)
      ensures imu.nextId == old(imu.nextId) && depth.nextId == old(depth.nextId)
      ensures power.nextId == old(power.nextId) && motor.nextId == old(motor.nextId)
      ensures servo.nextId == old(servo.nextId) && inputs.nextId == old(inputs.nextId)
    {
      ghost var before := RunIds();
      Registry.RunIdsDrop(runs, id);
      runs := Registry.DropRun(runs, id);
      DropSensorSamples(id, before);
      DropActuationSamples(id, before);
    }

    /** The cascade over the IMU, depth and power tables. */
    method DropSensorSamples(id: int, ghost ids: set<int>)
      requires SensorsValid(ids)
      modifies imu, depth, power
      ensures SensorsValid(ids - {id})
      ensures imu.rows == Stream.DropRun(old(imu.rows), id)
      ensures depth.rows == Stream.DropRun(old(depth.rows), id)
      ensures power.rows == Stream.DropRun(old(power.rows), id)
      ensures imu.nextId == old(imu.nextId) && depth.nextId == old(depth.nextId)
      ensures power.nextId == old(power.nextId)
    {
      imu.DeleteRun(id, ids);
      depth.DeleteRun(id, ids);
      power.DeleteRun(id, ids);
    }

    /** The cascade over the motor, servo and control-input tables. */
    method DropActuationSamples(id: int, ghost ids: set<int>)
      requires ActuationValid(ids)
      modifies motor, servo, inputs
      ensures ActuationValid(ids - {id})
      ensures motor.rows == Stream.DropRun(old(motor.rows), id)
      ensures servo.rows == Stream.DropRun(old(servo.rows), id)
      ensures inputs.rows == Stream.DropRun(old(inputs.rows), id)
      ensures motor.nextId == old(motor.nextId) && servo.nextId == old(servo.nextId)
      ensures inputs.nextId == old(inputs.nextId)
    {
      motor.DeleteRun(id, ids);
      servo.DeleteRun(id, ids);
      inputs.DeleteRun(id, ids);
    }
  }
}
