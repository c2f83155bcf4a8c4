/** End-to-end runs of the store: a fresh database, a run, a few inserts
    and the reads that follow them. */
module Scenarios {
  import opened Common
  import opened RunModel
  import opened SampleModel
  import opened ImuModel
  import opened DepthModel
  import opened MotorModel
  import opened PowerModel
  import Registry
  import Stream
  import Database
  import RunRoutes
  import ImuRoutes
  import DepthRoutes
  import MotorRoutes
  import PowerRoutes

  const SeaTrialRequest: RunRoutes.RunCreate :=
    RunRoutes.RunCreate(Some("sea-trial-1"), Some("hardware"), None, None, None, None)

  function Imu(ax: real): ImuData
  {
    ImuData(ax, 0.0, 9.8, 0.0, 0.0, 0.0, 0.0, 0.0, 0.0, None)
  }

  /** A fresh database holding run 1, the first run created. */
  method SeaTrial() returns (db: Database.Store, run: Result<Run>)
    ensures fresh(db) && fresh(db.imu) && fresh(db.depth) && fresh(db.power)
    ensures fresh(db.motor) && fresh(db.servo) && fresh(db.inputs)
    ensures db.Valid() && db.RunIds() == {1}
    ensures run.Success? && run.value.id == 1 && Registry.LatestRun(db.runs) == run
    ensures db.imu.rows == [] && db.depth.rows == [] && db.motor.rows == [] && db.power.rows == []
  {
    db := new Database.Store();
    run := RunRoutes.CreateRun(db, SeaTrialRequest);
  }

  /** Of two rows of run 1 with the same t_us, the one with the larger id
      is the latest. The rows are written as successive appends to the
      empty table, the form in which the create routes state a table's
      rows, so a caller passes the table as it is after the inserts. */
  lemma TieGoesToLaterRow<P>(rows: seq<Sample<P>>, x: Sample<P>, y: Sample<P>, runIds: set<int>, detail: string)
    requires rows == [] + [x] + [y]
    requires x.runId == 1 && y.runId == 1 && 1 in runIds
    requires x.tUs == y.tUs && x.id < y.id
    ensures Stream.GetLatest(rows, runIds, Some(1), detail) == Success(y)
  {
    assert rows == [x, y];
    assert rows[1] == y;
    Stream.LatestIsUnique(rows, Some(1), y);
  }

  /** Two IMU samples with the same t_us: the later insert is the latest. */
  method LatestBreaksTiesById() returns (latest: Result<Sample<ImuData>>)
    ensures latest.Success? && latest.value.payload.ax == 0.2
  {
    var db, _ := SeaTrial();
    var a := ImuRoutes.CreateImuSample(db, SampleCreate(1, 1000, None, Imu(0.1)));
    var b := ImuRoutes.CreateImuSample(db, SampleCreate(1, 1000, None, Imu(0.2)));
    TieGoesToLaterRow(db.imu.rows, a.value, b.value, db.RunIds(), ImuRoutes.NoImuSamples);
    latest := ImuRoutes.GetLatestImuSample(db, Some(1));
  }

  /** A motor output with a channel of 256 is rejected and nothing is stored. */
  method OutOfRangeMotorRejected() returns (r: Result<Sample<MotorData>>, stored: seq<Sample<MotorData>>)
    ensures r == Failure(ValidationError) && stored == []
  {
    var db, _ := SeaTrial();
    var m := MotorData(256, 0, 0, 0, 0, 0, 0, 0);
    assert !IsChannel(Channels(m)[0]);
    r := MotorRoutes.CreateMotorOutput(db, SampleCreate(1, 1000, None, m));
    stored := db.motor.rows;
  }

  /** Of rows of run 1 at 100, 200 and 300, the window [150, 250] keeps
      the middle one only. */
  lemma MatchingKeepsMiddle<P>(a: Sample<P>, b: Sample<P>, c: Sample<P>)
    requires a.runId == 1 && b.runId == 1 && c.runId == 1
    requires a.tUs == 100 && b.tUs == 200 && c.tUs == 300
    ensures Stream.Matching([a, b, c], 1, Some(150), Some(250)) == [b]
  {
    var w0, w1 := Some(150), Some(250);
    assert [a][..0] == [] && [a, b][..1] == [a] && [a, b, c][..2] == [a, b];
    assert Stream.Matching([a], 1, w0, w1) == [];
    assert Stream.Matching([a, b], 1, w0, w1) == [b];
  }

  /** A scan whose window matches a single row returns exactly that row. */
  lemma ScanOfSingleMatch<P>(rows: seq<Sample<P>>, tStart: Option<int>, tEnd: Option<int>, x: Sample<P>)
    requires Stream.Matching(rows, 1, tStart, tEnd) == [x]
    ensures Stream.RangeScan(rows, 1, tStart, tEnd, Stream.DefaultLimit) == [x]
  {
    Stream.RangeScanComplete(rows, 1, tStart, tEnd, Stream.DefaultLimit);
    var r := Stream.RangeScan(rows, 1, tStart, tEnd, Stream.DefaultLimit);
    assert r[0] in multiset(r);
    assert r == [r[0]];
  }

  /** Three rows of run 1 inserted at 100, 200 and 300: the window
      [150, 250] under the default limit holds the middle one only. As in
      TieGoesToLaterRow, the rows are given as appends to the empty table. */
  lemma WindowKeepsMiddle<P>(rows: seq<Sample<P>>, a: Sample<P>, b: Sample<P>, c: Sample<P>)
    requires rows == [] + [a] + [b] + [c]
    requires a.runId == 1 && b.runId == 1 && c.runId == 1
    requires a.tUs == 100 && b.tUs == 200 && c.tUs == 300
    ensures Stream.RangeScan(rows, 1, Some(150), Some(250), Stream.DefaultLimit) == [b]
  {
    assert rows == [a, b, c];
    MatchingKeepsMiddle(a, b, c);
    ScanOfSingleMatch(rows, Some(150), Some(250), b);
  }

  /** Depth samples at 100, 200 and 300: the window [150, 250] holds the
      one at 200 only. */
  method DepthWindow() returns (r: Result<seq<Sample<DepthData>>>)
    ensures r.Success? && |r.value| == 1 && r.value[0].tUs == 200
  {
    var db, _ := SeaTrial();
    var d := DepthData(1.0, None, None);
    var a := DepthRoutes.CreateDepthSample(db, SampleCreate(1, 100, None, d));
    var b := DepthRoutes.CreateDepthSample(db, SampleCreate(1, 200, None, d));
    var c := DepthRoutes.CreateDepthSample(db, SampleCreate(1, 300, None, d));
    WindowKeepsMiddle(db.depth.rows, a.value, b.value, c.value);
    r := DepthRoutes.ListDepthForRun(db, 1, Some(150), Some(250), None);
  }

  /** A power query for a run that was never created fails "Run not found". */
  method UnknownRunLatest() returns (r: Result<Sample<PowerData>>)
    ensures r == Failure(NotFound(RunNotFound))
  {
    var db, _ := SeaTrial();
    r := PowerRoutes.GetLatestPowerSample(db, Some(999));
  }

  /** A by-run query with the default limit for a run that does not exist
      fails "Run not found". */
  lemma UnknownRunListing<P>(rows: seq<Sample<P>>, runIds: set<int>, runId: int, r: Result<seq<Sample<P>>>)
    requires runId !in runIds
    requires Stream.ListAnswer(rows, runIds, runId, None, None, None, r)
    ensures r == Failure(NotFound(RunNotFound))
  {
  }

  /** Deleting run 1 removes its samples from every stream, and a later
      by-run query for it fails "Run not found". */
  method DeleteCascades() returns (r: Result<seq<Sample<ImuData>>>, left: seq<Sample<ImuData>>)
    ensures r == Failure(NotFound(RunNotFound))
    ensures forall x | x in left :: x.runId != 1
  {
    var db, _ := SeaTrial();
    var a := ImuRoutes.CreateImuSample(db, SampleCreate(1, 1000, None, Imu(0.1)));
    db.DeleteRun(1);
    r := ImuRoutes.ListImuForRun(db, 1, None, None, None);
    UnknownRunListing(db.imu.rows, db.RunIds(), 1, r);
    left := db.imu.rows;
  }
}
