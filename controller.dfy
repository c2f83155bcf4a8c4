/** The joystick client that produces control-input samples: it maps stick
    axes to bytes, throttles posts to a minimum interval, acquires a run id
    lazily and numbers its posts. The clock readings and the outcomes of the
    two HTTP requests are parameters; joystick hardware is left out. */
module AuvController {
  import opened Common
  import opened SampleModel
  import opened InputsModel
  import RunModel
  import RunRoutes

  /** MIN_POST_INTERVAL_S's default: a 20 Hz ceiling. */
  const DefaultMinPostInterval: real := 0.05

  /** Python's `int()` on a float: truncation toward zero. */
  function Truncate(v: real): (r: int)
    ensures 0.0 <= v ==> r as real <= v < r as real + 1.0
    ensures v < 0.0 ==> r as real - 1.0 < v <= r as real
  {
    if v >= 0.0 then v.Floor else -((-v).Floor)
  }

  /** `map`: a stick axis in [-1, 1] scaled linearly onto [0, 255]. */
  function Map(x: real): (r: int)
    ensures -1.0 <= x <= 1.0 ==> 0 <= r <= 255
    ensures x == -1.0 ==> r == 0
    ensures x == 1.0 ==> r == 255
  {
    Truncate((x - (-1.0)) * (255.0 - 0.0) / (1.0 - (-1.0)) + 0.0)
  }

  /** Moving a stick further never lowers its mapped value. */
  lemma MapMonotone(a: real, b: real)
    requires -1.0 <= a <= b <= 1.0
    ensures Map(a) <= Map(b)
  {
    var va := (a + 1.0) * 255.0 / 2.0;
    var vb := (b + 1.0) * 255.0 / 2.0;
    assert 0.0 <= va <= vb;
    assert va.Floor <= vb.Floor;
  }

  /** The raw joystick state: axis positions and button states. */
  datatype JoystickState = JoystickState(axes: seq<real>, buttons: seq<int>)

  /** `get_input`: every axis is read through `map`. */
  function ReadAxes(raw: seq<real>): (axes: seq<int>)
    ensures |axes| == |raw|
    ensures forall i :: 0 <= i < |raw| && -1.0 <= raw[i] <= 1.0 ==> 0 <= axes[i] <= 255
  {
    seq(|raw|, i requires 0 <= i < |raw| => Map(raw[i]))
  }

  /** The dictionary handed to `updateDB`: a key may be absent. */
  datatype ControlReading = ControlReading(
    x: Option<real>, y: Option<real>, z: Option<real>, yaw: Option<real>,
    s1: Option<int>, s2: Option<int>, s3: Option<int>)

  function RealOr(v: Option<real>, default: real): real
  {
    if v.Some? then v.value else default
  }

  function IntOr(v: Option<int>, default: int): int
  {
    if v.Some? then v.value else default
  }

  /** The control-input body `updateDB` posts: the current run id, the
      producer timestamp, the post counter, and the reading with absent
      axes defaulting to 0.0 and absent switches to 0. */
  function Payload(runId: int, tUs: int, seqNo: int, data: ControlReading): SampleCreate<ControlData>
  {
    SampleCreate(runId, tUs, Some(seqNo),
      ControlData(RealOr(data.x, 0.0), RealOr(data.y, 0.0), RealOr(data.z, 0.0), RealOr(data.yaw, 0.0),
                  IntOr(data.s1, 0), IntOr(data.s2, 0), IntOr(data.s3, 0)))
  }

  /** The selection in `process`: axes 0, 1, 4, 3 become x, y, z, yaw and
      buttons 4, 5, 0 become s1, s2, s3. A state with too few axes or
      buttons makes the indexing fail (`None`). */
  function SelectControls(axes: seq<int>, buttons: seq<int>): (r: Option<ControlReading>)
    ensures r.Some? <==> |axes| >= 5 && |buttons| >= 6
    ensures r.Some? ==> var c := r.value;
              && c.x == Some(axes[0] as real) && c.y == Some(axes[1] as real)
              && c.z == Some(axes[4] as real) && c.yaw == Some(axes[3] as real)
              && c.s1 == Some(buttons[4]) && c.s2 == Some(buttons[5]) && c.s3 == Some(buttons[0])
  {
    if |axes| < 5 || |buttons| < 6 then None
    else
      Some(ControlReading(Some(axes[0] as real), Some(axes[1] as real), Some(axes[4] as real), Some(axes[3] as real),
                          Some(buttons[4]), Some(buttons[5]), Some(buttons[0])))
  }

  /** The selection `process` makes from a joystick state, through `map`. */
  function Selected(state: JoystickState): Option<ControlReading>
  {
    SelectControls(ReadAxes(state.axes), state.buttons)
  }

  /** What `process` posts for a joystick whose axes lie in [-1, 1]: every
      field is present, so no default applies; x, y, z and yaw are sticks 0,
      1, 4 and 3 read through `map`, so they arrive as byte values in
      [0, 255] rather than normalised positions; the switches are buttons
      4, 5 and 0. */
  lemma {:induction false} ProcessPostsByteAxes(state: JoystickState, runId: int, tUs: int, seqNo: int)
    requires forall i :: 0 <= i < |state.axes| ==> -1.0 <= state.axes[i] <= 1.0
    requires |state.axes| >= 5 && |state.buttons| >= 6
    ensures var p := Payload(runId, tUs, seqNo, Selected(state).value).payload;
            && p.x == Map(state.axes[0]) as real && p.y == Map(state.axes[1]) as real
            && p.z == Map(state.axes[4]) as real && p.yaw == Map(state.axes[3]) as real
            && 0.0 <= p.x <= 255.0 && 0.0 <= p.y <= 255.0 && 0.0 <= p.z <= 255.0 && 0.0 <= p.yaw <= 255.0
            && p.s1 == state.buttons[4] && p.s2 == state.buttons[5] && p.s3 == state.buttons[0]
  {
    var axes := ReadAxes(state.axes);
    assert 0 <= axes[0] <= 255 && 0 <= axes[1] <= 255 && 0 <= axes[3] <= 255 && 0 <= axes[4] <= 255;
  }

  /** The run-creation request `_ensure_run_id` posts: an empty body. */
  const EmptyRunCreate: RunRoutes.RunCreate := RunRoutes.RunCreate(None, None, None, None, None, None)

  /** The run routes reject the controller's empty body, because `name`
      and `platform` are required: lazy run creation cannot succeed against
      this server. */
  lemma EmptyRunCreateRejected(id: int)
    ensures RunRoutes.NewRun(EmptyRunCreate, id) == Failure(ValidationError)
  {
  }

  /** Outcome of the run-creation POST: a response carrying an id, a
      successful response without one, or a transport/HTTP failure. */
  datatype CreateResponse = CreatedWithId(id: int) | CreatedWithoutId | CreateFailed

  /** What one `process` call did. */
  datatype Step = NoJoystick | IndexError | Updated(sent: Option<SampleCreate<ControlData>>)

  class Controller {
    var runId: Option<int>
    var seqNo: int
    var lastPost: real
    const minPostInterval: real
    /** The `seq` values of every control input posted so far. */
    ghost var postedSeqs: seq<int>

    /** Posted `seq` values strictly increase and never exceed the counter. */
    ghost predicate Valid()
      reads this
    {
      && seqNo >= 0
      && (forall i, j :: 0 <= i < j < |postedSeqs| ==> postedSeqs[i] < postedSeqs[j])
      && (forall i :: 0 <= i < |postedSeqs| ==> postedSeqs[i] <= seqNo)
    }

    /** The initial state: run id 1, counter 0, last post at time 0. */
    constructor (minPostInterval: real)
      ensures Valid()
      ensures runId == Some(1) && seqNo == 0 && lastPost == 0.0 && postedSeqs == []
      ensures this.minPostInterval == minPostInterval
    {
      runId := Some(1);
      seqNo := 0;
      lastPost := 0.0;
      this.minPostInterval := minPostInterval;
      postedSeqs := [];
    }

    /** `_ensure_run_id`: a known run id is kept without any request;
        otherwise the id of a successful creation is adopted, and a response
        without an id or a failed request leaves the run id unset. */
    method EnsureRunId(response: CreateResponse) returns (ok: bool)
      modifies this`runId
      ensures old(runId).Some? ==> ok && runId == old(runId)
      ensures old(runId).None? ==> ok == response.CreatedWithId?
      ensures old(runId).None? ==> runId == (if ok then Some(response.id) else None)
    {
      if runId.Some? {
        return true;
      }
      match response
      case CreatedWithId(id) =>
        runId := Some(id);
        return true;
      case CreatedWithoutId =>
        return false;
      case CreateFailed =>
        return false;
    }

    /** `updateDB`: a call within `minPostInterval` of the last successful
        post changes nothing and posts nothing; a call without a run id
        whose creation fails posts nothing and keeps the counter and the
        last-post time; otherwise the counter is incremented before posting,
        whatever the outcome, and the last-post time advances to `now` only
        when the post succeeds. A failed post keeps the run id. */
    method UpdateDB(now: real, nowUs: int, data: ControlReading, createResponse: CreateResponse, postOk: bool)
      returns (sent: Option<SampleCreate<ControlData>>)
      requires Valid()
      modifies this`runId, this`seqNo, this`lastPost, this`postedSeqs
      ensures Valid()
      ensures now - old(lastPost) < minPostInterval ==>
                sent.None? && runId == old(runId) && seqNo == old(seqNo) && lastPost == old(lastPost)
      ensures now - old(lastPost) >= minPostInterval ==>
                runId == (if old(runId).Some? then old(runId)
                          else if createResponse.CreatedWithId? then Some(createResponse.id) else None)
      ensures sent.Some? <==> now - old(lastPost) >= minPostInterval && runId.Some?
      ensures sent.None? ==> seqNo == old(seqNo) && lastPost == old(lastPost) && postedSeqs == old(postedSeqs)
      ensures sent.Some? ==> && seqNo == old(seqNo) + 1
                             && sent.value == Payload(runId.value, nowUs, seqNo, data)
                             && postedSeqs == old(postedSeqs) + [seqNo]
                             && lastPost == (if postOk then now else old(lastPost))
    {
      if now - lastPost < minPostInterval {
        return None;
      }
      var ok := EnsureRunId(createResponse);
      if !ok {
        return None;
      }
      seqNo := seqNo + 1;
      postedSeqs := postedSeqs + [seqNo];
      sent := Some(Payload(runId.value, nowUs, seqNo, data));
      if postOk {
        lastPost := now;
      }
    }

    /** `process`: without a joystick nothing happens; a state too short for
        the selection fails with an index error before anything is posted;
        otherwise the selected controls go through `updateDB`. */
    method Process(input: Option<JoystickState>, now: real, nowUs: int, createResponse: CreateResponse, postOk: bool)
      returns (step: Step)
      requires Valid()
      modifies this`runId, this`seqNo, this`lastPost, this`postedSeqs
      ensures Valid()
      ensures input.None? ==> step == NoJoystick
      ensures step.Updated? <==> input.Some? && Selected(input.value).Some?
      ensures input.Some? && Selected(input.value).None? ==> step == IndexError
      ensures !step.Updated? ==>
                runId == old(runId) && seqNo == old(seqNo) && lastPost == old(lastPost) && postedSeqs == old(postedSeqs)
      ensures step.Updated? && now - old(lastPost) < minPostInterval ==>
                step.sent.None? && runId == old(runId) && seqNo == old(seqNo) && lastPost == old(lastPost)
      ensures step.Updated? && now - old(lastPost) >= minPostInterval ==>
                runId == (if old(runId).Some? then old(runId)
                          else if createResponse.CreatedWithId? then Some(createResponse.id) else None)
      ensures step.Updated? ==> (step.sent.Some? <==> now - old(lastPost) >= minPostInterval && runId.Some?)
      ensures step.Updated? && step.sent.None? ==>
                seqNo == old(seqNo) && lastPost == old(lastPost) && postedSeqs == old(postedSeqs)
      ensures step.Updated? && step.sent.Some? ==>
                && seqNo == old(seqNo) + 1
                && step.sent.value == Payload(runId.value, nowUs, seqNo, Selected(input.value).value)
                && postedSeqs == old(postedSeqs) + [seqNo]
                && lastPost == (if postOk then now else old(lastPost))
    {
      if input.None? {
        return NoJoystick;
      }
      var sel := Selected(input.value);
      if sel.None? {
        return IndexError;
      }
      var sent := UpdateDB(now, nowUs, sel.value, createResponse, postOk);
      return Updated(sent);
    }
  }

  /** The comment on the HTTP-error path says the run id is cleared so that
      a run is recreated next time; the code keeps it. Starting from run id
      1, a failed post leaves the controller posting to run 1 again. */
  method FailedPostKeepsRunId(c: Controller, now: real, nowUs: int, data: ControlReading)
    returns (sent: Option<SampleCreate<ControlData>>)
    requires c.Valid() && c.runId == Some(1)
    requires now - c.lastPost >= c.minPostInterval
    modifies c
    ensures sent.Some? && sent.value.runId == 1 && c.runId == Some(1)
    ensures c.lastPost == old(c.lastPost)
  {
    sent := c.UpdateDB(now, nowUs, data, CreateFailed, false);
  }
}
