/** The columns every sample table shares: an auto-incremented `id`, the
    owning `run_id` (foreign key to `runs.id`, ON DELETE CASCADE), the
    producer timestamp `t_us` and the optional producer counter `seq` (named `seqNo` here).
    `P` is the kind-specific payload. */
module SampleModel {
  import opened Common

  datatype Sample<P> = Sample(id: int, runId: int, tUs: int, seqNo: Option<int>, payload: P)

  /** A validated insert request of one stream kind. */
  datatype SampleCreate<P> = SampleCreate(runId: int, tUs: int, seqNo: Option<int>, payload: P)

  /** The row a request becomes once the table assigns it `id`: every
      submitted field is stored as given. */
  function ToRow<P>(req: SampleCreate<P>, id: int): (row: Sample<P>)
    ensures row.id == id
    ensures SampleCreate(row.runId, row.tUs, row.seqNo, row.payload) == req
  {
    Sample(id, req.runId, req.tUs, req.seqNo, req.payload)
  }

  /** A byte-sized actuator channel, as the motor and servo routes require. */
  predicate IsChannel(v: int)
  {
    0 <= v <= 255
  }
}
