/** Payload of the `servo_outputs` table: three mandatory SmallInteger
    channels documented as lying in [0, 255]; the servo route enforces it. */
module ServoModel {
  import opened SampleModel

  datatype ServoData = ServoData(s1: int, s2: int, s3: int)

  function Channels(s: ServoData): (cs: seq<int>)
    ensures |cs| == 3
  {
    [s.s1, s.s2, s.s3]
  }

  /** Every channel s1..s3 is an integer in [0, 255]. */
  predicate ChannelsInRange(s: ServoData)
  {
    forall i :: 0 <= i < 3 ==> IsChannel(Channels(s)[i])
  }
}
