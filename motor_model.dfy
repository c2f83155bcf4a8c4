/** Payload of the `motor_outputs` table: eight mandatory SmallInteger
    channels documented as lying in [0, 255]. The column itself does not
    enforce that range; the motor route does (`ChannelsInRange`). */
module MotorModel {
  import opened SampleModel

  datatype MotorData = MotorData(m1: int, m2: int, m3: int, m4: int, m5: int, m6: int, m7: int, m8: int)

  function Channels(m: MotorData): (cs: seq<int>)
    ensures |cs| == 8
  {
    [m.m1, m.m2, m.m3, m.m4, m.m5, m.m6, m.m7, m.m8]
  }

  /** Every channel m1..m8 is an integer in [0, 255]. */
  predicate ChannelsInRange(m: MotorData)
  {
    forall i :: 0 <= i < 8 ==> IsChannel(Channels(m)[i])
  }
}
