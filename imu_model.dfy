/** Payload of the `imu_samples` table: accelerometer, gyroscope and
    magnetometer axes (all mandatory) and an optional temperature. Floats are
    stored verbatim and never computed on, so they are modelled as reals. */
module ImuModel {
  import opened Common

  datatype ImuData = ImuData(
    ax: real, ay: real, az: real,
    gx: real, gy: real, gz: real,
    mx: real, my: real, mz: real,
    tempC: Option<real>)
}
