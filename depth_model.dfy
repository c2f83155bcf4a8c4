/** Payload of the `depth_samples` table: mandatory depth, optional pressure
    and temperature. */
module DepthModel {
  import opened Common

  datatype DepthData = DepthData(depthM: real, pressurePa: Option<real>, tempC: Option<real>)
}
