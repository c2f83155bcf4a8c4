/** Payload of the `control_inputs` table: four mandatory continuous axes and
    three mandatory switches. The switches are documented as 0 or 1 but
    nothing constrains them. */
module InputsModel {

  datatype ControlData = ControlData(x: real, y: real, z: real, yaw: real, s1: int, s2: int, s3: int)
}
