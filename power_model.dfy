/** Payload of the `power_samples` table: voltage, current and temperature of
    battery packs 1 to 3, all nine mandatory. */
module PowerModel {

  datatype Battery = Battery(voltageV: real, currentA: real, tempC: real)

  datatype PowerData = PowerData(bat1: Battery, bat2: Battery, bat3: Battery)
}
