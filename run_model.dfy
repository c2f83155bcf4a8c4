/** The `runs` table: one mission / execution of the vehicle or simulator. */
module RunModel {
  import opened Common

  /** Column widths of the `runs` table (String(128), String(32), String(64)). */
  const NameMaxLen: nat := 128
  const PlatformMaxLen: nat := 32
  const VehicleMaxLen: nat := 64
  const OperatorMaxLen: nat := 64

  /** A stored run. `notes` and `configJson` are unbounded text kept verbatim;
      the server timestamps are not modelled. */
  datatype Run = Run(
    id: int,
    name: string,
    platform: string,
    vehicle: Option<string>,
    operator: Option<string>,
    notes: Option<string>,
    configJson: Option<string>)

  predicate FitsOptional(s: Option<string>, maxLen: nat)
  {
    s.None? || |s.value| <= maxLen
  }

  /** The column constraints of a run row: mandatory `name` and `platform`
      within their widths, optional `vehicle` and `operator` within 64. */
  predicate WellFormed(r: Run)
  {
    && |r.name| <= NameMaxLen
    && |r.platform| <= PlatformMaxLen
    && FitsOptional(r.vehicle, VehicleMaxLen)
    && FitsOptional(r.operator, OperatorMaxLen)
  }
}
