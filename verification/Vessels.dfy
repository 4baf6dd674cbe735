/** Vessel calls: descriptive columns by name, and the two columns that track merging. */
module Vessels {
  import opened Wrappers
  import opened Text

  datatype Value = Null | Words(text: string) | Number(number: real)

  type Columns = map<string, Value>

  datatype VesselCall = VesselCall(columns: Columns, merged: bool, mergedInto: Option<nat>)

  function Column(call: VesselCall, name: string): Value {
    if name in call.columns then call.columns[name] else Null
  }

  /** `(column or "").strip()` */
  function Trimmed(call: VesselCall, name: string): string {
    match Column(call, name)
    case Words(t) => Strip(t)
    case _ => ""
  }

  function NameOf(call: VesselCall): Option<string> {
    match Column(call, "vessel_name")
    case Words(t) => Some(t)
    case _ => None
  }
}
