/**
 * The local RelativeHumidity cluster: before an attribute update reaches the standard
 * cluster, `measured_value` is multiplied by the device's `RH_MULTIPLIER`, or by 100 when
 * the device declares none.
 */
module Humidity {
  import opened Results

  const MEASURED_VALUE := "measured_value"
  const DEFAULT_RH_MULTIPLIER := 100

  /** The part of a paired device the adapter looks at: its optional `RH_MULTIPLIER`. */
  datatype Device = Device(rhMultiplier: Option<int>)

  /** Neither Nous device class declares an `RH_MULTIPLIER`. */
  const NOUS_CLIMATE_SENSOR_E6 := Device(None)
  const NOUS_CLIMATE_SENSOR_SZ_T04 := Device(None)

  /** The factor applied to `measured_value`. */
  function Multiplier(device: Device): (m: int)
    ensures device.rhMultiplier == None ==> m == DEFAULT_RH_MULTIPLIER
    ensures device.rhMultiplier != None ==> m == device.rhMultiplier.value
  {
    match device.rhMultiplier
    case Some(factor) => factor
    case None => DEFAULT_RH_MULTIPLIER
  }

  /** The attribute name and value `update_attribute` forwards to the standard cluster. */
  function UpdateAttribute(device: Device, attrName: string, value: int): (r: (string, int))
    ensures r.0 == attrName
    ensures attrName == MEASURED_VALUE ==> r.1 == value * Multiplier(device)
    ensures attrName != MEASURED_VALUE ==> r.1 == value
  {
    if attrName == MEASURED_VALUE then (attrName, value * Multiplier(device)) else (attrName, value)
  }

  /** For both Nous sensors a humidity report of p percent is forwarded as p * 100. */
  lemma NousDevicesUseDefault(device: Device, p: int)
    requires device == NOUS_CLIMATE_SENSOR_E6 || device == NOUS_CLIMATE_SENSOR_SZ_T04
    ensures UpdateAttribute(device, MEASURED_VALUE, p) == (MEASURED_VALUE, 100 * p)
  {
  }
}
