# Nous E6 / SZ-T04 climate sensor quirk — a Dafny model

The Nous E6 and SZ-T04 are Tuya-based temperature and humidity sensors. The quirk in
`zhaquirks/nous/ts0601.py` adapts them to standard Zigbee clusters. This project models the
parts of that quirk that compute something:

- **`decimal1`** (`decimal1.dfy`, module `Decimal1`). This is a fixed-point integer that holds tenths.
  A written `str` or `bool` is scaled by ten. An `int` read off the wire passes through unchanged.
  `str()` prints the value divided by ten, with one fractional digit.
- **Humidity adapter** (`humidity.dfy`, module `Humidity`). `TuyaRelativeHumidity.update_attribute`
  multiplies `measured_value` by the device's `RH_MULTIPLIER`. A device without one gets 100.
  Every other attribute passes through unchanged.
- **Data-point and attribute tables** (`data_points.dfy`, module `DataPoints`). These are E6's
  `dp_to_attribute`, `attributes` and `data_point_handlers`, modelled as maps. SZ-T04's tables
  are E6's tables copied and updated, modelled as an explicit map update (`Extend`).
  The table's converters are also modelled: identity, ×10, ×2, the two enums and `decimal1`.
- **Tuya MCU handlers** (`tuya_mcu.dfy`, module `TuyaMcu`). The time-sync response is built by
  appending the UTC and the local timestamp, each as 4 big-endian bytes. The local anchor year
  falls back to the UTC one. The connection-status response echoes the request's sequence
  number with status `0x01`. Both handlers report success.
- `bytes.dfy` (module `Bytes`) models `int.to_bytes(n, "big", signed=False)` and its inverse.
  `results.dfy` holds the Option and Result types.

Clock readings are parameters. They are naive date-times, counted in microseconds since
0001-01-01 00:00. Sending a command is modelled by returning the `Command` the handler schedules:
its command id, its payload and `expect_reply=False`.

Three facts about the code bound what the model promises:

- A time-sync request whose anchor year is outside 1..9999, or whose timestamp does not fit
  in 4 unsigned bytes, raises an exception. It does not report success. The model returns
  `Err(YearOutOfRange)` or `Err(TimestampOverflow)`.
- The two timestamps come from two separate clock readings (`utcnow()` and `now()`). When
  the two readings are equal, they differ by exactly the distance between the two anchors
  (`AnchorDifference`).
- SZ-T04's attribute table keeps E6's entries only at ids that SZ-T04's own updates do not
  override, as `SzT04ExtendsE6Attributes` states.

## Model

| member | source | states |
|---|---|---|
| `Decimal1.Construct` | zhaquirks/nous/ts0601.py:140-146 | An int argument passes through unchanged. `True` gives 10 and `False` gives 0. A string is accepted exactly when it is a decimal with at most one fractional digit. An accepted string constructs the tenths it denotes; a rejected one gives `NotADecimal`. |
| `Decimal1.Render` | zhaquirks/nous/ts0601.py:148-149 | The text ends in "." and one digit, which is the absolute value mod 10. The text starts with "-" exactly when the value is negative. Between the sign and the "." stand decimal digits without a leading zero. With `RenderRoundTrip` this fixes the string. |
| `Decimal1.ParseTenthsOfSpelling` | zhaquirks/nous/ts0601.py:143-145 | Take an optional sign, a non-empty digit string `ip` and an optional "." with at most one digit d. The string denotes ±(10·ip + d) tenths, which is `round(float(s) * 10)`. |
| `Decimal1.AcceptedOnlySpellings` | zhaquirks/nous/ts0601.py:143-145 | Only strings of that shape are accepted, so "", "nan", "1e3" and ".5" give `NotADecimal`. |
| `Decimal1.RenderRoundTrip` | zhaquirks/nous/ts0601.py:140-149 | Parsing the rendering of any value gives the value back. So `decimal1(str(d)) == d`. |
| `Decimal1.WrittenAndWireAgree` | zhaquirks/nous/ts0601.py:140-146 | The written text of a value and its wire integer construct the same `decimal1`. |
| `Decimal1.WrittenIntegerScaled` | zhaquirks/nous/ts0601.py:141-146 | A written whole number k (of either sign) constructs 10·k, while the int k stays k. |
| `Decimal1.FlagScaled` | zhaquirks/nous/ts0601.py:143-144 | `decimal1(True) == 10` and `decimal1(False) == 0`, the same as for the strings "1" and "0". |
| `Decimal1.Examples` | zhaquirks/nous/ts0601.py:162-165 | `decimal1("39.0") == 390`, `str(390) == "39.0"`, the int 390 stays 390 and 6 renders as "0.6". |
| `Humidity.Multiplier` | zhaquirks/nous/ts0601.py:102-106 | The factor is the device's `RH_MULTIPLIER` when it has one, and 100 otherwise. |
| `Humidity.UpdateAttribute` | zhaquirks/nous/ts0601.py:98-107 | The attribute name is forwarded unchanged. `measured_value` is multiplied by the factor. Any other attribute's value is forwarded unchanged. |
| `Humidity.NousDevicesUseDefault` | zhaquirks/nous/ts0601.py:229-293 | Neither Nous device declares `RH_MULTIPLIER`, so a humidity of p is forwarded as 100·p. |
| `DataPoints.ToTemperatureUnit` | zhaquirks/nous/ts0601.py:124-126 | Gives the declared member whose code is x. Codes 0 and 1 are the only ones that succeed. |
| `DataPoints.ToValueAlarm` | zhaquirks/nous/ts0601.py:129-134 | Gives the declared member whose code is x. Codes 0, 1 and 2 are the only ones that succeed. |
| `DataPoints.Convert` | zhaquirks/nous/ts0601.py:169-192 | Each converter's result: x, 10·x, 2·x and x for `decimal1`. The enum converters succeed exactly on the declared codes and keep the code. |
| `DataPoints.Apply` | zhaquirks/nous/ts0601.py:169-192 | A data point missing from the table is an unknown data point. A mapped data point whose conversion succeeds is written, with the converted value, to the table's cluster and attribute. A failed conversion's error is returned. |
| `DataPoints.Extend` | zhaquirks/nous/ts0601.py:155-156 | `copy()` followed by `update()`: the keys of both maps, with an update's entry winning over the original. |
| `DataPoints.DataPointHandlers` | zhaquirks/nous/ts0601.py:194 | Has exactly the keys of `dp_to_attribute`, each mapped to the `_dp_2_attr_update` handler. |
| `DataPoints.E6Conversions` | zhaquirks/nous/ts0601.py:169-192 | For every x: DP 1 gives temperature 10·x, DP 2 humidity x and DP 4 battery 2·x. DPs 10, 11 and 19 give `decimal1(x)`. DPs 9 and 14 succeed exactly on the declared enum codes. They then write the member with that code to `temperature_unit_convert` and `temperature_alarm` on the manufacturer cluster. |
| `DataPoints.SzT04AddedConversions` | zhaquirks/nous/ts0601.py:215-222 | For every x: DPs 12, 13, 17, 18 and 20 write x unchanged to their manufacturer-cluster attributes. DP 15 succeeds exactly on codes 0–2 and writes that `humidity_alarm` member. |
| `DataPoints.TemperatureExample` | zhaquirks/nous/ts0601.py:170-172 | DP 1 with 215 becomes a temperature `measured_value` of 2150. |
| `DataPoints.SzT04ExtendsE6DataPoints` | zhaquirks/nous/ts0601.py:212-224 | Every E6 data point maps identically in SZ-T04. The keys SZ-T04 adds are exactly 12, 13, 15, 17, 18 and 20. |
| `DataPoints.SzT04ExtendsE6Attributes` | zhaquirks/nous/ts0601.py:200-210 | Every E6 attribute id stays in SZ-T04's table, and its entry is unchanged unless SZ-T04 overrides that id. With no inherited clash, E6's table is a sub-table. The added ids are SZ-T04's new ids that the inherited table lacks. |
| `DataPoints.E6TargetsDeclared` | zhaquirks/nous/ts0601.py:155-192 | Each manufacturer-cluster target of E6 is declared in E6's `attributes` with the type its converter produces. |
| `DataPoints.SzT04TargetsDeclared` | zhaquirks/nous/ts0601.py:200-224 | The same holds for SZ-T04's targets in SZ-T04's `attributes`. |
| `DataPoints.HandlersMatchTables` | zhaquirks/nous/ts0601.py:194-226 | In both classes, a data point has a handler exactly when the table maps it. SZ-T04's handlers cover E6's. |
| `DataPoints.HumidityReport` | zhaquirks/nous/ts0601.py:173 | DP 2 goes unconverted to the humidity cluster in both models. The adapter then scales it by the device factor, which is 100 for both Nous sensors. |
| `TuyaMcu.LocalAnchorYear` | zhaquirks/nous/ts0601.py:58-60 | `set_time_local_offset or set_time_offset`: a missing or zero local offset falls back to the UTC anchor year. |
| `TuyaMcu.DaysBeforeYearIsCount` | zhaquirks/nous/ts0601.py:57-60 | The closed-form day count to January 1st agrees with summing 365- and 366-day years. |
| `TuyaMcu.WholeSeconds` | zhaquirks/nous/ts0601.py:62-63 | `int(total_seconds())` truncates toward zero: the result is the whole seconds bracketing the microseconds, on the side of zero. |
| `TuyaMcu.Timestamps` | zhaquirks/nous/ts0601.py:57-63 | Succeeds exactly when both anchor years are valid. A bad UTC year is reported first; with a valid UTC year, a bad local year is reported. On success it gives the seconds from each anchor to its own clock reading. |
| `TuyaMcu.AppendU32` | zhaquirks/nous/ts0601.py:65-66 | Appending keeps the buffer and adds 4 bytes that decode big-endian to the value. The value must be in [0, 2^32). |
| `TuyaMcu.HandleSetTimeRequest` | zhaquirks/nous/ts0601.py:48-73 | The year errors come first, then an overflow of the UTC timestamp, then of the local one. Otherwise the handler returns SUCCESS and sends command 0x24 without expecting a reply. Its 8-byte payload decodes to the UTC timestamp, then the local one. |
| `TuyaMcu.CarriedTimeDeterminesBytes` | zhaquirks/nous/ts0601.py:65-66 | Two responses carrying the same two timestamps are identical, byte for byte. |
| `TuyaMcu.LocalAnchorFallback` | zhaquirks/nous/ts0601.py:57-66 | Take no local offset (or zero) and equal clock readings. Then both timestamps are equal and the payload's two 4-byte halves are the same bytes. |
| `TuyaMcu.AnchorDifference` | zhaquirks/nous/ts0601.py:57-63 | Take equal clock readings after both anchors. Then UTC minus local timestamp equals the seconds between the two anchors' January 1st. |
| `TuyaMcu.HandleMcuConnectionStatus` | zhaquirks/nous/ts0601.py:75-88 | Returns SUCCESS and sends command 0x25 without expecting a reply. The payload carries the request's `tsn` and the status bytes `[0x01]`. |
| `TuyaMcu.ConnectionStatusEchoesTsn` | zhaquirks/nous/ts0601.py:80-82 | Two requests get the same response exactly when their sequence numbers are equal. |
| `Bytes.ToBigEndian` | zhaquirks/nous/ts0601.py:65-66 | `to_bytes(len, "big")` gives exactly `len` bytes. |
| `Bytes.FromToBigEndian` | zhaquirks/nous/ts0601.py:65-66 | Decoding the encoding of n gives n. |
| `Bytes.ToFromBigEndian` | zhaquirks/nous/ts0601.py:65-66 | Encoding the decoded value at the same width gives the bytes back. |

## Left out

- Reading the clocks (`utcnow()`, `now()`): both readings are parameters of the handler.
- Sending commands (`self.command`, `create_catching_task`) and `self.debug` logging: the model returns the command that would be scheduled instead.
- The set-time request's own payload: the handler only logs it.
- Float arithmetic in `decimal1`. `round(float(s) * 10)` is modelled only for strings of the form `[+-]digits[.[digit]]`. Other strings give `Err(NotADecimal)`, though Python would round them (more digits, exponents, surrounding whitespace, a leading ".") or raise.
- Decimal1.Construct: matches Python's float arithmetic only for magnitudes below 2^47 (about 1.4·10^14). Below that bound the errors of `float(s)` and of the product with 10 stay under one half, so `round` gives the exact tenths. Beyond it the result can differ. At "562949953421312.3" (2^49 + 0.3), `float` gives …312.25, and round-half-even of 5629499534213122.5 gives 5629499534213122; the model gives 5629499534213123. A string of about 310 digits makes `float(s)` infinite, so `round` raises `OverflowError`; the model returns `Ok`.
- Decimal1.Render: matches `'{0:.1f}'.format(n / 10)` only while |n / 10| < 2^48. Beyond that the float `n / 10` can print a different last digit: 5629499534213123 prints as "562949953421312.2", while the model prints "562949953421312.3". Beyond about 1.8·10^308, `int(cls) / 10` raises `OverflowError`. Neither case is captured.
- Decimal1.Construct: non-int, non-str, non-bool arguments (such as a float, which `int()` would truncate) are not modelled; wire values are integers.
- Enum construction of undeclared codes: what zigpy's `enum8` does there is library behaviour not visible in this file. The model reports `UndeclaredEnumValue`.
- `TuyaMCUCluster.attributes`, the inherited attribute table, is not part of this model. It is a parameter (`inherited`) of `E6Attributes` and `SzT04Attributes`, and its attribute types are summarised as `OtherType`.
- The generic data-point dispatcher, `_dp_2_attr_update`, belongs to the shared Tuya library. `Apply` models only what a table entry specifies: convert, then write to the named cluster and attribute.
- The `ep_attribute` strings of the clusters come from the host library. Clusters are an enumeration here.
- The `int16s` value range of the SZ-T04 attributes is not modelled, because the identity converter does not enforce it.
- The device `signature` and `replacement` dictionaries, and `_CONSTANT_ATTRIBUTES` of `TuyaPowerConfigurationCluster3AAA`, are not modelled. They are static pairing data for the host. Because `replacement.copy()` is shallow, the SZ-T04 assignment also rewrites E6's nested input clusters, so no property about them is claimed.
- Float rounding in `total_seconds()` is not modelled. The model truncates the exact microsecond count.
