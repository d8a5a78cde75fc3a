/**
 * The data-point tables of the two Nous manufacturer clusters. A data point reported by the
 * device is converted and written to one attribute of one local cluster; the SZ-T04 tables
 * are the E6 tables copied and updated with extra entries.
 */
module DataPoints {
  import opened Results
  import Decimal1
  import Humidity

  /** The local clusters a data point is written to, named after their `ep_attribute`. */
  datatype Cluster =
    | TemperatureMeasurement
    | RelativeHumidity
    | PowerConfiguration
    | ManufacturerCluster

  /** The declared members of `TemperatureUnit`. */
  datatype TemperatureUnit = Celsius | Fahrenheit

  /** The declared members of `ValueAlarm`. */
  datatype ValueAlarm = MinAlarmOn | MaxAlarmOn | AlarmOff

  function TemperatureUnitCode(u: TemperatureUnit): int {
    match u
    case Celsius => 0x00
    case Fahrenheit => 0x01
  }

  function ValueAlarmCode(a: ValueAlarm): int {
    match a
    case MinAlarmOn => 0x00
    case MaxAlarmOn => 0x01
    case AlarmOff => 0x02
  }

  /** `TemperatureUnit(x)` restricted to the declared members. */
  function ToTemperatureUnit(x: int): (r: Option<TemperatureUnit>)
    ensures r != None ==> TemperatureUnitCode(r.value) == x
    ensures r == None ==> forall u :: TemperatureUnitCode(u) != x
  {
    if x == 0x00 then Some(Celsius) else if x == 0x01 then Some(Fahrenheit) else None
  }

  /** `ValueAlarm(x)` restricted to the declared members. */
  function ToValueAlarm(x: int): (r: Option<ValueAlarm>)
    ensures r != None ==> ValueAlarmCode(r.value) == x
    ensures r == None ==> forall a :: ValueAlarmCode(a) != x
  {
    if x == 0x00 then Some(MinAlarmOn)
    else if x == 0x01 then Some(MaxAlarmOn)
    else if x == 0x02 then Some(AlarmOff)
    else None
  }

  /** The value conversions the tables name (the absent converter is the identity). */
  datatype Converter = Identity | TimesTen | TimesTwo | AsTemperatureUnit | AsValueAlarm | AsDecimal1

  datatype Value =
    | IntValue(n: int)
    | UnitValue(unit: TemperatureUnit)
    | AlarmValue(alarm: ValueAlarm)
    | Decimal1Value(tenths: int)

  datatype Error = UnknownDataPoint(dp: int) | UndeclaredEnumValue(x: int)

  /** A `DPToAttributeMapping`: the target cluster, the attribute name and the converter. */
  datatype Mapping = Mapping(cluster: Cluster, attribute: string, converter: Converter)

  /** An attribute update on a local cluster, as a converted data point produces it. */
  datatype AttributeWrite = AttributeWrite(cluster: Cluster, attribute: string, value: Value)

  /** Applies a converter to the integer carried by a data point. */
  function Convert(c: Converter, x: int): (r: Result<Value, Error>)
    ensures c == Identity ==> r == Ok(IntValue(x))
    ensures c == TimesTen ==> r == Ok(IntValue(10 * x))
    ensures c == TimesTwo ==> r == Ok(IntValue(2 * x))
    ensures c == AsDecimal1 ==> r == Ok(Decimal1Value(x))
    ensures c == AsTemperatureUnit ==>
      (r.Ok? <==> x in {0, 1}) && (r.Ok? ==> r.value.UnitValue? && TemperatureUnitCode(r.value.unit) == x)
    ensures c == AsValueAlarm ==>
      (r.Ok? <==> x in {0, 1, 2}) && (r.Ok? ==> r.value.AlarmValue? && ValueAlarmCode(r.value.alarm) == x)
  {
    match c
    case Identity => Ok(IntValue(x))
    case TimesTen => Ok(IntValue(x * 10))
    case TimesTwo => Ok(IntValue(x * 2))
    case AsTemperatureUnit =>
      (match ToTemperatureUnit(x)
       case Some(u) => Ok(UnitValue(u))
       case None => Err(UndeclaredEnumValue(x)))
    case AsValueAlarm =>
      (match ToValueAlarm(x)
       case Some(a) => Ok(AlarmValue(a))
       case None => Err(UndeclaredEnumValue(x)))
    case AsDecimal1 => Ok(Decimal1Value(Decimal1.Construct(Decimal1.Wire(x)).value))
  }

  /** Routes a reported data point through a table: convert, then name the target. */
  function Apply(table: map<int, Mapping>, dp: int, x: int): (r: Result<AttributeWrite, Error>)
    ensures dp !in table ==> r == Err(UnknownDataPoint(dp))
    ensures dp in table ==> r != Err(UnknownDataPoint(dp))
    ensures r.Ok? ==> dp in table && r.value.cluster == table[dp].cluster
                      && r.value.attribute == table[dp].attribute
                      && Convert(table[dp].converter, x) == Ok(r.value.value)
    ensures dp in table && Convert(table[dp].converter, x).Ok? ==>
      r == Ok(AttributeWrite(table[dp].cluster, table[dp].attribute, Convert(table[dp].converter, x).value))
    ensures dp in table && Convert(table[dp].converter, x).Err? ==>
      r == Err(Convert(table[dp].converter, x).error)
  {
    if dp !in table then Err(UnknownDataPoint(dp))
    else
      var m := table[dp];
      match Convert(m.converter, x)
      case Ok(v) => Ok(AttributeWrite(m.cluster, m.attribute, v))
      case Err(e) => Err(e)
  }

  /** Python's `dict.copy()` followed by `.update(updates)`. */
  function Extend<V>(table: map<int, V>, updates: map<int, V>): (r: map<int, V>)
    ensures r.Keys == table.Keys + updates.Keys
    ensures forall k :: k in r ==> r[k] == if k in updates then updates[k] else table[k]
  {
    table + updates
  }

  // ---------------------------------------------------------------- data-point tables

  const E6_DP_TO_ATTRIBUTE: map<int, Mapping> := map[
    1 := Mapping(TemperatureMeasurement, "measured_value", TimesTen),
    2 := Mapping(RelativeHumidity, "measured_value", Identity),
    4 := Mapping(PowerConfiguration, "battery_percentage_remaining", TimesTwo),
    9 := Mapping(ManufacturerCluster, "temperature_unit_convert", AsTemperatureUnit),
    10 := Mapping(ManufacturerCluster, "max_temperature", AsDecimal1),
    11 := Mapping(ManufacturerCluster, "min_temperature", AsDecimal1),
    14 := Mapping(ManufacturerCluster, "temperature_alarm", AsValueAlarm),
    19 := Mapping(ManufacturerCluster, "temperature_sensitivity", AsDecimal1)
  ]

  const SZ_T04_DP_UPDATES: map<int, Mapping> := map[
    12 := Mapping(ManufacturerCluster, "max_humidity", Identity),
    13 := Mapping(ManufacturerCluster, "min_humidity", Identity),
    15 := Mapping(ManufacturerCluster, "humidity_alarm", AsValueAlarm),
    17 := Mapping(ManufacturerCluster, "temperature_report_interval", Identity),
    18 := Mapping(ManufacturerCluster, "humidity_report_interval", Identity),
    20 := Mapping(ManufacturerCluster, "humidity_sensitivity", Identity)
  ]

  const SZ_T04_DP_TO_ATTRIBUTE: map<int, Mapping> := Extend(E6_DP_TO_ATTRIBUTE, SZ_T04_DP_UPDATES)

  /** The handler the generic dispatcher calls for a data point: `"_dp_2_attr_update"`. */
  datatype Handler = DpToAttributeUpdate

  /** `{key: "_dp_2_attr_update" for key in dp_to_attribute.keys()}`. */
  function DataPointHandlers(dpToAttribute: map<int, Mapping>): (r: map<int, Handler>)
    ensures r.Keys == dpToAttribute.Keys
    ensures forall dp :: dp in r ==> r[dp] == DpToAttributeUpdate
  {
    map dp | dp in dpToAttribute :: DpToAttributeUpdate
  }

  const E6_DATA_POINT_HANDLERS := DataPointHandlers(E6_DP_TO_ATTRIBUTE)
  const SZ_T04_DATA_POINT_HANDLERS := DataPointHandlers(SZ_T04_DP_TO_ATTRIBUTE)

  // ---------------------------------------------------------------- attribute tables

  /** Attribute types; `OtherType` stands for the types of the inherited attributes. */
  datatype AttributeType = Int16s | TemperatureUnitType | ValueAlarmType | Decimal1Type | OtherType

  /** An entry of a cluster's `attributes`: (name, type, is manufacturer specific). */
  datatype Attribute = Attribute(name: string, attrType: AttributeType, manufacturerSpecific: bool)

  const E6_ATTRIBUTE_UPDATES: map<int, Attribute> := map[
    0xF409 := Attribute("temperature_unit_convert", TemperatureUnitType, true),
    0xF20A := Attribute("max_temperature", Decimal1Type, true),
    0xF20B := Attribute("min_temperature", Decimal1Type, true),
    0xF40E := Attribute("temperature_alarm", ValueAlarmType, true),
    0xF213 := Attribute("temperature_sensitivity", Decimal1Type, true)
  ]

  const SZ_T04_ATTRIBUTE_UPDATES: map<int, Attribute> := map[
    0xF20C := Attribute("max_humidity", Int16s, true),
    0xF20D := Attribute("min_humidity", Int16s, true),
    0xF40F := Attribute("humidity_alarm", ValueAlarmType, true),
    0xF211 := Attribute("temperature_report_interval", Int16s, true),
    0xF212 := Attribute("humidity_report_interval", Int16s, true),
    0xF214 := Attribute("humidity_sensitivity", Int16s, true)
  ]

  /** E6's `attributes`: the inherited `TuyaMCUCluster.attributes` updated with E6's entries. */
  function E6Attributes(inherited: map<int, Attribute>): map<int, Attribute> {
    Extend(inherited, E6_ATTRIBUTE_UPDATES)
  }

  /** SZ-T04's `attributes`: E6's table updated with SZ-T04's entries. */
  function SzT04Attributes(inherited: map<int, Attribute>): map<int, Attribute> {
    Extend(E6Attributes(inherited), SZ_T04_ATTRIBUTE_UPDATES)
  }

  /** The attribute type a converter's values belong to. */
  predicate Produces(c: Converter, t: AttributeType) {
    match c
    case Identity => t == Int16s
    case AsTemperatureUnit => t == TemperatureUnitType
    case AsValueAlarm => t == ValueAlarmType
    case AsDecimal1 => t == Decimal1Type
    case _ => false
  }

  /** `attrs` declares the target attribute of `m` with a type its converter produces. */
  ghost predicate Declares(attrs: map<int, Attribute>, m: Mapping) {
    exists id :: id in attrs && attrs[id].name == m.attribute && Produces(m.converter, attrs[id].attrType)
  }

  /** Every data point a table sends to the manufacturer cluster names a declared attribute. */
  ghost predicate TargetsDeclared(table: map<int, Mapping>, attrs: map<int, Attribute>) {
    forall dp :: dp in table && table[dp].cluster == ManufacturerCluster ==> Declares(attrs, table[dp])
  }

  // ---------------------------------------------------------------- properties

  /** What each E6 data point turns a reported integer into. */
  lemma E6Conversions(x: int)
    ensures Apply(E6_DP_TO_ATTRIBUTE, 1, x) == Ok(AttributeWrite(TemperatureMeasurement, "measured_value", IntValue(10 * x)))
    ensures Apply(E6_DP_TO_ATTRIBUTE, 2, x) == Ok(AttributeWrite(RelativeHumidity, "measured_value", IntValue(x)))
    ensures Apply(E6_DP_TO_ATTRIBUTE, 4, x) == Ok(AttributeWrite(PowerConfiguration, "battery_percentage_remaining", IntValue(2 * x)))
    ensures Apply(E6_DP_TO_ATTRIBUTE, 10, x) == Ok(AttributeWrite(ManufacturerCluster, "max_temperature", Decimal1Value(x)))
    ensures Apply(E6_DP_TO_ATTRIBUTE, 11, x) == Ok(AttributeWrite(ManufacturerCluster, "min_temperature", Decimal1Value(x)))
    ensures Apply(E6_DP_TO_ATTRIBUTE, 19, x) == Ok(AttributeWrite(ManufacturerCluster, "temperature_sensitivity", Decimal1Value(x)))
    ensures Apply(E6_DP_TO_ATTRIBUTE, 9, x).Ok? <==> x in {0, 1}
    ensures Apply(E6_DP_TO_ATTRIBUTE, 9, x).Ok? ==>
      Apply(E6_DP_TO_ATTRIBUTE, 9, x).value.cluster == ManufacturerCluster
      && Apply(E6_DP_TO_ATTRIBUTE, 9, x).value.attribute == "temperature_unit_convert"
      && Apply(E6_DP_TO_ATTRIBUTE, 9, x).value.value.UnitValue?
      && TemperatureUnitCode(Apply(E6_DP_TO_ATTRIBUTE, 9, x).value.value.unit) == x
    ensures Apply(E6_DP_TO_ATTRIBUTE, 14, x).Ok? <==> x in {0, 1, 2}
    ensures Apply(E6_DP_TO_ATTRIBUTE, 14, x).Ok? ==>
      Apply(E6_DP_TO_ATTRIBUTE, 14, x).value.cluster == ManufacturerCluster
      && Apply(E6_DP_TO_ATTRIBUTE, 14, x).value.attribute == "temperature_alarm"
      && Apply(E6_DP_TO_ATTRIBUTE, 14, x).value.value.AlarmValue?
      && ValueAlarmCode(Apply(E6_DP_TO_ATTRIBUTE, 14, x).value.value.alarm) == x
  {
  }

  /** What each data point SZ-T04 adds turns a reported integer into. */
  lemma SzT04AddedConversions(x: int)
    ensures Apply(SZ_T04_DP_TO_ATTRIBUTE, 12, x) == Ok(AttributeWrite(ManufacturerCluster, "max_humidity", IntValue(x)))
    ensures Apply(SZ_T04_DP_TO_ATTRIBUTE, 13, x) == Ok(AttributeWrite(ManufacturerCluster, "min_humidity", IntValue(x)))
    ensures Apply(SZ_T04_DP_TO_ATTRIBUTE, 17, x) == Ok(AttributeWrite(ManufacturerCluster, "temperature_report_interval", IntValue(x)))
    ensures Apply(SZ_T04_DP_TO_ATTRIBUTE, 18, x) == Ok(AttributeWrite(ManufacturerCluster, "humidity_report_interval", IntValue(x)))
    ensures Apply(SZ_T04_DP_TO_ATTRIBUTE, 20, x) == Ok(AttributeWrite(ManufacturerCluster, "humidity_sensitivity", IntValue(x)))
    ensures Apply(SZ_T04_DP_TO_ATTRIBUTE, 15, x).Ok? <==> x in {0, 1, 2}
    ensures Apply(SZ_T04_DP_TO_ATTRIBUTE, 15, x).Ok? ==>
      Apply(SZ_T04_DP_TO_ATTRIBUTE, 15, x).value.cluster == ManufacturerCluster
      && Apply(SZ_T04_DP_TO_ATTRIBUTE, 15, x).value.attribute == "humidity_alarm"
      && Apply(SZ_T04_DP_TO_ATTRIBUTE, 15, x).value.value.AlarmValue?
      && ValueAlarmCode(Apply(SZ_T04_DP_TO_ATTRIBUTE, 15, x).value.value.alarm) == x
  {
  }

  /** Data point 1 reported as 215 (21.5 degrees) becomes a temperature of 2150 hundredths. */
  lemma TemperatureExample()
    ensures Apply(E6_DP_TO_ATTRIBUTE, 1, 215) == Ok(AttributeWrite(TemperatureMeasurement, "measured_value", IntValue(2150)))
  {
  }

  /** The SZ-T04 table keeps every E6 entry and adds exactly data points 12, 13, 15, 17, 18, 20. */
  lemma SzT04ExtendsE6DataPoints()
    ensures forall dp :: dp in E6_DP_TO_ATTRIBUTE ==>
      dp in SZ_T04_DP_TO_ATTRIBUTE && SZ_T04_DP_TO_ATTRIBUTE[dp] == E6_DP_TO_ATTRIBUTE[dp]
    ensures SZ_T04_DP_TO_ATTRIBUTE.Keys - E6_DP_TO_ATTRIBUTE.Keys == {12, 13, 15, 17, 18, 20}
  {
  }

  /**
   * Every E6 attribute is still in the SZ-T04 table, and keeps its entry unless SZ-T04's
   * updates name its id; when the inherited table uses none of those ids, E6's table is a
   * sub-table of SZ-T04's.
   */
  lemma SzT04ExtendsE6Attributes(inherited: map<int, Attribute>)
    ensures E6Attributes(inherited).Keys <= SzT04Attributes(inherited).Keys
    ensures forall id :: id in E6Attributes(inherited) && id !in SZ_T04_ATTRIBUTE_UPDATES ==>
      SzT04Attributes(inherited)[id] == E6Attributes(inherited)[id]
    ensures inherited.Keys !! SZ_T04_ATTRIBUTE_UPDATES.Keys ==>
      forall id :: id in E6Attributes(inherited) ==> SzT04Attributes(inherited)[id] == E6Attributes(inherited)[id]
    ensures SzT04Attributes(inherited).Keys - E6Attributes(inherited).Keys
      == SZ_T04_ATTRIBUTE_UPDATES.Keys - inherited.Keys
  {
    var e6, sz := E6Attributes(inherited), SzT04Attributes(inherited);
    assert E6_ATTRIBUTE_UPDATES.Keys !! SZ_T04_ATTRIBUTE_UPDATES.Keys by {
      assert E6_ATTRIBUTE_UPDATES.Keys == {0xF409, 0xF20A, 0xF20B, 0xF40E, 0xF213};
      assert SZ_T04_ATTRIBUTE_UPDATES.Keys == {0xF20C, 0xF20D, 0xF40F, 0xF211, 0xF212, 0xF214};
    }
    assert e6.Keys == inherited.Keys + E6_ATTRIBUTE_UPDATES.Keys;
    assert sz.Keys == e6.Keys + SZ_T04_ATTRIBUTE_UPDATES.Keys;
  }

  /** `attrs` holds every entry of `updates` unchanged. */
  ghost predicate Contains(attrs: map<int, Attribute>, updates: map<int, Attribute>) {
    forall id :: id in updates ==> id in attrs && attrs[id] == updates[id]
  }

  /** Each manufacturer-cluster target of `table` is declared at the id `ids` gives it. */
  lemma TargetsDeclaredAt(table: map<int, Mapping>, attrs: map<int, Attribute>, ids: map<int, int>)
    requires forall dp :: dp in table && table[dp].cluster == ManufacturerCluster ==>
      dp in ids && ids[dp] in attrs && attrs[ids[dp]].name == table[dp].attribute
      && Produces(table[dp].converter, attrs[ids[dp]].attrType)
    ensures TargetsDeclared(table, attrs)
  {
    forall dp | dp in table && table[dp].cluster == ManufacturerCluster
      ensures Declares(attrs, table[dp])
    {
      var id := ids[dp];
      assert id in attrs && attrs[id].name == table[dp].attribute;
    }
  }

  const E6_TARGET_IDS: map<int, int> := map[9 := 0xF409, 10 := 0xF20A, 11 := 0xF20B, 14 := 0xF40E, 19 := 0xF213]

  const SZ_T04_TARGET_IDS: map<int, int> := map[12 := 0xF20C, 13 := 0xF20D, 15 := 0xF40F, 17 := 0xF211, 18 := 0xF212, 20 := 0xF214]

  /** E6's targets are declared in any table that keeps E6's attribute entries. */
  lemma E6TargetsDeclaredIn(attrs: map<int, Attribute>)
    requires Contains(attrs, E6_ATTRIBUTE_UPDATES)
    ensures TargetsDeclared(E6_DP_TO_ATTRIBUTE, attrs)
  {
    var table := E6_DP_TO_ATTRIBUTE;
    forall dp | dp in table && table[dp].cluster == ManufacturerCluster
      ensures dp in E6_TARGET_IDS && E6_TARGET_IDS[dp] in attrs
        && attrs[E6_TARGET_IDS[dp]].name == table[dp].attribute
        && Produces(table[dp].converter, attrs[E6_TARGET_IDS[dp]].attrType)
    {
      assert dp in {9, 10, 11, 14, 19};
      assert E6_TARGET_IDS[dp] in E6_ATTRIBUTE_UPDATES;
    }
    TargetsDeclaredAt(table, attrs, E6_TARGET_IDS);
  }

  /** Every manufacturer-cluster target of E6 is declared in E6's attributes, with a fitting type. */
  lemma E6TargetsDeclared(inherited: map<int, Attribute>)
    ensures TargetsDeclared(E6_DP_TO_ATTRIBUTE, E6Attributes(inherited))
  {
    E6TargetsDeclaredIn(E6Attributes(inherited));
  }

  /** SZ-T04's added targets are declared in any table that keeps SZ-T04's added attributes. */
  lemma SzT04AddedTargetsDeclaredIn(attrs: map<int, Attribute>)
    requires Contains(attrs, SZ_T04_ATTRIBUTE_UPDATES)
    ensures TargetsDeclared(SZ_T04_DP_UPDATES, attrs)
  {
    var table := SZ_T04_DP_UPDATES;
    forall dp | dp in table && table[dp].cluster == ManufacturerCluster
      ensures dp in SZ_T04_TARGET_IDS && SZ_T04_TARGET_IDS[dp] in attrs
        && attrs[SZ_T04_TARGET_IDS[dp]].name == table[dp].attribute
        && Produces(table[dp].converter, attrs[SZ_T04_TARGET_IDS[dp]].attrType)
    {
      assert dp in {12, 13, 15, 17, 18, 20};
      assert SZ_T04_TARGET_IDS[dp] in SZ_T04_ATTRIBUTE_UPDATES;
    }
    TargetsDeclaredAt(table, attrs, SZ_T04_TARGET_IDS);
  }

  /** Updating a table keeps its targets declared when the updates' targets are declared too. */
  lemma ExtendKeepsTargetsDeclared(table: map<int, Mapping>, updates: map<int, Mapping>, attrs: map<int, Attribute>)
    requires TargetsDeclared(table, attrs) && TargetsDeclared(updates, attrs)
    ensures TargetsDeclared(Extend(table, updates), attrs)
  {
  }

  /** SZ-T04's targets are declared in any table that keeps both sets of attribute entries. */
  lemma SzT04TargetsDeclaredIn(attrs: map<int, Attribute>)
    requires Contains(attrs, E6_ATTRIBUTE_UPDATES) && Contains(attrs, SZ_T04_ATTRIBUTE_UPDATES)
    ensures TargetsDeclared(SZ_T04_DP_TO_ATTRIBUTE, attrs)
  {
    E6TargetsDeclaredIn(attrs);
    SzT04AddedTargetsDeclaredIn(attrs);
    ExtendKeepsTargetsDeclared(E6_DP_TO_ATTRIBUTE, SZ_T04_DP_UPDATES, attrs);
  }

  /** SZ-T04's attribute table keeps the entries both classes add. */
  lemma SzT04AttributesContainUpdates(inherited: map<int, Attribute>)
    ensures Contains(SzT04Attributes(inherited), E6_ATTRIBUTE_UPDATES)
    ensures Contains(SzT04Attributes(inherited), SZ_T04_ATTRIBUTE_UPDATES)
  {
  }

  /** The same holds of SZ-T04, whose added targets are declared among its added attributes. */
  lemma SzT04TargetsDeclared(inherited: map<int, Attribute>)
    ensures TargetsDeclared(SZ_T04_DP_TO_ATTRIBUTE, SzT04Attributes(inherited))
  {
    SzT04AttributesContainUpdates(inherited);
    SzT04TargetsDeclaredIn(SzT04Attributes(inherited));
  }

  /**
   * A data point has a handler exactly when the table maps it, in both classes; SZ-T04
   * recomputes its handlers, so its added data points are dispatched too.
   */
  lemma HandlersMatchTables(dp: int, x: int)
    ensures dp in E6_DATA_POINT_HANDLERS <==> Apply(E6_DP_TO_ATTRIBUTE, dp, x) != Err(UnknownDataPoint(dp))
    ensures dp in SZ_T04_DATA_POINT_HANDLERS <==> Apply(SZ_T04_DP_TO_ATTRIBUTE, dp, x) != Err(UnknownDataPoint(dp))
    ensures E6_DATA_POINT_HANDLERS.Keys <= SZ_T04_DATA_POINT_HANDLERS.Keys
  {
  }

  /**
   * A humidity data point (2), written to the local humidity cluster, reaches the standard
   * cluster multiplied by the device's factor: by 100 on both Nous sensors.
   */
  lemma HumidityReport(device: Humidity.Device, x: int)
    ensures Apply(E6_DP_TO_ATTRIBUTE, 2, x) == Apply(SZ_T04_DP_TO_ATTRIBUTE, 2, x)
    ensures var w := Apply(E6_DP_TO_ATTRIBUTE, 2, x).value;
      w.cluster == RelativeHumidity &&
      Humidity.UpdateAttribute(device, w.attribute, w.value.n) == (Humidity.MEASURED_VALUE, x * Humidity.Multiplier(device))
    ensures device == Humidity.NOUS_CLIMATE_SENSOR_E6 || device == Humidity.NOUS_CLIMATE_SENSOR_SZ_T04 ==>
      Humidity.Multiplier(device) == 100
  {
  }
}
