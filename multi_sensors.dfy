/**
  The sensor platform of the legacy multi-inverter integration. Its field sensors
  map status codes through translation tables, its DC-total sensor exists only for
  a serial with some DC value, and its system totals add every dict record, error
  or not. The result fields, numeric fields and status tables of this
  integration are parameters here.
 */
module MultiSensors {
  import opened Values
  import opened Records
  import opened Readings
  import Sensors

  /** `FIELD_MAPPINGS`: per status field, the text of each `str()` of a raw value. */
  type FieldMappings = map<string, map<string, string>>

  // ---------------------------------------------------------------------------
  // Per-inverter field sensor

  /** `mapping.get(str(val), f"Unknown ({val})")`. */
  function MappedText(mapping: map<string, string>, val: Value): (text: string)
    ensures Show(val) in mapping ==> text == mapping[Show(val)]
    ensures Show(val) !in mapping ==> text == "Unknown (" + Show(val) + ")"
  {
    var key := Show(val);
    if key in mapping then mapping[key] else "Unknown (" + key + ")"
  }

  /** `SolaxFieldSensor.state`. */
  function FieldState(r: Record, field: string, numericFields: set<string>, mappings: FieldMappings): Value {
    if !IsTruthy(r) || !IsErrorFree(r) then Null
    else
      var val := Get(r, field);
      if val == Null then Null
      else if field in numericFields then val
      else if field in mappings then Str(MappedText(mappings[field], val))
      else val
  }

  /** `SolaxFieldSensor.available`: true without a record, false on an error record. */
  predicate FieldAvailable(r: Record, field: string) {
    !IsTruthy(r) || (IsErrorFree(r) && field in Keys(r) && Present(r, field))
  }

  /**
    On a record, a field sensor is available exactly when it has a state; without
    a record it is available with no state, and an error record gives neither.
    A numeric field shows its raw value and a mapped one its table text.
   */
  lemma FieldSensorAgreement(r: Record, field: string, numericFields: set<string>, mappings: FieldMappings)
    ensures !IsTruthy(r) ==> FieldAvailable(r, field) && FieldState(r, field, numericFields, mappings) == Null
    ensures IsTruthy(r) && !IsErrorFree(r) ==> !FieldAvailable(r, field) && FieldState(r, field, numericFields, mappings) == Null
    ensures IsTruthy(r) ==> (FieldAvailable(r, field) <==> FieldState(r, field, numericFields, mappings) != Null)
    ensures IsTruthy(r) && FieldAvailable(r, field) && field in numericFields ==>
      FieldState(r, field, numericFields, mappings) == Get(r, field)
    ensures IsTruthy(r) && FieldAvailable(r, field) && field !in numericFields && field in mappings ==>
      FieldState(r, field, numericFields, mappings) == Str(MappedText(mappings[field], Get(r, field)))
  {
  }

  // ---------------------------------------------------------------------------
  // Per-inverter DC total

  /** `SolaxComputedSensor.state`: None without a record, else the sum of the DC values that are not None. */
  function ComputedState(r: Record): Reading {
    if !IsTruthy(r) then Absent else SumPresent(r, DcChannels)
  }

  /** `SolaxComputedSensor.available`: a record with some DC value that is not None. */
  predicate ComputedAvailable(r: Record) {
    IsTruthy(r) && AnyChannel(r)
  }

  /** `SolaxComputedSensor.state`, its loop being the channel sum. */
  method ComputedSensorState(r: Record) returns (s: Reading)
    ensures s == ComputedState(r)
  {
    if !IsTruthy(r) {
      return Absent;
    }
    s := SumChannels(r);
  }

  /** The channel values of the creation rule, `[inverter_data.get(f"powerdc{i}") for i in range(1, 5)]`. */
  function DcValues(r: Record): (vs: seq<Value>)
    ensures |vs| == |DcChannels|
  {
    seq(|DcChannels|, i requires 0 <= i < |DcChannels| => Get(r, DcChannels[i]))
  }

  /** The setup creates a DC-total sensor for a serial whose first-refresh record has some DC value. */
  predicate CreatesDcTotal(r: Record) {
    IsTruthy(r) && exists i :: 0 <= i < |DcValues(r)| && DcValues(r)[i] != Null
  }

  /**
    A DC-total sensor is created exactly for a record on which it is available, and
    its state is then a sum, never None; that sum raises exactly when some present
    DC value is not a number.
   */
  lemma CreatedDcTotalFacts(r: Record)
    ensures CreatesDcTotal(r) <==> ComputedAvailable(r)
    ensures CreatesDcTotal(r) ==> !ComputedState(r).Absent?
    ensures CreatesDcTotal(r) ==>
      (ComputedState(r).Raises? <==> exists i :: 0 <= i < |DcChannels| && Unaddable(r, DcChannels[i]))
  {
    SumPresentRaisesIff(r, DcChannels);
    assert forall i :: 0 <= i < |DcChannels| ==> DcValues(r)[i] == Get(r, DcChannels[i]);
  }

  // ---------------------------------------------------------------------------
  // Entity creation

  /** The fields of a serial that get a sensor: every result field without a record, else the present ones. */
  function AvailableFields(resultFields: seq<string>, r: Record): seq<string> {
    if !IsTruthy(r) then resultFields else Sensors.PresentFields(resultFields, r)
  }

  function InverterEntities(resultFields: seq<string>, serial: string, r: Record): seq<Sensors.Entity> {
    Sensors.FieldSensors(serial, AvailableFields(resultFields, r))
    + if CreatesDcTotal(r) then [Sensors.DcTotalInverter(serial)] else []
  }

  function PerInverter(resultFields: seq<string>, inverters: seq<string>, data: map<string, Record>): seq<Sensors.Entity>
    decreases |inverters|
  {
    if |inverters| == 0 then []
    else
      var last := inverters[|inverters| - 1];
      PerInverter(resultFields, inverters[..|inverters| - 1], data) + InverterEntities(resultFields, last, Lookup(data, last))
  }

  /** The four system totals of this integration: it has no efficiency sensor. */
  const SystemTotals: seq<Sensors.Entity> :=
    [Sensors.SystemTotal(Sensors.AcTotal), Sensors.SystemTotal(Sensors.DcTotal),
     Sensors.SystemTotal(Sensors.YieldTodayTotal), Sensors.SystemTotal(Sensors.YieldTotalTotal)]

  /** The entity list the setup evidently means to build. */
  function Entities(resultFields: seq<string>, inverters: seq<string>, data: map<string, Record>): seq<Sensors.Entity> {
    PerInverter(resultFields, inverters, data) + if Sensors.AnyTruthy(inverters, data) then SystemTotals else []
  }

  /**
    `async_setup_entry` as written: the field-sensor constructor reads `human_name`,
    a local of the function that is first assigned only when a DC-total sensor is
    created, so the first field sensor built before any DC-total sensor raises
    UnboundLocalError. True when that happens, starting with `bound` as whether the
    name is assigned.
   */
  predicate RaisesUnboundName(resultFields: seq<string>, inverters: seq<string>, data: map<string, Record>, bound: bool)
    decreases |inverters|
  {
    if |inverters| == 0 then false
    else
      var r := Lookup(data, inverters[0]);
      (!bound && |AvailableFields(resultFields, r)| > 0)
      || RaisesUnboundName(resultFields, inverters[1..], data, bound || CreatesDcTotal(r))
  }

  /** The outcome of the setup as written: None where it raises. */
  function SetupAsWritten(resultFields: seq<string>, inverters: seq<string>, data: map<string, Record>): Option<seq<Sensors.Entity>> {
    if RaisesUnboundName(resultFields, inverters, data, false) then None
    else Some(Entities(resultFields, inverters, data))
  }

  /**
    The setup as written fails as soon as the first serial has a field sensor to
    create: in particular whenever the first serial has no data on the first
    refresh, since then every result field gets one.
   */
  lemma SetupAsWrittenRaises(resultFields: seq<string>, inverters: seq<string>, data: map<string, Record>)
    requires |inverters| > 0 && |AvailableFields(resultFields, Lookup(data, inverters[0]))| > 0
    ensures SetupAsWritten(resultFields, inverters, data).None?
  {
  }

  lemma SetupAsWrittenRaisesWithoutData(resultFields: seq<string>, inverters: seq<string>, data: map<string, Record>)
    requires |inverters| > 0 && |resultFields| > 0 && inverters[0] !in data
    ensures SetupAsWritten(resultFields, inverters, data).None?
  {
    SetupAsWrittenRaises(resultFields, inverters, data);
  }

  /** The setup with a name bound for every field sensor: it always completes with `Entities`. */
  method SetupEntities(resultFields: seq<string>, inverters: seq<string>, data: map<string, Record>)
    returns (entities: seq<Sensors.Entity>)
    ensures entities == Entities(resultFields, inverters, data)
  {
    entities := [];
    var i := 0;
    while i < |inverters|
      invariant i <= |inverters|
      invariant entities == PerInverter(resultFields, inverters[..i], data)
    {
      var sn := inverters[i];
      entities := AddInverterEntities(resultFields, entities, sn, Lookup(data, sn));
      assert inverters[..i + 1][..i] == inverters[..i];
      i := i + 1;
    }
    assert inverters[..i] == inverters;
    if Sensors.AnyTruthy(inverters, data) {
      entities := entities + SystemTotals;
    }
  }

  /** One turn of the serial loop: the field sensors, then the DC-total sensor when some DC value is there. */
  method AddInverterEntities(resultFields: seq<string>, es: seq<Sensors.Entity>, sn: string, r: Record)
    returns (more: seq<Sensors.Entity>)
    ensures more == es + InverterEntities(resultFields, sn, r)
  {
    more := Sensors.AddFieldSensors(es, sn, AvailableFields(resultFields, r));
    if IsTruthy(r) {
      var dcChannels := DcValues(r);
      var any := false;
      var j := 0;
      while j < |dcChannels|
        invariant j <= |dcChannels|
        invariant any <==> exists k :: 0 <= k < j && dcChannels[k] != Null
      {
        any := any || dcChannels[j] != Null;
        j := j + 1;
      }
      if any {
        more := more + [Sensors.DcTotalInverter(sn)];
      }
    }
  }

  /** Every serial gets a field sensor per available field, and a DC-total sensor exactly under the creation rule. */
  lemma {:induction false} PerInverterMembers(resultFields: seq<string>, inverters: seq<string>, data: map<string, Record>)
    ensures forall sn, f :: Sensors.FieldSensor(sn, f) in PerInverter(resultFields, inverters, data) <==>
      sn in inverters && f in AvailableFields(resultFields, Lookup(data, sn))
    ensures forall sn :: Sensors.DcTotalInverter(sn) in PerInverter(resultFields, inverters, data) <==>
      sn in inverters && CreatesDcTotal(Lookup(data, sn))
    ensures forall sn :: Sensors.InverterEfficiency(sn) !in PerInverter(resultFields, inverters, data)
    ensures forall m :: Sensors.SystemTotal(m) !in PerInverter(resultFields, inverters, data)
    decreases |inverters|
  {
    if |inverters| > 0 {
      var init := inverters[..|inverters| - 1];
      var last := inverters[|inverters| - 1];
      PerInverterMembers(resultFields, init, data);
      Sensors.FieldSensorsMembers(last, AvailableFields(resultFields, Lookup(data, last)));
      assert inverters == init + [last];
      assert forall sn :: sn in inverters <==> sn in init || sn == last;
    }
  }

  /** The totals are the four sums, created when some serial has data; there is never an efficiency total. */
  lemma EntitiesTotals(resultFields: seq<string>, inverters: seq<string>, data: map<string, Record>)
    ensures forall m :: Sensors.SystemTotal(m) in Entities(resultFields, inverters, data) <==>
      m != Sensors.SystemEfficiency && Sensors.AnyTruthy(inverters, data)
  {
    PerInverterMembers(resultFields, inverters, data);
    forall m | m != Sensors.SystemEfficiency ensures Sensors.SystemTotal(m) in SystemTotals {
      match m
      case AcTotal => assert SystemTotals[0] == Sensors.SystemTotal(m);
      case DcTotal => assert SystemTotals[1] == Sensors.SystemTotal(m);
      case YieldTodayTotal => assert SystemTotals[2] == Sensors.SystemTotal(m);
      case YieldTotalTotal => assert SystemTotals[3] == Sensors.SystemTotal(m);
    }
  }

  // ---------------------------------------------------------------------------
  // System totals
  //
  // Availability and the active count are the same code as in the main
  // integration: `Sensors.SystemTotalAvailable` and `Sensors.CountActiveInverters`.

  /** The partial total after the serials in order; only serials without a dict record are skipped. */
  function SystemSum(inverters: seq<string>, data: map<string, Record>, m: Sensors.Metric): Reading
    requires m != Sensors.SystemEfficiency
    decreases |inverters|
  {
    if |inverters| == 0 then Number(0.0)
    else
      var prior := SystemSum(inverters[..|inverters| - 1], data, m);
      var r := Lookup(data, inverters[|inverters| - 1]);
      if !IsTruthy(r) then prior
      else if m == Sensors.DcTotal then Plus(prior, SumPresent(r, DcChannels))
      else if Present(r, Sensors.MetricField(m)) then AddValue(prior, Get(r, Sensors.MetricField(m)))
      else prior
  }

  /** `SolaxSystemTotalSensor.state`. */
  method SystemTotalState(inverters: seq<string>, data: map<string, Record>, m: Sensors.Metric) returns (total: Reading)
    requires m != Sensors.SystemEfficiency
    ensures total == SystemSum(inverters, data, m)
  {
    total := Number(0.0);
    var i := 0;
    while i < |inverters|
      invariant i <= |inverters|
      invariant total == SystemSum(inverters[..i], data, m) && total.Number?
    {
      assert inverters[..i + 1][..i] == inverters[..i];
      var inv := Lookup(data, inverters[i]);
      if IsTruthy(inv) {
        if m != Sensors.DcTotal {
          var value := Get(inv, Sensors.MetricField(m));
          if value != Null {
            total := AddValue(total, value);
          }
        } else {
          var dcTotal := SumChannels(inv);
          total := Plus(total, dcTotal);
        }
        if total.Raises? {
          SystemSumRaisesStays(inverters, data, m, i + 1);
          return;
        }
      }
      i := i + 1;
    }
    assert inverters[..i] == inverters;
  }

  lemma {:induction false} SystemSumRaisesStays(inverters: seq<string>, data: map<string, Record>, m: Sensors.Metric, k: nat)
    requires m != Sensors.SystemEfficiency && k <= |inverters|
    requires SystemSum(inverters[..k], data, m).Raises?
    ensures SystemSum(inverters, data, m).Raises?
    decreases |inverters| - k
  {
    if k < |inverters| {
      assert inverters[..k + 1][..k] == inverters[..k];
      SystemSumRaisesStays(inverters, data, m, k + 1);
    } else {
      assert inverters[..k] == inverters;
    }
  }

  /** No serial's record carries an error flag. */
  predicate NoErrorRecords(inverters: seq<string>, data: map<string, Record>) {
    forall i :: 0 <= i < |inverters| ==> IsErrorFree(Lookup(data, inverters[i]))
  }

  /**
    The legacy totals differ from the main integration's only on error records: without
    any, both integrations report the same totals.
   */
  lemma {:induction false} SameTotalsWithoutErrors(inverters: seq<string>, data: map<string, Record>, m: Sensors.Metric)
    requires m != Sensors.SystemEfficiency && NoErrorRecords(inverters, data)
    ensures SystemSum(inverters, data, m) == Sensors.SystemSum(inverters, data, m)
    decreases |inverters|
  {
    if |inverters| > 0 {
      var init := inverters[..|inverters| - 1];
      assert forall i :: 0 <= i < |init| ==> init[i] == inverters[i];
      SameTotalsWithoutErrors(init, data, m);
    }
  }

  /** An error record still adds its value to the legacy total, where the main integration skips it. */
  lemma ErrorRecordCounts(serial: string, data: map<string, Record>, m: Sensors.Metric)
    requires m in {Sensors.AcTotal, Sensors.YieldTodayTotal, Sensors.YieldTotalTotal}
    requires var r := Lookup(data, serial); IsTruthy(r) && !IsErrorFree(r) && Numeric(Get(r, Sensors.MetricField(m))).Some?
    ensures SystemSum([serial], data, m) == Number(Numeric(Get(Lookup(data, serial), Sensors.MetricField(m))).value)
    ensures Sensors.SystemSum([serial], data, m) == Number(0.0)
  {
    assert [serial][..0] == [];
  }

  /** The sum of the states of the per-inverter DC-total sensors over the serials with a record. */
  function DcSensorSum(inverters: seq<string>, data: map<string, Record>): Reading
    decreases |inverters|
  {
    if |inverters| == 0 then Number(0.0)
    else
      var prior := DcSensorSum(inverters[..|inverters| - 1], data);
      var r := Lookup(data, inverters[|inverters| - 1]);
      if IsTruthy(r) then Plus(prior, ComputedState(r)) else prior
  }

  /** The system DC total adds exactly the states of the DC-total sensors of the serials with a record. */
  lemma {:induction false} DcTotalIsSumOfInverterTotals(inverters: seq<string>, data: map<string, Record>)
    ensures SystemSum(inverters, data, Sensors.DcTotal) == DcSensorSum(inverters, data)
    decreases |inverters|
  {
    if |inverters| > 0 {
      DcTotalIsSumOfInverterTotals(inverters[..|inverters| - 1], data);
    }
  }
}
