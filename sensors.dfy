/**
  The sensors of the integration's sensor platform, read off the coordinator's
  published map: which entities the platform creates, the state and
  availability of a per-inverter field sensor and of the per-inverter DC total,
  and the system totals with their count of active inverters.
 */
module Sensors {
  import opened Values
  import opened Records
  import opened Readings

  /** `RESULT_FIELDS`: the fields a realtime result may carry, in the order sensors are created. */
  const ResultFields: seq<string> := [
    "inverterSN", "sn", "acpower",
    "yieldtoday", "yieldtotal",
    "feedinpower", "feedinenergy", "consumeenergy", "feedinpowerM2",
    "soc", "peps1", "peps2", "peps3",
    "inverterType", "inverterStatus", "uploadTime", "utcDateTime",
    "batPower", "powerdc1", "powerdc2", "powerdc3", "powerdc4",
    "batStatus"]

  /** The keys of `NUMERIC_FIELDS`. */
  const NumericFields: set<string> := {
    "acpower", "powerdc1", "powerdc2", "powerdc3", "powerdc4",
    "yieldtoday", "yieldtotal", "feedinpower", "feedinenergy", "consumeenergy",
    "batPower", "soc", "peps1", "peps2", "peps3", "feedinpowerM2"}

  /** `MAPPED_FIELDS`: states shown through the translation files. */
  const MappedFields: set<string> := {"inverterStatus", "batStatus", "inverterType"}

  // ---------------------------------------------------------------------------
  // Entity creation

  /** The five system totals, by their metric key. */
  datatype Metric = AcTotal | DcTotal | YieldTodayTotal | YieldTotalTotal | SystemEfficiency

  datatype Entity =
    | FieldSensor(serial: string, field: string)
    | InverterEfficiency(serial: string)
    | DcTotalInverter(serial: string)
    | SystemTotal(metric: Metric)

  const SystemTotals: seq<Entity> :=
    [SystemTotal(AcTotal), SystemTotal(DcTotal), SystemTotal(YieldTodayTotal), SystemTotal(YieldTotalTotal),
     SystemTotal(SystemEfficiency)]

  /** The fields of `fields` that the record holds with a value other than None, in order. */
  function PresentFields(fields: seq<string>, r: Record): (fs: seq<string>)
    ensures |fs| <= |fields|
    ensures forall f :: f in fs <==> f in fields && f in Keys(r) && Present(r, f)
  {
    if |fields| == 0 then []
    else (if fields[0] in Keys(r) && Present(r, fields[0]) then [fields[0]] else []) + PresentFields(fields[1..], r)
  }

  /** `available_fields`: every result field when there is no (non-empty) record, else the present ones. */
  function AvailableFields(r: Record): seq<string> {
    if !IsTruthy(r) then ResultFields else PresentFields(ResultFields, r)
  }

  function FieldSensors(serial: string, fields: seq<string>): (es: seq<Entity>)
    ensures |es| == |fields|
  {
    if |fields| == 0 then [] else FieldSensors(serial, fields[..|fields| - 1]) + [FieldSensor(serial, fields[|fields| - 1])]
  }

  lemma {:induction false} FieldSensorsMembers(serial: string, fields: seq<string>)
    ensures forall e :: e in FieldSensors(serial, fields) <==> e.FieldSensor? && e.serial == serial && e.field in fields
    decreases |fields|
  {
    if |fields| > 0 {
      var init := fields[..|fields| - 1];
      FieldSensorsMembers(serial, init);
      assert fields == init + [fields[|fields| - 1]];
    }
  }

  /** The entities created for one serial: its field sensors, then its efficiency and DC-total sensors. */
  function InverterEntities(serial: string, r: Record): seq<Entity> {
    FieldSensors(serial, AvailableFields(r)) + [InverterEfficiency(serial), DcTotalInverter(serial)]
  }

  /** The per-serial entities for the serials in order. */
  function PerInverter(inverters: seq<string>, data: map<string, Record>): seq<Entity>
    decreases |inverters|
  {
    if |inverters| == 0 then []
    else
      var last := inverters[|inverters| - 1];
      PerInverter(inverters[..|inverters| - 1], data) + InverterEntities(last, Lookup(data, last))
  }

  /** `any(coordinator.data.get(sn) for sn in inverters)`. */
  predicate AnyTruthy(inverters: seq<string>, data: map<string, Record>) {
    exists i :: 0 <= i < |inverters| && IsTruthy(Lookup(data, inverters[i]))
  }

  function Entities(inverters: seq<string>, data: map<string, Record>): seq<Entity> {
    PerInverter(inverters, data) + if AnyTruthy(inverters, data) then SystemTotals else []
  }

  /**
    The entity list of `async_setup_entry` after the first refresh, or None where it
    raises ValueError for a missing system name.
   */
  method SetupEntities(systemName: string, inverters: seq<string>, data: map<string, Record>)
    returns (entities: Option<seq<Entity>>)
    ensures entities.None? <==> systemName == ""
    ensures entities.Some? ==> entities.value == Entities(inverters, data)
  {
    if systemName == "" {
      return None;
    }
    var es: seq<Entity> := [];
    var i := 0;
    while i < |inverters|
      invariant i <= |inverters|
      invariant es == PerInverter(inverters[..i], data)
    {
      var sn := inverters[i];
      es := AddInverterEntities(es, sn, Lookup(data, sn));
      assert inverters[..i + 1][..i] == inverters[..i];
      i := i + 1;
    }
    assert inverters[..i] == inverters;
    if AnyTruthy(inverters, data) {
      es := es + SystemTotals;
    }
    entities := Some(es);
  }

  /** The body of the serial loop of `async_setup_entry`: one field sensor per available field, then the two computed ones. */
  method AddInverterEntities(es: seq<Entity>, sn: string, r: Record) returns (more: seq<Entity>)
    ensures more == es + InverterEntities(sn, r)
  {
    more := AddFieldSensors(es, sn, AvailableFields(r));
    more := more + [InverterEfficiency(sn), DcTotalInverter(sn)];
  }

  /** The inner loop: one field sensor per field, in order. */
  method AddFieldSensors(es: seq<Entity>, sn: string, fields: seq<string>) returns (more: seq<Entity>)
    ensures more == es + FieldSensors(sn, fields)
  {
    more := es;
    var j := 0;
    while j < |fields|
      invariant j <= |fields|
      invariant more == es + FieldSensors(sn, fields[..j])
    {
      assert fields[..j + 1][..j] == fields[..j];
      more := more + [FieldSensor(sn, fields[j])];
      j := j + 1;
    }
    assert fields[..j] == fields;
  }

  /** Which entities a setup creates: every serial's sensors, and the totals when some serial has data. */
  lemma {:induction false} PerInverterMembers(inverters: seq<string>, data: map<string, Record>)
    ensures forall sn, f :: FieldSensor(sn, f) in PerInverter(inverters, data) <==>
      sn in inverters && f in AvailableFields(Lookup(data, sn))
    ensures forall sn :: InverterEfficiency(sn) in PerInverter(inverters, data) <==> sn in inverters
    ensures forall sn :: DcTotalInverter(sn) in PerInverter(inverters, data) <==> sn in inverters
    ensures forall m :: SystemTotal(m) !in PerInverter(inverters, data)
    decreases |inverters|
  {
    if |inverters| > 0 {
      var init := inverters[..|inverters| - 1];
      var last := inverters[|inverters| - 1];
      PerInverterMembers(init, data);
      FieldSensorsMembers(last, AvailableFields(Lookup(data, last)));
      assert inverters == init + [last];
      assert forall sn :: sn in inverters <==> sn in init || sn == last;
    }
  }

  lemma EntitiesMembers(inverters: seq<string>, data: map<string, Record>)
    ensures forall sn, f :: FieldSensor(sn, f) in Entities(inverters, data) <==>
      sn in inverters && f in AvailableFields(Lookup(data, sn))
    ensures forall sn :: InverterEfficiency(sn) in Entities(inverters, data) <==> sn in inverters
    ensures forall sn :: DcTotalInverter(sn) in Entities(inverters, data) <==> sn in inverters
    ensures forall m :: SystemTotal(m) in Entities(inverters, data) <==> AnyTruthy(inverters, data)
  {
    PerInverterMembers(inverters, data);
    SystemTotalsMembers();
  }

  lemma SystemTotalsMembers()
    ensures forall m :: SystemTotal(m) in SystemTotals
    ensures forall e :: e in SystemTotals ==> e.SystemTotal?
  {
    forall m ensures SystemTotal(m) in SystemTotals {
      match m
      case AcTotal => assert SystemTotals[0] == SystemTotal(m);
      case DcTotal => assert SystemTotals[1] == SystemTotal(m);
      case YieldTodayTotal => assert SystemTotals[2] == SystemTotal(m);
      case YieldTotalTotal => assert SystemTotals[3] == SystemTotal(m);
      case SystemEfficiency => assert SystemTotals[4] == SystemTotal(m);
    }
  }

  /**
    A serial without a (non-empty) record gets a sensor for every result field; one
    with a record gets one exactly for the result fields it holds with a value.
   */
  lemma AvailableFieldsIff(r: Record, f: string)
    ensures f in AvailableFields(r) <==> f in ResultFields && (!IsTruthy(r) || Present(r, f))
  {
  }

  // ---------------------------------------------------------------------------
  // Per-inverter field sensor (`SolaxFieldSensor`)

  /** `SolaxFieldSensor.state` for the record `coordinator.data.get(serial)`. */
  function FieldState(r: Record, field: string): Value {
    if !IsTruthy(r) then (if field in NumericFields then Int(0) else Null)
    else if !IsErrorFree(r) then Null
    else
      var val := Get(r, field);
      if val == Null then Null
      else if field in MappedFields then Str(Show(val))
      else val
  }

  /** `SolaxFieldSensor.available`. */
  predicate FieldAvailable(r: Record, field: string) {
    && IsTruthy(r)
    && IsErrorFree(r)
    && (field in MappedFields || field in NumericFields ==> Present(r, field))
  }

  /**
    State and availability agree for mapped and numeric fields on a record; without
    a record a numeric sensor is unavailable yet reads 0, and an error record makes
    every sensor of the serial unavailable with state None.
   */
  lemma FieldSensorAgreement(r: Record, field: string)
    ensures !IsTruthy(r) ==>
      !FieldAvailable(r, field) && FieldState(r, field) == (if field in NumericFields then Int(0) else Null)
    ensures IsTruthy(r) && !IsErrorFree(r) ==> !FieldAvailable(r, field) && FieldState(r, field) == Null
    ensures IsTruthy(r) && (field in MappedFields || field in NumericFields) ==>
      (FieldAvailable(r, field) <==> FieldState(r, field) != Null)
    ensures FieldAvailable(r, field) && field in MappedFields ==> FieldState(r, field) == Str(Show(Get(r, field)))
    ensures FieldAvailable(r, field) && field !in MappedFields ==> FieldState(r, field) == Get(r, field)
  {
  }

  // ---------------------------------------------------------------------------
  // Per-inverter DC total (`SolaxComputedSensor`)

  /** `SolaxComputedSensor.state`: 0 without a record; with no DC key, 0 if `acpower` is None and None otherwise. */
  function ComputedState(r: Record): Reading {
    if !IsTruthy(r) then Number(0.0)
    else if !AnyChannelKey(r) then (if Present(r, "acpower") then Absent else Number(0.0))
    else SumPresent(r, DcChannels)
  }

  /** `SolaxComputedSensor.available`. */
  predicate ComputedAvailable(r: Record) {
    IsTruthy(r) && IsErrorFree(r)
  }

  /** The loop of `SolaxComputedSensor.state`, noting whether any DC key is there at all. */
  method ComputedSensorState(r: Record) returns (s: Reading)
    ensures s == ComputedState(r)
  {
    if !IsTruthy(r) {
      return Number(0.0);
    }
    var total := Number(0.0);
    var hasAnyDcField := false;
    var i := 0;
    while i < |DcChannels|
      invariant i <= |DcChannels|
      invariant total == SumPresent(r, DcChannels[..i]) && total.Number?
      invariant hasAnyDcField <==> exists j :: 0 <= j < i && DcChannels[j] in Keys(r)
    {
      assert DcChannels[..i + 1][..i] == DcChannels[..i];
      var field := DcChannels[i];
      if field in Keys(r) {
        hasAnyDcField := true;
        var power := Get(r, field);
        if power != Null {
          total := AddValue(total, power);
          if total.Raises? {
            SumRaisesStays(r, DcChannels, i + 1);
            return Raises;
          }
        }
      }
      i := i + 1;
    }
    assert DcChannels[..i] == DcChannels;
    if !hasAnyDcField {
      return if Get(r, "acpower") == Null then Number(0.0) else Absent;
    }
    s := total;
  }

  /** A record with DC channels reads the sum of those that are not None. */
  lemma ComputedStateIsSum(r: Record)
    requires IsTruthy(r) && AnyChannelKey(r)
    ensures ComputedState(r) == SumPresent(r, DcChannels)
    ensures ComputedState(r).Raises? <==> exists i :: 0 <= i < |DcChannels| && Unaddable(r, DcChannels[i])
  {
    SumPresentRaisesIff(r, DcChannels);
  }

  // ---------------------------------------------------------------------------
  // System totals (`SolaxSystemTotalSensor`)

  /** An inverter `_count_active_inverters` counts: a record without an error and with an `acpower` value. */
  predicate Active(r: Record) {
    IsTruthy(r) && IsErrorFree(r) && Present(r, "acpower")
  }

  function ActiveCount(inverters: seq<string>, data: map<string, Record>): (n: nat)
    ensures n <= |inverters|
    decreases |inverters|
  {
    if |inverters| == 0 then 0
    else
      ActiveCount(inverters[..|inverters| - 1], data)
      + if Active(Lookup(data, inverters[|inverters| - 1])) then 1 else 0
  }

  /** `_count_active_inverters`. */
  method CountActiveInverters(inverters: seq<string>, data: map<string, Record>) returns (activeCount: nat)
    ensures activeCount == ActiveCount(inverters, data)
  {
    activeCount := 0;
    var i := 0;
    while i < |inverters|
      invariant i <= |inverters|
      invariant activeCount == ActiveCount(inverters[..i], data)
    {
      assert inverters[..i + 1][..i] == inverters[..i];
      var invData := Lookup(data, inverters[i]);
      if IsTruthy(invData) && IsErrorFree(invData) && Get(invData, "acpower") != Null {
        activeCount := activeCount + 1;
      }
      i := i + 1;
    }
    assert inverters[..i] == inverters;
  }

  /**
    An inverter is active exactly when its `acpower` sensor is available; all are
    counted exactly when every serial is active, none exactly when none is.
   */
  lemma {:induction false} ActiveCountFacts(inverters: seq<string>, data: map<string, Record>)
    ensures forall sn :: Active(Lookup(data, sn)) <==> FieldAvailable(Lookup(data, sn), "acpower")
    ensures ActiveCount(inverters, data) == |inverters| <==>
      forall i :: 0 <= i < |inverters| ==> Active(Lookup(data, inverters[i]))
    ensures ActiveCount(inverters, data) == 0 <==>
      forall i :: 0 <= i < |inverters| ==> !Active(Lookup(data, inverters[i]))
    decreases |inverters|
  {
    if |inverters| > 0 {
      var init := inverters[..|inverters| - 1];
      ActiveCountFacts(init, data);
      assert forall i :: 0 <= i < |init| ==> init[i] == inverters[i];
    }
  }

  /** The field a total of a single field adds up. */
  function MetricField(m: Metric): string
    requires m in {AcTotal, YieldTodayTotal, YieldTotalTotal}
  {
    match m
    case AcTotal => "acpower"
    case YieldTodayTotal => "yieldtoday"
    case YieldTotalTotal => "yieldtotal"
  }

  /** What makes a record count for the availability of a total. */
  predicate Reports(r: Record, m: Metric) {
    match m
    case AcTotal => Present(r, "acpower")
    case DcTotal => AnyChannel(r)
    case YieldTodayTotal => Present(r, "yieldtoday")
    case YieldTotalTotal => Present(r, "yieldtotal")
    case SystemEfficiency => Present(r, "acpower") && AnyChannel(r)
  }

  /** A record the availability loop accepts: any non-empty dict, error or not, that reports the metric. */
  predicate ReportsMetric(inverters: seq<string>, data: map<string, Record>, m: Metric, i: int)
    requires 0 <= i < |inverters|
  {
    IsTruthy(Lookup(data, inverters[i])) && Reports(Lookup(data, inverters[i]), m)
  }

  /** `SolaxSystemTotalSensor.available`: true as soon as some record reports the metric. */
  method SystemTotalAvailable(inverters: seq<string>, data: map<string, Record>, m: Metric) returns (available: bool)
    ensures available <==> exists i :: 0 <= i < |inverters| && ReportsMetric(inverters, data, m, i)
  {
    var i := 0;
    while i < |inverters|
      invariant i <= |inverters|
      invariant forall j :: 0 <= j < i ==> !ReportsMetric(inverters, data, m, j)
    {
      var inv := Lookup(data, inverters[i]);
      if IsTruthy(inv) {
        if Reports(inv, m) {
          assert ReportsMetric(inverters, data, m, i);
          return true;
        }
      }
      i := i + 1;
    }
    available := false;
  }

  /** The partial total after the serials in order; error records and serials without a record are skipped. */
  function SystemSum(inverters: seq<string>, data: map<string, Record>, m: Metric): Reading
    requires m != SystemEfficiency
    decreases |inverters|
  {
    if |inverters| == 0 then Number(0.0)
    else
      var prior := SystemSum(inverters[..|inverters| - 1], data, m);
      var r := Lookup(data, inverters[|inverters| - 1]);
      if !IsTruthy(r) || !IsErrorFree(r) then prior
      else if m == DcTotal then Plus(prior, SumPresent(r, DcChannels))
      else if Present(r, MetricField(m)) then AddValue(prior, Get(r, MetricField(m)))
      else prior
  }

  /** `SolaxSystemTotalSensor.state` for the ac, dc and yield totals. */
  method SystemTotalState(inverters: seq<string>, data: map<string, Record>, m: Metric) returns (total: Reading)
    requires m != SystemEfficiency
    ensures total == SystemSum(inverters, data, m)
  {
    total := Number(0.0);
    var i := 0;
    while i < |inverters|
      invariant i <= |inverters|
      invariant total == SystemSum(inverters[..i], data, m) && total.Number?
    {
      assert inverters[..i + 1][..i] == inverters[..i];
      var inv := Lookup(data, inverters[i]);
      if IsTruthy(inv) && IsErrorFree(inv) {
        if m != DcTotal {
          var value := Get(inv, MetricField(m));
          if value != Null {
            total := AddValue(total, value);
          }
        } else {
          var dcTotal := SumChannels(inv);
          total := Plus(total, dcTotal);
        }
        if total.Raises? {
          SystemSumRaisesStays(inverters, data, m, i + 1);
          return;
        }
      }
      i := i + 1;
    }
    assert inverters[..i] == inverters;
  }

  /** Once a partial total has raised, the whole total has. */
  lemma {:induction false} SystemSumRaisesStays(inverters: seq<string>, data: map<string, Record>, m: Metric, k: nat)
    requires m != SystemEfficiency && k <= |inverters|
    requires SystemSum(inverters[..k], data, m).Raises?
    ensures SystemSum(inverters, data, m).Raises?
    decreases |inverters| - k
  {
    if k < |inverters| {
      var n := |inverters|;
      assert inverters[..k + 1][..k] == inverters[..k];
      SystemSumRaisesStays(inverters, data, m, k + 1);
    } else {
      assert inverters[..k] == inverters;
    }
  }

  /** The sum of the states of the available `field` sensors of the serials. */
  function FieldSensorSum(inverters: seq<string>, data: map<string, Record>, field: string): Reading
    decreases |inverters|
  {
    if |inverters| == 0 then Number(0.0)
    else
      var prior := FieldSensorSum(inverters[..|inverters| - 1], data, field);
      var r := Lookup(data, inverters[|inverters| - 1]);
      if FieldAvailable(r, field) then AddValue(prior, FieldState(r, field)) else prior
  }

  /** The ac and yield totals add up exactly the states of the per-inverter sensors of that field that are available. */
  lemma {:induction false} TotalIsSumOfFieldSensors(inverters: seq<string>, data: map<string, Record>, m: Metric)
    requires m in {AcTotal, YieldTodayTotal, YieldTotalTotal}
    ensures SystemSum(inverters, data, m) == FieldSensorSum(inverters, data, MetricField(m))
    decreases |inverters|
  {
    if |inverters| > 0 {
      TotalIsSumOfFieldSensors(inverters[..|inverters| - 1], data, m);
      assert MetricField(m) in NumericFields && MetricField(m) !in MappedFields;
    }
  }

  /** An available DC-total sensor's state as the system DC total adds it: None counts as nothing. */
  function DcContribution(r: Record): Reading {
    var s := ComputedState(r);
    if s.Absent? then Number(0.0) else s
  }

  /** The sum of the available per-inverter DC-total sensors. */
  function DcSensorSum(inverters: seq<string>, data: map<string, Record>): Reading
    decreases |inverters|
  {
    if |inverters| == 0 then Number(0.0)
    else
      var prior := DcSensorSum(inverters[..|inverters| - 1], data);
      var r := Lookup(data, inverters[|inverters| - 1]);
      if ComputedAvailable(r) then Plus(prior, DcContribution(r)) else prior
  }

  /** The system DC total is the sum of the per-inverter DC-total sensors that are available. */
  lemma {:induction false} DcTotalIsSumOfInverterTotals(inverters: seq<string>, data: map<string, Record>)
    ensures SystemSum(inverters, data, DcTotal) == DcSensorSum(inverters, data)
    decreases |inverters|
  {
    if |inverters| > 0 {
      var init := inverters[..|inverters| - 1];
      DcTotalIsSumOfInverterTotals(init, data);
      var r := Lookup(data, inverters[|inverters| - 1]);
      if ComputedAvailable(r) {
        SumPresentRaisesIff(r, DcChannels);
        if !AnyChannelKey(r) {
          forall i | 0 <= i < |DcChannels| ensures !Present(r, DcChannels[i]) {
            assert DcChannels[i] !in Keys(r);
          }
          SumNothingPresent(r, DcChannels);
        }
        assert DcContribution(r) == SumPresent(r, DcChannels);
        assert SystemSum(inverters, data, DcTotal) == Plus(SystemSum(init, data, DcTotal), SumPresent(r, DcChannels));
      }
    }
  }
}
