/**
 * The `GpioFakeVehicleHardware` of `hardware`: a fake vehicle HAL whose
 * fan speed and ambient light drive PWM pins of the demonstrator board.
 *
 * A request to set HVAC_FAN_SPEED, AMBIENT_LIGHT_MODE or AMBIENT_LIGHT_COLOR
 * is a special demonstrator value: its handler checks it and writes the PWM
 * pins, and only when the handler succeeds is the value written to the
 * property store. Every other request goes to the `FakeVehicleHardware` base
 * class. On construction the vendor property files are loaded, each config
 * is registered and its initial values are stored, and an initial special
 * value is applied to the pins as a request would be.
 *
 * PWM output is the log `pwm` of `softPwmWrite(pin, value)` calls. The
 * base class is outside the model: what it left in the store is a
 * constructor parameter, and its `setValue` is a function from the store,
 * the registrations and the value to its status and the store it leaves;
 * the values it is handed are logged in `forwarded`.
 *
 * The handlers are specified by functions on the state `Hw`; the methods of
 * the class perform them step by step and are proved to agree.
 */
module GpioHardware {
  import opened Wrappers
  import opened LoaderTypes
  import opened VehicleHal
  import opened DemonstratorConfigLoader
  import opened VendorPropertySetup

  const FAN_PWM_PIN: int := 0
  /** The range `softPwmCreate` gives the fan pin. */
  const FAN_PWM_RANGE: int := 100
  const RED_PIN: int := 21
  const GREEN_PIN: int := 22
  const BLUE_PIN: int := 23
  /** The range of the colour pins. */
  const PWM_RANGE: int := 255

  /** Battery percentages above which the colour is green, resp. yellow. */
  const FUEL_WARNING_COLOR: real := 20.0
  const FUEL_LOW_COLOR: real := 10.0

  const DEFAULT_BATTERY_CAPACITY_WH: real := 150000.0

  /** Fan duty cycle by speed level 1..6. */
  const PWM_DUTY_CYCLE_VALUES: seq<int> := [0, 70, 77, 85, 92, 100]

  const COLOR_GOOD: seq<int> := [0, 255, 0]
  const COLOR_WARN: seq<int> := [255, 255, 0]
  const COLOR_CRITICAL: seq<int> := [255, 0, 0]

  /**
   * Property ids and `AmbientLightMode` values the source takes from AIDL
   * definitions that are not part of this model.
   */
  datatype VehicleIds = VehicleIds(
    hvacFanSpeed: int,
    ambientLightColor: int,
    ambientLightMode: int,
    evBatteryLevel: int,
    evCurrentBatteryCapacity: int,
    customMode: int,
    batteryLevelMode: int)

  /** One `softPwmWrite(pin, value)`. */
  datatype PwmWrite = PwmWrite(pin: int, value: int)

  /**
   * What the handlers change: the property store, the PWM writes (oldest
   * first) and the values handed to the base class's `setValue`.
   */
  datatype Hw = Hw(store: Store, registered: Registered, pwm: seq<PwmWrite>, forwarded: seq<PropValue>)

  /** A handler's status and the state it leaves. */
  datatype Step = Step(status: VhalStatus, hw: Hw)

  /** `maybeSetSpecialDemonstratorValue`: whether the value is special, the handler's status and state. */
  datatype Special = Special(special: bool, status: VhalStatus, hw: Hw)

  /** `SetValueResult`. */
  datatype SetValueResult = SetValueResult(requestId: int, status: StatusCode)

  /** A write a pin can take: a duty cycle of the fan pin or a level of a colour pin. */
  predicate ValidPwmWrite(w: PwmWrite) {
    (w.pin == FAN_PWM_PIN && 0 <= w.value <= FAN_PWM_RANGE) ||
    ((w.pin == RED_PIN || w.pin == GREEN_PIN || w.pin == BLUE_PIN) && 0 <= w.value <= PWM_RANGE)
  }

  /** `after` is `before` with only valid PWM writes appended. */
  predicate AppendsValidPwm(before: seq<PwmWrite>, after: seq<PwmWrite>) {
    |before| <= |after| && after[..|before|] == before &&
    forall i :: |before| <= i < |after| ==> ValidPwmWrite(after[i])
  }

  lemma AppendsValidPwmTransitive(a: seq<PwmWrite>, b: seq<PwmWrite>, c: seq<PwmWrite>)
    requires AppendsValidPwm(a, b) && AppendsValidPwm(b, c)
    ensures AppendsValidPwm(a, c)
  {
    assert c[..|a|] == c[..|b|][..|a|];
  }

  /** The two stores agree everywhere except possibly at `key`. */
  ghost predicate SameExcept(s: Store, t: Store, key: (int, int)) {
    (forall k :: k != key ==> (k in s <==> k in t)) &&
    (forall k :: k != key && k in s && k in t ==> s[k] == t[k])
  }

  /** The value stored for the ambient light colour. */
  function ColorValue(color: seq<int>): RawPropValues {
    RawPropValues(color, [], [], "")
  }

  /** `setPwmHvacFanSpeed`. */
  function FanSpeedPwm(hw: Hw, level: int): (r: Step)
    ensures r.status.Success? <==> 1 <= level <= 6
    ensures r.status.Success? ==>
      r.hw == hw.(pwm := hw.pwm + [PwmWrite(FAN_PWM_PIN, PWM_DUTY_CYCLE_VALUES[level - 1])])
    ensures r.status.Failure? ==> r == Step(Failure(INVALID_ARG, InvalidFanSpeed(level)), hw)
  {
    var idx := level - 1;
    if idx < 0 || idx > 5 then Step(Failure(INVALID_ARG, InvalidFanSpeed(level)), hw)
    else Step(Success, hw.(pwm := hw.pwm + [PwmWrite(FAN_PWM_PIN, PWM_DUTY_CYCLE_VALUES[idx])]))
  }

  /**
   * The duty-cycle table: level 1 stops the fan, level 6 drives it at the
   * full range of its pin, and each level runs it faster than the one below.
   */
  lemma DutyCyclesIncrease(a: int, b: int)
    requires 1 <= a < b <= 6
    ensures 0 <= PWM_DUTY_CYCLE_VALUES[a - 1] < PWM_DUTY_CYCLE_VALUES[b - 1] <= FAN_PWM_RANGE
    ensures PWM_DUTY_CYCLE_VALUES[0] == 0 && PWM_DUTY_CYCLE_VALUES[5] == FAN_PWM_RANGE
  {
  }

  /** `handleSetHvacFanSpeed`: the request's first int32 value is the level. */
  function HvacFanSpeedRequest(ids: VehicleIds, hw: Hw, v: PropValue): (r: Step)
    ensures r.status.Success? <==>
      v.prop == ids.hvacFanSpeed && |v.value.int32Values| > 0 && 1 <= v.value.int32Values[0] <= 6
    ensures r.status.Success? ==>
      r.hw == hw.(pwm := hw.pwm + [PwmWrite(FAN_PWM_PIN, PWM_DUTY_CYCLE_VALUES[v.value.int32Values[0] - 1])])
    ensures r.status.Failure? ==> r.status.code == INVALID_ARG && r.hw == hw
  {
    if v.prop != ids.hvacFanSpeed then Step(Failure(INVALID_ARG, InvalidPropertyId(v.prop)), hw)
    else if |v.value.int32Values| == 0 then Step(Failure(INVALID_ARG, NoFanSpeedValue), hw)
    else FanSpeedPwm(hw, v.value.int32Values[0])
  }

  predicate InPwmRange(x: int) {
    0 <= x <= PWM_RANGE
  }

  /** `setPwmAmbientLightColor`: all three channels are written, or none. */
  function AmbientLightColorPwm(hw: Hw, red: int, green: int, blue: int): (r: Step)
    ensures r.status.Success? <==> InPwmRange(red) && InPwmRange(green) && InPwmRange(blue)
    ensures r.status.Success? ==>
      r.hw == hw.(pwm := hw.pwm + [PwmWrite(RED_PIN, red), PwmWrite(GREEN_PIN, green), PwmWrite(BLUE_PIN, blue)])
    ensures r.status.Failure? ==> r == Step(Failure(INVALID_ARG, InvalidColorValues(red, green, blue)), hw)
  {
    if red < 0 || red > 255 || green < 0 || green > 255 || blue < 0 || blue > 255 then
      Step(Failure(INVALID_ARG, InvalidColorValues(red, green, blue)), hw)
    else
      Step(Success, hw.(pwm := hw.pwm + [PwmWrite(RED_PIN, red), PwmWrite(GREEN_PIN, green), PwmWrite(BLUE_PIN, blue)]))
  }

  /**
   * `getBatteryLevelColor`: green above 20 %, yellow above 10 %, red
   * otherwise; every colour is a valid RGB triple.
   */
  function BatteryLevelColor(percent: real): (c: seq<int>)
    ensures |c| == 3 && InPwmRange(c[0]) && InPwmRange(c[1]) && InPwmRange(c[2])
    ensures c == COLOR_GOOD <==> percent > FUEL_WARNING_COLOR
    ensures c == COLOR_WARN <==> FUEL_LOW_COLOR < percent <= FUEL_WARNING_COLOR
    ensures c == COLOR_CRITICAL <==> percent <= FUEL_LOW_COLOR
  {
    assert COLOR_GOOD[0] != COLOR_WARN[0] && COLOR_GOOD[0] != COLOR_CRITICAL[0];
    assert COLOR_WARN[1] != COLOR_CRITICAL[1];
    if percent > FUEL_WARNING_COLOR then COLOR_GOOD
    else if percent > FUEL_LOW_COLOR then COLOR_WARN
    else COLOR_CRITICAL
  }

  /**
   * `setAndStorePwmAmbientLightColorToBatteryLevel`: a percentage outside
   * 0..100 is refused; otherwise the battery colour is shown on the pins
   * and then stored as AMBIENT_LIGHT_COLOR of area 0.
   */
  function BatteryLevelColorShown(ids: VehicleIds, hw: Hw, percent: real): (r: Step)
    ensures percent < 0.0 || percent > 100.0 ==>
      r == Step(Failure(INVALID_ARG, InvalidBatteryLevelPercent(percent)), hw)
    ensures 0.0 <= percent <= 100.0 ==>
      var c := BatteryLevelColor(percent);
      var v := PropValue(ids.ambientLightColor, 0, ColorValue(c));
      r.hw == hw.(pwm := hw.pwm + [PwmWrite(RED_PIN, c[0]), PwmWrite(GREEN_PIN, c[1]), PwmWrite(BLUE_PIN, c[2])],
                  store := WriteValue(hw.store, hw.registered, v).1) &&
      r.status == WriteValue(hw.store, hw.registered, v).0
  {
    if percent < 0.0 || percent > 100.0 then Step(Failure(INVALID_ARG, InvalidBatteryLevelPercent(percent)), hw)
    else
      var color := BatteryLevelColor(percent);
      var shown := AmbientLightColorPwm(hw, color[0], color[1], color[2]);
      if shown.status.Failure? then shown
      else
        var written := WriteValue(shown.hw.store, shown.hw.registered,
                                  PropValue(ids.ambientLightColor, 0, ColorValue(color)));
        Step(written.0, shown.hw.(store := written.1))
  }

  /**
   * `calculateCurrentBatteryLevelPercent`: the stored EV_BATTERY_LEVEL as a
   * percentage of the battery capacity.
   */
  function CurrentBatteryLevelPercent(ids: VehicleIds, capacityWh: real, store: Store): (r: Result<real, Reason>)
    ensures r.Ok? <==>
      ReadValue(store, ids.evBatteryLevel).Some? && |ReadValue(store, ids.evBatteryLevel).value.floatValues| > 0 &&
      capacityWh != 0.0
    ensures r.Ok? ==> r.value * capacityWh == ReadValue(store, ids.evBatteryLevel).value.floatValues[0] * 100.0
  {
    match ReadValue(store, ids.evBatteryLevel)
    case None => Err(BatteryLevelUnavailable)
    case Some(level) =>
      if |level.floatValues| == 0 then Err(BatteryLevelUnavailable)
      else if capacityWh == 0.0 then Err(BatteryCapacityZero)
      else Ok((level.floatValues[0] / capacityWh) * 100.0)
  }

  /**
   * `handleSetAmbientLightMode`: CUSTOM needs nothing, BATTERY_LEVEL shows
   * the colour of the current battery level, any other mode is refused.
   */
  function AmbientLightModeRequest(ids: VehicleIds, capacityWh: real, hw: Hw, v: PropValue): (r: Step)
    ensures v.prop != ids.ambientLightMode || |v.value.int32Values| == 0 ==>
      r.status.Failure? && r.status.code == INVALID_ARG && r.hw == hw
    ensures v.prop == ids.ambientLightMode && |v.value.int32Values| > 0 ==>
      var mode := v.value.int32Values[0];
      (mode == ids.customMode ==> r == Step(Success, hw)) &&
      (mode != ids.customMode && mode != ids.batteryLevelMode ==>
        r == Step(Failure(INVALID_ARG, InvalidAmbientLightMode(mode)), hw)) &&
      (mode != ids.customMode && mode == ids.batteryLevelMode ==>
        match CurrentBatteryLevelPercent(ids, capacityWh, hw.store)
        case Err(why) => r == Step(Failure(INTERNAL_ERROR, why), hw)
        case Ok(percent) => r == BatteryLevelColorShown(ids, hw, percent))
  {
    if v.prop != ids.ambientLightMode then Step(Failure(INVALID_ARG, InvalidPropertyId(v.prop)), hw)
    else if |v.value.int32Values| == 0 then Step(Failure(INVALID_ARG, NoAmbientLightModeValue), hw)
    else
      var mode := v.value.int32Values[0];
      if mode == ids.customMode then Step(Success, hw)
      else if mode == ids.batteryLevelMode then
        match CurrentBatteryLevelPercent(ids, capacityWh, hw.store)
        case Err(why) => Step(Failure(INTERNAL_ERROR, why), hw)
        case Ok(percent) => BatteryLevelColorShown(ids, hw, percent)
      else Step(Failure(INVALID_ARG, InvalidAmbientLightMode(mode)), hw)
  }

  /** The stored AMBIENT_LIGHT_MODE, when it can be read. */
  function StoredMode(ids: VehicleIds, store: Store): Option<int> {
    match ReadValue(store, ids.ambientLightMode)
    case None => None
    case Some(v) => if |v.int32Values| == 0 then None else Some(v.int32Values[0])
  }

  /**
   * `handleSetCustomAmbientLightColor`: refused, in this order, for a wrong
   * property, a readable mode other than CUSTOM, no values, a count other
   * than three; otherwise the three values go to the pins.
   */
  function CustomAmbientLightColorRequest(ids: VehicleIds, hw: Hw, v: PropValue): (r: Step)
    ensures r.status.Success? <==>
      v.prop == ids.ambientLightColor &&
      (StoredMode(ids, hw.store).None? || StoredMode(ids, hw.store).value == ids.customMode) &&
      |v.value.int32Values| == 3 &&
      InPwmRange(v.value.int32Values[0]) && InPwmRange(v.value.int32Values[1]) && InPwmRange(v.value.int32Values[2])
    ensures r.status.Success? ==> r.hw == hw.(pwm := hw.pwm + [PwmWrite(RED_PIN, v.value.int32Values[0]),
      PwmWrite(GREEN_PIN, v.value.int32Values[1]), PwmWrite(BLUE_PIN, v.value.int32Values[2])])
    ensures r.status.Failure? ==> r.status.code == INVALID_ARG && r.hw == hw
    ensures v.prop != ids.ambientLightColor ==> r.status.reason == InvalidPropertyId(v.prop)
    ensures (v.prop == ids.ambientLightColor && StoredMode(ids, hw.store).Some? &&
             StoredMode(ids, hw.store).value != ids.customMode) ==> r.status.reason == ModeNotCustom
    ensures (v.prop == ids.ambientLightColor &&
             (StoredMode(ids, hw.store).None? || StoredMode(ids, hw.store).value == ids.customMode)) ==>
      (|v.value.int32Values| == 0 ==> r.status.reason == NoAmbientLightModeValue) &&
      (|v.value.int32Values| != 0 && |v.value.int32Values| != 3 ==> r.status.reason == NotRgb)
  {
    var mode := StoredMode(ids, hw.store);
    if v.prop != ids.ambientLightColor then Step(Failure(INVALID_ARG, InvalidPropertyId(v.prop)), hw)
    else if mode.Some? && mode.value != ids.customMode then Step(Failure(INVALID_ARG, ModeNotCustom), hw)
    else if |v.value.int32Values| == 0 then Step(Failure(INVALID_ARG, NoAmbientLightModeValue), hw)
    else if |v.value.int32Values| != 3 then Step(Failure(INVALID_ARG, NotRgb), hw)
    else AmbientLightColorPwm(hw, v.value.int32Values[0], v.value.int32Values[1], v.value.int32Values[2])
  }

  /**
   * `maybeSetSpecialDemonstratorValue`: AMBIENT_LIGHT_COLOR,
   * AMBIENT_LIGHT_MODE and HVAC_FAN_SPEED, checked in that order, go to
   * their handlers; any other value is not special and changes nothing.
   */
  function SpecialDemonstratorValue(ids: VehicleIds, capacityWh: real, hw: Hw, v: PropValue): (r: Special)
    ensures r.special <==> v.prop in {ids.ambientLightColor, ids.ambientLightMode, ids.hvacFanSpeed}
    ensures !r.special ==> r.status == Success && r.hw == hw
    ensures v.prop == ids.ambientLightColor ==>
      Step(r.status, r.hw) == CustomAmbientLightColorRequest(ids, hw, v)
    ensures v.prop != ids.ambientLightColor && v.prop == ids.ambientLightMode ==>
      Step(r.status, r.hw) == AmbientLightModeRequest(ids, capacityWh, hw, v)
    ensures v.prop != ids.ambientLightColor && v.prop != ids.ambientLightMode && v.prop == ids.hvacFanSpeed ==>
      Step(r.status, r.hw) == HvacFanSpeedRequest(ids, hw, v)
  {
    if v.prop == ids.ambientLightColor then
      var s := CustomAmbientLightColorRequest(ids, hw, v);
      Special(true, s.status, s.hw)
    else if v.prop == ids.ambientLightMode then
      var s := AmbientLightModeRequest(ids, capacityWh, hw, v);
      Special(true, s.status, s.hw)
    else if v.prop == ids.hvacFanSpeed then
      var s := HvacFanSpeedRequest(ids, hw, v);
      Special(true, s.status, s.hw)
    else Special(false, Success, hw)
  }

  /**
   * What a handler may change: it appends only valid PWM writes, leaves the
   * registrations and the base-class log alone, and writes the store only
   * for AMBIENT_LIGHT_MODE, and then only the colour of area 0.
   */
  lemma SpecialValueEffects(ids: VehicleIds, capacityWh: real, hw: Hw, v: PropValue)
    ensures var r := SpecialDemonstratorValue(ids, capacityWh, hw, v);
      AppendsValidPwm(hw.pwm, r.hw.pwm) &&
      r.hw.registered == hw.registered && r.hw.forwarded == hw.forwarded &&
      (v.prop == ids.ambientLightMode && v.prop != ids.ambientLightColor ==>
        SameExcept(hw.store, r.hw.store, (ids.ambientLightColor, 0))) &&
      (v.prop != ids.ambientLightMode || v.prop == ids.ambientLightColor ==> r.hw.store == hw.store)
  {
    var r := SpecialDemonstratorValue(ids, capacityWh, hw, v);
    if v.prop != ids.ambientLightColor && v.prop == ids.ambientLightMode && |v.value.int32Values| > 0 {
      var mode := v.value.int32Values[0];
      if mode != ids.customMode && mode == ids.batteryLevelMode {
        var level := CurrentBatteryLevelPercent(ids, capacityWh, hw.store);
        if level.Ok? && 0.0 <= level.value <= 100.0 {
          var c := BatteryLevelColor(level.value);
          assert r.hw.pwm == hw.pwm + [PwmWrite(RED_PIN, c[0]), PwmWrite(GREEN_PIN, c[1]), PwmWrite(BLUE_PIN, c[2])];
        }
      }
    } else if v.prop == ids.ambientLightColor {
      var ints := v.value.int32Values;
      if r.status.Success? {
        assert r.hw.pwm == hw.pwm + [PwmWrite(RED_PIN, ints[0]), PwmWrite(GREEN_PIN, ints[1]), PwmWrite(BLUE_PIN, ints[2])];
      }
    } else if v.prop == ids.hvacFanSpeed && r.status.Success? {
      DutyCyclesIncrease(1, 6);
      var level := v.value.int32Values[0];
      if level < 6 {
        DutyCyclesIncrease(level, 6);
      }
    }
  }

  /**
   * `FakeVehicleHardware::setValue` as seen from here: given the store, the
   * registrations and the value, its status and the store it leaves.
   */
  type BaseSetValue = (Store, Registered, PropValue) -> (VhalStatus, Store)

  /**
   * The base class accepts a value only as the store's `writeValue` does,
   * and then leaves the store that write leaves.
   */
  ghost predicate BaseWritesValue(baseSetValue: BaseSetValue) {
    forall store, registered, v :: baseSetValue(store, registered, v).0.Success? ==>
      baseSetValue(store, registered, v) == WriteValue(store, registered, v)
  }

  /**
   * `setValue`: a value that is not special goes to the base class; a
   * special value is written to the store only after its handler succeeded,
   * and a handler's failure is reported with the property id; the write
   * then succeeds exactly when the store accepts the value's area.
   */
  function SetValueOutcome(ids: VehicleIds, capacityWh: real, baseSetValue: BaseSetValue,
                           hw: Hw, v: PropValue): (r: Step)
    ensures var s := SpecialDemonstratorValue(ids, capacityWh, hw, v);
      var b := baseSetValue(hw.store, hw.registered, v);
      (!s.special ==> r == Step(b.0, hw.(store := b.1, forwarded := hw.forwarded + [v]))) &&
      (s.special && s.status.Failure? ==>
        r == Step(Failure(s.status.code, SpecialValueFailed(v.prop, s.status.reason)), s.hw)) &&
      (s.special && s.status.Success? ==>
        r.hw == s.hw.(store := WriteValue(s.hw.store, s.hw.registered, v).1) &&
        (r.status.Success? <==> Writable(hw.registered, v.prop, v.areaId)) &&
        (r.status.Failure? ==>
          r.status == Failure(INVALID_ARG, StoreWriteFailed(WriteValue(s.hw.store, s.hw.registered, v).0.reason))))
  {
    var s := SpecialDemonstratorValue(ids, capacityWh, hw, v);
    if !s.special then
      var b := baseSetValue(hw.store, hw.registered, v);
      Step(b.0, hw.(store := b.1, forwarded := hw.forwarded + [v]))
    else if s.status.Failure? then Step(Failure(s.status.code, SpecialValueFailed(v.prop, s.status.reason)), s.hw)
    else
      var written := WriteValue(s.hw.store, s.hw.registered, v);
      if written.0.Failure? then Step(Failure(written.0.code, StoreWriteFailed(written.0.reason)), s.hw)
      else Step(Success, s.hw.(store := written.1))
  }

  /**
   * A successful special value is in the store under its key (area 0 for a
   * global property); a refused one leaves the property's own entries as
   * they were. A value that is not special leaves the pins alone and the
   * store to the base class, and when the base class writes what it accepts,
   * a value it accepts is stored under its key as well.
   */
  lemma SetValueStoresAfterSuccess(ids: VehicleIds, capacityWh: real, baseSetValue: BaseSetValue,
                                   hw: Hw, v: PropValue, area: int)
    ensures var r := SetValueOutcome(ids, capacityWh, baseSetValue, hw, v);
      var special := v.prop in {ids.ambientLightColor, ids.ambientLightMode, ids.hvacFanSpeed};
      var b := baseSetValue(hw.store, hw.registered, v);
      (special && r.status.Success? ==>
        StoreKey(v.prop, v.areaId) in r.hw.store && r.hw.store[StoreKey(v.prop, v.areaId)] == v.value) &&
      (special && r.status.Failure? ==>
        ((v.prop, area) in r.hw.store <==> (v.prop, area) in hw.store) &&
        ((v.prop, area) in hw.store ==> r.hw.store[(v.prop, area)] == hw.store[(v.prop, area)])) &&
      (!special ==> r.hw.pwm == hw.pwm && r.hw.registered == hw.registered && r.status == b.0 && r.hw.store == b.1) &&
      (!special && BaseWritesValue(baseSetValue) && r.status.Success? ==>
        Writable(hw.registered, v.prop, v.areaId) &&
        StoreKey(v.prop, v.areaId) in r.hw.store && r.hw.store[StoreKey(v.prop, v.areaId)] == v.value)
  {
    SpecialValueEffects(ids, capacityWh, hw, v);
  }

  /** `handleSetValueRequest`: the request id with the status of `setValue`. */
  function SetValueRequestOutcome(ids: VehicleIds, capacityWh: real, baseSetValue: BaseSetValue,
                                  hw: Hw, request: SetValueRequest): (r: (SetValueResult, Hw))
    ensures var s := SetValueOutcome(ids, capacityWh, baseSetValue, hw, request.value);
      r.0.requestId == request.requestId && r.1 == s.hw &&
      (s.status.Success? ==> r.0.status == OK) &&
      (s.status.Failure? ==> r.0.status == s.status.code)
  {
    var s := SetValueOutcome(ids, capacityWh, baseSetValue, hw, request.value);
    (SetValueResult(request.requestId, if s.status.Success? then OK else s.status.code), s.hw)
  }

  /** One area of `setUpAndStorePropInitialValue`: store the selected value, then apply it as a special value. */
  function InitialValueSetUp(ids: VehicleIds, capacityWh: real, hw: Hw, decl: ConfigDeclaration, area: int): Hw {
    match InitialValueFor(decl, area)
    case None => hw
    case Some(value) =>
      var v := PropValue(decl.config.prop, area, value);
      var written := hw.(store := WriteValue(hw.store, hw.registered, v).1);
      SpecialDemonstratorValue(ids, capacityWh, written, v).hw
  }

  /** The state after `setUpAndStorePropInitialValue` has visited `areas`. */
  function InitialValuesSetUp(ids: VehicleIds, capacityWh: real, hw: Hw, decl: ConfigDeclaration, areas: seq<int>): Hw
    decreases |areas|
  {
    if areas == [] then hw
    else InitialValueSetUp(ids, capacityWh, InitialValuesSetUp(ids, capacityWh, hw, decl, areas[..|areas| - 1]),
                           decl, areas[|areas| - 1])
  }

  /**
   * One area of the set-up: a skipped area changes nothing; otherwise the
   * value is stored when the store accepts it, and no key other than the
   * area's own and, for AMBIENT_LIGHT_MODE, the colour of area 0 changes.
   */
  lemma SetUpStep(ids: VehicleIds, capacityWh: real, hw: Hw, decl: ConfigDeclaration, area: int, key: (int, int))
    requires StoreKey(decl.config.prop, area) == (decl.config.prop, area)
    ensures var r := InitialValueSetUp(ids, capacityWh, hw, decl, area);
      r.registered == hw.registered && r.forwarded == hw.forwarded &&
      (InitialValueFor(decl, area).None? ==> r == hw) &&
      (key != (decl.config.prop, area) &&
       (decl.config.prop == ids.ambientLightMode && decl.config.prop != ids.ambientLightColor ==>
         key != (ids.ambientLightColor, 0)) ==>
        (key in r.store <==> key in hw.store) && (key in hw.store ==> r.store[key] == hw.store[key])) &&
      (InitialValueFor(decl, area).Some? && Writable(hw.registered, decl.config.prop, area) ==>
        (decl.config.prop, area) in r.store && r.store[(decl.config.prop, area)] == InitialValueFor(decl, area).value)
  {
    match InitialValueFor(decl, area)
    case None =>
    case Some(value) =>
      var v := PropValue(decl.config.prop, area, value);
      var written := hw.(store := WriteValue(hw.store, hw.registered, v).1);
      SpecialValueEffects(ids, capacityWh, written, v);
  }

  /**
   * `setUpAndStorePropInitialValue` stores every selected initial value the
   * store accepts, whatever its special handler then does, and keeps the
   * registrations and the base-class log.
   */
  lemma {:induction false} SetUpStoresInitialValues(ids: VehicleIds, capacityWh: real, hw: Hw,
                                                    decl: ConfigDeclaration, areas: seq<int>, area: int)
    requires KeyedAreas(decl.config.prop, areas)
    ensures InitialValuesSetUp(ids, capacityWh, hw, decl, areas).registered == hw.registered
    ensures InitialValuesSetUp(ids, capacityWh, hw, decl, areas).forwarded == hw.forwarded
    ensures area in areas && InitialValueFor(decl, area).Some? && Writable(hw.registered, decl.config.prop, area) ==>
      var key := (decl.config.prop, area);
      key in InitialValuesSetUp(ids, capacityWh, hw, decl, areas).store &&
      InitialValuesSetUp(ids, capacityWh, hw, decl, areas).store[key] == InitialValueFor(decl, area).value
    decreases |areas|
  {
    if areas != [] {
      var n := |areas| - 1;
      var prev := InitialValuesSetUp(ids, capacityWh, hw, decl, areas[..n]);
      SetUpStoresInitialValues(ids, capacityWh, hw, decl, areas[..n], area);
      assert areas == areas[..n] + [areas[n]];
      SetUpStep(ids, capacityWh, prev, decl, areas[n], (decl.config.prop, area));
    }
  }

  /**
   * What setting up a declaration leaves alone: a key that is neither a
   * visited area the declaration gives a value nor, for AMBIENT_LIGHT_MODE,
   * the colour of area 0 keeps its value; and when every visited area is
   * skipped, nothing changes at all, pins included.
   */
  lemma {:induction false} SetUpFrame(ids: VehicleIds, capacityWh: real, hw: Hw,
                                      decl: ConfigDeclaration, areas: seq<int>, key: (int, int))
    requires KeyedAreas(decl.config.prop, areas)
    ensures !(key.0 == decl.config.prop && key.1 in areas && InitialValueFor(decl, key.1).Some?) &&
            (decl.config.prop == ids.ambientLightMode && decl.config.prop != ids.ambientLightColor ==>
              key != (ids.ambientLightColor, 0)) ==>
      var r := InitialValuesSetUp(ids, capacityWh, hw, decl, areas).store;
      (key in r <==> key in hw.store) && (key in hw.store ==> r[key] == hw.store[key])
    ensures (forall i :: 0 <= i < |areas| ==> InitialValueFor(decl, areas[i]).None?) ==>
      InitialValuesSetUp(ids, capacityWh, hw, decl, areas) == hw
    decreases |areas|
  {
    if areas != [] {
      var n := |areas| - 1;
      var prev := InitialValuesSetUp(ids, capacityWh, hw, decl, areas[..n]);
      SetUpFrame(ids, capacityWh, hw, decl, areas[..n], key);
      assert areas == areas[..n] + [areas[n]];
      SetUpStep(ids, capacityWh, prev, decl, areas[n], key);
    }
  }

  /** The state after `init` has registered and set up the declarations at `order`. */
  function InitConfigs(ids: VehicleIds, capacityWh: real, hw: Hw, configs: Configs, order: seq<int>): Hw
    requires forall i :: 0 <= i < |order| ==> order[i] in configs
    decreases |order|
  {
    if order == [] then hw
    else
      var prev := InitConfigs(ids, capacityWh, hw, configs, order[..|order| - 1]);
      var decl := configs[order[|order| - 1]];
      var reg := RegisterProperty(prev.store, prev.registered, decl.config);
      InitialValuesSetUp(ids, capacityWh, prev.(store := reg.0, registered := reg.1), decl, InitAreas(decl.config))
  }

  /** `init` after one more declaration: register it, then set it up. */
  lemma InitConfigsStep(ids: VehicleIds, capacityWh: real, hw: Hw, configs: Configs, order: seq<int>, i: nat)
    requires forall j :: 0 <= j < |order| ==> order[j] in configs
    requires i < |order|
    ensures var prev := InitConfigs(ids, capacityWh, hw, configs, order[..i]);
      var decl := configs[order[i]];
      var reg := RegisterProperty(prev.store, prev.registered, decl.config);
      InitConfigs(ids, capacityWh, hw, configs, order[..i + 1]) ==
        InitialValuesSetUp(ids, capacityWh, prev.(store := reg.0, registered := reg.1), decl, InitAreas(decl.config))
  {
    assert order[..i + 1][..i] == order[..i];
  }

  /** Setting up a declaration appends only valid PWM writes. */
  lemma {:induction false} SetUpPwmValid(ids: VehicleIds, capacityWh: real, hw: Hw, decl: ConfigDeclaration, areas: seq<int>)
    ensures AppendsValidPwm(hw.pwm, InitialValuesSetUp(ids, capacityWh, hw, decl, areas).pwm)
    decreases |areas|
  {
    if areas != [] {
      var n := |areas| - 1;
      var prev := InitialValuesSetUp(ids, capacityWh, hw, decl, areas[..n]);
      SetUpPwmValid(ids, capacityWh, hw, decl, areas[..n]);
      match InitialValueFor(decl, areas[n])
      case None =>
      case Some(value) =>
        var v := PropValue(decl.config.prop, areas[n], value);
        var written := prev.(store := WriteValue(prev.store, prev.registered, v).1);
        SpecialValueEffects(ids, capacityWh, written, v);
        AppendsValidPwmTransitive(hw.pwm, prev.pwm, InitialValueSetUp(ids, capacityWh, prev, decl, areas[n]).pwm);
    }
  }

  /** `init` drives the pins only within their ranges: every PWM write it makes is valid. */
  lemma {:induction false} InitPwmValid(ids: VehicleIds, capacityWh: real, hw: Hw, configs: Configs, order: seq<int>)
    requires forall i :: 0 <= i < |order| ==> order[i] in configs
    ensures AppendsValidPwm(hw.pwm, InitConfigs(ids, capacityWh, hw, configs, order).pwm)
    decreases |order|
  {
    if order != [] {
      var n := |order| - 1;
      var prev := InitConfigs(ids, capacityWh, hw, configs, order[..n]);
      var decl := configs[order[n]];
      InitPwmValid(ids, capacityWh, hw, configs, order[..n]);
      var reg := RegisterProperty(prev.store, prev.registered, decl.config);
      SetUpPwmValid(ids, capacityWh, prev.(store := reg.0, registered := reg.1), decl, InitAreas(decl.config));
      AppendsValidPwmTransitive(hw.pwm, prev.pwm, InitConfigs(ids, capacityWh, hw, configs, order).pwm);
    }
  }

  /** The battery capacity the constructor reads from the store, or the default. */
  function BatteryCapacityWh(ids: VehicleIds, store: Store): real {
    match ReadValue(store, ids.evCurrentBatteryCapacity)
    case Some(v) => if |v.floatValues| > 0 then v.floatValues[0] else DEFAULT_BATTERY_CAPACITY_WH
    case None => DEFAULT_BATTERY_CAPACITY_WH
  }

  class GpioFakeVehicleHardware {
    const ids: VehicleIds
    const configLoader: DemonstratorJsonConfigLoader
    /** `FakeVehicleHardware::setValue`: its status and the store it leaves. */
    const baseSetValue: BaseSetValue
    const batteryCapacityWh: real
    var store: Store
    var registered: Registered
    /** The `softPwmWrite` calls made, oldest first. */
    var pwm: seq<PwmWrite>
    /** The values handed to `FakeVehicleHardware::setValue`, oldest first. */
    var forwarded: seq<PropValue>

    function State(): Hw
      reads this
    {
      Hw(store, registered, pwm, forwarded)
    }

    /**
     * The constructor: `store` and `registered` are what the base class
     * constructor left in the property store; the battery capacity is read
     * from it, then `init` runs.
     */
    constructor(ids: VehicleIds, configLoader: DemonstratorJsonConfigLoader, baseSetValue: BaseSetValue,
                store: Store, registered: Registered,
                files: map<string, Document>, dir: Option<seq<string>>, order: seq<int>)
      requires Enumerates(order, DirConfigs(FileLoaderOf(configLoader.registry, configLoader.systemLoader, files),
                                            VENDOR_PROPERTY_CONFIG_DIR, map[], dir).Keys)
      ensures this.ids == ids && this.configLoader == configLoader && this.baseSetValue == baseSetValue
      ensures batteryCapacityWh == BatteryCapacityWh(ids, store)
      ensures State() == InitConfigs(ids, batteryCapacityWh, Hw(store, registered, [], []),
        DirConfigs(FileLoaderOf(configLoader.registry, configLoader.systemLoader, files), VENDOR_PROPERTY_CONFIG_DIR, map[], dir),
        order)
    {
      this.ids := ids;
      this.configLoader := configLoader;
      this.baseSetValue := baseSetValue;
      var capacity := DEFAULT_BATTERY_CAPACITY_WH;
      var capacityResult := ReadValue(store, ids.evCurrentBatteryCapacity);
      if capacityResult.Some? && |capacityResult.value.floatValues| > 0 {
        capacity := capacityResult.value.floatValues[0];
      }
      this.batteryCapacityWh := capacity;
      this.store := store;
      this.registered := registered;
      this.pwm := [];
      this.forwarded := [];
      new;
      Init(files, dir, order);
    }

    /** `init`: load the vendor files, then register and set up each declaration, visiting the ids in `order`. */
    method Init(files: map<string, Document>, dir: Option<seq<string>>, order: seq<int>)
      requires Enumerates(order, DirConfigs(FileLoaderOf(configLoader.registry, configLoader.systemLoader, files),
                                            VENDOR_PROPERTY_CONFIG_DIR, map[], dir).Keys)
      modifies this
      ensures State() == InitConfigs(ids, batteryCapacityWh, old(State()),
        DirConfigs(FileLoaderOf(configLoader.registry, configLoader.systemLoader, files), VENDOR_PROPERTY_CONFIG_DIR, map[], dir),
        order)
    {
      var configsByPropId := LoadPropConfigsFromDir(configLoader, files, VENDOR_PROPERTY_CONFIG_DIR, dir, map[]);
      for i := 0 to |order|
        invariant State() == InitConfigs(ids, batteryCapacityWh, old(State()), configsByPropId, order[..i])
      {
        InitConfigsStep(ids, batteryCapacityWh, old(State()), configsByPropId, order, i);
        RegisterAndSetUp(configsByPropId[order[i]]);
      }
      assert order[..|order|] == order;
    }

    /** One round of the `init` loop: register the declaration's config, then set up its initial values. */
    method RegisterAndSetUp(decl: ConfigDeclaration)
      modifies this
      ensures var reg := RegisterProperty(old(store), old(registered), decl.config);
        State() == InitialValuesSetUp(ids, batteryCapacityWh, old(State()).(store := reg.0, registered := reg.1),
                                      decl, InitAreas(decl.config))
    {
      var reg := RegisterProperty(store, registered, decl.config);
      store, registered := reg.0, reg.1;
      SetUpAndStorePropInitialValue(decl);
    }

    /** `setUpAndStorePropInitialValue`. */
    method SetUpAndStorePropInitialValue(decl: ConfigDeclaration)
      modifies this
      ensures State() == InitialValuesSetUp(ids, batteryCapacityWh, old(State()), decl, InitAreas(decl.config))
    {
      var propId := decl.config.prop;
      var globalProp := IsGlobalProp(propId);
      var numAreas := if globalProp then 1 else |decl.config.areaConfigs|;
      ghost var areas := InitAreas(decl.config);
      assert |areas| == numAreas;
      for i := 0 to numAreas
        invariant State() == InitialValuesSetUp(ids, batteryCapacityWh, old(State()), decl, areas[..i])
      {
        assert areas[..i + 1][..i] == areas[..i];
        var curArea := if globalProp then 0 else decl.config.areaConfigs[i].areaId;
        assert curArea == areas[i];
        var value: RawPropValues;
        if decl.initialAreaValues == map[] {
          if decl.initialValue == EMPTY_VALUES {
            continue;
          }
          value := decl.initialValue;
        } else if curArea in decl.initialAreaValues {
          value := decl.initialAreaValues[curArea];
        } else {
          continue;
        }
        var prop := PropValue(propId, curArea, value);
        var result := WriteValue(store, registered, prop);
        store := result.1;
        var status, isSpecial := MaybeSetSpecialDemonstratorValue(prop);
      }
      assert areas[..numAreas] == areas;
    }

    /** `handleSetValueRequest`. */
    method HandleSetValueRequest(request: SetValueRequest) returns (result: SetValueResult)
      modifies this
      ensures (result, State()) == SetValueRequestOutcome(ids, batteryCapacityWh, baseSetValue, old(State()), request)
    {
      var status := SetValue(request.value);
      if status.Failure? {
        result := SetValueResult(request.requestId, status.code);
      } else {
        result := SetValueResult(request.requestId, OK);
      }
    }

    /** `setValue`. */
    method SetValue(value: PropValue) returns (r: VhalStatus)
      modifies this
      ensures Step(r, State()) == SetValueOutcome(ids, batteryCapacityWh, baseSetValue, old(State()), value)
    {
      var setSpecial, isSpecial := MaybeSetSpecialDemonstratorValue(value);
      if !isSpecial {
        var base := baseSetValue(store, registered, value);
        store := base.1;
        forwarded := forwarded + [value];
        return base.0;
      }
      if setSpecial.Failure? {
        return Failure(setSpecial.code, SpecialValueFailed(value.prop, setSpecial.reason));
      }
      var writeResult := WriteValue(store, registered, value);
      if writeResult.0.Failure? {
        return Failure(writeResult.0.code, StoreWriteFailed(writeResult.0.reason));
      }
      store := writeResult.1;
      return Success;
    }

    /** `maybeSetSpecialDemonstratorValue`: the handler's status and whether the value was special. */
    method MaybeSetSpecialDemonstratorValue(value: PropValue) returns (r: VhalStatus, isSpecial: bool)
      modifies this
      ensures Special(isSpecial, r, State()) == SpecialDemonstratorValue(ids, batteryCapacityWh, old(State()), value)
    {
      isSpecial := false;
      if value.prop == ids.ambientLightColor {
        isSpecial := true;
        r := HandleSetCustomAmbientLightColor(value);
        return;
      }
      if value.prop == ids.ambientLightMode {
        isSpecial := true;
        r := HandleSetAmbientLightMode(value);
        return;
      }
      if value.prop == ids.hvacFanSpeed {
        isSpecial := true;
        r := HandleSetHvacFanSpeed(value);
        return;
      }
      return Success, false;
    }

    /** `handleSetHvacFanSpeed`. */
    method HandleSetHvacFanSpeed(value: PropValue) returns (r: VhalStatus)
      modifies this
      ensures Step(r, State()) == HvacFanSpeedRequest(ids, old(State()), value)
    {
      if value.prop != ids.hvacFanSpeed {
        return Failure(INVALID_ARG, InvalidPropertyId(value.prop));
      }
      if |value.value.int32Values| == 0 {
        return Failure(INVALID_ARG, NoFanSpeedValue);
      }
      r := SetPwmHvacFanSpeed(value.value.int32Values[0]);
    }

    /** `setPwmHvacFanSpeed`. */
    method SetPwmHvacFanSpeed(level: int) returns (r: VhalStatus)
      modifies this
      ensures Step(r, State()) == FanSpeedPwm(old(State()), level)
    {
      var idx := level - 1;
      if idx < 0 || idx > 5 {
        return Failure(INVALID_ARG, InvalidFanSpeed(level));
      }
      pwm := pwm + [PwmWrite(FAN_PWM_PIN, PWM_DUTY_CYCLE_VALUES[idx])];
      return Success;
    }

    /** `handleSetAmbientLightMode`. */
    method HandleSetAmbientLightMode(value: PropValue) returns (r: VhalStatus)
      modifies this
      ensures Step(r, State()) == AmbientLightModeRequest(ids, batteryCapacityWh, old(State()), value)
    {
      if value.prop != ids.ambientLightMode {
        return Failure(INVALID_ARG, InvalidPropertyId(value.prop));
      }
      if |value.value.int32Values| == 0 {
        return Failure(INVALID_ARG, NoAmbientLightModeValue);
      }
      var mode := value.value.int32Values[0];
      if mode == ids.customMode {
        return Success;
      } else if mode == ids.batteryLevelMode {
        var batteryLevel := CurrentBatteryLevelPercent(ids, batteryCapacityWh, store);
        if batteryLevel.Err? {
          return Failure(INTERNAL_ERROR, batteryLevel.error);
        }
        r := SetAndStorePwmAmbientLightColorToBatteryLevel(batteryLevel.value);
        return;
      }
      return Failure(INVALID_ARG, InvalidAmbientLightMode(mode));
    }

    /** `setPwmAmbientLightColor`. */
    method SetPwmAmbientLightColor(red: int, green: int, blue: int) returns (r: VhalStatus)
      modifies this
      ensures Step(r, State()) == AmbientLightColorPwm(old(State()), red, green, blue)
    {
      if red < 0 || red > 255 || green < 0 || green > 255 || blue < 0 || blue > 255 {
        return Failure(INVALID_ARG, InvalidColorValues(red, green, blue));
      }
      pwm := pwm + [PwmWrite(RED_PIN, red)];
      pwm := pwm + [PwmWrite(GREEN_PIN, green)];
      pwm := pwm + [PwmWrite(BLUE_PIN, blue)];
      return Success;
    }

    /** `setAndStorePwmAmbientLightColorToBatteryLevel`. */
    method SetAndStorePwmAmbientLightColorToBatteryLevel(percent: real) returns (r: VhalStatus)
      modifies this
      ensures Step(r, State()) == BatteryLevelColorShown(ids, old(State()), percent)
    {
      if percent < 0.0 || percent > 100.0 {
        return Failure(INVALID_ARG, InvalidBatteryLevelPercent(percent));
      }
      var color := BatteryLevelColor(percent);
      var setPwmColorResult := SetPwmAmbientLightColor(color[0], color[1], color[2]);
      if setPwmColorResult.Failure? {
        return setPwmColorResult;
      }
      var writeResult := WriteValue(store, registered, PropValue(ids.ambientLightColor, 0, ColorValue(color)));
      store := writeResult.1;
      return writeResult.0;
    }

    /** `handleSetCustomAmbientLightColor`. */
    method HandleSetCustomAmbientLightColor(value: PropValue) returns (r: VhalStatus)
      modifies this
      ensures Step(r, State()) == CustomAmbientLightColorRequest(ids, old(State()), value)
    {
      var currentMode := StoredMode(ids, store);
      if value.prop != ids.ambientLightColor {
        return Failure(INVALID_ARG, InvalidPropertyId(value.prop));
      }
      if currentMode.Some? && currentMode.value != ids.customMode {
        return Failure(INVALID_ARG, ModeNotCustom);
      }
      if |value.value.int32Values| == 0 {
        return Failure(INVALID_ARG, NoAmbientLightModeValue);
      }
      if |value.value.int32Values| != 3 {
        return Failure(INVALID_ARG, NotRgb);
      }
      r := SetPwmAmbientLightColor(value.value.int32Values[0], value.value.int32Values[1], value.value.int32Values[2]);
    }
  }
}
