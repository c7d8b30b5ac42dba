/**
 * The pieces of the AOSP vehicle HAL that the demonstrator hardware layer
 * relies on: status codes, `VhalResult<void>` (a status with the reason the
 * source writes into its error message), property values, and the
 * server-side property store, modelled as a map from (property id, area id)
 * to the stored values.
 */
module VehicleHal {
  import opened Wrappers
  import opened LoaderTypes

  datatype StatusCode = OK | TRY_AGAIN | INVALID_ARG | NOT_AVAILABLE | ACCESS_DENIED | INTERNAL_ERROR

  /** What an error message of the hardware layer says, without its formatting. */
  datatype Reason =
    | InvalidPropertyId(prop: int)
    | NoFanSpeedValue
    | InvalidFanSpeed(level: int)
    | NoAmbientLightModeValue
    | InvalidAmbientLightMode(mode: int)
    | InvalidColorValues(red: int, green: int, blue: int)
    | InvalidBatteryLevelPercent(percent: real)
    | ModeNotCustom
    | NotRgb
    | BatteryLevelUnavailable
    | BatteryCapacityZero
    | PropertyNotRegistered(prop: int)
    | NoAreaConfig(prop: int, area: int)
    | SpecialValueFailed(prop: int, cause: Reason)
    | StoreWriteFailed(cause: Reason)
    | BaseClassFailure

  /** `VhalResult<void>`: success, or a status code with its message. */
  datatype VhalStatus = Success | Failure(code: StatusCode, reason: Reason)

  /** `VehiclePropValue` without its timestamp and status. */
  datatype PropValue = PropValue(prop: int, areaId: int, value: RawPropValues)

  /** `SetValueRequest`: a request id and the value to set. */
  datatype SetValueRequest = SetValueRequest(requestId: int, value: PropValue)

  /** The server-side property store's values, by property id and area id. */
  type Store = map<(int, int), RawPropValues>

  /** The configs registered with the store, by property id. */
  type Registered = map<int, PropConfig>

  /** `VehicleArea::MASK` and `VehicleArea::GLOBAL`: bits 24..27 of a property id. */
  const VEHICLE_AREA_UNIT: int := 0x0100_0000
  const VEHICLE_AREA_GLOBAL: int := 1

  /** `isGlobalProp`: the area bits of the 32-bit property id say GLOBAL. */
  predicate IsGlobalProp(prop: int) {
    (prop % 0x1_0000_0000) / VEHICLE_AREA_UNIT % 0x10 == VEHICLE_AREA_GLOBAL
  }

  /**
   * The (property, area) a value is filed under: area 0 for a global
   * property, whatever area the value names, else the value's own area.
   */
  function StoreKey(prop: int, area: int): (int, int) {
    (prop, if IsGlobalProp(prop) then 0 else area)
  }

  /** `getAreaConfig` finds a config for the area among the property's area configs. */
  predicate HasAreaConfig(config: PropConfig, area: int) {
    exists i :: 0 <= i < |config.areaConfigs| && config.areaConfigs[i].areaId == area
  }

  /** The store accepts a value of `prop` for `area`: the property is registered and, unless global, the area is configured. */
  predicate Writable(registered: Registered, prop: int, area: int) {
    prop in registered && (IsGlobalProp(prop) || HasAreaConfig(registered[prop], area))
  }

  /**
   * `writeValue`: a value of a registered property, for a configured area
   * unless the property is global, replaces the one filed under its key; an
   * unregistered property or an unconfigured area fails with INVALID_ARG and
   * leaves the store alone.
   */
  function WriteValue(store: Store, registered: Registered, v: PropValue): (r: (VhalStatus, Store))
    ensures r.0.Success? <==> Writable(registered, v.prop, v.areaId)
    ensures r.0.Success? ==> r.1 == store[StoreKey(v.prop, v.areaId) := v.value]
    ensures v.prop !in registered ==> r == (Failure(INVALID_ARG, PropertyNotRegistered(v.prop)), store)
    ensures v.prop in registered && r.0.Failure? ==> r == (Failure(INVALID_ARG, NoAreaConfig(v.prop, v.areaId)), store)
  {
    if v.prop !in registered then (Failure(INVALID_ARG, PropertyNotRegistered(v.prop)), store)
    else if !IsGlobalProp(v.prop) && !HasAreaConfig(registered[v.prop], v.areaId) then
      (Failure(INVALID_ARG, NoAreaConfig(v.prop, v.areaId)), store)
    else (Success, store[StoreKey(v.prop, v.areaId) := v.value])
  }

  /**
   * A value written for area 0, or for any area of a global property, is
   * what `readValue` then returns; every other key keeps what it held.
   */
  lemma WriteThenRead(store: Store, registered: Registered, v: PropValue, key: (int, int))
    requires Writable(registered, v.prop, v.areaId)
    ensures IsGlobalProp(v.prop) || v.areaId == 0 ==> ReadValue(WriteValue(store, registered, v).1, v.prop) == Some(v.value)
    ensures key != StoreKey(v.prop, v.areaId) ==>
      (key in WriteValue(store, registered, v).1 <==> key in store) &&
      (key in store ==> WriteValue(store, registered, v).1[key] == store[key])
  {
  }

  /** A global property's value lands under area 0 whatever area it names. */
  lemma GlobalWriteIgnoresArea(store: Store, registered: Registered, v: PropValue)
    requires IsGlobalProp(v.prop)
    ensures WriteValue(store, registered, v) == WriteValue(store, registered, v.(areaId := 0))
  {
  }

  /**
   * `registerProperty(config)`: the config replaces the property's record,
   * so the values stored for that property are dropped; the other
   * properties keep their registrations and values.
   */
  function RegisterProperty(store: Store, registered: Registered, config: PropConfig): (r: (Store, Registered))
    ensures r.1.Keys == registered.Keys + {config.prop} && r.1[config.prop] == config
    ensures forall prop :: prop in registered && prop != config.prop ==> r.1[prop] == registered[prop]
    ensures forall k :: k in r.0 <==> k in store && k.0 != config.prop
    ensures forall k :: k in r.0 ==> r.0[k] == store[k]
  {
    (map k | k in store && k.0 != config.prop :: store[k], registered[config.prop := config])
  }

  /** `readValue(propId)`: the value stored for the property's area 0, if any. */
  function ReadValue(store: Store, prop: int): Option<RawPropValues> {
    if (prop, 0) in store then Some(store[(prop, 0)]) else None
  }
}
