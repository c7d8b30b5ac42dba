/**
 * The constant registry of the demonstrator's JSON config loader: for every
 * type tag usable in a `"Type::Name"` reference, a table from constant name to
 * its integer value.
 *
 * Two inputs come from code outside this model and are parameters here:
 *  - `enumRange(tag)`: the enumerators of the AIDL enum called `tag`, in
 *    `ndk::enum_range` order, each with the name `toString` gives it;
 *  - `header(id)`: the value of the C++ constant `id` from PropertyUtils.h
 *    (`DOOR_1_RIGHT`, ..., `VehicleAreaMirror::DRIVER_LEFT`).
 */
module ConstantRegistry {
  import opened Wrappers

  /** One constant parser's table: `mValueByName`, or `CONSTANTS_BY_NAME`. */
  type ValueTable = map<string, int>

  /** `mConstantParsersByType`: type tag to that parser's table. */
  type Registry = map<string, ValueTable>

  /** One enumerator as `ndk::enum_range` yields it: `toString(v)` and `toInt(v)`. */
  datatype EnumEntry = EnumEntry(name: string, value: int)

  /** `ConstantParserInterface::parseValue`: the value of `name`, or nothing. */
  function Lookup(table: ValueTable, name: string): (r: Option<int>)
    ensures r.Some? <==> name in table
    ensures r.Some? ==> r.value == table[name]
  {
    if name in table then Some(table[name]) else None
  }

  // ---------------------------------------------------------------------------
  // Enumeration parsers (ConstantParser<T>, DemonstratorConstantParser<T>)
  // ---------------------------------------------------------------------------

  /**
   * The table the constructor loop builds from the first |entries| enumerators.
   * `gallonAlias` is set for ConstantParser<T>, which also files the value of
   * `GALLON` under `US_GALLON` (both AIDL names share one value, and `toString`
   * only ever produces `GALLON`); DemonstratorConstantParser<T> has no alias.
   */
  function EnumTable(entries: seq<EnumEntry>, gallonAlias: bool): ValueTable
    decreases |entries|
  {
    if entries == [] then map[]
    else
      var t := EnumTable(entries[..|entries| - 1], gallonAlias);
      var e := entries[|entries| - 1];
      var t' := if gallonAlias && e.name == "GALLON" then t["US_GALLON" := e.value] else t;
      t'[e.name := e.value]
  }

  /** The loop of the ConstantParser / DemonstratorConstantParser constructors. */
  method BuildEnumTable(entries: seq<EnumEntry>, gallonAlias: bool) returns (table: ValueTable)
    ensures table == EnumTable(entries, gallonAlias)
  {
    table := map[];
    var i := 0;
    while i < |entries|
      invariant 0 <= i <= |entries|
      invariant table == EnumTable(entries[..i], gallonAlias)
    {
      var e := entries[i];
      if gallonAlias && e.name == "GALLON" {
        table := table["US_GALLON" := e.value];
      }
      table := table[e.name := e.value];
      i := i + 1;
      assert entries[..i][..i - 1] == entries[..i - 1];
    }
    assert entries[..|entries|] == entries;
  }

  /** A name is defined exactly when some enumerator carries it (or it is the alias of GALLON). */
  lemma {:induction false} EnumTableKeys(entries: seq<EnumEntry>, gallonAlias: bool, name: string)
    ensures name in EnumTable(entries, gallonAlias) <==>
              (exists i :: 0 <= i < |entries| && entries[i].name == name) ||
              (gallonAlias && name == "US_GALLON" &&
               exists i :: 0 <= i < |entries| && entries[i].name == "GALLON")
    decreases |entries|
  {
    if entries != [] {
      var n := |entries| - 1;
      var init := entries[..n];
      EnumTableKeys(init, gallonAlias, name);
      forall i | 0 <= i < n ensures init[i] == entries[i] { }
      if name in EnumTable(entries, gallonAlias) && name !in EnumTable(init, gallonAlias) {
        if name != entries[n].name {
          assert gallonAlias && entries[n].name == "GALLON" && name == "US_GALLON";
        }
      }
    }
  }

  /** The value of a name is that of the LAST enumerator with that name: later ones overwrite. */
  lemma {:induction false} EnumTableLastWins(entries: seq<EnumEntry>, gallonAlias: bool, i: nat)
    requires i < |entries|
    requires forall j :: i < j < |entries| ==> entries[j].name != entries[i].name
    requires !(gallonAlias && entries[i].name == "US_GALLON" &&
               exists j :: i < j < |entries| && entries[j].name == "GALLON")
    ensures entries[i].name in EnumTable(entries, gallonAlias)
    ensures EnumTable(entries, gallonAlias)[entries[i].name] == entries[i].value
    decreases |entries|
  {
    var n := |entries| - 1;
    if i < n {
      var init := entries[..n];
      forall j | i < j < n ensures init[j].name != init[i].name { }
      EnumTableLastWins(init, gallonAlias, i);
    }
  }

  /**
   * ConstantParser<VehicleUnit>: `US_GALLON` resolves to the value of `GALLON`,
   * as long as no enumerator's `toString` is itself `US_GALLON`.
   */
  lemma {:induction false} UsGallonIsGallon(entries: seq<EnumEntry>)
    requires forall i :: 0 <= i < |entries| ==> entries[i].name != "US_GALLON"
    requires exists i :: 0 <= i < |entries| && entries[i].name == "GALLON"
    ensures "GALLON" in EnumTable(entries, true) && "US_GALLON" in EnumTable(entries, true)
    ensures EnumTable(entries, true)["US_GALLON"] == EnumTable(entries, true)["GALLON"]
    decreases |entries|
  {
    var n := |entries| - 1;
    var init := entries[..n];
    if entries[n].name != "GALLON" {
      var i :| 0 <= i < |entries| && entries[i].name == "GALLON";
      assert init[i].name == "GALLON";
      forall k | 0 <= k < |init| ensures init[k].name != "US_GALLON" {
        assert init[k] == entries[k];
      }
      UsGallonIsGallon(init);
    }
  }

  // ---------------------------------------------------------------------------
  // CONSTANTS_BY_NAME (LocalVariableParser)
  // ---------------------------------------------------------------------------

  /** The OR of the lowest `width` bits of two non-negative numbers. */
  function OrBits(a: nat, b: nat, width: nat): nat
    decreases width
  {
    if width == 0 then 0
    else 2 * OrBits(a / 2, b / 2, width - 1) + (if a % 2 == 1 || b % 2 == 1 then 1 else 0)
  }

  /** The OR of `width` bits fits in `width` bits. */
  lemma {:induction false} OrBitsBound(a: nat, b: nat, width: nat)
    ensures OrBits(a, b, width) < Pow2(width)
    decreases width
  {
    if width > 0 {
      OrBitsBound(a / 2, b / 2, width - 1);
    }
  }

  function Pow2(n: nat): (p: nat)
    ensures p >= 1
  {
    if n == 0 then 1 else 2 * Pow2(n - 1)
  }

  /** `a | b` on C++ `int`s: OR of the two 32-bit two's-complement patterns. */
  function BitOr(a: int, b: int): (r: int)
    ensures IsInt32(r)
  {
    var u := OrBits(a % 0x1_0000_0000, b % 0x1_0000_0000, 32);
    OrBitsBound(a % 0x1_0000_0000, b % 0x1_0000_0000, 32);
    Pow2Is32Bits();
    if u <= 0x7FFF_FFFF then u else u - 0x1_0000_0000
  }

  predicate IsInt32(x: int) {
    -0x8000_0000 <= x <= 0x7FFF_FFFF
  }

  /** Bit `k` of a non-negative number. */
  predicate BitSet(x: nat, k: nat) {
    (x / Pow2(k)) % 2 == 1
  }

  /** Bit `k` of the 32-bit two's-complement pattern of a C++ `int`. */
  predicate IntBit(x: int, k: nat) {
    BitSet(x % 0x1_0000_0000, k)
  }

  lemma {:induction false} Pow2Add(m: nat, n: nat)
    ensures Pow2(m + n) == Pow2(m) * Pow2(n)
    decreases m
  {
    if m > 0 {
      Pow2Add(m - 1, n);
    }
  }

  lemma Pow2Is32Bits()
    ensures Pow2(32) == 0x1_0000_0000
  {
    assert Pow2(4) == 16;
    Pow2Add(4, 4);
    Pow2Add(8, 8);
    Pow2Add(16, 16);
  }

  lemma {:induction false} MulGrows(t: int, d: int)
    requires t >= 1 && d > 0
    ensures t * d >= d
    decreases t
  {
    if t > 1 {
      MulGrows(t - 1, d);
      assert t * d == (t - 1) * d + d;
    }
  }

  /** `x / d` and `x % d` are the only quotient and remainder. */
  lemma DivModUnique(x: int, d: int, q: int, r: int)
    requires d > 0 && x == q * d + r && 0 <= r < d
    ensures x / d == q && x % d == r
  {
    var q', r' := x / d, x % d;
    assert x == q' * d + r';
    assert (q - q') * d == r' - r;
    if q' < q {
      MulGrows(q - q', d);
    } else if q' > q {
      MulGrows(q' - q, d);
    }
  }

  /** Dividing by `2 * m` is halving, then dividing by `m`. */
  lemma DivDouble(x: nat, m: nat)
    requires m >= 1
    ensures x / (2 * m) == (x / 2) / m
    ensures x % (2 * m) == 2 * ((x / 2) % m) + x % 2
  {
    var q, r := (x / 2) / m, (x / 2) % m;
    assert x == q * (2 * m) + (2 * r + x % 2);
    DivModUnique(x, 2 * m, q, 2 * r + x % 2);
  }

  /** Bit `k + 1` of a number is bit `k` of its half; bit 0 is its parity. */
  lemma BitSetShift(x: nat, k: nat)
    ensures BitSet(x, k + 1) <==> BitSet(x / 2, k)
    ensures BitSet(x, 0) <==> x % 2 == 1
  {
    DivDouble(x, Pow2(k));
  }

  /** The lowest bit of an OR, and what is left above it. */
  lemma OrBitsLow(a: nat, b: nat, width: nat)
    requires width > 0
    ensures OrBits(a, b, width) / 2 == OrBits(a / 2, b / 2, width - 1)
    ensures OrBits(a, b, width) % 2 == 1 <==> a % 2 == 1 || b % 2 == 1
  {
    var c := if a % 2 == 1 || b % 2 == 1 then 1 else 0;
    DivModUnique(OrBits(a, b, width), 2, OrBits(a / 2, b / 2, width - 1), c);
  }

  /** Bit `k` of an OR is set exactly when it is one of the ORed bits and set in either operand. */
  lemma {:induction false} OrBitsBit(a: nat, b: nat, width: nat, k: nat)
    ensures BitSet(OrBits(a, b, width), k) <==> k < width && (BitSet(a, k) || BitSet(b, k))
    decreases width
  {
    if width == 0 {
      assert OrBits(a, b, width) / Pow2(k) == 0;
    } else {
      OrBitsLow(a, b, width);
      BitSetShift(OrBits(a, b, width), if k == 0 then 0 else k - 1);
      BitSetShift(a, if k == 0 then 0 else k - 1);
      BitSetShift(b, if k == 0 then 0 else k - 1);
      if k > 0 {
        OrBitsBit(a / 2, b / 2, width - 1, k - 1);
      }
    }
  }

  lemma {:induction false} OrBitsCommutes(a: nat, b: nat, width: nat)
    ensures OrBits(a, b, width) == OrBits(b, a, width)
    decreases width
  {
    if width > 0 {
      OrBitsCommutes(a / 2, b / 2, width - 1);
    }
  }

  /** OR with zero, and OR with itself, keep the low `width` bits. */
  lemma {:induction false} OrBitsKeeps(a: nat, width: nat)
    ensures OrBits(a, 0, width) == a % Pow2(width)
    ensures OrBits(a, a, width) == a % Pow2(width)
    decreases width
  {
    if width > 0 {
      OrBitsKeeps(a / 2, width - 1);
      DivDouble(a, Pow2(width - 1));
    }
  }

  /** The pattern `BitOr` builds is the pattern of its result. */
  lemma BitOrPattern(a: int, b: int)
    ensures BitOr(a, b) % 0x1_0000_0000 == OrBits(a % 0x1_0000_0000, b % 0x1_0000_0000, 32)
  {
    var u: int := OrBits(a % 0x1_0000_0000, b % 0x1_0000_0000, 32);
    OrBitsBound(a % 0x1_0000_0000, b % 0x1_0000_0000, 32);
    Pow2Is32Bits();
    if u <= 0x7FFF_FFFF {
      DivModUnique(u, 0x1_0000_0000, 0, u);
    } else {
      DivModUnique(u - 0x1_0000_0000, 0x1_0000_0000, -1, u);
    }
  }

  /** Each of the 32 bits of `a | b` is set iff it is set in `a` or in `b`. */
  lemma BitOrBits(a: int, b: int, k: nat)
    requires k < 32
    ensures IntBit(BitOr(a, b), k) <==> IntBit(a, k) || IntBit(b, k)
  {
    BitOrPattern(a, b);
    OrBitsBit(a % 0x1_0000_0000, b % 0x1_0000_0000, 32, k);
  }

  /** `|` on `int`s is commutative. */
  lemma BitOrCommutes(a: int, b: int)
    ensures BitOr(a, b) == BitOr(b, a)
  {
    OrBitsCommutes(a % 0x1_0000_0000, b % 0x1_0000_0000, 32);
  }

  /** The value of an `int` whose 32-bit pattern is `u`. */
  lemma PatternValue(a: int, u: int)
    requires IsInt32(a) && u == a % 0x1_0000_0000
    ensures (if u <= 0x7FFF_FFFF then u else u - 0x1_0000_0000) == a
  {
    if a < 0 {
      DivModUnique(a, 0x1_0000_0000, -1, a + 0x1_0000_0000);
    }
  }

  /** OR of an `int` with 0, or with itself, gives the `int` back. */
  lemma BitOrKeeps(a: int)
    requires IsInt32(a)
    ensures BitOr(a, 0) == a && BitOr(a, a) == a
  {
    var m := a % 0x1_0000_0000;
    OrBitsKeeps(m, 32);
    Pow2Is32Bits();
    DivModUnique(m, Pow2(32), 0, m);
    PatternValue(a, m);
  }

  /**
   * CONSTANTS_BY_NAME (without the entries that only exist when
   * ENABLE_VEHICLE_HAL_TEST_PROPERTIES is defined): the plain header constants
   * and the pre-combined masks, each the OR of its base constants in the order
   * the table writes them. The source lists the two kinds interleaved; all
   * names are distinct, so the table is the same.
   */
  function LocalConstants(header: string -> int): ValueTable {
    PlainConstants(header) + CombinedMasks(header)
  }

  /** The entries of CONSTANTS_BY_NAME that are a single header constant. */
  function PlainConstants(header: string -> int): ValueTable {
    map[
      "DOOR_1_RIGHT" := header("DOOR_1_RIGHT"),
      "DOOR_1_LEFT" := header("DOOR_1_LEFT"),
      "DOOR_2_RIGHT" := header("DOOR_2_RIGHT"),
      "DOOR_2_LEFT" := header("DOOR_2_LEFT"),
      "DOOR_REAR" := header("DOOR_REAR"),
      "HVAC_ALL" := header("HVAC_ALL"),
      "HVAC_LEFT" := header("HVAC_LEFT"),
      "HVAC_RIGHT" := header("HVAC_RIGHT"),
      "VENDOR_EXTENSION_INT_PROPERTY" := header("VENDOR_EXTENSION_INT_PROPERTY"),
      "VENDOR_EXTENSION_BOOLEAN_PROPERTY" := header("VENDOR_EXTENSION_BOOLEAN_PROPERTY"),
      "VENDOR_EXTENSION_STRING_PROPERTY" := header("VENDOR_EXTENSION_STRING_PROPERTY"),
      "VENDOR_EXTENSION_FLOAT_PROPERTY" := header("VENDOR_EXTENSION_FLOAT_PROPERTY"),
      "WINDOW_1_LEFT" := header("WINDOW_1_LEFT"),
      "WINDOW_1_RIGHT" := header("WINDOW_1_RIGHT"),
      "WINDOW_2_LEFT" := header("WINDOW_2_LEFT"),
      "WINDOW_2_RIGHT" := header("WINDOW_2_RIGHT"),
      "WINDOW_ROOF_TOP_1" := header("WINDOW_ROOF_TOP_1"),
      "SEAT_1_LEFT" := header("SEAT_1_LEFT"),
      "SEAT_1_RIGHT" := header("SEAT_1_RIGHT"),
      "SEAT_2_LEFT" := header("SEAT_2_LEFT"),
      "SEAT_2_RIGHT" := header("SEAT_2_RIGHT"),
      "SEAT_2_CENTER" := header("SEAT_2_CENTER"),
      "WHEEL_REAR_RIGHT" := header("WHEEL_REAR_RIGHT"),
      "WHEEL_REAR_LEFT" := header("WHEEL_REAR_LEFT"),
      "WHEEL_FRONT_RIGHT" := header("WHEEL_FRONT_RIGHT"),
      "WHEEL_FRONT_LEFT" := header("WHEEL_FRONT_LEFT"),
      "CHARGE_PORT_FRONT_LEFT" := header("CHARGE_PORT_FRONT_LEFT"),
      "CHARGE_PORT_REAR_LEFT" := header("CHARGE_PORT_REAR_LEFT"),
      "FAN_DIRECTION_UNKNOWN" := header("VehicleHvacFanDirection::UNKNOWN"),
      "FAN_DIRECTION_FLOOR" := header("FAN_DIRECTION_FLOOR"),
      "FAN_DIRECTION_FACE" := header("FAN_DIRECTION_FACE"),
      "FAN_DIRECTION_DEFROST" := header("FAN_DIRECTION_DEFROST"),
      "FUEL_DOOR_REAR_LEFT" := header("FUEL_DOOR_REAR_LEFT"),
      "LIGHT_STATE_ON" := header("LIGHT_STATE_ON"),
      "LIGHT_STATE_OFF" := header("LIGHT_STATE_OFF"),
      "LIGHT_SWITCH_OFF" := header("LIGHT_SWITCH_OFF"),
      "LIGHT_SWITCH_ON" := header("LIGHT_SWITCH_ON"),
      "LIGHT_SWITCH_AUTO" := header("LIGHT_SWITCH_AUTO"),
      "EV_STOPPING_MODE_CREEP" := header("EV_STOPPING_MODE_CREEP"),
      "EV_STOPPING_MODE_ROLL" := header("EV_STOPPING_MODE_ROLL"),
      "EV_STOPPING_MODE_HOLD" := header("EV_STOPPING_MODE_HOLD")
    ]
  }

  /** The entries of CONSTANTS_BY_NAME that OR several header constants together. */
  function CombinedMasks(header: string -> int): ValueTable {
    map[
      "SEAT_2_LEFT_2_RIGHT_2_CENTER" := BitOr(BitOr(header("SEAT_2_LEFT"), header("SEAT_2_RIGHT")), header("SEAT_2_CENTER")),
      "FAN_DIRECTION_FACE_FLOOR" := BitOr(header("FAN_DIRECTION_FACE"), header("FAN_DIRECTION_FLOOR")),
      "FAN_DIRECTION_FACE_DEFROST" := BitOr(header("FAN_DIRECTION_FACE"), header("FAN_DIRECTION_DEFROST")),
      "FAN_DIRECTION_FLOOR_DEFROST" := BitOr(header("FAN_DIRECTION_FLOOR"), header("FAN_DIRECTION_DEFROST")),
      "FAN_DIRECTION_FLOOR_DEFROST_FACE" := BitOr(BitOr(header("FAN_DIRECTION_FLOOR"), header("FAN_DIRECTION_DEFROST")), header("FAN_DIRECTION_FACE")),
      "MIRROR_DRIVER_LEFT_RIGHT" := BitOr(header("VehicleAreaMirror::DRIVER_LEFT"), header("VehicleAreaMirror::DRIVER_RIGHT")),
      "WINDOW_1_RIGHT_2_LEFT_2_RIGHT" := BitOr(BitOr(header("WINDOW_1_RIGHT"), header("WINDOW_2_LEFT")), header("WINDOW_2_RIGHT"))
    ]
  }

  /**
   * The combined window entry is the OR of its three base windows: every
   * bit set in one of them is set in the mask, and no other bit is.
   */
  lemma CombinedWindowMask(header: string -> int, k: nat)
    requires k < 32
    ensures "WINDOW_1_RIGHT_2_LEFT_2_RIGHT" in LocalConstants(header)
    ensures LocalConstants(header)["WINDOW_1_RIGHT_2_LEFT_2_RIGHT"] ==
              BitOr(BitOr(header("WINDOW_1_RIGHT"), header("WINDOW_2_LEFT")), header("WINDOW_2_RIGHT"))
    ensures IntBit(LocalConstants(header)["WINDOW_1_RIGHT_2_LEFT_2_RIGHT"], k) <==>
              IntBit(header("WINDOW_1_RIGHT"), k) || IntBit(header("WINDOW_2_LEFT"), k) || IntBit(header("WINDOW_2_RIGHT"), k)
  {
    var inner := BitOr(header("WINDOW_1_RIGHT"), header("WINDOW_2_LEFT"));
    BitOrBits(inner, header("WINDOW_2_RIGHT"), k);
    BitOrBits(header("WINDOW_1_RIGHT"), header("WINDOW_2_LEFT"), k);
  }

  // ---------------------------------------------------------------------------
  // The registry (JsonValueParser constructor)
  // ---------------------------------------------------------------------------

  /** Which parser class the constructor installs under a tag. */
  datatype ParserKind =
    | AidlEnum          // ConstantParser<T>
    | DemonstratorEnum  // DemonstratorConstantParser<T>
    | LocalVariables    // LocalVariableParser over CONSTANTS_BY_NAME

  datatype Registration = Registration(tag: string, kind: ParserKind)

  /** The registrations of the JsonValueParser constructor, in source order. */
  const REGISTRATIONS: seq<Registration> := [
    Registration("VehiclePropertyAccess", AidlEnum),
    Registration("VehiclePropertyChangeMode", AidlEnum),
    Registration("LocationCharacterization", AidlEnum),
    Registration("VehicleGear", AidlEnum),
    Registration("VehicleAreaWindow", AidlEnum),
    Registration("VehicleAreaMirror", AidlEnum),
    Registration("VehicleOilLevel", AidlEnum),
    Registration("VehicleUnit", AidlEnum),
    Registration("VehicleSeatOccupancyState", AidlEnum),
    Registration("VehicleHvacFanDirection", AidlEnum),
    Registration("VehicleApPowerStateReport", AidlEnum),
    Registration("VehicleTurnSignal", AidlEnum),
    Registration("VehicleVendorPermission", AidlEnum),
    Registration("EvsServiceType", AidlEnum),
    Registration("EvsServiceState", AidlEnum),
    Registration("EvConnectorType", AidlEnum),
    Registration("AmbientLightMode", DemonstratorEnum),
    Registration("VehicleProperty", AidlEnum),
    Registration("VendorVehicleProperty", DemonstratorEnum),
    Registration("GsrComplianceRequirementType", AidlEnum),
    Registration("VehicleIgnitionState", AidlEnum),
    Registration("FuelType", AidlEnum),
    Registration("WindshieldWipersState", AidlEnum),
    Registration("WindshieldWipersSwitch", AidlEnum),
    Registration("EmergencyLaneKeepAssistState", AidlEnum),
    Registration("CruiseControlType", AidlEnum),
    Registration("CruiseControlState", AidlEnum),
    Registration("CruiseControlCommand", AidlEnum),
    Registration("HandsOnDetectionDriverState", AidlEnum),
    Registration("HandsOnDetectionWarning", AidlEnum),
    Registration("ErrorState", AidlEnum),
    Registration("AutomaticEmergencyBrakingState", AidlEnum),
    Registration("ForwardCollisionWarningState", AidlEnum),
    Registration("BlindSpotWarningState", AidlEnum),
    Registration("LaneDepartureWarningState", AidlEnum),
    Registration("LaneKeepAssistState", AidlEnum),
    Registration("LaneCenteringAssistCommand", AidlEnum),
    Registration("LaneCenteringAssistState", AidlEnum),
    Registration("Constants", LocalVariables)
  ]

  /** The table of the parser that one registration installs. */
  function TableFor(r: Registration, enumRange: string -> seq<EnumEntry>, header: string -> int): ValueTable {
    match r.kind
    case AidlEnum => EnumTable(enumRange(r.tag), true)
    case DemonstratorEnum => EnumTable(enumRange(r.tag), false)
    case LocalVariables => LocalConstants(header)
  }

  /**
   * The registry after installing `regs` in order, `tableOf(r)` being the
   * table installed by `r` (a later registration replaces an earlier tag).
   */
  function Install(regs: seq<Registration>, tableOf: Registration -> ValueTable): Registry
    decreases |regs|
  {
    if regs == [] then map[]
    else
      var last := regs[|regs| - 1];
      Install(regs[..|regs| - 1], tableOf)[last.tag := tableOf(last)]
  }

  /** The registry the JsonValueParser constructor builds. */
  function RegistryOf(enumRange: string -> seq<EnumEntry>, header: string -> int): Registry {
    Install(REGISTRATIONS, r => TableFor(r, enumRange, header))
  }

  /** The JsonValueParser constructor: installs every registration in order. */
  method NewRegistry(enumRange: string -> seq<EnumEntry>, header: string -> int) returns (registry: Registry)
    ensures registry == RegistryOf(enumRange, header)
  {
    registry := InstallAll(REGISTRATIONS, enumRange, header);
  }

  /** The loop over the registrations, building each parser's table. */
  method InstallAll(regs: seq<Registration>, enumRange: string -> seq<EnumEntry>, header: string -> int)
    returns (registry: Registry)
    ensures registry == Install(regs, r => TableFor(r, enumRange, header))
  {
    ghost var tableOf := r => TableFor(r, enumRange, header);
    registry := map[];
    var i := 0;
    while i < |regs|
      invariant 0 <= i <= |regs|
      invariant registry == Install(regs[..i], tableOf)
    {
      var r := regs[i];
      var table := BuildTable(r, enumRange, header);
      registry := registry[r.tag := table];
      i := i + 1;
      assert regs[..i][..i - 1] == regs[..i - 1];
    }
    assert regs[..|regs|] == regs;
  }

  /** One `std::make_unique<...>()` of the constructor: the table of the parser for `r`. */
  method BuildTable(r: Registration, enumRange: string -> seq<EnumEntry>, header: string -> int)
    returns (table: ValueTable)
    ensures table == TableFor(r, enumRange, header)
  {
    match r.kind {
      case AidlEnum =>
        table := BuildEnumTable(enumRange(r.tag), true);
      case DemonstratorEnum =>
        table := BuildEnumTable(enumRange(r.tag), false);
      case LocalVariables =>
        table := LocalConstants(header);
    }
  }

  /** The registered tags are exactly the tags of the registrations. */
  lemma {:induction false} InstallKeys(regs: seq<Registration>, tableOf: Registration -> ValueTable, tag: string)
    ensures tag in Install(regs, tableOf) <==> exists i :: 0 <= i < |regs| && regs[i].tag == tag
    decreases |regs|
  {
    if regs != [] {
      var init := regs[..|regs| - 1];
      InstallKeys(init, tableOf, tag);
      forall i | 0 <= i < |init| ensures init[i] == regs[i] { }
    }
  }

  /** A tag registered once holds the table of that registration. */
  lemma {:induction false} InstallEntry(regs: seq<Registration>, tableOf: Registration -> ValueTable, i: nat)
    requires i < |regs|
    requires forall j :: i < j < |regs| ==> regs[j].tag != regs[i].tag
    ensures regs[i].tag in Install(regs, tableOf)
    ensures Install(regs, tableOf)[regs[i].tag] == tableOf(regs[i])
    decreases |regs|
  {
    if i < |regs| - 1 {
      var init := regs[..|regs| - 1];
      forall j | i < j < |init| ensures init[j].tag != init[i].tag { }
      InstallEntry(init, tableOf, i);
    }
  }
}
