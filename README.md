# Demonstrator vehicle HAL: JSON config loader and GPIO hardware

This project is a Dafny model of two parts of the Raspberry Pi automotive
demonstrator's vehicle HAL.

**The demonstrator JSON config loader** (`DemonstratorJsonConfigLoader`).
It reads a vehicle-property configuration document and turns every entry
of its `"properties"` array into a `ConfigDeclaration`. The parts are:

- `ConstantRegistry`: the registry of constant tables that resolves
  `"Type::Name"` references. It holds the AIDL enum parsers, the
  demonstrator enum parsers and the local `Constants` table.
- `JsonValueParser`: typed conversion of JSON scalars and arrays, with
  constant references resolved through the registry.
- `JsonConfigParser`: the field layer. It parses each property's access,
  change mode, config string, default values and areas, and collects error
  messages.
- `DemonstratorConfigLoader`: `parseJsonConfig` and the loader facade.
  The loader splits the entries by the prefix of their `"property"`
  reference, parses the vendor entries itself, and hands the system
  entries to the AOSP loader. It then merges the two maps.

**The two `GpioFakeVehicleHardware` variants.**

- `inheritance_hardware` (`InheritanceHardware`) loads every `*.json` file
  of the vendor config directory. It registers each declared config, stores
  its initial values area by area, and hands `setValues` to the base class.
- `hardware` (`GpioHardware`) does the same loading. It also treats fan
  speed, ambient light mode and ambient light colour as special values.
  Each of these is checked and written to the board's PWM pins, and only
  then stored. The light colour can follow the EV battery level.
- `VendorPropertySetup` holds what the two variants share: the directory
  loop, the `*.json` name match and the per-area initial-value selection.
- `VehicleHal` holds the pieces of the AOSP vehicle HAL that both use:
  status codes and the property store.

Every loop of the source is a method proved equal to a specification
function. The properties the source promises are lemmas about those
functions. The hardware classes keep the store, the registered configs, the
PWM writes and the calls forwarded to the base class as fields. Their
methods are proved to perform the handler functions on that state.

When a property id is declared both by a vendor entry and by the AOSP
loader's result, `parseJsonConfig` keeps the **vendor** declaration. The
merge on line 648 of `DemonstratorJsonConfigLoader.cpp` uses
`std::unordered_map::insert`, which does not overwrite an entry that is
already there. `DemonstratorConfigLoader.Merge` states this rule.

## Model

| member | source | states |
|---|---|---|
| ConstantRegistry.Lookup | rpi-demonstrator-common/hardware/interfaces/automotive/vehicle/aidl/impl/default_config/DemonstratorJsonConfigLoader/src/DemonstratorJsonConfigLoader.cpp:148-154 | A constant parser finds a name exactly when its table holds it, and then returns the value filed under that name |
| ConstantRegistry.BuildEnumTable | rpi-demonstrator-common/hardware/interfaces/automotive/vehicle/aidl/impl/default_config/DemonstratorJsonConfigLoader/src/DemonstratorJsonConfigLoader.cpp:136-176 | The constructor loop over `enum_range` builds exactly the enumerator table `EnumTable`. The `US_GALLON` alias is added for `ConstantParser` only |
| ConstantRegistry.EnumTableKeys | rpi-demonstrator-common/hardware/interfaces/automotive/vehicle/aidl/impl/default_config/DemonstratorJsonConfigLoader/src/DemonstratorJsonConfigLoader.cpp:164-175 | A name is in an enum table iff some enumerator has that name, or it is `US_GALLON` in an aliasing table that has a `GALLON` enumerator |
| ConstantRegistry.EnumTableLastWins | rpi-demonstrator-common/hardware/interfaces/automotive/vehicle/aidl/impl/default_config/DemonstratorJsonConfigLoader/src/DemonstratorJsonConfigLoader.cpp:164-175 | An enumerator whose name no later enumerator (or later `GALLON` alias) reuses keeps its own value in the table |
| ConstantRegistry.UsGallonIsGallon | rpi-demonstrator-common/hardware/interfaces/automotive/vehicle/aidl/impl/default_config/DemonstratorJsonConfigLoader/src/DemonstratorJsonConfigLoader.cpp:170-173 | In a `ConstantParser` table with a `GALLON` enumerator, `US_GALLON` is defined and resolves to the same value as `GALLON` |
| ConstantRegistry.BitOr | rpi-demonstrator-common/hardware/interfaces/automotive/vehicle/aidl/impl/default_config/DemonstratorJsonConfigLoader/src/DemonstratorJsonConfigLoader.cpp:85-117 | `a | b` on C++ `int`s is again a 32-bit signed integer |
| ConstantRegistry.BitOrBits | rpi-demonstrator-common/hardware/interfaces/automotive/vehicle/aidl/impl/default_config/DemonstratorJsonConfigLoader/src/DemonstratorJsonConfigLoader.cpp:85-117 | Each of the 32 bits of `a | b` (two's complement) is set iff it is set in `a` or in `b` |
| ConstantRegistry.BitOrCommutes | rpi-demonstrator-common/hardware/interfaces/automotive/vehicle/aidl/impl/default_config/DemonstratorJsonConfigLoader/src/DemonstratorJsonConfigLoader.cpp:85-117 | `a | b == b | a`, so the order in which a combined mask lists its parts does not matter |
| ConstantRegistry.BitOrKeeps | rpi-demonstrator-common/hardware/interfaces/automotive/vehicle/aidl/impl/default_config/DemonstratorJsonConfigLoader/src/DemonstratorJsonConfigLoader.cpp:85-117 | For a 32-bit `a`, `a | 0 == a` and `a | a == a` |
| ConstantRegistry.OrBitsBit | rpi-demonstrator-common/hardware/interfaces/automotive/vehicle/aidl/impl/default_config/DemonstratorJsonConfigLoader/src/DemonstratorJsonConfigLoader.cpp:85-117 | Bit `k` of the OR of the low `width` bits is set iff `k < width` and bit `k` is set in either operand |
| ConstantRegistry.CombinedWindowMask | rpi-demonstrator-common/hardware/interfaces/automotive/vehicle/aidl/impl/default_config/DemonstratorJsonConfigLoader/src/DemonstratorJsonConfigLoader.cpp:85 | `Constants::WINDOW_1_RIGHT_2_LEFT_2_RIGHT` is defined, and each of its 32 bits is set iff it is set in `WINDOW_1_RIGHT`, `WINDOW_2_LEFT` or `WINDOW_2_RIGHT` |
| ConstantRegistry.NewRegistry | rpi-demonstrator-common/hardware/interfaces/automotive/vehicle/aidl/impl/default_config/DemonstratorJsonConfigLoader/src/DemonstratorJsonConfigLoader.cpp:205-272 | The `JsonValueParser` constructor builds the registry of all 39 registrations, each tag holding its parser's table |
| ConstantRegistry.InstallAll | rpi-demonstrator-common/hardware/interfaces/automotive/vehicle/aidl/impl/default_config/DemonstratorJsonConfigLoader/src/DemonstratorJsonConfigLoader.cpp:205-272 | Installing the registrations one by one gives the registry in which the last registration of each tag holds that tag |
| ConstantRegistry.BuildTable | rpi-demonstrator-common/hardware/interfaces/automotive/vehicle/aidl/impl/default_config/DemonstratorJsonConfigLoader/src/DemonstratorJsonConfigLoader.cpp:137-203 | Each registration installs the table of its parser class: an AIDL enum table with the gallon alias, a demonstrator enum table without it, or `CONSTANTS_BY_NAME` |
| ConstantRegistry.InstallKeys | rpi-demonstrator-common/hardware/interfaces/automotive/vehicle/aidl/impl/default_config/DemonstratorJsonConfigLoader/src/DemonstratorJsonConfigLoader.cpp:205-272 | The registry's type tags are exactly the tags that were registered |
| ConstantRegistry.InstallEntry | rpi-demonstrator-common/hardware/interfaces/automotive/vehicle/aidl/impl/default_config/DemonstratorJsonConfigLoader/src/DemonstratorJsonConfigLoader.cpp:205-272 | A tag registered by one registration and never re-registered maps to that registration's table |
| JsonValueParser.FindDelimiter | rpi-demonstrator-common/hardware/interfaces/automotive/vehicle/aidl/impl/default_config/DemonstratorJsonConfigLoader/src/DemonstratorJsonConfigLoader.cpp:364-366 | `find("::")` returns the first position at or after the start where `::` begins, and nothing when there is none |
| JsonValueParser.SplitTypeAndName | rpi-demonstrator-common/hardware/interfaces/automotive/vehicle/aidl/impl/default_config/DemonstratorJsonConfigLoader/src/DemonstratorJsonConfigLoader.cpp:362-374 | A string splits iff it contains `::` and the part before the first `::` is a registered type tag. The string is then the tag, `::` and the name, with no `::` inside the tag |
| JsonValueParser.SplitOfJoined | rpi-demonstrator-common/hardware/interfaces/automotive/vehicle/aidl/impl/default_config/DemonstratorJsonConfigLoader/src/DemonstratorJsonConfigLoader.cpp:362-374 | Splitting `Type::Name`, for a registered `Type` without `::` in it, gives back `Type` and `Name` (round trip) |
| JsonValueParser.ParseConstantValue | rpi-demonstrator-common/hardware/interfaces/automotive/vehicle/aidl/impl/default_config/DemonstratorJsonConfigLoader/src/DemonstratorJsonConfigLoader.cpp:376-389 | A reference resolves iff its type is registered and that table defines its name, to that value. Otherwise the error names the unknown type or the undefined constant |
| JsonValueParser.ConvertValueToType | rpi-demonstrator-common/hardware/interfaces/automotive/vehicle/aidl/impl/default_config/DemonstratorJsonConfigLoader/src/DemonstratorJsonConfigLoader.cpp:274-313 | A JSON value converts iff jsoncpp accepts it as the target type (int32 range, int64 range, any number, string). The result has that type and the same numeric value; otherwise the error is a wrong-type message |
| JsonValueParser.CastConstant | rpi-demonstrator-common/hardware/interfaces/automotive/vehicle/aidl/impl/default_config/DemonstratorJsonConfigLoader/src/DemonstratorJsonConfigLoader.cpp:334-335 | `static_cast<T>` of a resolved constant has the requested type and keeps the constant's value: the same integer for `int32_t`/`int64_t`, the same number for `float` |
| JsonValueParser.ParseValue | rpi-demonstrator-common/hardware/interfaces/automotive/vehicle/aidl/impl/default_config/DemonstratorJsonConfigLoader/src/DemonstratorJsonConfigLoader.cpp:320-336 | Non-strings, and every string field, are converted directly. For a numeric field, a string is a constant reference: either an invalid-constant error, or the resolved constant cast to the field's type, or the resolution error |
| JsonValueParser.ReferenceResolves | rpi-demonstrator-common/hardware/interfaces/automotive/vehicle/aidl/impl/default_config/DemonstratorJsonConfigLoader/src/DemonstratorJsonConfigLoader.cpp:320-336 | A well-formed `Type::Name` in a numeric field parses to the registered constant, or to the undefined-constant error when the name is unknown |
| JsonValueParser.ParsedElementsOk | rpi-demonstrator-common/hardware/interfaces/automotive/vehicle/aidl/impl/default_config/DemonstratorJsonConfigLoader/src/DemonstratorJsonConfigLoader.cpp:345-360 | Array parsing succeeds iff every element parses, and the result holds the parsed elements in order |
| JsonValueParser.ParsedElementsFirstError | rpi-demonstrator-common/hardware/interfaces/automotive/vehicle/aidl/impl/default_config/DemonstratorJsonConfigLoader/src/DemonstratorJsonConfigLoader.cpp:345-360 | A failed array parse reports the error of the first element that fails; all elements before it parse |
| JsonValueParser.ParsedElementsErrorSticks | rpi-demonstrator-common/hardware/interfaces/automotive/vehicle/aidl/impl/default_config/DemonstratorJsonConfigLoader/src/DemonstratorJsonConfigLoader.cpp:352-356 | Once a prefix has failed, later elements do not change the outcome (the loop returns at the first error) |
| JsonValueParser.ParseArray | rpi-demonstrator-common/hardware/interfaces/automotive/vehicle/aidl/impl/default_config/DemonstratorJsonConfigLoader/src/DemonstratorJsonConfigLoader.cpp:345-360 | The element loop computes the array parse `ParsedArray`, which the three lemmas above characterise |
| JsonConfigParser.TryParseValue | rpi-demonstrator-common/hardware/interfaces/automotive/vehicle/aidl/impl/default_config/DemonstratorJsonConfigLoader/src/DemonstratorJsonConfigLoader.cpp:392-415 | Succeeds iff the node is an object and the field parses, or is absent and optional. Success adds no error and yields the parsed value exactly when the field is present. Failure appends exactly one message: not-an-object, missing required field, or the parse error |
| JsonConfigParser.TryParseArray | rpi-demonstrator-common/hardware/interfaces/automotive/vehicle/aidl/impl/default_config/DemonstratorJsonConfigLoader/src/DemonstratorJsonConfigLoader.cpp:418-441 | The same contract for array fields, with the array parse in place of the scalar parse |
| JsonConfigParser.Ints | rpi-demonstrator-common/hardware/interfaces/automotive/vehicle/aidl/impl/default_config/DemonstratorJsonConfigLoader/src/DemonstratorJsonConfigLoader.cpp:434-439 | Storing a parsed array into an integer vector keeps its length and each element's integer value |
| JsonConfigParser.Reals | rpi-demonstrator-common/hardware/interfaces/automotive/vehicle/aidl/impl/default_config/DemonstratorJsonConfigLoader/src/DemonstratorJsonConfigLoader.cpp:434-439 | Storing a parsed array into a float vector keeps its length and each element's value |
| JsonConfigParser.ParseAccessChangeMode | rpi-demonstrator-common/hardware/interfaces/automotive/vehicle/aidl/impl/default_config/DemonstratorJsonConfigLoader/src/DemonstratorJsonConfigLoader.cpp:444-462 | No error is added iff the field is present and parses as int32, and then the output is that value. Otherwise the output is unchanged and exactly one message is appended. A missing field in an object gives "No <field> specified for property" |
| JsonConfigParser.ParseValueFields | rpi-demonstrator-common/hardware/interfaces/automotive/vehicle/aidl/impl/default_config/DemonstratorJsonConfigLoader/src/DemonstratorJsonConfigLoader.cpp:474-485 | The four value fields parse together iff each optional array or string field parses. Success adds no error; failure only appends errors |
| JsonConfigParser.ValueFieldsDecoded | rpi-demonstrator-common/hardware/interfaces/automotive/vehicle/aidl/impl/default_config/DemonstratorJsonConfigLoader/src/DemonstratorJsonConfigLoader.cpp:474-485 | When the fields parse, the values are the parsed int32, float, int64 and string fields, keeping the old contents of absent ones |
| JsonConfigParser.ValueFieldsOfNonObject | rpi-demonstrator-common/hardware/interfaces/automotive/vehicle/aidl/impl/default_config/DemonstratorJsonConfigLoader/src/DemonstratorJsonConfigLoader.cpp:474-485 | A default value that is not an object gets four not-an-object messages, one per field attempt |
| JsonConfigParser.ParsePropValues | rpi-demonstrator-common/hardware/interfaces/automotive/vehicle/aidl/impl/default_config/DemonstratorJsonConfigLoader/src/DemonstratorJsonConfigLoader.cpp:464-486 | Returns true iff the field is present and its value fields all parse, with the decoded values. A non-object parent gives one error; an absent field returns false silently; a non-object value gives four errors |
| JsonConfigParser.ParseBounds | rpi-demonstrator-common/hardware/interfaces/automotive/vehicle/aidl/impl/default_config/DemonstratorJsonConfigLoader/src/DemonstratorJsonConfigLoader.cpp:512-523 | An optional min/max pair takes its parsed values, or keeps 0 where absent or unparsable; errors are only appended |
| JsonConfigParser.ParseAreaFields | rpi-demonstrator-common/hardware/interfaces/automotive/vehicle/aidl/impl/default_config/DemonstratorJsonConfigLoader/src/DemonstratorJsonConfigLoader.cpp:510-531 | An area element yields the `VehicleAreaConfig` `AreaOf` describes: its id, its six bounds, and its enum values when the list is non-empty |
| JsonConfigParser.AppendArea | rpi-demonstrator-common/hardware/interfaces/automotive/vehicle/aidl/impl/default_config/DemonstratorJsonConfigLoader/src/DemonstratorJsonConfigLoader.cpp:510-536 | A parsed area is appended to the config's areas. Its default value, when it parses, is filed under its area id; nothing else changes |
| JsonConfigParser.AreaStep | rpi-demonstrator-common/hardware/interfaces/automotive/vehicle/aidl/impl/default_config/DemonstratorJsonConfigLoader/src/DemonstratorJsonConfigLoader.cpp:504-536 | An element without a parsable `areaId` is skipped with one error. Otherwise its area is appended and its default is filed |
| JsonConfigParser.AreasOf | rpi-demonstrator-common/hardware/interfaces/automotive/vehicle/aidl/impl/default_config/DemonstratorJsonConfigLoader/src/DemonstratorJsonConfigLoader.cpp:503-537 | The area loop changes only the area list and the per-area values, and only appends errors |
| JsonConfigParser.AreasOfSnoc | rpi-demonstrator-common/hardware/interfaces/automotive/vehicle/aidl/impl/default_config/DemonstratorJsonConfigLoader/src/DemonstratorJsonConfigLoader.cpp:503-537 | The loop over one more element is one more area step |
| JsonConfigParser.ParsedAreas | rpi-demonstrator-common/hardware/interfaces/automotive/vehicle/aidl/impl/default_config/DemonstratorJsonConfigLoader/src/DemonstratorJsonConfigLoader.cpp:488-538 | `parseAreas` changes only the areas and per-area values, and only appends errors |
| JsonConfigParser.ParseAreas | rpi-demonstrator-common/hardware/interfaces/automotive/vehicle/aidl/impl/default_config/DemonstratorJsonConfigLoader/src/DemonstratorJsonConfigLoader.cpp:488-538 | The loop computes `ParsedAreas`: not-an-object and not-an-array errors, an absent field changes nothing, and otherwise the area fold |
| JsonConfigParser.AreaIds | rpi-demonstrator-common/hardware/interfaces/automotive/vehicle/aidl/impl/default_config/DemonstratorJsonConfigLoader/src/DemonstratorJsonConfigLoader.cpp:511 | The ids of a list of area configs, position by position |
| JsonConfigParser.AreasOfIds | rpi-demonstrator-common/hardware/interfaces/automotive/vehicle/aidl/impl/default_config/DemonstratorJsonConfigLoader/src/DemonstratorJsonConfigLoader.cpp:503-531 | The area ids after the loop are the old ones followed by the parsable `areaId`s of the elements, in order |
| JsonConfigParser.AreasOfEnumLists | rpi-demonstrator-common/hardware/interfaces/automotive/vehicle/aidl/impl/default_config/DemonstratorJsonConfigLoader/src/DemonstratorJsonConfigLoader.cpp:525-530 | No area ever gets an empty `supportedEnumValues` list: it is present only when non-empty |
| JsonConfigParser.DefaultOf | rpi-demonstrator-common/hardware/interfaces/automotive/vehicle/aidl/impl/default_config/DemonstratorJsonConfigLoader/src/DemonstratorJsonConfigLoader.cpp:533-536 | An element files a default iff its `areaId` parses and its `defaultValue` parses |
| JsonConfigParser.AreasOfStoredDefaults | rpi-demonstrator-common/hardware/interfaces/automotive/vehicle/aidl/impl/default_config/DemonstratorJsonConfigLoader/src/DemonstratorJsonConfigLoader.cpp:503-537 | The per-area values after the loop are the old map with each element's default filed in order, later ones replacing earlier ones |
| JsonConfigParser.StoreDefaultsKeys | rpi-demonstrator-common/hardware/interfaces/automotive/vehicle/aidl/impl/default_config/DemonstratorJsonConfigLoader/src/DemonstratorJsonConfigLoader.cpp:533-536 | An area id has a per-area value iff it had one before or some element files a default under it |
| JsonConfigParser.AreasOfSkipsReported | rpi-demonstrator-common/hardware/interfaces/automotive/vehicle/aidl/impl/default_config/DemonstratorJsonConfigLoader/src/DemonstratorJsonConfigLoader.cpp:506-509 | A loop that adds no error skipped no element: every element yields an area |
| JsonConfigParser.ParseConfigHeader | rpi-demonstrator-common/hardware/interfaces/automotive/vehicle/aidl/impl/default_config/DemonstratorJsonConfigLoader/src/DemonstratorJsonConfigLoader.cpp:552-564 | The header parse keeps the property id, starts with no areas, and only appends errors |
| JsonConfigParser.ParsePropertyFields | rpi-demonstrator-common/hardware/interfaces/automotive/vehicle/aidl/impl/default_config/DemonstratorJsonConfigLoader/src/DemonstratorJsonConfigLoader.cpp:552-574 | Parsing all fields after `property` keeps the property id and only appends errors after the header's |
| JsonConfigParser.PropertyEntry | rpi-demonstrator-common/hardware/interfaces/automotive/vehicle/aidl/impl/default_config/DemonstratorJsonConfigLoader/src/DemonstratorJsonConfigLoader.cpp:540-580 | An entry yields a declaration iff parsing it raised no error. A missing `property` gives exactly one error. A declaration carries the parsed int32 property id |
| JsonConfigParser.ParseEachProperty | rpi-demonstrator-common/hardware/interfaces/automotive/vehicle/aidl/impl/default_config/DemonstratorJsonConfigLoader/src/DemonstratorJsonConfigLoader.cpp:540-580 | The same on a running error list: it returns a declaration iff the list did not grow, and it only appends |
| JsonConfigParser.ConfigHeaderContents | rpi-demonstrator-common/hardware/interfaces/automotive/vehicle/aidl/impl/default_config/DemonstratorJsonConfigLoader/src/DemonstratorJsonConfigLoader.cpp:555-561 | An error-free header has both `access` and `changeMode` present and parsed, and the config string of the entry, or "" |
| JsonConfigParser.PropertyContents | rpi-demonstrator-common/hardware/interfaces/automotive/vehicle/aidl/impl/default_config/DemonstratorJsonConfigLoader/src/DemonstratorJsonConfigLoader.cpp:540-580 | A successfully parsed entry has the parsed access, change mode, config string and default value. Its areas are exactly its `areas` elements, with their ids in order |
| JsonConfigParser.MissingModesReported | rpi-demonstrator-common/hardware/interfaces/automotive/vehicle/aidl/impl/default_config/DemonstratorJsonConfigLoader/src/DemonstratorJsonConfigLoader.cpp:555-558 | An entry without `access` is rejected, and the first error says no access was specified. Without `changeMode` as well, the second error says so |
| DemonstratorConfigLoader.PrefixesExclusive | rpi-demonstrator-common/hardware/interfaces/automotive/vehicle/aidl/impl/default_config/DemonstratorJsonConfigLoader/src/DemonstratorJsonConfigLoader.cpp:612-626 | No property reference starts with both the vendor and the system prefix, so the split is well defined |
| DemonstratorConfigLoader.RouteOf | rpi-demonstrator-common/hardware/interfaces/automotive/vehicle/aidl/impl/default_config/DemonstratorJsonConfigLoader/src/DemonstratorJsonConfigLoader.cpp:612-626 | An entry goes to the vendor list iff its `property` is a string starting with the vendor prefix, and to the system list iff it starts with the system prefix. An entry without `property` is rejected with that error |
| DemonstratorConfigLoader.SplitEntries | rpi-demonstrator-common/hardware/interfaces/automotive/vehicle/aidl/impl/default_config/DemonstratorJsonConfigLoader/src/DemonstratorJsonConfigLoader.cpp:612-626 | Every entry lands in exactly one of the vendor list, the system list or the error list |
| DemonstratorConfigLoader.SplitEntriesRoutes | rpi-demonstrator-common/hardware/interfaces/automotive/vehicle/aidl/impl/default_config/DemonstratorJsonConfigLoader/src/DemonstratorJsonConfigLoader.cpp:612-626 | An entry is in the vendor (system) list iff it is in the input and routes there. No errors means no entry was rejected |
| DemonstratorConfigLoader.SplitErrorsListed | rpi-demonstrator-common/hardware/interfaces/automotive/vehicle/aidl/impl/default_config/DemonstratorJsonConfigLoader/src/DemonstratorJsonConfigLoader.cpp:612-626 | Every rejected entry's message is in the error list |
| DemonstratorConfigLoader.SplitProperties | rpi-demonstrator-common/hardware/interfaces/automotive/vehicle/aidl/impl/default_config/DemonstratorJsonConfigLoader/src/DemonstratorJsonConfigLoader.cpp:612-626 | The entry loop computes `SplitEntries` |
| DemonstratorConfigLoader.VendorConfigsKeys | rpi-demonstrator-common/hardware/interfaces/automotive/vehicle/aidl/impl/default_config/DemonstratorJsonConfigLoader/src/DemonstratorJsonConfigLoader.cpp:638-643 | A property id is among the vendor configs iff some vendor entry parses to a declaration of it |
| DemonstratorConfigLoader.VendorConfigsLastWins | rpi-demonstrator-common/hardware/interfaces/automotive/vehicle/aidl/impl/default_config/DemonstratorJsonConfigLoader/src/DemonstratorJsonConfigLoader.cpp:638-643 | For an id declared by several vendor entries, the last declaring entry's declaration is kept |
| DemonstratorConfigLoader.VendorConfigsClean | rpi-demonstrator-common/hardware/interfaces/automotive/vehicle/aidl/impl/default_config/DemonstratorJsonConfigLoader/src/DemonstratorJsonConfigLoader.cpp:638-643 | The vendor loop reports no error iff every vendor entry parsed |
| DemonstratorConfigLoader.EachPropertyAppends | rpi-demonstrator-common/hardware/interfaces/automotive/vehicle/aidl/impl/default_config/DemonstratorJsonConfigLoader/src/DemonstratorJsonConfigLoader.cpp:638-643 | Parsing an entry onto a running error list appends exactly the errors of parsing it alone |
| DemonstratorConfigLoader.ParseVendorProperties | rpi-demonstrator-common/hardware/interfaces/automotive/vehicle/aidl/impl/default_config/DemonstratorJsonConfigLoader/src/DemonstratorJsonConfigLoader.cpp:638-643 | The vendor loop computes `VendorConfigs`: the configs map and the appended errors |
| DemonstratorConfigLoader.Merge | rpi-demonstrator-common/hardware/interfaces/automotive/vehicle/aidl/impl/default_config/DemonstratorJsonConfigLoader/src/DemonstratorJsonConfigLoader.cpp:648 | The merged map declares every vendor and every system id. On a collision the vendor declaration stays, because `insert` does not overwrite |
| DemonstratorConfigLoader.ParseJsonConfig | rpi-demonstrator-common/hardware/interfaces/automotive/vehicle/aidl/impl/default_config/DemonstratorJsonConfigLoader/src/DemonstratorJsonConfigLoader.cpp:584-650 | The method computes `ParsedJsonConfig`: parse failure, missing or non-array `properties`, system loader failure, collected property errors, or the merged map |
| DemonstratorConfigLoader.LoadSucceeds | rpi-demonstrator-common/hardware/interfaces/automotive/vehicle/aidl/impl/default_config/DemonstratorJsonConfigLoader/src/DemonstratorJsonConfigLoader.cpp:584-650 | A successful load came from a well-formed document in which no entry was rejected, every vendor entry parsed and the system loader succeeded. The result declares exactly the vendor and system ids, and the vendor declarations win |
| DemonstratorConfigLoader.LoadFailsOnRejectedEntry | rpi-demonstrator-common/hardware/interfaces/automotive/vehicle/aidl/impl/default_config/DemonstratorJsonConfigLoader/src/DemonstratorJsonConfigLoader.cpp:612-650 | One rejected entry makes the load fail. A system loader failure is reported first; otherwise the property errors include that entry's message |
| DemonstratorConfigLoader.DemonstratorJsonConfigLoader.constructor | rpi-demonstrator-common/hardware/interfaces/automotive/vehicle/aidl/impl/default_config/DemonstratorJsonConfigLoader/src/DemonstratorJsonConfigLoader.cpp:654-656 | The loader holds the constant registry the value parser builds and the AOSP loader it delegates to |
| DemonstratorConfigLoader.DemonstratorJsonConfigLoader.LoadPropConfig | rpi-demonstrator-common/hardware/interfaces/automotive/vehicle/aidl/impl/default_config/DemonstratorJsonConfigLoader/src/DemonstratorJsonConfigLoader.cpp:659-661 | Loading a stream is `parseJsonConfig` of its document |
| DemonstratorConfigLoader.DemonstratorJsonConfigLoader.LoadPropConfigFromPath | rpi-demonstrator-common/hardware/interfaces/automotive/vehicle/aidl/impl/default_config/DemonstratorJsonConfigLoader/src/DemonstratorJsonConfigLoader.cpp:664-671 | A path that cannot be opened gives the cannot-open error; otherwise the file's document is parsed |
| VehicleHal.WriteValue | rpi-demonstrator-common/hardware/interfaces/automotive/vehicle/aidl/impl/fake_impl/hardware/src/GpioFakeVehicleHardware.cpp:305-306 | A write succeeds iff the property is registered and, unless it is global, has a config for the value's area. Then the value replaces what is filed under its key (area 0 for a global property). Otherwise it fails with INVALID_ARG, naming the missing registration or area, and the store is unchanged |
| VehicleHal.WriteThenRead | rpi-demonstrator-common/hardware/interfaces/automotive/vehicle/aidl/impl/fake_impl/hardware/src/GpioFakeVehicleHardware.cpp:634-635 | After a successful write for area 0, or of a global property for any area, `readValue` of the property returns the written value; every other key keeps what it held |
| VehicleHal.GlobalWriteIgnoresArea | rpi-demonstrator-common/hardware/interfaces/automotive/vehicle/aidl/impl/fake_impl/hardware/src/GpioFakeVehicleHardware.cpp:305-306 | A value of a global property is written exactly as if it named area 0 |
| VehicleHal.RegisterProperty | rpi-demonstrator-common/hardware/interfaces/automotive/vehicle/aidl/impl/fake_impl/hardware/src/GpioFakeVehicleHardware.cpp:135 | Registering a config files it under its property id and keeps the other registrations. It drops every value stored for that property and keeps all other values |
| VendorPropertySetup.JsonSuffixMatches | rpi-demonstrator-common/hardware/interfaces/automotive/vehicle/aidl/impl/fake_impl/hardware/src/GpioFakeVehicleHardware.cpp:177-181 | A name ending in `.json` in any letter case matches `.*[.]json` iff no newline or carriage return occurs before the suffix; any other character, U+2028 included, matches `.` |
| VendorPropertySetup.MergedConfigsKeys | rpi-demonstrator-common/hardware/interfaces/automotive/vehicle/aidl/impl/fake_impl/hardware/src/GpioFakeVehicleHardware.cpp:173-197 | An id is in the merged configs iff it was there before or some `*.json` file that loads declares it |
| VendorPropertySetup.MergedConfigsLastWins | rpi-demonstrator-common/hardware/interfaces/automotive/vehicle/aidl/impl/fake_impl/hardware/src/GpioFakeVehicleHardware.cpp:173-197 | An id keeps the declaration of the last loaded file, in directory order, that declares it |
| VendorPropertySetup.MergedConfigsKeepsStart | rpi-demonstrator-common/hardware/interfaces/automotive/vehicle/aidl/impl/fake_impl/hardware/src/GpioFakeVehicleHardware.cpp:173-197 | An id no loaded file declares keeps the declaration it had before the loop |
| VendorPropertySetup.LoadPropConfigsFromDir | rpi-demonstrator-common/hardware/interfaces/automotive/vehicle/aidl/impl/fake_impl/inheritance_hardware/src/GpioFakeVehicleHardware.cpp:112-136 | The directory loop computes `DirConfigs`: nothing is added when the directory cannot be opened; non-json names and files that fail to load are skipped; each loaded file's declarations replace those under the same ids |
| VendorPropertySetup.InitialValueSelection | rpi-demonstrator-common/hardware/interfaces/automotive/vehicle/aidl/impl/fake_impl/hardware/src/GpioFakeVehicleHardware.cpp:204-231 | A global property visits area 0 alone, any other property its configured areas in order. Without per-area values an empty initial value skips the area and any other one is used; with per-area values an area gets its own value or is skipped |
| VendorPropertySetup.InitAreasWritable | rpi-demonstrator-common/hardware/interfaces/automotive/vehicle/aidl/impl/fake_impl/hardware/src/GpioFakeVehicleHardware.cpp:133-136 | Once a config is registered, its property accepts a value for every area the initial-value loop visits, filed under that very area |
| InheritanceHardware.StoredInitialValues | rpi-demonstrator-common/hardware/interfaces/automotive/vehicle/aidl/impl/fake_impl/inheritance_hardware/src/GpioFakeVehicleHardware.cpp:138-181 | After the area loop, the store holds the old keys plus exactly the visited areas that have an initial value and that the store accepts, each with its selected value. Every other key keeps its old value |
| InheritanceHardware.InitRegisters | rpi-demonstrator-common/hardware/interfaces/automotive/vehicle/aidl/impl/fake_impl/inheritance_hardware/src/GpioFakeVehicleHardware.cpp:100-110 | After `init` a property is registered iff it was before or some loaded declaration declares it |
| InheritanceHardware.InitStep | rpi-demonstrator-common/hardware/interfaces/automotive/vehicle/aidl/impl/fake_impl/inheritance_hardware/src/GpioFakeVehicleHardware.cpp:105-108 | Registering a declaration and storing its values stores each selected value, drops every other value stored for that property (including the base class's), and leaves other properties' keys alone |
| InheritanceHardware.InitStoresInitialValues | rpi-demonstrator-common/hardware/interfaces/automotive/vehicle/aidl/impl/fake_impl/inheritance_hardware/src/GpioFakeVehicleHardware.cpp:100-110 | Each selected initial value of a loaded declaration ends up in the store under its (property, area) |
| InheritanceHardware.GpioFakeVehicleHardware.constructor | rpi-demonstrator-common/hardware/interfaces/automotive/vehicle/aidl/impl/fake_impl/inheritance_hardware/src/GpioFakeVehicleHardware.cpp:83-87 | Construction runs `init` on the base store: the loaded vendor configs are registered and their initial values stored |
| InheritanceHardware.GpioFakeVehicleHardware.SetValues | rpi-demonstrator-common/hardware/interfaces/automotive/vehicle/aidl/impl/fake_impl/inheritance_hardware/src/GpioFakeVehicleHardware.cpp:94-98 | `setValues` hands the call unchanged to the base class. The status and the store afterwards are the base class's, and the registrations are unchanged |
| InheritanceHardware.GpioFakeVehicleHardware.Init | rpi-demonstrator-common/hardware/interfaces/automotive/vehicle/aidl/impl/fake_impl/inheritance_hardware/src/GpioFakeVehicleHardware.cpp:100-110 | `init` registers each loaded config and stores its initial values, in map order (`InitConfigs`) |
| InheritanceHardware.GpioFakeVehicleHardware.StorePropInitialValue | rpi-demonstrator-common/hardware/interfaces/automotive/vehicle/aidl/impl/fake_impl/inheritance_hardware/src/GpioFakeVehicleHardware.cpp:138-181 | The area loop writes the selected initial value of each area (`StoreInitialValues`) and changes nothing else |
| GpioHardware.AppendsValidPwmTransitive | rpi-demonstrator-common/hardware/interfaces/automotive/vehicle/aidl/impl/fake_impl/hardware/src/GpioFakeVehicleHardware.cpp:515-594 | Two steps that each only append in-range PWM writes together only append in-range PWM writes |
| GpioHardware.FanSpeedPwm | rpi-demonstrator-common/hardware/interfaces/automotive/vehicle/aidl/impl/fake_impl/hardware/src/GpioFakeVehicleHardware.cpp:515-533 | A fan speed is accepted iff it is 1..6, and then writes its duty cycle to the fan pin. Any other level fails with INVALID_ARG and writes nothing |
| GpioHardware.DutyCyclesIncrease | rpi-demonstrator-common/hardware/interfaces/automotive/vehicle/aidl/impl/fake_impl/hardware/src/GpioFakeVehicleHardware.cpp:516 | A higher fan level gets a strictly higher duty cycle, from 0 at level 1 to the full range 100 at level 6 |
| GpioHardware.HvacFanSpeedRequest | rpi-demonstrator-common/hardware/interfaces/automotive/vehicle/aidl/impl/fake_impl/hardware/src/GpioFakeVehicleHardware.cpp:495-513 | A request succeeds iff it is for HVAC_FAN_SPEED and its first int32 value is 1..6, and then sets that duty cycle. Every failure is INVALID_ARG with no pin written |
| GpioHardware.AmbientLightColorPwm | rpi-demonstrator-common/hardware/interfaces/automotive/vehicle/aidl/impl/fake_impl/hardware/src/GpioFakeVehicleHardware.cpp:577-594 | A colour is written to the red, green and blue pins iff all three components are 0..255; otherwise INVALID_ARG and nothing is written |
| GpioHardware.BatteryLevelColor | rpi-demonstrator-common/hardware/interfaces/automotive/vehicle/aidl/impl/fake_impl/hardware/src/GpioFakeVehicleHardware.cpp:701-713 | Green above 20 %, yellow above 10 % up to 20 %, red at or below 10 %; every colour is a valid PWM triple |
| GpioHardware.BatteryLevelColorShown | rpi-demonstrator-common/hardware/interfaces/automotive/vehicle/aidl/impl/fake_impl/hardware/src/GpioFakeVehicleHardware.cpp:596-629 | A percentage outside 0..100 is rejected and nothing changes. Otherwise the battery colour is written to the pins and stored as AMBIENT_LIGHT_COLOR, and the status is the store write's |
| GpioHardware.CurrentBatteryLevelPercent | rpi-demonstrator-common/hardware/interfaces/automotive/vehicle/aidl/impl/fake_impl/hardware/src/GpioFakeVehicleHardware.cpp:676-699 | A level is computed iff EV_BATTERY_LEVEL is stored with a value and the capacity is non-zero. It is the stored energy as a percentage of the capacity |
| GpioHardware.AmbientLightModeRequest | rpi-demonstrator-common/hardware/interfaces/automotive/vehicle/aidl/impl/fake_impl/hardware/src/GpioFakeVehicleHardware.cpp:535-575 | A wrong property or no value is INVALID_ARG. CUSTOM succeeds without effect. An unknown mode is INVALID_ARG. BATTERY_LEVEL shows the battery colour, or fails with INTERNAL_ERROR when the level cannot be computed |
| GpioHardware.CustomAmbientLightColorRequest | rpi-demonstrator-common/hardware/interfaces/automotive/vehicle/aidl/impl/fake_impl/hardware/src/GpioFakeVehicleHardware.cpp:631-674 | A colour is applied iff it is for AMBIENT_LIGHT_COLOR, the stored mode is CUSTOM or unset, and it is three in-range values. Every failure is INVALID_ARG without effect, with the reason the checks raise in order |
| GpioHardware.SpecialDemonstratorValue | rpi-demonstrator-common/hardware/interfaces/automotive/vehicle/aidl/impl/fake_impl/hardware/src/GpioFakeVehicleHardware.cpp:317-343 | A value is special iff it is AMBIENT_LIGHT_COLOR, AMBIENT_LIGHT_MODE or HVAC_FAN_SPEED, and it goes to that handler in this order. Others succeed without effect |
| GpioHardware.SpecialValueEffects | rpi-demonstrator-common/hardware/interfaces/automotive/vehicle/aidl/impl/fake_impl/hardware/src/GpioFakeVehicleHardware.cpp:317-343 | A special value only appends in-range PWM writes and never changes registrations. Only the mode handler touches the store, and only AMBIENT_LIGHT_COLOR at area 0 |
| GpioHardware.SetValueOutcome | rpi-demonstrator-common/hardware/interfaces/automotive/vehicle/aidl/impl/fake_impl/hardware/src/GpioFakeVehicleHardware.cpp:278-315 | A non-special value goes to the base class, whose status is returned and whose store is kept. A failed special value fails with its handler's code. A successful one is then written to the store, and succeeds iff the store accepts its property and area; otherwise it fails with INVALID_ARG |
| GpioHardware.SetValueStoresAfterSuccess | rpi-demonstrator-common/hardware/interfaces/automotive/vehicle/aidl/impl/fake_impl/hardware/src/GpioFakeVehicleHardware.cpp:278-315 | A special value that succeeds is stored under its key (area 0 for a global property). One that fails leaves its own property's stored values unchanged. A non-special value leaves the pins and registrations unchanged, and the status and store are the base class's. When the base class accepts a value only as `writeValue` does, a non-special value it accepts is also stored under its key |
| GpioHardware.SetValueRequestOutcome | rpi-demonstrator-common/hardware/interfaces/automotive/vehicle/aidl/impl/fake_impl/hardware/src/GpioFakeVehicleHardware.cpp:259-274 | The result carries the request id and the state `setValue` left. Its status is OK when `setValue` succeeded, and the failure's own code when it failed |
| GpioHardware.SetUpStep | rpi-demonstrator-common/hardware/interfaces/automotive/vehicle/aidl/impl/fake_impl/hardware/src/GpioFakeVehicleHardware.cpp:219-252 | One area of the set-up: a skipped area changes nothing; otherwise the value is stored when the store accepts it, and no key other than the area's own and, for AMBIENT_LIGHT_MODE, the colour of area 0 changes |
| GpioHardware.SetUpStoresInitialValues | rpi-demonstrator-common/hardware/interfaces/automotive/vehicle/aidl/impl/fake_impl/hardware/src/GpioFakeVehicleHardware.cpp:199-257 | Set-up stores each selected initial value the store accepts under its (property, area), whatever the special handler then does, and keeps registrations and forwarded calls |
| GpioHardware.SetUpFrame | rpi-demonstrator-common/hardware/interfaces/automotive/vehicle/aidl/impl/fake_impl/hardware/src/GpioFakeVehicleHardware.cpp:219-245 | Set-up leaves every key alone except the visited areas with a value and, for AMBIENT_LIGHT_MODE, the colour of area 0; when every area is skipped the state does not change at all |
| GpioHardware.SetUpPwmValid | rpi-demonstrator-common/hardware/interfaces/automotive/vehicle/aidl/impl/fake_impl/hardware/src/GpioFakeVehicleHardware.cpp:199-257 | Applying initial values only ever appends in-range PWM writes |
| GpioHardware.InitPwmValid | rpi-demonstrator-common/hardware/interfaces/automotive/vehicle/aidl/impl/fake_impl/hardware/src/GpioFakeVehicleHardware.cpp:127-141 | The whole of `init` only appends in-range PWM writes |
| GpioHardware.GpioFakeVehicleHardware.constructor | rpi-demonstrator-common/hardware/interfaces/automotive/vehicle/aidl/impl/fake_impl/hardware/src/GpioFakeVehicleHardware.cpp:85-98 | The battery capacity is read from the store (150000 Wh when unavailable), and then `init` runs on the base store |
| GpioHardware.GpioFakeVehicleHardware.Init | rpi-demonstrator-common/hardware/interfaces/automotive/vehicle/aidl/impl/fake_impl/hardware/src/GpioFakeVehicleHardware.cpp:127-141 | `init` registers each loaded config and sets up its initial values, in map order |
| GpioHardware.GpioFakeVehicleHardware.RegisterAndSetUp | rpi-demonstrator-common/hardware/interfaces/automotive/vehicle/aidl/impl/fake_impl/hardware/src/GpioFakeVehicleHardware.cpp:134-136 | One round of the `init` loop: the config replaces the property's registration and stored values, and then its initial values are set up |
| GpioHardware.GpioFakeVehicleHardware.SetUpAndStorePropInitialValue | rpi-demonstrator-common/hardware/interfaces/automotive/vehicle/aidl/impl/fake_impl/hardware/src/GpioFakeVehicleHardware.cpp:199-257 | For each selected area, the loop writes the initial value and applies it as a special value, whatever the outcomes |
| GpioHardware.GpioFakeVehicleHardware.HandleSetValueRequest | rpi-demonstrator-common/hardware/interfaces/automotive/vehicle/aidl/impl/fake_impl/hardware/src/GpioFakeVehicleHardware.cpp:259-274 | Performs `SetValueRequestOutcome` on the hardware state |
| GpioHardware.GpioFakeVehicleHardware.SetValue | rpi-demonstrator-common/hardware/interfaces/automotive/vehicle/aidl/impl/fake_impl/hardware/src/GpioFakeVehicleHardware.cpp:278-315 | Performs `SetValueOutcome` on the hardware state |
| GpioHardware.GpioFakeVehicleHardware.MaybeSetSpecialDemonstratorValue | rpi-demonstrator-common/hardware/interfaces/automotive/vehicle/aidl/impl/fake_impl/hardware/src/GpioFakeVehicleHardware.cpp:317-343 | Performs `SpecialDemonstratorValue`, returning the status and whether the value was special |
| GpioHardware.GpioFakeVehicleHardware.HandleSetHvacFanSpeed | rpi-demonstrator-common/hardware/interfaces/automotive/vehicle/aidl/impl/fake_impl/hardware/src/GpioFakeVehicleHardware.cpp:495-513 | Performs `HvacFanSpeedRequest` on the hardware state |
| GpioHardware.GpioFakeVehicleHardware.SetPwmHvacFanSpeed | rpi-demonstrator-common/hardware/interfaces/automotive/vehicle/aidl/impl/fake_impl/hardware/src/GpioFakeVehicleHardware.cpp:515-533 | Performs `FanSpeedPwm` on the hardware state |
| GpioHardware.GpioFakeVehicleHardware.HandleSetAmbientLightMode | rpi-demonstrator-common/hardware/interfaces/automotive/vehicle/aidl/impl/fake_impl/hardware/src/GpioFakeVehicleHardware.cpp:535-575 | Performs `AmbientLightModeRequest` on the hardware state |
| GpioHardware.GpioFakeVehicleHardware.SetPwmAmbientLightColor | rpi-demonstrator-common/hardware/interfaces/automotive/vehicle/aidl/impl/fake_impl/hardware/src/GpioFakeVehicleHardware.cpp:577-594 | Performs `AmbientLightColorPwm` on the hardware state |
| GpioHardware.GpioFakeVehicleHardware.SetAndStorePwmAmbientLightColorToBatteryLevel | rpi-demonstrator-common/hardware/interfaces/automotive/vehicle/aidl/impl/fake_impl/hardware/src/GpioFakeVehicleHardware.cpp:596-629 | Performs `BatteryLevelColorShown` on the hardware state |
| GpioHardware.GpioFakeVehicleHardware.HandleSetCustomAmbientLightColor | rpi-demonstrator-common/hardware/interfaces/automotive/vehicle/aidl/impl/fake_impl/hardware/src/GpioFakeVehicleHardware.cpp:631-674 | Performs `CustomAmbientLightColorRequest` on the hardware state |

## Left out

- Test-only constants: the `CONSTANTS_BY_NAME` entries under `ENABLE_VEHICLE_HAL_TEST_PROPERTIES` are not modelled. The model is the build without that macro.
- Constant values: the values of the header constants and the AIDL enumerators (names and values in `enum_range` order) are parameters `header` and `enumRange`. They live in generated code and headers that are not part of this model.
- Floating point: `float` and `double` are `real`. The rounding of `asFloat`, NaN and infinities are not modelled.
- Error text: each error message is a structured `Message` value. Its text is given by `LoaderTypes.MessageText` and, for a failed load, `LoaderTypes.FailureText`. What jsoncpp's `operator<<` writes for a node and its `asString()` are parameters. `toStyledString()` is that rendering followed by a newline (`LoaderTypes.StyledString`); jsoncpp's own formatting is not modelled.
- `byteValues`: the loader does not parse them, and the model has no such field.
- JSON parsing: the jsoncpp reader is not modelled. A document is `Result<Json, string>`, and a failed read is its error.
- The AOSP `JsonConfigLoader` that parses the system entries is a function parameter, applied to the document of the system entries. Serialising and re-reading that document through a string stream is not modelled.
- GPIO I/O: wiringPi calls are not modelled. PWM output is a log of `softPwmWrite(pin, value)` calls. Pin setup (`initGpio`), the destructor's reset, the interrupt service routines (rotary encoder, push button, `handleBatteryChange`, `handleRotaryPushButtonClick`) and their debounce timing are not modelled.
- GpioHardware queue: the `setValues` of the `hardware` variant, which queues requests on the `PendingSetRequestHandler` thread, is not modelled. The model starts at `handleSetValueRequest`, which that thread calls.
- Concurrency: locking and threads are not modelled.
- Property names: the split takes `asString()` of each entry's `property` value. jsoncpp turns a number or boolean into text there and throws for an array or object. The model routes any non-string `property` value to the unknown-property-type error.
- Non-object entries: jsoncpp's `isMember` throws for an entry that is neither an object nor null. The model reports any non-object entry as lacking the `property` field.
- Vehicle ids: the AIDL property ids (HVAC_FAN_SPEED, AMBIENT_LIGHT_MODE/COLOR, EV_BATTERY_LEVEL, EV_CURRENT_BATTERY_CAPACITY) and the `AmbientLightMode` values CUSTOM and BATTERY_LEVEL are the `VehicleIds` parameter.
- VehicleHal.WriteValue: the AOSP `VehiclePropertyStore` is not part of this model; its registration, area-config and global-key rules are modelled, but token functions, the value status and the outdated-timestamp check are not. Every value the source writes carries a fresh `elapsedRealtimeNano` timestamp.
- Timestamps: `elapsedRealtimeNano` and the value pool are not modelled.
- Base class: the `FakeVehicleHardware` base class is outside the model. Its store contents at construction are parameters. Its `setValue`/`setValues` are function parameters that map the store, the registrations and the value (or call) to a status and the store they leave. The calls handed to it are logged. Its own special values and its change events are not modelled.
- Iteration order: `std::unordered_map` iteration order is a parameter `order`, required to list each loaded property id once. `readdir` order is the order of the directory listing parameter; `None` means `opendir` failed.
- GpioHardware.StoredMode: the mode is read with an unchecked `int32Values[0]`, which is undefined behaviour when the stored value holds no int32. The model treats such a value as absent (mode unset).
- GpioHardware.CurrentBatteryLevelPercent: when the stored battery level holds no float value (an unchecked `floatValues[0]` in the source), the model reports the level as unavailable.
- GpioHardware.BatteryCapacityWh: when the stored capacity holds no float value, the model keeps the default capacity.
- GpioHardware.FanSpeedPwm: does not model the 32-bit wrap-around of `level - 1`. Both the wrapped and the exact index are out of 0..5 for the levels that wrap, so every such level is rejected either way.
- Logging: `ALOGx` calls are not modelled.
