/**
 * The field layer of `JsonConfigParser`: reading one named field of a JSON
 * object into a slot of a `ConfigDeclaration`, collecting a message for every
 * problem, and parsing a whole vendor property entry.
 *
 * The C++ writes through output parameters and appends to an `errors` vector; here
 * each operation takes the old slot value and the old errors and returns the
 * new ones.  Every operation only ever appends to the errors.
 */
module JsonConfigParser {
  import opened Wrappers
  import opened JsonTree
  import opened ConstantRegistry
  import opened JsonValueParser
  import opened LoaderTypes

  /** `longer` is `errors` with zero or more messages appended. */
  predicate Extends(longer: seq<Message>, errors: seq<Message>) {
    |errors| <= |longer| && longer[..|errors|] == errors
  }

  lemma ExtendsTransitive(a: seq<Message>, b: seq<Message>, c: seq<Message>)
    requires Extends(b, a) && Extends(c, b)
    ensures Extends(c, a)
  {
    assert c[..|a|] == c[..|b|][..|a|];
  }

  /**
   * What a `tryParse...ToVariable` call leaves behind: its boolean result, the
   * value it stored through the output parameter (`None` when it left it alone)
   * and the errors vector.
   */
  datatype Outcome<T> = Outcome(ok: bool, parsed: Option<T>, errors: seq<Message>)

  /** `tryParseJsonValueToVariable<T>`. */
  function TryParseValue(registry: Registry, node: Json, field: string, optional: bool, kind: Kind,
                         errors: seq<Message>): (r: Outcome<Scalar>)
    ensures r.ok <==>
      node.JObj? &&
      (if field in node.fields then ParseValue(registry, kind, field, node.fields[field]).Ok? else optional)
    ensures r.ok ==> r.errors == errors
    ensures !r.ok ==> |r.errors| == |errors| + 1 && Extends(r.errors, errors)
    ensures r.parsed.Some? <==> r.ok && HasMember(node, field)
    ensures r.parsed.Some? ==> ParseValue(registry, kind, field, node.fields[field]) == Ok(r.parsed.value)
    ensures !node.JObj? ==> r.errors == errors + [NotAnObject(node)]
    ensures node.JObj? && field !in node.fields && !optional ==>
      r.errors == errors + [MissingRequiredField(field, node)]
    ensures HasMember(node, field) && ParseValue(registry, kind, field, node.fields[field]).Err? ==>
      r.errors == errors + [ParseValue(registry, kind, field, node.fields[field]).error]
  {
    if !node.JObj? then Outcome(false, None, errors + [NotAnObject(node)])
    else if field !in node.fields then
      if optional then Outcome(true, None, errors)
      else Outcome(false, None, errors + [MissingRequiredField(field, node)])
    else
      match ParseValue(registry, kind, field, node.fields[field])
      case Err(e) => Outcome(false, None, errors + [e])
      case Ok(v) => Outcome(true, Some(v), errors)
  }

  /** `tryParseJsonArrayToVariable<T>`. */
  function TryParseArray(registry: Registry, node: Json, field: string, optional: bool, kind: Kind,
                         errors: seq<Message>): (r: Outcome<seq<Scalar>>)
    ensures r.ok <==>
      node.JObj? &&
      (if field in node.fields then ParsedArray(registry, kind, field, node.fields[field]).Ok? else optional)
    ensures r.ok ==> r.errors == errors
    ensures !r.ok ==> |r.errors| == |errors| + 1 && Extends(r.errors, errors)
    ensures r.parsed.Some? <==> r.ok && HasMember(node, field)
    ensures r.parsed.Some? ==> ParsedArray(registry, kind, field, node.fields[field]) == Ok(r.parsed.value)
    ensures !node.JObj? ==> r.errors == errors + [NotAnObject(node)]
    ensures node.JObj? && field !in node.fields && !optional ==>
      r.errors == errors + [MissingRequiredField(field, node)]
    ensures HasMember(node, field) && ParsedArray(registry, kind, field, node.fields[field]).Err? ==>
      r.errors == errors + [ParsedArray(registry, kind, field, node.fields[field]).error]
  {
    if !node.JObj? then Outcome(false, None, errors + [NotAnObject(node)])
    else if field !in node.fields then
      if optional then Outcome(true, None, errors)
      else Outcome(false, None, errors + [MissingRequiredField(field, node)])
    else
      match ParsedArray(registry, kind, field, node.fields[field])
      case Err(e) => Outcome(false, None, errors + [e])
      case Ok(vs) => Outcome(true, Some(vs), errors)
  }

  // Reading a parsed scalar into a typed slot.  The parser only produces
  // scalars of the requested kind (`ParseValue` ensures it), so the fallback
  // arms below are never taken for a parsed value.

  function IntOf(s: Scalar): int {
    match s
    case I32(i) => i
    case I64(i) => i
    case _ => 0
  }

  function RealOf(s: Scalar): real {
    if s.F? then s.r else 0.0
  }

  function Ints(vs: seq<Scalar>): (r: seq<int>)
    ensures |r| == |vs| && forall i :: 0 <= i < |vs| ==> r[i] == IntOf(vs[i])
  {
    seq(|vs|, i requires 0 <= i < |vs| => IntOf(vs[i]))
  }

  function Reals(vs: seq<Scalar>): (r: seq<real>)
    ensures |r| == |vs| && forall i :: 0 <= i < |vs| ==> r[i] == RealOf(vs[i])
  {
    seq(|vs|, i requires 0 <= i < |vs| => RealOf(vs[i]))
  }

  /** The slot after a `tryParse...` call: the parsed value if one was stored, else the old value. */
  function IntOr(p: Option<Scalar>, old_: int): int {
    if p.Some? then IntOf(p.value) else old_
  }

  function RealOr(p: Option<Scalar>, old_: real): real {
    if p.Some? then RealOf(p.value) else old_
  }

  function StringOr(p: Option<Scalar>, old_: string): string {
    if p.Some? && p.value.S? then p.value.s else old_
  }

  function IntsOr(p: Option<seq<Scalar>>, old_: seq<int>): seq<int> {
    if p.Some? then Ints(p.value) else old_
  }

  function RealsOr(p: Option<seq<Scalar>>, old_: seq<real>): seq<real> {
    if p.Some? then Reals(p.value) else old_
  }

  /**
   * `parseAccessChangeMode<T>`: the field is required, parsed as an int32
   * (constants allowed) and reported with the property's own node when absent.
   * Returns the new slot value and the errors.
   */
  function ParseAccessChangeMode(registry: Registry, node: Json, field: string, property: Json, out: int,
                                 errors: seq<Message>): (r: (int, seq<Message>))
    ensures r.1 == errors <==>
      HasMember(node, field) && ParseValue(registry, Int32Kind, field, node.fields[field]).Ok?
    ensures r.1 == errors ==> r.0 == ParseValue(registry, Int32Kind, field, node.fields[field]).value.i
    ensures r.1 != errors ==> r.0 == out && |r.1| == |errors| + 1 && Extends(r.1, errors)
    ensures node.JObj? && field !in node.fields ==> r.1 == errors + [NotSpecified(field, property)]
  {
    if !node.JObj? then (out, errors + [NotAnObject(node)])
    else if field in node.fields then
      match ParseValue(registry, Int32Kind, field, node.fields[field])
      case Err(e) => (out, errors + [e])
      case Ok(v) => (IntOf(v), errors)
    else (out, errors + [NotSpecified(field, property)])
  }

  /** The optional array field parses, if present. */
  predicate ArrayFieldParses(registry: Registry, v: Json, field: string, kind: Kind)
    requires v.JObj?
  {
    field in v.fields ==> ParsedArray(registry, kind, field, v.fields[field]).Ok?
  }

  /** A `defaultValue` object whose every value field that is present is well-formed. */
  predicate ValuesParse(registry: Registry, v: Json) {
    v.JObj? &&
    ArrayFieldParses(registry, v, "int32Values", Int32Kind) &&
    ArrayFieldParses(registry, v, "floatValues", FloatKind) &&
    ArrayFieldParses(registry, v, "int64Values", Int64Kind) &&
    ("stringValue" in v.fields ==> v.fields["stringValue"].JStr?)
  }

  /** The values a well-formed `defaultValue` object denotes; absent fields keep `out`'s values. */
  function ValuesOf(registry: Registry, v: Json, out: RawPropValues): RawPropValues
    requires ValuesParse(registry, v)
  {
    RawPropValues(
      if "int32Values" in v.fields
      then Ints(ParsedArray(registry, Int32Kind, "int32Values", v.fields["int32Values"]).value)
      else out.int32Values,
      if "floatValues" in v.fields
      then Reals(ParsedArray(registry, FloatKind, "floatValues", v.fields["floatValues"]).value)
      else out.floatValues,
      if "int64Values" in v.fields
      then Ints(ParsedArray(registry, Int64Kind, "int64Values", v.fields["int64Values"]).value)
      else out.int64Values,
      if "stringValue" in v.fields then v.fields["stringValue"].s else out.stringValue)
  }

  /** What `parsePropValues` leaves behind: its result, the values written and the errors. */
  datatype ValuesOutcome = ValuesOutcome(ok: bool, values: RawPropValues, errors: seq<Message>)

  /**
   * The four optional value fields of a `defaultValue` node, each attempted
   * even after an earlier one failed (`success &= ...`).
   */
  function ParseValueFields(registry: Registry, v: Json, out: RawPropValues, errors: seq<Message>)
    : (r: ValuesOutcome)
    ensures r.ok <==> ValuesParse(registry, v)
    ensures r.ok ==> r.errors == errors
    ensures Extends(r.errors, errors)
    ensures !r.ok ==> |r.errors| > |errors|
  {
    var a := TryParseArray(registry, v, "int32Values", true, Int32Kind, errors);
    var b := TryParseArray(registry, v, "floatValues", true, FloatKind, a.errors);
    var c := TryParseArray(registry, v, "int64Values", true, Int64Kind, b.errors);
    var d := TryParseValue(registry, v, "stringValue", true, StringKind, c.errors);
    ExtendsTransitive(errors, a.errors, b.errors);
    ExtendsTransitive(errors, b.errors, c.errors);
    ExtendsTransitive(errors, c.errors, d.errors);
    ValuesOutcome(
      a.ok && b.ok && c.ok && d.ok,
      RawPropValues(IntsOr(a.parsed, out.int32Values), RealsOr(b.parsed, out.floatValues),
                    IntsOr(c.parsed, out.int64Values), StringOr(d.parsed, out.stringValue)),
      d.errors)
  }

  /** A well-formed `defaultValue` node is read into exactly the values it denotes. */
  lemma ValueFieldsDecoded(registry: Registry, v: Json, out: RawPropValues, errors: seq<Message>)
    requires ValuesParse(registry, v)
    ensures ParseValueFields(registry, v, out, errors).values == ValuesOf(registry, v, out)
  {
  }

  /** A `defaultValue` that is not an object is reported once per value field: four times. */
  lemma ValueFieldsOfNonObject(registry: Registry, v: Json, out: RawPropValues, errors: seq<Message>)
    requires !v.JObj?
    ensures ParseValueFields(registry, v, out, errors).errors ==
      errors + [NotAnObject(v), NotAnObject(v), NotAnObject(v), NotAnObject(v)]
  {
  }

  /**
   * `parsePropValues`: a missing field is a failure without a message; a
   * present one is parsed by `ParseValueFields`.
   */
  function ParsePropValues(registry: Registry, node: Json, field: string, out: RawPropValues,
                           errors: seq<Message>): (r: ValuesOutcome)
    ensures r.ok <==> HasMember(node, field) && ValuesParse(registry, node.fields[field])
    ensures r.ok ==> r.errors == errors && r.values == ValuesOf(registry, node.fields[field], out)
    ensures Extends(r.errors, errors)
    ensures HasMember(node, field) && !r.ok ==> |r.errors| > |errors|
    ensures node.JObj? && field !in node.fields ==> r == ValuesOutcome(false, out, errors)
    ensures !node.JObj? ==> r == ValuesOutcome(false, out, errors + [NotAnObject(node)])
    ensures HasMember(node, field) && !node.fields[field].JObj? ==>
      var v := node.fields[field];
      r.errors == errors + [NotAnObject(v), NotAnObject(v), NotAnObject(v), NotAnObject(v)]
  {
    if !node.JObj? then ValuesOutcome(false, out, errors + [NotAnObject(node)])
    else if field !in node.fields then ValuesOutcome(false, out, errors)
    else
      var v := node.fields[field];
      if ValuesParse(registry, v) then
        ValueFieldsDecoded(registry, v, out, errors);
        ParseValueFields(registry, v, out, errors)
      else if !v.JObj? then
        ValueFieldsOfNonObject(registry, v, out, errors);
        ParseValueFields(registry, v, out, errors)
      else ParseValueFields(registry, v, out, errors)
  }

  /** The id an element of `areas` contributes: its `areaId`, when it is an object whose `areaId` parses as int32. */
  function AreaIdOf(registry: Registry, el: Json): Option<int> {
    if HasMember(el, "areaId") && ParseValue(registry, Int32Kind, "areaId", el.fields["areaId"]).Ok?
    then Some(ParseValue(registry, Int32Kind, "areaId", el.fields["areaId"]).value.i)
    else None
  }

  /** The element carries a `defaultValue` that parses completely. */
  predicate HasParsedDefault(registry: Registry, el: Json) {
    HasMember(el, "defaultValue") && ValuesParse(registry, el.fields["defaultValue"])
  }

  /** An optional numeric area field: its value if present and well-formed, else the zero of the value-initialised area. */
  function OptionalNumber(registry: Registry, el: Json, field: string, kind: Kind): Scalar
    requires el.JObj? && kind != StringKind
  {
    if field in el.fields && ParseValue(registry, kind, field, el.fields[field]).Ok?
    then ParseValue(registry, kind, field, el.fields[field]).value
    else CastConstant(kind, 0)
  }

  /** The area config an element with a parsable `areaId` yields. */
  function AreaOf(registry: Registry, el: Json, id: int): AreaConfig
    requires el.JObj?
  {
    var enums :=
      if "supportedEnumValues" in el.fields &&
         ParsedArray(registry, Int64Kind, "supportedEnumValues", el.fields["supportedEnumValues"]).Ok?
      then Ints(ParsedArray(registry, Int64Kind, "supportedEnumValues", el.fields["supportedEnumValues"]).value)
      else [];
    AreaConfig(
      id,
      OptionalNumber(registry, el, "minInt32Value", Int32Kind).i,
      OptionalNumber(registry, el, "maxInt32Value", Int32Kind).i,
      OptionalNumber(registry, el, "minInt64Value", Int64Kind).i,
      OptionalNumber(registry, el, "maxInt64Value", Int64Kind).i,
      OptionalNumber(registry, el, "minFloatValue", FloatKind).r,
      OptionalNumber(registry, el, "maxFloatValue", FloatKind).r,
      if enums == [] then None else Some(enums))
  }

  /**
   * Two optional bound fields of one kind read one after the other, as
   * `parseAreas` does for the int32, int64 and float bounds.
   */
  function ParseBounds(registry: Registry, el: Json, minField: string, maxField: string, kind: Kind,
                       errors: seq<Message>): (r: (Scalar, Scalar, seq<Message>))
    requires el.JObj? && kind != StringKind
    ensures r.0 == OptionalNumber(registry, el, minField, kind)
    ensures r.1 == OptionalNumber(registry, el, maxField, kind)
    ensures Extends(r.2, errors)
  {
    var lo := TryParseValue(registry, el, minField, true, kind, errors);
    var hi := TryParseValue(registry, el, maxField, true, kind, lo.errors);
    (if lo.parsed.Some? then lo.parsed.value else CastConstant(kind, 0),
     if hi.parsed.Some? then hi.parsed.value else CastConstant(kind, 0),
     hi.errors)
  }

  /** The fields of one area config after its `areaId` parsed: the six bounds and the enum list. */
  function ParseAreaFields(registry: Registry, el: Json, areaId: int, errors: seq<Message>)
    : (r: (AreaConfig, seq<Message>))
    requires el.JObj?
    ensures r.0 == AreaOf(registry, el, areaId)
    ensures Extends(r.1, errors)
  {
    var i32 := ParseBounds(registry, el, "minInt32Value", "maxInt32Value", Int32Kind, errors);
    var i64 := ParseBounds(registry, el, "minInt64Value", "maxInt64Value", Int64Kind, i32.2);
    var f := ParseBounds(registry, el, "minFloatValue", "maxFloatValue", FloatKind, i64.2);
    var enums := TryParseArray(registry, el, "supportedEnumValues", true, Int64Kind, f.2);
    var enumValues := IntsOr(enums.parsed, []);
    (AreaConfig(areaId, i32.0.i, i32.1.i, i64.0.i, i64.1.i, f.0.r, f.1.r,
                if enumValues == [] then None else Some(enumValues)),
     enums.errors)
  }

  /** The rest of one iteration of the loop in `parseAreas`, once the `areaId` parsed. */
  function AppendArea(registry: Registry, el: Json, areaId: int, decl: ConfigDeclaration, errors: seq<Message>)
    : (r: (ConfigDeclaration, seq<Message>))
    requires el.JObj?
    ensures Extends(r.1, errors)
    ensures r.0.config == decl.config.(areaConfigs := decl.config.areaConfigs + [AreaOf(registry, el, areaId)])
    ensures r.0.initialValue == decl.initialValue
    ensures r.0.initialAreaValues ==
      (if HasParsedDefault(registry, el)
       then decl.initialAreaValues[areaId := ValuesOf(registry, el.fields["defaultValue"], EMPTY_VALUES)]
       else decl.initialAreaValues)
  {
    var area := ParseAreaFields(registry, el, areaId, errors);
    var areaValue := ParsePropValues(registry, el, "defaultValue", EMPTY_VALUES, area.1);
    var decl' := decl.(
      config := decl.config.(areaConfigs := decl.config.areaConfigs + [area.0]),
      initialAreaValues :=
        if areaValue.ok then decl.initialAreaValues[areaId := areaValue.values] else decl.initialAreaValues);
    (decl', areaValue.errors)
  }

  /** One iteration of the loop in `parseAreas`. */
  function AreaStep(registry: Registry, el: Json, decl: ConfigDeclaration, errors: seq<Message>)
    : (r: (ConfigDeclaration, seq<Message>))
    ensures Extends(r.1, errors)
    ensures AreaIdOf(registry, el).None? ==> r.0 == decl && |r.1| == |errors| + 1
    ensures AreaIdOf(registry, el).Some? ==>
      var id := AreaIdOf(registry, el).value;
      r.0.config == decl.config.(areaConfigs := decl.config.areaConfigs + [AreaOf(registry, el, id)]) &&
      r.0.initialValue == decl.initialValue &&
      r.0.initialAreaValues ==
        (if DefaultOf(registry, el).Some?
         then decl.initialAreaValues[id := DefaultOf(registry, el).value.1]
         else decl.initialAreaValues)
  {
    var id := TryParseValue(registry, el, "areaId", false, Int32Kind, errors);
    if !id.ok then (decl, id.errors)
    else AppendArea(registry, el, IntOr(id.parsed, 0), decl, id.errors)
  }

  /** The loop of `parseAreas` over the first |els| elements. */
  function AreasOf(registry: Registry, els: seq<Json>, decl: ConfigDeclaration, errors: seq<Message>)
    : (r: (ConfigDeclaration, seq<Message>))
    ensures Extends(r.1, errors)
    ensures r.0.config == decl.config.(areaConfigs := r.0.config.areaConfigs)
    ensures r.0.initialValue == decl.initialValue
    decreases |els|
  {
    if els == [] then (decl, errors)
    else
      var prev := AreasOf(registry, els[..|els| - 1], decl, errors);
      AreaStep(registry, els[|els| - 1], prev.0, prev.1)
  }

  /** The loop over one more element is one more step. */
  lemma AreasOfSnoc(registry: Registry, els: seq<Json>, i: nat, decl: ConfigDeclaration, errors: seq<Message>)
    requires i < |els|
    ensures AreasOf(registry, els[..i + 1], decl, errors) ==
      var prev := AreasOf(registry, els[..i], decl, errors);
      AreaStep(registry, els[i], prev.0, prev.1)
  {
    assert els[..i + 1][..i] == els[..i];
  }

  /** `parseAreas` as a value. */
  function ParsedAreas(registry: Registry, node: Json, field: string, decl: ConfigDeclaration, errors: seq<Message>)
    : (r: (ConfigDeclaration, seq<Message>))
    ensures Extends(r.1, errors)
    ensures r.0.config == decl.config.(areaConfigs := r.0.config.areaConfigs)
    ensures r.0.initialValue == decl.initialValue
  {
    if !node.JObj? then (decl, errors + [NotAnObject(node)])
    else if field !in node.fields then (decl, errors)
    else if !node.fields[field].JArr? then (decl, errors + [FieldNotAnArray(field)])
    else AreasOf(registry, node.fields[field].items, decl, errors)
  }

  /** `parseAreas`: append one area config per element whose `areaId` parses, in order. */
  method ParseAreas(registry: Registry, node: Json, field: string, decl: ConfigDeclaration, errors: seq<Message>)
    returns (decl': ConfigDeclaration, errors': seq<Message>)
    ensures (decl', errors') == ParsedAreas(registry, node, field, decl, errors)
  {
    if !node.JObj? {
      return decl, errors + [NotAnObject(node)];
    }
    if field !in node.fields {
      return decl, errors;
    }
    var jsonValue := node.fields[field];
    if !jsonValue.JArr? {
      return decl, errors + [FieldNotAnArray(field)];
    }
    var els := jsonValue.items;
    decl', errors' := decl, errors;
    var i := 0;
    while i < |els|
      invariant 0 <= i <= |els|
      invariant (decl', errors') == AreasOf(registry, els[..i], decl, errors)
    {
      AreasOfSnoc(registry, els, i, decl, errors);
      var step := AreaStep(registry, els[i], decl', errors');
      decl', errors' := step.0, step.1;
      i := i + 1;
    }
    assert els[..i] == els;
  }

  /** The ids of a sequence of area configs, in order. */
  function AreaIds(areas: seq<AreaConfig>): (ids: seq<int>)
    ensures |ids| == |areas| && forall i :: 0 <= i < |areas| ==> ids[i] == areas[i].areaId
  {
    seq(|areas|, i requires 0 <= i < |areas| => areas[i].areaId)
  }

  /** The ids of the elements with a parsable `areaId`, in order, duplicates kept. */
  function ParsableIds(registry: Registry, els: seq<Json>): seq<int>
    decreases |els|
  {
    if els == [] then []
    else
      var last := els[|els| - 1];
      ParsableIds(registry, els[..|els| - 1]) +
        (if AreaIdOf(registry, last).Some? then [AreaIdOf(registry, last).value] else [])
  }

  /** `parseAreas` appends exactly one area per element with a parsable id, in element order; the others are skipped. */
  lemma {:induction false} AreasOfIds(registry: Registry, els: seq<Json>, decl: ConfigDeclaration, errors: seq<Message>)
    ensures AreaIds(AreasOf(registry, els, decl, errors).0.config.areaConfigs) ==
      AreaIds(decl.config.areaConfigs) + ParsableIds(registry, els)
    decreases |els|
  {
    if els != [] {
      AreasOfIds(registry, els[..|els| - 1], decl, errors);
    }
  }

  /** Every area `parseAreas` appends either has no enum list or a non-empty one. */
  lemma {:induction false} AreasOfEnumLists(registry: Registry, els: seq<Json>, decl: ConfigDeclaration, errors: seq<Message>)
    requires forall a :: a in decl.config.areaConfigs ==> a.supportedEnumValues != Some([])
    ensures forall a :: a in AreasOf(registry, els, decl, errors).0.config.areaConfigs ==>
      a.supportedEnumValues != Some([])
    decreases |els|
  {
    if els != [] {
      AreasOfEnumLists(registry, els[..|els| - 1], decl, errors);
    }
  }

  /** The initial value an element stores: its id and its default, when the id parses and the default parses completely. */
  function DefaultOf(registry: Registry, el: Json): (r: Option<(int, RawPropValues)>)
    ensures r.Some? <==> AreaIdOf(registry, el).Some? && HasParsedDefault(registry, el)
  {
    if AreaIdOf(registry, el).Some? && HasParsedDefault(registry, el)
    then Some((AreaIdOf(registry, el).value, ValuesOf(registry, el.fields["defaultValue"], EMPTY_VALUES)))
    else None
  }

  /**
   * Storing each element's default in order into `initial`, a later element
   * overwriting an earlier one with the same id.
   */
  function StoreDefaults(defaultOf: Json -> Option<(int, RawPropValues)>, els: seq<Json>,
                         initial: map<int, RawPropValues>): map<int, RawPropValues>
    decreases |els|
  {
    if els == [] then initial
    else
      var m := StoreDefaults(defaultOf, els[..|els| - 1], initial);
      var d := defaultOf(els[|els| - 1]);
      if d.Some? then m[d.value.0 := d.value.1] else m
  }

  /** The loop of `parseAreas` stores exactly the defaults of its elements, in order. */
  lemma {:induction false} AreasOfStoredDefaults(registry: Registry, els: seq<Json>, decl: ConfigDeclaration,
                                                 errors: seq<Message>)
    ensures AreasOf(registry, els, decl, errors).0.initialAreaValues ==
      StoreDefaults(el => DefaultOf(registry, el), els, decl.initialAreaValues)
    decreases |els|
  {
    if els != [] {
      AreasOfStoredDefaults(registry, els[..|els| - 1], decl, errors);
    }
  }

  /** An id has a stored default exactly when some element supplies one for it (or it had one before). */
  lemma {:induction false} StoreDefaultsKeys(defaultOf: Json -> Option<(int, RawPropValues)>, els: seq<Json>,
                                             initial: map<int, RawPropValues>, id: int)
    ensures id in StoreDefaults(defaultOf, els, initial) <==>
      id in initial || exists i :: 0 <= i < |els| && defaultOf(els[i]).Some? && defaultOf(els[i]).value.0 == id
    decreases |els|
  {
    if els != [] {
      var n := |els| - 1;
      var init := els[..n];
      StoreDefaultsKeys(defaultOf, init, initial, id);
      if exists i :: 0 <= i < |init| && defaultOf(init[i]).Some? && defaultOf(init[i]).value.0 == id {
        var i :| 0 <= i < |init| && defaultOf(init[i]).Some? && defaultOf(init[i]).value.0 == id;
        assert els[i] == init[i];
      }
      if exists i :: 0 <= i < |els| && defaultOf(els[i]).Some? && defaultOf(els[i]).value.0 == id {
        var i :| 0 <= i < |els| && defaultOf(els[i]).Some? && defaultOf(els[i]).value.0 == id;
        if i < n {
          assert init[i] == els[i];
        }
      }
    }
  }

  /** An element skipped for want of a parsable `areaId` is never skipped silently: if the loop adds no message, no element was skipped. */
  lemma {:induction false} AreasOfSkipsReported(registry: Registry, els: seq<Json>, decl: ConfigDeclaration,
                                                errors: seq<Message>)
    ensures AreasOf(registry, els, decl, errors).1 == errors ==> |ParsableIds(registry, els)| == |els|
    decreases |els|
  {
    if els != [] {
      var init := els[..|els| - 1];
      AreasOfSkipsReported(registry, init, decl, errors);
    }
  }

  /**
   * Everything `parseEachProperty` reads after the property id, in the
   * source's order: access, change mode, config string and array, the
   * default value, the sample rates and the areas.
   */
  function ParsePropertyFields(registry: Registry, node: Json, prop: int, errors: seq<Message>)
    : (r: (ConfigDeclaration, seq<Message>))
    requires HasMember(node, "property")
    ensures Extends(r.1, ParseConfigHeader(registry, node, prop, errors).1)
    ensures Extends(r.1, errors)
    ensures r.0.config.prop == prop
  {
    var head := ParseConfigHeader(registry, node, prop, errors);
    var initial := ParsePropValues(registry, node, "defaultValue", EMPTY_VALUES, head.1);
    var minRate := TryParseValue(registry, node, "minSampleRate", true, FloatKind, initial.errors);
    var maxRate := TryParseValue(registry, node, "maxSampleRate", true, FloatKind, minRate.errors);
    var config := head.0.(minSampleRate := RealOr(minRate.parsed, 0.0), maxSampleRate := RealOr(maxRate.parsed, 0.0));
    var areas := ParsedAreas(registry, node, "areas", ConfigDeclaration(config, initial.values, map[]), maxRate.errors);
    ExtendsTransitive(head.1, initial.errors, minRate.errors);
    ExtendsTransitive(head.1, minRate.errors, maxRate.errors);
    ExtendsTransitive(head.1, maxRate.errors, areas.1);
    ExtendsTransitive(errors, head.1, areas.1);
    areas
  }

  /** The first part of `parseEachProperty` after the id: access, change mode, config string and config array. */
  function ParseConfigHeader(registry: Registry, node: Json, prop: int, errors: seq<Message>)
    : (r: (PropConfig, seq<Message>))
    requires HasMember(node, "property")
    ensures Extends(r.1, errors)
    ensures r.0.prop == prop && r.0.areaConfigs == []
  {
    var property := node.fields["property"];
    var access := ParseAccessChangeMode(registry, node, "access", property, 0, errors);
    var changeMode := ParseAccessChangeMode(registry, node, "changeMode", property, 0, access.1);
    var configString := TryParseValue(registry, node, "configString", true, StringKind, changeMode.1);
    var configArray := TryParseArray(registry, node, "configArray", true, Int32Kind, configString.errors);
    (PropConfig(prop, access.0, changeMode.0, StringOr(configString.parsed, ""), IntsOr(configArray.parsed, []),
                0.0, 0.0, []),
     configArray.errors)
  }


  /**
   * One property entry parsed against an empty errors vector: its declaration,
   * present only if no message was produced, and the messages.
   */
  function PropertyEntry(registry: Registry, node: Json): (r: (Option<ConfigDeclaration>, seq<Message>))
    ensures r.0.Some? <==> r.1 == []
    ensures !HasMember(node, "property") ==>
      r == (None, [if node.JObj? then MissingRequiredField("property", node) else NotAnObject(node)])
    ensures r.0.Some? ==>
      HasMember(node, "property") &&
      ParseValue(registry, Int32Kind, "property", node.fields["property"]).Ok? &&
      r.0.value.config.prop == ParseValue(registry, Int32Kind, "property", node.fields["property"]).value.i
  {
    var p := TryParseValue(registry, node, "property", false, Int32Kind, []);
    if !p.ok then (None, p.errors)
    else
      var parsed := ParsePropertyFields(registry, node, IntOr(p.parsed, 0), []);
      if |parsed.1| != 0 then (None, parsed.1) else (Some(parsed.0), parsed.1)
  }

  /**
   * `parseEachProperty`: a vendor property entry becomes a declaration only
   * if parsing it added no message; the `property` id is required and nothing
   * else is read without it.  The C++ only appends to `errors` and compares
   * its size with the size on entry, so the entry's messages are those of
   * `PropertyEntry`, appended.
   */
  function ParseEachProperty(registry: Registry, node: Json, errors: seq<Message>)
    : (r: (Option<ConfigDeclaration>, seq<Message>))
    ensures Extends(r.1, errors)
    ensures r.0.Some? <==> r.1 == errors
    ensures !HasMember(node, "property") ==>
      r == (None, errors + [if node.JObj? then MissingRequiredField("property", node) else NotAnObject(node)])
    ensures r.0.Some? ==>
      HasMember(node, "property") &&
      ParseValue(registry, Int32Kind, "property", node.fields["property"]).Ok? &&
      r.0.value.config.prop == ParseValue(registry, Int32Kind, "property", node.fields["property"]).value.i
  {
    var entry := PropertyEntry(registry, node);
    assert (errors + entry.1)[..|errors|] == errors;
    (entry.0, errors + entry.1)
  }

  /** The config header of a cleanly parsed property carries the access and change mode codes and the config string. */
  lemma ConfigHeaderContents(registry: Registry, node: Json, prop: int, errors: seq<Message>)
    requires HasMember(node, "property")
    requires ParseConfigHeader(registry, node, prop, errors).1 == errors
    ensures var config := ParseConfigHeader(registry, node, prop, errors).0;
      HasMember(node, "access") && ParseValue(registry, Int32Kind, "access", node.fields["access"]).Ok? &&
      config.access == ParseValue(registry, Int32Kind, "access", node.fields["access"]).value.i &&
      HasMember(node, "changeMode") && ParseValue(registry, Int32Kind, "changeMode", node.fields["changeMode"]).Ok? &&
      config.changeMode == ParseValue(registry, Int32Kind, "changeMode", node.fields["changeMode"]).value.i &&
      config.configString == (if "configString" in node.fields then node.fields["configString"].s else "")
  {
    var property := node.fields["property"];
    var access := ParseAccessChangeMode(registry, node, "access", property, 0, errors);
    var changeMode := ParseAccessChangeMode(registry, node, "changeMode", property, 0, access.1);
    var configString := TryParseValue(registry, node, "configString", true, StringKind, changeMode.1);
    var configArray := TryParseArray(registry, node, "configArray", true, Int32Kind, configString.errors);
    ExtendsTransitive(errors, access.1, changeMode.1);
    ExtendsTransitive(errors, changeMode.1, configString.errors);
    assert configString.errors == errors;
    assert changeMode.1 == errors;
    assert access.1 == errors;
  }

  /**
   * A property entry that yields a declaration had its access and change mode,
   * a well-formed default value if any, and every element of its areas kept,
   * in order.
   */
  lemma {:induction false} PropertyContents(registry: Registry, node: Json)
    requires PropertyEntry(registry, node).0.Some?
    ensures var decl := PropertyEntry(registry, node).0.value;
      HasMember(node, "access") && ParseValue(registry, Int32Kind, "access", node.fields["access"]).Ok? &&
      decl.config.access == ParseValue(registry, Int32Kind, "access", node.fields["access"]).value.i &&
      HasMember(node, "changeMode") && ParseValue(registry, Int32Kind, "changeMode", node.fields["changeMode"]).Ok? &&
      decl.config.changeMode == ParseValue(registry, Int32Kind, "changeMode", node.fields["changeMode"]).value.i &&
      decl.config.configString == (if "configString" in node.fields then node.fields["configString"].s else "") &&
      ("defaultValue" in node.fields ==> ValuesParse(registry, node.fields["defaultValue"])) &&
      decl.initialValue ==
        (if "defaultValue" in node.fields
         then ValuesOf(registry, node.fields["defaultValue"], EMPTY_VALUES) else EMPTY_VALUES) &&
      ("areas" in node.fields ==>
        node.fields["areas"].JArr? &&
        AreaIds(decl.config.areaConfigs) == ParsableIds(registry, node.fields["areas"].items) &&
        |decl.config.areaConfigs| == |node.fields["areas"].items|) &&
      ("areas" !in node.fields ==> decl.config.areaConfigs == [])
  {
    var p := TryParseValue(registry, node, "property", false, Int32Kind, []);
    var prop := IntOr(p.parsed, 0);
    var head := ParseConfigHeader(registry, node, prop, []);
    var initial := ParsePropValues(registry, node, "defaultValue", EMPTY_VALUES, head.1);
    var minRate := TryParseValue(registry, node, "minSampleRate", true, FloatKind, initial.errors);
    var maxRate := TryParseValue(registry, node, "maxSampleRate", true, FloatKind, minRate.errors);
    var config := head.0.(minSampleRate := RealOr(minRate.parsed, 0.0), maxSampleRate := RealOr(maxRate.parsed, 0.0));
    var start := ConfigDeclaration(config, initial.values, map[]);
    var areas := ParsedAreas(registry, node, "areas", start, maxRate.errors);
    assert ParsePropertyFields(registry, node, prop, []) == areas;
    ExtendsTransitive([], head.1, initial.errors);
    ExtendsTransitive([], initial.errors, minRate.errors);
    ExtendsTransitive([], minRate.errors, maxRate.errors);
    assert maxRate.errors == [];
    assert minRate.errors == [];
    assert initial.errors == [];
    assert head.1 == [];
    ConfigHeaderContents(registry, node, prop, []);
    if "areas" in node.fields {
      var els := node.fields["areas"].items;
      AreasOfIds(registry, els, start, maxRate.errors);
      AreasOfSkipsReported(registry, els, start, maxRate.errors);
    }
  }

  /**
   * A property without access or change mode is reported, naming the
   * property, and parsing goes on: both omissions are reported, in order.
   */
  lemma MissingModesReported(registry: Registry, node: Json)
    requires HasMember(node, "property")
    requires ParseValue(registry, Int32Kind, "property", node.fields["property"]).Ok?
    requires "access" !in node.fields
    ensures var r := PropertyEntry(registry, node);
      r.0.None? && |r.1| > 0 && r.1[0] == NotSpecified("access", node.fields["property"])
    ensures "changeMode" !in node.fields ==>
      var r := PropertyEntry(registry, node);
      |r.1| > 1 && r.1[1] == NotSpecified("changeMode", node.fields["property"])
  {
    var p := TryParseValue(registry, node, "property", false, Int32Kind, []);
    var prop := IntOr(p.parsed, 0);
    var property := node.fields["property"];
    var access := ParseAccessChangeMode(registry, node, "access", property, 0, []);
    var changeMode := ParseAccessChangeMode(registry, node, "changeMode", property, 0, access.1);
    var configString := TryParseValue(registry, node, "configString", true, StringKind, changeMode.1);
    var configArray := TryParseArray(registry, node, "configArray", true, Int32Kind, configString.errors);
    var head := ParseConfigHeader(registry, node, prop, []);
    assert head.1 == configArray.errors;
    var fields := ParsePropertyFields(registry, node, prop, []);
    assert PropertyEntry(registry, node).1 == fields.1;
    ExtendsTransitive(changeMode.1, configString.errors, head.1);
    ExtendsTransitive(changeMode.1, head.1, fields.1);
    ExtendsTransitive(access.1, changeMode.1, fields.1);
    assert fields.1[..|access.1|] == access.1;
    assert fields.1[0] == access.1[0];
    if "changeMode" !in node.fields {
      assert fields.1[..|changeMode.1|] == changeMode.1;
      assert fields.1[1] == changeMode.1[1];
    }
  }
}
