/**
 * The values the demonstrator config loader produces and the messages it
 * collects: the expected-kind tag of a scalar field, the typed scalar, the
 * VHAL records a property entry is parsed into (`RawPropValues`,
 * `VehicleAreaConfig`, `VehiclePropConfig`, `ConfigDeclaration`), and the
 * error messages with the text the source writes for each.
 */
module LoaderTypes {
  import opened Wrappers
  import opened JsonTree

  /** The C++ type a scalar field is parsed as (the template argument T). */
  datatype Kind = Int32Kind | FloatKind | Int64Kind | StringKind

  /** A parsed scalar of one of the four kinds. */
  datatype Scalar = I32(i: int) | I64(i: int) | F(r: real) | S(s: string)
  {
    predicate HasKind(k: Kind) {
      match k
      case Int32Kind => I32?
      case Int64Kind => I64?
      case FloatKind => F?
      case StringKind => S?
    }
  }

  /** `RawPropValues`, without `byteValues`, which the loader never fills. */
  datatype RawPropValues = RawPropValues(
    int32Values: seq<int>,
    floatValues: seq<real>,
    int64Values: seq<int>,
    stringValue: string)

  const EMPTY_VALUES: RawPropValues := RawPropValues([], [], [], "")

  /** `VehicleAreaConfig` as the loader fills it. */
  datatype AreaConfig = AreaConfig(
    areaId: int,
    minInt32Value: int,
    maxInt32Value: int,
    minInt64Value: int,
    maxInt64Value: int,
    minFloatValue: real,
    maxFloatValue: real,
    supportedEnumValues: Option<seq<int>>)

  /** `VehiclePropConfig` as the loader fills it (access and change mode as their integer codes). */
  datatype PropConfig = PropConfig(
    prop: int,
    access: int,
    changeMode: int,
    configString: string,
    configArray: seq<int>,
    minSampleRate: real,
    maxSampleRate: real,
    areaConfigs: seq<AreaConfig>)

  /** `ConfigDeclaration`: a property's config and its initial value(s). */
  datatype ConfigDeclaration = ConfigDeclaration(
    config: PropConfig,
    initialValue: RawPropValues,
    initialAreaValues: map<int, RawPropValues>)

  /** A value-initialised `ConfigDeclaration` (`ConfigDeclaration configDecl = {}`). */
  function EmptyDeclaration(): ConfigDeclaration {
    ConfigDeclaration(PropConfig(0, 0, 0, "", [], 0.0, 0.0, []), EMPTY_VALUES, map[])
  }

  /** One entry of the loader's `errors` vector. */
  datatype Message =
    | WrongType(value: Json, field: string, expected: Kind)
    | NotAnArrayValue(value: Json, field: string)
    | InvalidConstant(value: Json, field: string)
    | UnrecognizedType(typeTag: string)
    | UndefinedConstant(typeTag: string, name: string)
    | NotAnObject(node: Json)
    | MissingRequiredField(field: string, node: Json)
    | NotSpecified(field: string, property: Json)
    | FieldNotAnArray(field: string)
    | NoPropertyField(node: Json)
    | UnknownPropertyType(node: Json, property: Json)

  /** Why a whole load fails. */
  datatype LoadFailure =
    | NotJson(parseErrors: string)
    | RootNotObject
    | NoPropertiesArray
    | SystemLoadFailed(message: string)
    | PropertyErrors(messages: seq<Message>)
    | CannotOpen(path: string)

  function KindName(k: Kind): string {
    match k
    case Int32Kind => "int"
    case FloatKind => "float"
    case Int64Kind => "int64"
    case StringKind => "string"
  }

  /** `toStyledString()`: the node as `operator<<` writes it, then a newline. */
  function StyledString(render: Json -> string, node: Json): string {
    render(node) + "\n"
  }

  /**
   * The text of one message; `render` is what jsoncpp's `operator<<` writes
   * for a node and `asString` its `asString()` conversion. The type errors
   * stream the value, the field-layer and split errors use `toStyledString()`.
   */
  function MessageText(m: Message, render: Json -> string, asString: Json -> string): string {
    match m
    case WrongType(v, f, k) =>
      "The value: " + render(v) + " for field: " + f + " is not in correct type, expect " + KindName(k)
    case NotAnArrayValue(v, f) =>
      "The value: " + render(v) + " for field: " + f + " is not in correct type, expect array"
    case InvalidConstant(v, f) => "Invalid constant value: " + render(v) + " for field: " + f
    case UnrecognizedType(t) => "Unrecognized type: " + t
    case UndefinedConstant(t, n) => t + "::" + n + " undefined"
    case NotAnObject(node) => "Node: " + StyledString(render, node) + " is not an object"
    case MissingRequiredField(f, node) => "Missing required field: " + f + " in node: " + StyledString(render, node)
    case NotSpecified(f, p) => "No " + f + " specified for property: " + StyledString(render, p)
    case FieldNotAnArray(f) => "Field: " + f + " is not an array"
    case NoPropertyField(node) => "Node: " + StyledString(render, node) + " does not have required \"property\" field"
    case UnknownPropertyType(node, p) => "Node: " + StyledString(render, node) + " has unknown property type " + asString(p)
  }

  /** `android::base::Join(lines, '\n')`. */
  function JoinLines(lines: seq<string>): string {
    if lines == [] then ""
    else if |lines| == 1 then lines[0]
    else lines[0] + "\n" + JoinLines(lines[1..])
  }

  /** The text of the `Error()` a failed load returns. */
  function FailureText(f: LoadFailure, render: Json -> string, asString: Json -> string): string {
    match f
    case NotJson(errs) => "Failed to parse property config file as JSON, error: " + errs
    case RootNotObject => "root element must be an object"
    case NoPropertiesArray => "Missing 'properties' field in root or the field is not an array"
    case SystemLoadFailed(msg) => msg
    case PropertyErrors(ms) => JoinLines(seq(|ms|, i requires 0 <= i < |ms| => MessageText(ms[i], render, asString)))
    case CannotOpen(path) => "couldn't open " + path + " for parsing."
  }
}
