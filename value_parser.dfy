/**
 * `JsonValueParser`: turns one JSON node into a typed scalar, resolving
 * `"Type::Name"` references through the constant registry, and a JSON array
 * into a sequence of such scalars.
 */
module JsonValueParser {
  import opened Wrappers
  import opened JsonTree
  import opened ConstantRegistry
  import opened LoaderTypes

  /** The tag that is accepted by `maybeGetTypeAndValueName` even when no parser is registered for it. */
  const LOCAL_TAG: string := "Constants"

  /** A `"::"` starts at position p of s. */
  predicate DelimiterAt(s: string, p: int) {
    0 <= p && p + 2 <= |s| && s[p] == ':' && s[p + 1] == ':'
  }

  /** No `"::"` starts at any position in [lo, hi). */
  predicate NoDelimiterIn(s: string, lo: int, hi: int) {
    forall p :: lo <= p < hi ==> !DelimiterAt(s, p)
  }

  /** `std::string::find("::", from)`: the first position at or after `from` where `"::"` starts. */
  function FindDelimiter(s: string, from: nat): (r: Option<nat>)
    requires from <= |s|
    ensures r.Some? ==> from <= r.value && DelimiterAt(s, r.value) && NoDelimiterIn(s, from, r.value)
    ensures r.None? ==> NoDelimiterIn(s, from, |s|)
    decreases |s| - from
  {
    if from + 2 > |s| then None
    else if s[from] == ':' && s[from + 1] == ':' then Some(from)
    else FindDelimiter(s, from + 1)
  }

  /**
   * `maybeGetTypeAndValueName`: split at the first `"::"`; the part before it
   * must be a registered type tag or `"Constants"`.
   */
  function SplitTypeAndName(registry: Registry, value: string): (r: Option<(string, string)>)
    ensures r.Some? <==>
      FindDelimiter(value, 0).Some? &&
      (var t := value[..FindDelimiter(value, 0).value]; t == LOCAL_TAG || t in registry)
    ensures r.Some? ==>
      value == r.value.0 + "::" + r.value.1 && NoDelimiterIn(value, 0, |r.value.0|)
  {
    match FindDelimiter(value, 0)
    case None => None
    case Some(pos) =>
      var typeTag := value[..pos];
      var name := value[pos + 2..];
      assert value == typeTag + "::" + name by {
        assert value[pos..pos + 2] == "::";
        assert value == value[..pos] + value[pos..pos + 2] + value[pos + 2..];
      }
      if typeTag != LOCAL_TAG && typeTag !in registry then None
      else Some((typeTag, name))
  }

  /** The split of `t + "::" + n` is `(t, n)` whenever `t` is an accepted tag that cannot hide a `"::"`. */
  lemma SplitOfJoined(registry: Registry, t: string, n: string)
    requires t == LOCAL_TAG || t in registry
    requires NoDelimiterIn(t, 0, |t|)
    requires t == [] || t[|t| - 1] != ':'
    ensures SplitTypeAndName(registry, t + "::" + n) == Some((t, n))
  {
    var s := t + "::" + n;
    assert DelimiterAt(s, |t|);
    assert NoDelimiterIn(s, 0, |t|) by {
      forall p | 0 <= p < |t|
        ensures !DelimiterAt(s, p)
      {
        if p + 1 < |t| {
          assert !DelimiterAt(t, p);
        }
      }
    }
    var found := FindDelimiter(s, 0);
    assert found == Some(|t|);
    assert s[..|t|] == t;
    assert s[|t| + 2..] == n;
  }

  /** `parseConstantValue`: the value of `name` in the table registered for `typeTag`. */
  function ParseConstantValue(registry: Registry, typeTag: string, name: string): (r: Result<int, Message>)
    ensures r.Ok? <==> typeTag in registry && name in registry[typeTag]
    ensures r.Ok? ==> r.value == registry[typeTag][name]
    ensures typeTag !in registry ==> r == Err(UnrecognizedType(typeTag))
    ensures typeTag in registry && name !in registry[typeTag] ==> r == Err(UndefinedConstant(typeTag, name))
  {
    if typeTag !in registry then Err(UnrecognizedType(typeTag))
    else
      match Lookup(registry[typeTag], name)
      case None => Err(UndefinedConstant(typeTag, name))
      case Some(v) => Ok(v)
  }

  /** The JSON values `convertValueToType<T>` accepts for each kind. */
  predicate Accepts(kind: Kind, j: Json) {
    match kind
    case Int32Kind => IsInt(j)
    case Int64Kind => IsInt64(j)
    case FloatKind => IsDouble(j)
    case StringKind => j.JStr?
  }

  /** The numeric value a JSON number denotes. */
  function NumberOf(j: Json): real
    requires j.JInt? || j.JReal?
  {
    if j.JInt? then j.i as real else j.r
  }

  /** `convertValueToType<T>`: the node itself, checked against the kind, never a constant reference. */
  function ConvertValueToType(kind: Kind, field: string, j: Json): (r: Result<Scalar, Message>)
    ensures r.Ok? <==> Accepts(kind, j)
    ensures r.Err? ==> r.error == WrongType(j, field, kind)
    ensures r.Ok? ==> r.value.HasKind(kind)
    ensures r.Ok? && kind == Int32Kind ==> InInt32(r.value.i) && r.value.i as real == NumberOf(j)
    ensures r.Ok? && kind == Int64Kind ==> InInt64(r.value.i) && r.value.i as real == NumberOf(j)
    ensures r.Ok? && kind == FloatKind ==> r.value.r == NumberOf(j)
    ensures r.Ok? && kind == StringKind ==> r.value.s == j.s
  {
    if !Accepts(kind, j) then Err(WrongType(j, field, kind))
    else
      match kind
      case Int32Kind => Ok(I32(AsInteger(j)))
      case Int64Kind =>
        assert j.JReal? ==> j.r < (INT64_MAX + 1) as real;
        Ok(I64(AsInteger(j)))
      case FloatKind => Ok(F(AsReal(j)))
      case StringKind => Ok(S(j.s))
  }

  /**
   * `static_cast<T>(constantValue)` for a numeric kind: the constant keeps
   * its value, as an integer of the requested width or as a number.
   */
  function CastConstant(kind: Kind, v: int): (r: Scalar)
    requires kind != StringKind
    ensures r.HasKind(kind)
    ensures kind != FloatKind ==> r.i == v
    ensures kind == FloatKind ==> r.r == v as real && r.r.Floor == v
  {
    match kind
    case Int32Kind => I32(v)
    case Int64Kind => I64(v)
    case FloatKind => F(v as real)
  }

  /**
   * `parseValue<T>`: a numeric field given as a string is a `"Type::Name"`
   * reference to a constant; a string field is taken literally.
   */
  function ParseValue(registry: Registry, kind: Kind, field: string, j: Json): (r: Result<Scalar, Message>)
    ensures r.Ok? ==> r.value.HasKind(kind)
    ensures kind == StringKind || !j.JStr? ==> r == ConvertValueToType(kind, field, j)
    ensures kind != StringKind && j.JStr? && SplitTypeAndName(registry, j.s).None? ==>
      r == Err(InvalidConstant(j, field))
    ensures kind != StringKind && j.JStr? && SplitTypeAndName(registry, j.s).Some? ==>
      var (t, n) := SplitTypeAndName(registry, j.s).value;
      r == (if t in registry && n in registry[t] then Ok(CastConstant(kind, registry[t][n]))
            else Err(if t in registry then UndefinedConstant(t, n) else UnrecognizedType(t)))
  {
    if kind == StringKind || !j.JStr? then ConvertValueToType(kind, field, j)
    else
      match SplitTypeAndName(registry, j.s)
      case None => Err(InvalidConstant(j, field))
      case Some((t, n)) =>
        match ParseConstantValue(registry, t, n)
        case Err(e) => Err(e)
        case Ok(v) => Ok(CastConstant(kind, v))
  }

  /** A numeric field written as `"Type::Name"` with a registered type resolves to that constant, or fails naming it. */
  lemma ReferenceResolves(registry: Registry, kind: Kind, field: string, t: string, n: string)
    requires kind != StringKind
    requires t in registry
    requires NoDelimiterIn(t, 0, |t|)
    requires t == [] || t[|t| - 1] != ':'
    ensures n in registry[t] ==>
      ParseValue(registry, kind, field, JStr(t + "::" + n)) == Ok(CastConstant(kind, registry[t][n]))
    ensures n !in registry[t] ==>
      ParseValue(registry, kind, field, JStr(t + "::" + n)) == Err(UndefinedConstant(t, n))
  {
    SplitOfJoined(registry, t, n);
  }

  /**
   * The result of the element loop of `parseArray<T>` on `items`: the parsed
   * values in order, or the error of the first element that fails.
   */
  function ParsedElements(registry: Registry, kind: Kind, field: string, items: seq<Json>): Result<seq<Scalar>, Message>
    decreases |items|
  {
    if items == [] then Ok([])
    else
      match ParsedElements(registry, kind, field, items[..|items| - 1])
      case Err(e) => Err(e)
      case Ok(vs) =>
        match ParseValue(registry, kind, field, items[|items| - 1])
        case Err(e) => Err(e)
        case Ok(v) => Ok(vs + [v])
  }

  /** `parseArray<T>` as a value: a non-array node is refused, otherwise every element is parsed. */
  function ParsedArray(registry: Registry, kind: Kind, field: string, j: Json): Result<seq<Scalar>, Message> {
    if !j.JArr? then Err(NotAnArrayValue(j, field))
    else ParsedElements(registry, kind, field, j.items)
  }

  /** An array parses iff every element parses, and then to the elementwise results in order. */
  lemma {:induction false} ParsedElementsOk(registry: Registry, kind: Kind, field: string, items: seq<Json>)
    ensures ParsedElements(registry, kind, field, items).Ok? <==>
      forall i :: 0 <= i < |items| ==> ParseValue(registry, kind, field, items[i]).Ok?
    ensures ParsedElements(registry, kind, field, items).Ok? ==>
      var vs := ParsedElements(registry, kind, field, items).value;
      |vs| == |items| &&
      forall i :: 0 <= i < |items| ==> vs[i] == ParseValue(registry, kind, field, items[i]).value
    decreases |items|
  {
    if items != [] {
      var init := items[..|items| - 1];
      ParsedElementsOk(registry, kind, field, init);
      assert forall i :: 0 <= i < |init| ==> init[i] == items[i];
    }
  }

  /** A failing array reports the error of its first failing element. */
  lemma {:induction false} ParsedElementsFirstError(registry: Registry, kind: Kind, field: string, items: seq<Json>)
    ensures ParsedElements(registry, kind, field, items).Err? ==>
      exists i :: 0 <= i < |items| &&
        ParseValue(registry, kind, field, items[i]).Err? &&
        ParsedElements(registry, kind, field, items).error == ParseValue(registry, kind, field, items[i]).error &&
        forall k :: 0 <= k < i ==> ParseValue(registry, kind, field, items[k]).Ok?
    decreases |items|
  {
    if items != [] {
      var init := items[..|items| - 1];
      ParsedElementsFirstError(registry, kind, field, init);
      assert forall i :: 0 <= i < |init| ==> init[i] == items[i];
      if ParsedElements(registry, kind, field, init).Ok? {
        ParsedElementsOk(registry, kind, field, init);
        var last := |items| - 1;
        assert forall k :: 0 <= k < last ==> ParseValue(registry, kind, field, items[k]).Ok?;
      }
    }
  }

  /** Once a prefix fails, every longer prefix fails with the same error. */
  lemma {:induction false} ParsedElementsErrorSticks(registry: Registry, kind: Kind, field: string, items: seq<Json>, i: nat)
    requires i <= |items|
    requires ParsedElements(registry, kind, field, items[..i]).Err?
    ensures ParsedElements(registry, kind, field, items) == ParsedElements(registry, kind, field, items[..i])
    decreases |items| - i
  {
    if i < |items| {
      assert items[..i + 1][..i] == items[..i];
      ParsedElementsErrorSticks(registry, kind, field, items, i + 1);
    } else {
      assert items[..i] == items;
    }
  }

  /** `parseArray<T>`: parse every element in order, stopping at the first failure. */
  method ParseArray(registry: Registry, kind: Kind, field: string, j: Json) returns (r: Result<seq<Scalar>, Message>)
    ensures r == ParsedArray(registry, kind, field, j)
  {
    if !j.JArr? {
      return Err(NotAnArrayValue(j, field));
    }
    var items := j.items;
    var parsedValues: seq<Scalar> := [];
    var i := 0;
    while i < |items|
      invariant 0 <= i <= |items|
      invariant ParsedElements(registry, kind, field, items[..i]) == Ok(parsedValues)
    {
      assert items[..i + 1][..i] == items[..i];
      var result := ParseValue(registry, kind, field, items[i]);
      if result.Err? {
        ParsedElementsErrorSticks(registry, kind, field, items, i + 1);
        return Err(result.error);
      }
      parsedValues := parsedValues + [result.value];
      i := i + 1;
    }
    assert items[..i] == items;
    r := Ok(parsedValues);
  }
}
