/**
 * `JsonConfigParser::parseJsonConfig` and the `DemonstratorJsonConfigLoader`
 * facade: a config document is split into vendor entries, parsed here, and
 * system entries, handed to the stock AOSP loader; the two maps are merged.
 *
 * The stock loader is a parameter (`SystemLoader`), applied to the document
 * the split builds; reading the stream into a JSON tree is the `Result` the
 * operations take (`Err` carries jsoncpp's error text).
 */
module DemonstratorConfigLoader {
  import opened Wrappers
  import opened JsonTree
  import opened ConstantRegistry
  import opened LoaderTypes
  import opened JsonConfigParser

  /** The stock `JsonConfigLoader::loadPropConfig`, applied to a document. */
  type SystemLoader = Json -> Result<map<int, ConfigDeclaration>, string>

  /** The parsed stream: a JSON tree, or jsoncpp's error text. */
  type Document = Result<Json, string>

  const VENDOR_PREFIX: string := "VendorVehicleProperty::"
  const SYSTEM_PREFIX: string := "VehicleProperty::"

  predicate StartsWith(s: string, prefix: string) {
    |prefix| <= |s| && s[..|prefix|] == prefix
  }

  /** No name starts with both prefixes. */
  lemma PrefixesExclusive(s: string)
    ensures !(StartsWith(s, VENDOR_PREFIX) && StartsWith(s, SYSTEM_PREFIX))
  {
    assert StartsWith(s, VENDOR_PREFIX) ==> s[2] == VENDOR_PREFIX[2] == 'n';
    assert StartsWith(s, SYSTEM_PREFIX) ==> s[2] == SYSTEM_PREFIX[2] == 'h';
  }

  /** Where the split loop sends one entry of `properties`. */
  datatype Route = ToVendor | ToSystem | Rejected(message: Message)

  /**
   * The split decision for one entry: by the prefix of its `property` name;
   * an entry without `property`, or whose name has neither prefix, is reported.
   */
  function RouteOf(entry: Json): (r: Route)
    ensures r == ToVendor <==>
      HasMember(entry, "property") && entry.fields["property"].JStr? &&
      StartsWith(entry.fields["property"].s, VENDOR_PREFIX)
    ensures r == ToSystem <==>
      HasMember(entry, "property") && entry.fields["property"].JStr? &&
      StartsWith(entry.fields["property"].s, SYSTEM_PREFIX)
    ensures !HasMember(entry, "property") ==> r == Rejected(NoPropertyField(entry))
  {
    if !HasMember(entry, "property") then Rejected(NoPropertyField(entry))
    else
      var name := entry.fields["property"];
      if name.JStr? && StartsWith(name.s, VENDOR_PREFIX) then
        PrefixesExclusive(name.s);
        ToVendor
      else if name.JStr? && StartsWith(name.s, SYSTEM_PREFIX) then ToSystem
      else Rejected(UnknownPropertyType(entry, name))
  }

  /** The result of the split loop: the vendor entries, the system entries and the messages, each in input order. */
  datatype Split = Split(vendor: seq<Json>, system: seq<Json>, errors: seq<Message>)

  /** The split loop over the first |entries| entries. */
  function SplitEntries(entries: seq<Json>): (r: Split)
    ensures |r.vendor| + |r.system| + |r.errors| == |entries|
    decreases |entries|
  {
    if entries == [] then Split([], [], [])
    else
      var prev := SplitEntries(entries[..|entries| - 1]);
      var last := entries[|entries| - 1];
      match RouteOf(last)
      case ToVendor => prev.(vendor := prev.vendor + [last])
      case ToSystem => prev.(system := prev.system + [last])
      case Rejected(m) => prev.(errors := prev.errors + [m])
  }

  /** Every entry lands where its route says: vendor and system entries are exactly those routed there, and no message means no entry was rejected. */
  lemma {:induction false} SplitEntriesRoutes(entries: seq<Json>, e: Json)
    ensures e in SplitEntries(entries).vendor <==> e in entries && RouteOf(e) == ToVendor
    ensures e in SplitEntries(entries).system <==> e in entries && RouteOf(e) == ToSystem
    ensures SplitEntries(entries).errors == [] ==> forall i :: 0 <= i < |entries| ==> !RouteOf(entries[i]).Rejected?
    decreases |entries|
  {
    if entries != [] {
      var init := entries[..|entries| - 1];
      SplitEntriesRoutes(init, e);
      assert entries == init + [entries[|entries| - 1]];
    }
  }

  /** The document the split hands to the stock loader: `{"properties": [system entries]}`. */
  function SystemDocument(system: seq<Json>): Json {
    JObj(map["properties" := JArr(system)])
  }

  /** How one vendor entry is parsed: its declaration, if any, and its messages. */
  type EntryParser = Json -> (Option<ConfigDeclaration>, seq<Message>)

  /** `parseEachProperty` of a vendor entry, started on an empty errors vector. */
  function EntryParserOf(registry: Registry): EntryParser {
    entry => PropertyEntry(registry, entry)
  }

  /**
   * The vendor loop over the first |vendor| entries: the declarations by
   * property id, a later entry overwriting an earlier one, and the messages.
   */
  function VendorConfigs(parse: EntryParser, vendor: seq<Json>): (r: (map<int, ConfigDeclaration>, seq<Message>))
    decreases |vendor|
  {
    if vendor == [] then (map[], [])
    else
      var prev := VendorConfigs(parse, vendor[..|vendor| - 1]);
      var entry := parse(vendor[|vendor| - 1]);
      (if entry.0.Some? then prev.0[entry.0.value.config.prop := entry.0.value] else prev.0,
       prev.1 + entry.1)
  }

  /** The entry yields a declaration for property id `id`. */
  predicate Declares(parse: EntryParser, entry: Json, id: int) {
    parse(entry).0.Some? && parse(entry).0.value.config.prop == id
  }

  /** The vendor map holds an id exactly when some entry declares it. */
  lemma {:induction false} VendorConfigsKeys(parse: EntryParser, vendor: seq<Json>, id: int)
    ensures id in VendorConfigs(parse, vendor).0 <==> exists i :: 0 <= i < |vendor| && Declares(parse, vendor[i], id)
    decreases |vendor|
  {
    if vendor != [] {
      var n := |vendor| - 1;
      var init := vendor[..n];
      VendorConfigsKeys(parse, init, id);
      if exists i :: 0 <= i < |init| && Declares(parse, init[i], id) {
        var i :| 0 <= i < |init| && Declares(parse, init[i], id);
        assert vendor[i] == init[i];
      }
      if exists i :: 0 <= i < |vendor| && Declares(parse, vendor[i], id) {
        var i :| 0 <= i < |vendor| && Declares(parse, vendor[i], id);
        if i < n {
          assert vendor[i] == init[i];
        }
      }
    }
  }

  /** For an id several entries declare, the vendor map holds the declaration of the last of them. */
  lemma {:induction false} VendorConfigsLastWins(parse: EntryParser, vendor: seq<Json>, id: int, i: nat)
    requires i < |vendor| && Declares(parse, vendor[i], id)
    requires forall j :: i < j < |vendor| ==> !Declares(parse, vendor[j], id)
    ensures id in VendorConfigs(parse, vendor).0
    ensures VendorConfigs(parse, vendor).0[id] == parse(vendor[i]).0.value
    decreases |vendor|
  {
    var n := |vendor| - 1;
    if i < n {
      var init := vendor[..n];
      assert init[i] == vendor[i];
      forall j | i < j < |init|
        ensures !Declares(parse, init[j], id)
      {
        assert init[j] == vendor[j];
      }
      VendorConfigsLastWins(parse, init, id, i);
      assert !Declares(parse, vendor[n], id);
    }
  }

  /** With `parseEachProperty`'s own rule (a declaration exactly when no message), the vendor loop adds no message exactly when every entry yields a declaration. */
  lemma {:induction false} VendorConfigsClean(parse: EntryParser, vendor: seq<Json>)
    requires forall e :: parse(e).0.Some? <==> parse(e).1 == []
    ensures VendorConfigs(parse, vendor).1 == [] <==> forall i :: 0 <= i < |vendor| ==> parse(vendor[i]).0.Some?
    decreases |vendor|
  {
    if vendor != [] {
      var n := |vendor| - 1;
      var init := vendor[..n];
      VendorConfigsClean(parse, init);
      assert forall i :: 0 <= i < n ==> init[i] == vendor[i];
    }
  }

  /** `unordered_map::insert` of the system map into the vendor map: an id in both keeps the vendor declaration. */
  function Merge(vendor: map<int, ConfigDeclaration>, system: map<int, ConfigDeclaration>)
    : (r: map<int, ConfigDeclaration>)
    ensures r.Keys == vendor.Keys + system.Keys
    ensures forall id :: id in vendor ==> r[id] == vendor[id]
    ensures forall id :: id in system && id !in vendor ==> r[id] == system[id]
  {
    map id | id in vendor.Keys + system.Keys :: if id in vendor then vendor[id] else system[id]
  }

  /** `parseJsonConfig` as a value. */
  function ParsedJsonConfig(registry: Registry, systemLoader: SystemLoader, doc: Document)
    : Result<map<int, ConfigDeclaration>, LoadFailure>
  {
    if doc.Err? then Err(NotJson(doc.error))
    else if !doc.value.JObj? then Err(RootNotObject)
    else if "properties" !in doc.value.fields || !doc.value.fields["properties"].JArr? then Err(NoPropertiesArray)
    else
      var split := SplitEntries(doc.value.fields["properties"].items);
      match systemLoader(SystemDocument(split.system))
      case Err(msg) => Err(SystemLoadFailed(msg))
      case Ok(systemConfigs) =>
        var vendor := VendorConfigs(EntryParserOf(registry), split.vendor);
        var errors := split.errors + vendor.1;
        if errors != [] then Err(PropertyErrors(errors))
        else Ok(Merge(vendor.0, systemConfigs))
  }

  /** The entries of a well-formed document. */
  function Entries(doc: Document): seq<Json>
    requires doc.Ok? && doc.value.JObj? && "properties" in doc.value.fields && doc.value.fields["properties"].JArr?
  {
    doc.value.fields["properties"].items
  }

  /** A document with a `properties` array. */
  predicate WellFormed(doc: Document) {
    doc.Ok? && doc.value.JObj? && "properties" in doc.value.fields && doc.value.fields["properties"].JArr?
  }

  /**
   * A load succeeds only if every entry named a known property type, every
   * vendor entry parsed cleanly and the stock loader accepted the system
   * entries; the result then holds every vendor id, vendor declarations win,
   * and system ids are added.
   */
  lemma LoadSucceeds(registry: Registry, systemLoader: SystemLoader, doc: Document)
    requires ParsedJsonConfig(registry, systemLoader, doc).Ok?
    ensures WellFormed(doc)
    ensures var split := SplitEntries(Entries(doc));
      var result := ParsedJsonConfig(registry, systemLoader, doc).value;
      (forall i :: 0 <= i < |Entries(doc)| ==> !RouteOf(Entries(doc)[i]).Rejected?) &&
      (forall i :: 0 <= i < |split.vendor| ==> PropertyEntry(registry, split.vendor[i]).0.Some?) &&
      systemLoader(SystemDocument(split.system)).Ok? &&
      result.Keys == VendorConfigs(EntryParserOf(registry), split.vendor).0.Keys + systemLoader(SystemDocument(split.system)).value.Keys &&
      forall id :: id in VendorConfigs(EntryParserOf(registry), split.vendor).0 ==> result[id] == VendorConfigs(EntryParserOf(registry), split.vendor).0[id]
  {
    var split := SplitEntries(Entries(doc));
    SplitEntriesRoutes(Entries(doc), JNull);
    VendorConfigsClean(EntryParserOf(registry), split.vendor);
  }

  /**
   * A rejected entry fails the load with its message, unless the document is
   * malformed or the stock loader fails first; a stock-loader failure is
   * returned as it is, whatever the vendor entries contain.
   */
  lemma LoadFailsOnRejectedEntry(registry: Registry, systemLoader: SystemLoader, doc: Document, i: nat)
    requires WellFormed(doc)
    requires i < |Entries(doc)| && RouteOf(Entries(doc)[i]).Rejected?
    ensures var system := SplitEntries(Entries(doc)).system;
      systemLoader(SystemDocument(system)).Err? ==>
        ParsedJsonConfig(registry, systemLoader, doc) == Err(SystemLoadFailed(systemLoader(SystemDocument(system)).error))
    ensures var system := SplitEntries(Entries(doc)).system;
      systemLoader(SystemDocument(system)).Ok? ==>
        ParsedJsonConfig(registry, systemLoader, doc).Err? &&
        ParsedJsonConfig(registry, systemLoader, doc).error.PropertyErrors? &&
        RouteOf(Entries(doc)[i]).message in ParsedJsonConfig(registry, systemLoader, doc).error.messages
  {
    var entries := Entries(doc);
    SplitErrorsListed(entries, i);
  }

  /** The message of every rejected entry is among the split's messages. */
  lemma {:induction false} SplitErrorsListed(entries: seq<Json>, i: nat)
    requires i < |entries| && RouteOf(entries[i]).Rejected?
    ensures RouteOf(entries[i]).message in SplitEntries(entries).errors
    decreases |entries|
  {
    var n := |entries| - 1;
    if i < n {
      assert entries[..n][i] == entries[i];
      SplitErrorsListed(entries[..n], i);
    }
  }

  /** The split loop of `parseJsonConfig`. */
  method SplitProperties(entries: seq<Json>) returns (split: Split)
    ensures split == SplitEntries(entries)
  {
    var errors: seq<Message> := [];
    var system: seq<Json> := [];
    var vendor: seq<Json> := [];
    var i := 0;
    while i < |entries|
      invariant 0 <= i <= |entries|
      invariant SplitEntries(entries[..i]) == Split(vendor, system, errors)
    {
      assert entries[..i + 1][..i] == entries[..i];
      var entry := entries[i];
      if !HasMember(entry, "property") {
        errors := errors + [NoPropertyField(entry)];
      } else {
        var name := entry.fields["property"];
        if name.JStr? && StartsWith(name.s, VENDOR_PREFIX) {
          vendor := vendor + [entry];
        } else if name.JStr? && StartsWith(name.s, SYSTEM_PREFIX) {
          system := system + [entry];
        } else {
          errors := errors + [UnknownPropertyType(entry, name)];
        }
      }
      i := i + 1;
    }
    assert entries[..i] == entries;
    split := Split(vendor, system, errors);
  }

  lemma SeqAssoc(a: seq<Message>, b: seq<Message>, c: seq<Message>)
    ensures (a + b) + c == a + (b + c)
  {
  }

  /** `parseEachProperty` appends the entry's own messages to whatever the vector held. */
  lemma EachPropertyAppends(registry: Registry, node: Json, errors: seq<Message>)
    ensures ParseEachProperty(registry, node, errors) ==
      (EntryParserOf(registry)(node).0, errors + EntryParserOf(registry)(node).1)
  {
  }

  /** The vendor loop of `parseJsonConfig`: each entry through `parseEachProperty`, appending to `errors`. */
  method ParseVendorProperties(registry: Registry, vendor: seq<Json>, errors: seq<Message>)
    returns (configs: map<int, ConfigDeclaration>, errors': seq<Message>)
    ensures configs == VendorConfigs(EntryParserOf(registry), vendor).0
    ensures errors' == errors + VendorConfigs(EntryParserOf(registry), vendor).1
  {
    ghost var parse := EntryParserOf(registry);
    configs, errors' := map[], errors;
    var j := 0;
    while j < |vendor|
      invariant 0 <= j <= |vendor|
      invariant configs == VendorConfigs(parse, vendor[..j]).0
      invariant errors' == errors + VendorConfigs(parse, vendor[..j]).1
    {
      assert vendor[..j + 1][..j] == vendor[..j];
      ghost var added := VendorConfigs(parse, vendor[..j]).1;
      ghost var entry := parse(vendor[j]);
      var parsed := ParseEachProperty(registry, vendor[j], errors');
      EachPropertyAppends(registry, vendor[j], errors');
      assert parsed == (entry.0, errors' + entry.1);
      SeqAssoc(errors, added, entry.1);
      errors' := parsed.1;
      if parsed.0.Some? {
        configs := configs[parsed.0.value.config.prop := parsed.0.value];
      }
      j := j + 1;
    }
    assert vendor[..j] == vendor;
  }

  /** `parseJsonConfig`: the structural checks, the split loop, the stock loader, the vendor loop and the merge. */
  method ParseJsonConfig(registry: Registry, systemLoader: SystemLoader, doc: Document)
    returns (r: Result<map<int, ConfigDeclaration>, LoadFailure>)
    ensures r == ParsedJsonConfig(registry, systemLoader, doc)
  {
    if doc.Err? {
      return Err(NotJson(doc.error));
    }
    var root := doc.value;
    if !root.JObj? {
      return Err(RootNotObject);
    }
    if "properties" !in root.fields || !root.fields["properties"].JArr? {
      return Err(NoPropertiesArray);
    }
    var split := SplitProperties(root.fields["properties"].items);
    var systemResult := systemLoader(SystemDocument(split.system));
    if systemResult.Err? {
      return Err(SystemLoadFailed(systemResult.error));
    }
    var vendorConfigs, errors := ParseVendorProperties(registry, split.vendor, split.errors);
    if errors != [] {
      return Err(PropertyErrors(errors));
    }
    r := Ok(Merge(vendorConfigs, systemResult.value));
  }

  /**
   * `DemonstratorJsonConfigLoader`: owns the parser, whose constant registry
   * is built once at construction.
   */
  class DemonstratorJsonConfigLoader {
    const registry: Registry
    const systemLoader: SystemLoader

    constructor(enumRange: string -> seq<EnumEntry>, header: string -> int, systemLoader: SystemLoader)
      ensures registry == RegistryOf(enumRange, header)
      ensures this.systemLoader == systemLoader
    {
      var built := NewRegistry(enumRange, header);
      registry := built;
      this.systemLoader := systemLoader;
    }

    /** `loadPropConfig(std::istream&)`. */
    method LoadPropConfig(doc: Document) returns (r: Result<map<int, ConfigDeclaration>, LoadFailure>)
      ensures r == ParsedJsonConfig(registry, systemLoader, doc)
    {
      r := ParseJsonConfig(registry, systemLoader, doc);
    }

    /**
     * `loadPropConfig(const std::string&)`: `files` maps the paths that can be
     * opened to their parsed contents.
     */
    method LoadPropConfigFromPath(files: map<string, Document>, path: string)
      returns (r: Result<map<int, ConfigDeclaration>, LoadFailure>)
      ensures path !in files ==> r == Err(CannotOpen(path))
      ensures path in files ==> r == ParsedJsonConfig(registry, systemLoader, files[path])
    {
      if path !in files {
        return Err(CannotOpen(path));
      }
      r := LoadPropConfig(files[path]);
    }
  }
}
