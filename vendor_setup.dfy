/**
 * What both `GpioFakeVehicleHardware` variants do alike when they start:
 * read every `*.json` file of the vendor config directory with the
 * demonstrator loader and merge the declarations by property id
 * (`loadPropConfigsFromDir`), and choose, area by area, the initial value a
 * declaration gives (the selection inside `setUpAndStorePropInitialValue` and
 * `storePropInitialValue`).
 *
 * The directory listing is a parameter: `None` when it cannot be opened,
 * otherwise the entry names in `readdir` order. The files are the
 * `Document`s the loader reads by path.
 */
module VendorPropertySetup {
  import opened Wrappers
  import opened LoaderTypes
  import opened VehicleHal
  import opened DemonstratorConfigLoader

  /** The directory that holds the vendor property files. */
  const VENDOR_PROPERTY_CONFIG_DIR: string := "/vendor/etc/automotive/vhaloverride/"

  type Configs = map<int, ConfigDeclaration>

  /** `mConfigLoader.loadPropConfig(filePath)`, as a function of the path. */
  type FileLoader = string -> Result<Configs, LoadFailure>

  /** What the demonstrator loader makes of the file at `path`. */
  function LoadedFromPath(registry: ConstantRegistry.Registry, systemLoader: SystemLoader,
                          files: map<string, Document>, path: string): Result<Configs, LoadFailure>
  {
    if path in files then ParsedJsonConfig(registry, systemLoader, files[path]) else Err(CannotOpen(path))
  }

  function FileLoaderOf(registry: ConstantRegistry.Registry, systemLoader: SystemLoader,
                        files: map<string, Document>): FileLoader
  {
    path => LoadedFromPath(registry, systemLoader, files, path)
  }

  /**
   * The characters that `.` of a `std::regex` over `char` does not match: an
   * entry name is a string of bytes, so only newline and carriage return.
   */
  predicate IsLineTerminator(c: char) {
    c == '\n' || c == '\r'
  }

  function LowerAscii(c: char): char {
    if 'A' <= c <= 'Z' then (c as int + 32) as char else c
  }

  /** `std::regex_match(name, std::regex(".*[.]json", std::regex::icase))`. */
  predicate IsJsonName(name: string) {
    |name| >= 5 &&
    name[|name| - 5] == '.' &&
    LowerAscii(name[|name| - 4]) == 'j' && LowerAscii(name[|name| - 3]) == 's' &&
    LowerAscii(name[|name| - 2]) == 'o' && LowerAscii(name[|name| - 1]) == 'n' &&
    forall i :: 0 <= i < |name| - 5 ==> !IsLineTerminator(name[i])
  }

  /**
   * A name ending in ".json", in any letter case, is a config file exactly
   * when nothing before the suffix is a line terminator.
   */
  lemma JsonSuffixMatches(stem: string, suffix: string)
    requires |suffix| == 5 && suffix[0] == '.'
    requires LowerAscii(suffix[1]) == 'j' && LowerAscii(suffix[2]) == 's'
    requires LowerAscii(suffix[3]) == 'o' && LowerAscii(suffix[4]) == 'n'
    ensures IsJsonName(stem + suffix) <==> forall i :: 0 <= i < |stem| ==> !IsLineTerminator(stem[i])
  {
    var name := stem + suffix;
    assert name[|name| - 5..] == suffix;
    assert forall i :: 0 <= i < |stem| ==> name[i] == stem[i];
  }

  function JoinPath(dirPath: string, name: string): string {
    dirPath + "/" + name
  }

  /** File `name` of the directory loaded and declares `id`. */
  predicate Contributes(load: FileLoader, dirPath: string, name: string, id: int) {
    IsJsonName(name) && load(JoinPath(dirPath, name)).Ok? && id in load(JoinPath(dirPath, name)).value
  }

  /**
   * The `configs` map after the directory loop has seen `names`: a file that
   * is not `*.json` or does not load is skipped, every other one assigns
   * each of its declarations by property id.
   */
  function MergedConfigs(load: FileLoader, dirPath: string, start: Configs, names: seq<string>): Configs
    decreases |names|
  {
    if names == [] then start
    else
      var prev := MergedConfigs(load, dirPath, start, names[..|names| - 1]);
      var name := names[|names| - 1];
      if !IsJsonName(name) then prev
      else
        match load(JoinPath(dirPath, name))
        case Err(_) => prev
        case Ok(m) => prev + m
  }

  /** `loadPropConfigsFromDir`: a directory that cannot be opened adds nothing. */
  function DirConfigs(load: FileLoader, dirPath: string, start: Configs, dir: Option<seq<string>>): Configs {
    if dir.None? then start else MergedConfigs(load, dirPath, start, dir.value)
  }

  /** An id is in the merged map iff it was there already or some loaded `*.json` file declares it. */
  lemma {:induction false} MergedConfigsKeys(load: FileLoader, dirPath: string, start: Configs, names: seq<string>, id: int)
    ensures id in MergedConfigs(load, dirPath, start, names) <==>
      id in start || exists i :: 0 <= i < |names| && Contributes(load, dirPath, names[i], id)
    decreases |names|
  {
    if names != [] {
      var n := |names| - 1;
      MergedConfigsKeys(load, dirPath, start, names[..n], id);
      forall i | 0 <= i < n
        ensures names[..n][i] == names[i]
      {
      }
    }
  }

  /** The declaration kept for an id is the one of the last loaded `*.json` file that declares it. */
  lemma {:induction false} MergedConfigsLastWins(load: FileLoader, dirPath: string, start: Configs, names: seq<string>, id: int, i: nat)
    requires i < |names| && Contributes(load, dirPath, names[i], id)
    requires forall j :: i < j < |names| ==> !Contributes(load, dirPath, names[j], id)
    ensures id in MergedConfigs(load, dirPath, start, names)
    ensures MergedConfigs(load, dirPath, start, names)[id] == load(JoinPath(dirPath, names[i])).value[id]
    decreases |names|
  {
    var n := |names| - 1;
    if i < n {
      forall j | i < j < n
        ensures !Contributes(load, dirPath, names[..n][j], id)
      {
        assert names[..n][j] == names[j];
      }
      assert names[..n][i] == names[i];
      MergedConfigsLastWins(load, dirPath, start, names[..n], id, i);
      assert !Contributes(load, dirPath, names[n], id);
    }
  }

  /** An id no loaded file declares keeps the declaration it had before the loop. */
  lemma {:induction false} MergedConfigsKeepsStart(load: FileLoader, dirPath: string, start: Configs, names: seq<string>, id: int)
    requires id in start
    requires forall j :: 0 <= j < |names| ==> !Contributes(load, dirPath, names[j], id)
    ensures id in MergedConfigs(load, dirPath, start, names)
    ensures MergedConfigs(load, dirPath, start, names)[id] == start[id]
    decreases |names|
  {
    if names != [] {
      var n := |names| - 1;
      forall j | 0 <= j < n
        ensures !Contributes(load, dirPath, names[..n][j], id)
      {
        assert names[..n][j] == names[j];
      }
      MergedConfigsKeepsStart(load, dirPath, start, names[..n], id);
      assert !Contributes(load, dirPath, names[n], id);
    }
  }

  /** `loadPropConfigsFromDir`, the same in both hardware variants. */
  method LoadPropConfigsFromDir(loader: DemonstratorJsonConfigLoader, files: map<string, Document>,
                                dirPath: string, dir: Option<seq<string>>, configs: Configs)
    returns (configs': Configs)
    ensures configs' == DirConfigs(FileLoaderOf(loader.registry, loader.systemLoader, files), dirPath, configs, dir)
  {
    configs' := configs;
    if dir.None? {
      return;
    }
    ghost var load := FileLoaderOf(loader.registry, loader.systemLoader, files);
    var names := dir.value;
    for i := 0 to |names|
      invariant configs' == MergedConfigs(load, dirPath, configs, names[..i])
    {
      assert names[..i + 1][..i] == names[..i];
      if !IsJsonName(names[i]) {
        continue;
      }
      var filePath := JoinPath(dirPath, names[i]);
      var result := loader.LoadPropConfigFromPath(files, filePath);
      if result.Err? {
        continue;
      }
      // each declaration of the file replaces the one stored under its id
      configs' := configs' + result.value;
    }
    assert names[..|names|] == names;
  }

  /** The areas the initial-value loop visits: area 0 alone for a global property, else each configured area in order. */
  function InitAreas(config: PropConfig): seq<int> {
    if IsGlobalProp(config.prop) then [0]
    else seq(|config.areaConfigs|, i requires 0 <= i < |config.areaConfigs| => config.areaConfigs[i].areaId)
  }

  /** The initial value a declaration gives one area, or `None` when the area is skipped. */
  function InitialValueFor(decl: ConfigDeclaration, area: int): Option<RawPropValues> {
    if decl.initialAreaValues == map[] then
      if decl.initialValue == EMPTY_VALUES then None else Some(decl.initialValue)
    else if area in decl.initialAreaValues then Some(decl.initialAreaValues[area])
    else None
  }

  /**
   * The selection rules: a global property visits area 0 alone; without
   * per-area values, an empty initial value skips every area and any other
   * one is used for every area; with per-area values, an area gets its own
   * value or is skipped.
   */
  lemma InitialValueSelection(decl: ConfigDeclaration, area: int)
    ensures IsGlobalProp(decl.config.prop) ==> InitAreas(decl.config) == [0]
    ensures !IsGlobalProp(decl.config.prop) ==>
      |InitAreas(decl.config)| == |decl.config.areaConfigs| &&
      forall i :: 0 <= i < |decl.config.areaConfigs| ==> InitAreas(decl.config)[i] == decl.config.areaConfigs[i].areaId
    ensures decl.initialAreaValues == map[] ==>
      (InitialValueFor(decl, area).None? <==> decl.initialValue == EMPTY_VALUES) &&
      (InitialValueFor(decl, area).Some? ==> InitialValueFor(decl, area).value == decl.initialValue)
    ensures decl.initialAreaValues != map[] ==>
      (InitialValueFor(decl, area).Some? <==> area in decl.initialAreaValues) &&
      (InitialValueFor(decl, area).Some? ==> InitialValueFor(decl, area).value == decl.initialAreaValues[area])
  {
  }

  /**
   * Once its config is registered, a property accepts a value for every
   * area the initial-value loop visits, and files it under that very area.
   */
  lemma {:induction false} InitAreasWritable(store: Store, registered: Registered, config: PropConfig, area: int)
    requires area in InitAreas(config)
    ensures Writable(RegisterProperty(store, registered, config).1, config.prop, area)
    ensures StoreKey(config.prop, area) == (config.prop, area)
  {
    if !IsGlobalProp(config.prop) {
      var i :| 0 <= i < |InitAreas(config)| && InitAreas(config)[i] == area;
      assert config.areaConfigs[i].areaId == area;
    }
  }

  /** Every visited area is the key its value is filed under (area 0 alone for a global property). */
  predicate KeyedAreas(prop: int, areas: seq<int>) {
    forall i :: 0 <= i < |areas| ==> StoreKey(prop, areas[i]) == (prop, areas[i])
  }

  /** The initial-value loop visits keyed areas. */
  lemma InitAreasKeyed(config: PropConfig)
    ensures KeyedAreas(config.prop, InitAreas(config))
  {
  }

  /** `order` lists each key of the map exactly once (the map's iteration order). */
  predicate Enumerates(order: seq<int>, keys: set<int>) {
    (forall i, j :: 0 <= i < j < |order| ==> order[i] != order[j]) &&
    (forall i :: 0 <= i < |order| ==> order[i] in keys) &&
    (forall id :: id in keys ==> id in order)
  }
}
