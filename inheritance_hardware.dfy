/**
 * The `GpioFakeVehicleHardware` of `inheritance_hardware`: on construction it
 * loads the vendor property files, registers every declared config with the
 * property store and stores its initial values area by area; `setValues` is
 * handed unchanged to the `FakeVehicleHardware` base class.
 *
 * The base class is outside the model: its store contents at construction
 * are parameters, and its `setValues` is a function from the store, the
 * registrations and the call to the status it returns and the store it
 * leaves; the calls handed to it are logged.
 */
module InheritanceHardware {
  import opened Wrappers
  import opened LoaderTypes
  import opened VehicleHal
  import opened DemonstratorConfigLoader
  import opened VendorPropertySetup

  /** A `setValues` call: the callback (as a handle) and the requests. */
  datatype SetValuesCall = SetValuesCall(callback: int, requests: seq<SetValueRequest>)

  /** `FakeVehicleHardware::setValues`: its status and the store it leaves. */
  type BaseSetValues = (Store, Registered, SetValuesCall) -> (StatusCode, Store)

  /** The property store: values and registered configs. */
  datatype StoreState = StoreState(store: Store, registered: Registered)

  /** The store after the initial-value loop has visited `areas`. */
  function StoreInitialValues(store: Store, registered: Registered, decl: ConfigDeclaration, areas: seq<int>): Store
    decreases |areas|
  {
    if areas == [] then store
    else
      var prev := StoreInitialValues(store, registered, decl, areas[..|areas| - 1]);
      var area := areas[|areas| - 1];
      match InitialValueFor(decl, area)
      case None => prev
      case Some(value) => WriteValue(prev, registered, PropValue(decl.config.prop, area, value)).1
  }

  /** A visited area that the declaration gives a value and the store accepts it for. */
  predicate Selected(registered: Registered, decl: ConfigDeclaration, areas: seq<int>, key: (int, int)) {
    key.0 == decl.config.prop && key.1 in areas &&
    InitialValueFor(decl, key.1).Some? && Writable(registered, decl.config.prop, key.1)
  }

  /**
   * `storePropInitialValue` stores exactly the selected values: every
   * visited area with a value the store accepts gets it, nothing else in
   * the store changes, so nothing is stored for a property that is not
   * registered or for an area it has no config for.
   */
  lemma {:induction false} StoredInitialValues(store: Store, registered: Registered, decl: ConfigDeclaration,
                                               areas: seq<int>, key: (int, int))
    requires KeyedAreas(decl.config.prop, areas)
    ensures key in StoreInitialValues(store, registered, decl, areas) <==>
      key in store || Selected(registered, decl, areas, key)
    ensures Selected(registered, decl, areas, key) ==>
      StoreInitialValues(store, registered, decl, areas)[key] == InitialValueFor(decl, key.1).value
    ensures key in store && !Selected(registered, decl, areas, key) ==>
      StoreInitialValues(store, registered, decl, areas)[key] == store[key]
    decreases |areas|
  {
    if areas != [] {
      var n := |areas| - 1;
      assert StoreKey(decl.config.prop, areas[n]) == (decl.config.prop, areas[n]);
      StoredInitialValues(store, registered, decl, areas[..n], key);
      assert areas == areas[..n] + [areas[n]];
      assert key.1 in areas <==> key.1 in areas[..n] || key.1 == areas[n];
    }
  }

  /** The store after `init` has registered and stored the declarations at `order`. */
  function InitConfigs(s: StoreState, configs: Configs, order: seq<int>): StoreState
    requires forall i :: 0 <= i < |order| ==> order[i] in configs
    decreases |order|
  {
    if order == [] then s
    else
      var prev := InitConfigs(s, configs, order[..|order| - 1]);
      var decl := configs[order[|order| - 1]];
      var reg := RegisterProperty(prev.store, prev.registered, decl.config);
      StoreState(StoreInitialValues(reg.0, reg.1, decl, InitAreas(decl.config)), reg.1)
  }

  /** The registrations `init` makes, visiting the ids at `order`. */
  function InitRegistrations(registered: Registered, configs: Configs, order: seq<int>): Registered
    requires forall i :: 0 <= i < |order| ==> order[i] in configs
    decreases |order|
  {
    if order == [] then registered
    else
      var decl := configs[order[|order| - 1]];
      InitRegistrations(registered, configs, order[..|order| - 1])[decl.config.prop := decl.config]
  }

  lemma {:induction false} InitConfigsRegistrations(s: StoreState, configs: Configs, order: seq<int>)
    requires forall i :: 0 <= i < |order| ==> order[i] in configs
    ensures InitConfigs(s, configs, order).registered == InitRegistrations(s.registered, configs, order)
    decreases |order|
  {
    if order != [] {
      InitConfigsRegistrations(s, configs, order[..|order| - 1]);
    }
  }

  lemma {:induction false} InitRegistrationsKeys(registered: Registered, configs: Configs, order: seq<int>, prop: int)
    requires forall i :: 0 <= i < |order| ==> order[i] in configs
    ensures prop in InitRegistrations(registered, configs, order) <==>
      prop in registered || exists i :: 0 <= i < |order| && configs[order[i]].config.prop == prop
    decreases |order|
  {
    if order != [] {
      var n := |order| - 1;
      InitRegistrationsKeys(registered, configs, order[..n], prop);
      forall i | 0 <= i < n
        ensures order[..n][i] == order[i]
      {
      }
    }
  }

  /** `init` registers the config of every declaration it visits, and no other property. */
  lemma InitRegisters(s: StoreState, configs: Configs, order: seq<int>, prop: int)
    requires forall i :: 0 <= i < |order| ==> order[i] in configs
    ensures prop in InitConfigs(s, configs, order).registered <==>
      prop in s.registered || exists i :: 0 <= i < |order| && configs[order[i]].config.prop == prop
  {
    InitConfigsRegistrations(s, configs, order);
    InitRegistrationsKeys(s.registered, configs, order, prop);
  }

  /**
   * One step of `init`: registering a declaration and storing its initial
   * values stores each value it selects, drops every other value the store
   * held for that property, and leaves the keys of every other property
   * alone.
   */
  lemma InitStep(prev: StoreState, decl: ConfigDeclaration, key: (int, int))
    ensures var reg := RegisterProperty(prev.store, prev.registered, decl.config);
      var after := StoreInitialValues(reg.0, reg.1, decl, InitAreas(decl.config));
      (key.0 != decl.config.prop ==>
        (key in after <==> key in prev.store) && (key in prev.store ==> after[key] == prev.store[key])) &&
      (key.0 == decl.config.prop && key.1 in InitAreas(decl.config) && InitialValueFor(decl, key.1).Some? ==>
        key in after && after[key] == InitialValueFor(decl, key.1).value) &&
      (key.0 == decl.config.prop && !(key.1 in InitAreas(decl.config) && InitialValueFor(decl, key.1).Some?) ==>
        key !in after)
  {
    var reg := RegisterProperty(prev.store, prev.registered, decl.config);
    InitAreasKeyed(decl.config);
    StoredInitialValues(reg.0, reg.1, decl, InitAreas(decl.config), key);
    if key.0 == decl.config.prop && key.1 in InitAreas(decl.config) {
      InitAreasWritable(prev.store, prev.registered, decl.config, key.1);
    }
  }

  /**
   * When no other visited declaration has the same property id, every value
   * a declaration selects for one of its areas is in the store after `init`.
   */
  lemma {:induction false} InitStoresInitialValues(s: StoreState, configs: Configs, order: seq<int>, i: nat, area: int)
    requires forall k :: 0 <= k < |order| ==> order[k] in configs
    requires i < |order|
    requires forall j :: 0 <= j < |order| && j != i ==>
      configs[order[j]].config.prop != configs[order[i]].config.prop
    requires area in InitAreas(configs[order[i]].config) && InitialValueFor(configs[order[i]], area).Some?
    ensures var key := (configs[order[i]].config.prop, area);
      key in InitConfigs(s, configs, order).store &&
      InitConfigs(s, configs, order).store[key] == InitialValueFor(configs[order[i]], area).value
    decreases |order|
  {
    var n := |order| - 1;
    var decl := configs[order[i]];
    var key := (decl.config.prop, area);
    var prev := InitConfigs(s, configs, order[..n]);
    InitStep(prev, configs[order[n]], key);
    if i < n {
      forall j | 0 <= j < n
        ensures order[..n][j] == order[j]
      {
      }
      InitStoresInitialValues(s, configs, order[..n], i, area);
    }
  }

  class GpioFakeVehicleHardware {
    const configLoader: DemonstratorJsonConfigLoader
    /** `FakeVehicleHardware::setValues`, which writes the accepted values to the store. */
    const baseSetValues: BaseSetValues
    var store: Store
    var registered: Registered
    /** The `setValues` calls handed to the base class, oldest first. */
    var forwarded: seq<SetValuesCall>

    function StoreOf(): StoreState
      reads this
    {
      StoreState(store, registered)
    }

    /**
     * The constructor: `store` and `registered` are what the base class
     * constructor left in the property store; then `init` runs.
     */
    constructor(configLoader: DemonstratorJsonConfigLoader, baseSetValues: BaseSetValues,
                store: Store, registered: Registered,
                files: map<string, Document>, dir: Option<seq<string>>, order: seq<int>)
      requires Enumerates(order, DirConfigs(FileLoaderOf(configLoader.registry, configLoader.systemLoader, files),
                                            VENDOR_PROPERTY_CONFIG_DIR, map[], dir).Keys)
      ensures this.configLoader == configLoader && this.baseSetValues == baseSetValues
      ensures StoreOf() == InitConfigs(StoreState(store, registered),
        DirConfigs(FileLoaderOf(configLoader.registry, configLoader.systemLoader, files), VENDOR_PROPERTY_CONFIG_DIR, map[], dir),
        order)
      ensures forwarded == []
    {
      this.configLoader := configLoader;
      this.baseSetValues := baseSetValues;
      this.store := store;
      this.registered := registered;
      this.forwarded := [];
      new;
      Init(files, dir, order);
    }

    /**
     * `setValues`: the call goes to the base class as it is; the status and
     * the store are the base class's, and the registrations stay.
     */
    method SetValues(callback: int, requests: seq<SetValueRequest>) returns (status: StatusCode)
      modifies this
      ensures (status, store) == baseSetValues(old(store), old(registered), SetValuesCall(callback, requests))
      ensures forwarded == old(forwarded) + [SetValuesCall(callback, requests)]
      ensures registered == old(registered)
    {
      var base := baseSetValues(store, registered, SetValuesCall(callback, requests));
      status, store := base.0, base.1;
      forwarded := forwarded + [SetValuesCall(callback, requests)];
    }

    /**
     * `init`: load the vendor files into `configsByPropId`, then register
     * and store each declaration, visiting the ids in `order`.
     */
    method Init(files: map<string, Document>, dir: Option<seq<string>>, order: seq<int>)
      requires Enumerates(order, DirConfigs(FileLoaderOf(configLoader.registry, configLoader.systemLoader, files),
                                            VENDOR_PROPERTY_CONFIG_DIR, map[], dir).Keys)
      modifies this
      ensures StoreOf() == InitConfigs(old(StoreOf()),
        DirConfigs(FileLoaderOf(configLoader.registry, configLoader.systemLoader, files), VENDOR_PROPERTY_CONFIG_DIR, map[], dir),
        order)
      ensures forwarded == old(forwarded)
    {
      var configsByPropId := LoadPropConfigsFromDir(configLoader, files, VENDOR_PROPERTY_CONFIG_DIR, dir, map[]);
      for i := 0 to |order|
        invariant StoreOf() == InitConfigs(old(StoreOf()), configsByPropId, order[..i])
        invariant forwarded == old(forwarded)
      {
        assert order[..i + 1][..i] == order[..i];
        var decl := configsByPropId[order[i]];
        var reg := RegisterProperty(store, registered, decl.config);
        store, registered := reg.0, reg.1;
        StorePropInitialValue(decl);
      }
      assert order[..|order|] == order;
    }

    /** `storePropInitialValue`: write the selected initial value of each area of the property. */
    method StorePropInitialValue(decl: ConfigDeclaration)
      modifies this
      ensures store == StoreInitialValues(old(store), registered, decl, InitAreas(decl.config))
      ensures registered == old(registered) && forwarded == old(forwarded)
    {
      var propId := decl.config.prop;
      var globalProp := IsGlobalProp(propId);
      var numAreas := if globalProp then 1 else |decl.config.areaConfigs|;
      ghost var areas := InitAreas(decl.config);
      assert |areas| == numAreas;
      for i := 0 to numAreas
        invariant store == StoreInitialValues(old(store), registered, decl, areas[..i])
        invariant registered == old(registered) && forwarded == old(forwarded)
      {
        assert areas[..i + 1][..i] == areas[..i];
        var curArea := if globalProp then 0 else decl.config.areaConfigs[i].areaId;
        assert curArea == areas[i];
        var value: RawPropValues;
        if decl.initialAreaValues == map[] {
          if decl.initialValue == EMPTY_VALUES {
            continue;
          }
          value := decl.initialValue;
        } else if curArea in decl.initialAreaValues {
          value := decl.initialAreaValues[curArea];
        } else {
          continue;
        }
        var result := WriteValue(store, registered, PropValue(propId, curArea, value));
        store := result.1;
      }
      assert areas[..numAreas] == areas;
    }
  }
}
