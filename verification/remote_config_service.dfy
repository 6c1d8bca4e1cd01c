/**
 * `RemoteConfigService`: resolves each flag once per value type (debug
 * source, then keeper, then the type's `default`), caches the result by type
 * identity, and records keys whose value is missing or incorrect.
 *
 * The keeper and the overridable `debugValue` are parameters (`Sources`).
 * The overridable tracking hooks are recorded, in call order, as `Event`s.
 * A value's `as? ExperimentalGroupTrackable` cast is the `trackable` tag,
 * and `shouldTrack` is the value's own implementation of that protocol's
 * requirement (module Tracking gives the protocol extension's default).
 */
module RemoteConfig {
  import opened Wrappers
  import Tracking
  import ValueKinds
  import FirebaseKeeper

  /** The identity of a value type (`ObjectIdentifier` of `RemoteValue.Type`). */
  type TypeId = nat

  datatype RemoteKey = RemoteKey(name: string, valueType: TypeId)

  /** One call of an overridable tracking hook. */
  datatype Event<V> =
    | KeyNotFound(key: RemoteKey)                              // trackKeyNotFound
    | IncorrectValue(key: RemoteKey, representation: string)   // trackIncorrectValue
    | ExperimentalGroup(group: V)                              // trackExperimentalGroup
    | KeysNotFound(keys: seq<RemoteKey>)                       // trackKeysNotFound
    | IncorrectValues(data: seq<(RemoteKey, string)>)          // trackIncorrectValues

  /** What the service consults. */
  datatype Sources<!V> = Sources(
    debugValue: RemoteKey -> Option<V>,         // `debugValue(for:)`: `nil` unless overridden
    keeperValue: RemoteKey -> Option<V>,        // `remoteConfigKeeper.value(for:)`
    keeperRepr: RemoteKey -> Option<string>,    // `remoteConfigKeeper.stringValueRepresentation(for:)`
    defaultOf: TypeId -> V,                     // `T.default`
    trackable: V -> bool,                       // conforms to `ExperimentalGroupTrackable`
    shouldTrack: V -> bool)                     // its `shouldTrack`, when it conforms

  /** The service's stored properties, as values. */
  datatype ServiceState<V> = ServiceState(
    storage: map<TypeId, V>,
    missingKeys: seq<RemoteKey>,
    incorrectValues: seq<(RemoteKey, string)>,
    allKeys: seq<RemoteKey>,
    events: seq<Event<V>>)

  /** The service before any lookup. */
  function Initial<V>(): ServiceState<V> {
    ServiceState(map[], [], [], [], [])
  }

  /** The debug value when there is one, the keeper's value otherwise. */
  function Resolve<V>(src: Sources<V>, key: RemoteKey): (r: Option<V>)
    ensures src.debugValue(key).Some? ==> r == src.debugValue(key)
    ensures src.debugValue(key).None? ==> r == src.keeperValue(key)
  {
    match src.debugValue(key)
    case Some(v) => Some(v)
    case None => src.keeperValue(key)
  }

  /** Whether a resolved value is reported through `trackExperimentalGroup`. */
  predicate Tracks<V>(src: Sources<V>, v: V) {
    src.trackable(v) && src.shouldTrack(v)
  }

  /**
   * `getRemoteValue(for: key, with: key.valueType)`: the new state and the value returned.
   */
  function Lookup<V>(src: Sources<V>, s: ServiceState<V>, key: RemoteKey): (r: (ServiceState<V>, V))
    ensures key.valueType in r.0.storage && r.0.storage[key.valueType] == r.1
    ensures r.0.storage == s.storage[key.valueType := r.1]
    ensures r.0.allKeys == s.allKeys
    ensures s.missingKeys <= r.0.missingKeys && s.incorrectValues <= r.0.incorrectValues && s.events <= r.0.events
    ensures key.valueType !in s.storage ==> r.1 == Resolve(src, key).GetOr(src.defaultOf(key.valueType))
  {
    if key.valueType in s.storage then (s, s.storage[key.valueType])
    else
      var resolved := Resolve(src, key);
      var s1 :=
        if resolved.Some? then s
        else match src.keeperRepr(key)
          case Some(repr) => s.(incorrectValues := s.incorrectValues + [(key, repr)], events := s.events + [IncorrectValue(key, repr)])
          case None => s.(missingKeys := s.missingKeys + [key], events := s.events + [KeyNotFound(key)]);
      var s2 :=
        if resolved.Some? && Tracks(src, resolved.value) then s1.(events := s1.events + [ExperimentalGroup(resolved.value)])
        else s1;
      var v := resolved.GetOr(src.defaultOf(key.valueType));
      (s2.(storage := s2.storage[key.valueType := v]), v)
  }

  /** `keys.forEach { getRemoteValue(for: $0, with: $0.valueType) }`, in order. */
  function LookupAll<V>(src: Sources<V>, s: ServiceState<V>, keys: seq<RemoteKey>): ServiceState<V>
    decreases |keys|
  {
    if keys == [] then s
    else Lookup(src, LookupAll(src, s, keys[..|keys| - 1]), keys[|keys| - 1]).0
  }

  /** The batch reports `getValues` makes once every key is resolved. */
  function BatchReports<V>(s: ServiceState<V>): ServiceState<V> {
    var s1 := if s.missingKeys != [] then s.(events := s.events + [KeysNotFound(s.missingKeys)]) else s;
    if s1.incorrectValues != [] then s1.(events := s1.events + [IncorrectValues(s1.incorrectValues)]) else s1
  }

  /** `getValues(for:)` */
  function AfterGetValues<V>(src: Sources<V>, s: ServiceState<V>, keys: seq<RemoteKey>): ServiceState<V> {
    BatchReports(LookupAll(src, s.(allKeys := keys), keys))
  }

  // ---------------------------------------------------------------------
  // Properties of one lookup
  // ---------------------------------------------------------------------

  /**
   * A cached type is answered from the cache: neither source is consulted,
   * nothing is reported, nothing changes.
   */
  lemma CacheHit<V>(src: Sources<V>, src': Sources<V>, s: ServiceState<V>, key: RemoteKey)
    requires key.valueType in s.storage
    ensures Lookup(src, s, key) == (s, s.storage[key.valueType])
    ensures Lookup(src, s, key) == Lookup(src', s, key)
  {
  }

  /**
   * On a miss, a debug value wins and the keeper is not consulted: the
   * lookup is the same whatever the keeper says.
   */
  lemma DebugFirst<V>(src: Sources<V>, s: ServiceState<V>, key: RemoteKey,
                      keeperValue: RemoteKey -> Option<V>, keeperRepr: RemoteKey -> Option<string>)
    requires src.debugValue(key).Some?
    ensures Lookup(src, s, key) == Lookup(src.(keeperValue := keeperValue, keeperRepr := keeperRepr), s, key)
    ensures key.valueType !in s.storage ==> Lookup(src, s, key).1 == src.debugValue(key).value
  {
  }

  /**
   * On a miss, exactly one of the two lists grows, by one entry, when no value
   * is found: `incorrectValues` when the keeper has a representation,
   * `missingKeys` otherwise, and the matching hook (`trackIncorrectValue` or
   * `trackKeyNotFound`) is the one event recorded. When a value is found,
   * neither list grows and neither hook is called.
   */
  lemma ReportsAtMostOne<V>(src: Sources<V>, s: ServiceState<V>, key: RemoteKey)
    requires key.valueType !in s.storage
    ensures var r := Lookup(src, s, key).0;
      && (Resolve(src, key).Some? ==>
            && r.missingKeys == s.missingKeys && r.incorrectValues == s.incorrectValues
            && (r.events == s.events || r.events == s.events + [ExperimentalGroup(Resolve(src, key).value)]))
      && (Resolve(src, key).None? && src.keeperRepr(key).Some? ==>
            && r.missingKeys == s.missingKeys
            && r.incorrectValues == s.incorrectValues + [(key, src.keeperRepr(key).value)]
            && r.events == s.events + [IncorrectValue(key, src.keeperRepr(key).value)])
      && (Resolve(src, key).None? && src.keeperRepr(key).None? ==>
            && r.missingKeys == s.missingKeys + [key] && r.incorrectValues == s.incorrectValues
            && r.events == s.events + [KeyNotFound(key)])
  {
  }

  /**
   * `trackExperimentalGroup` is called exactly when a cache miss resolves a
   * value that is trackable and not in a baseline group, and with that value.
   */
  lemma TracksOnlyResolvedValues<V>(src: Sources<V>, s: ServiceState<V>, key: RemoteKey)
    ensures var r := Lookup(src, s, key).0;
      (exists e :: e in r.events[|s.events|..] && e.ExperimentalGroup?) <==>
        key.valueType !in s.storage && Resolve(src, key).Some? && Tracks(src, Resolve(src, key).value)
    ensures var r := Lookup(src, s, key).0;
      forall e :: e in r.events[|s.events|..] && e.ExperimentalGroup? ==> e.group == Resolve(src, key).value
  {
    var r := Lookup(src, s, key).0;
    if key.valueType !in s.storage {
      var resolved := Resolve(src, key);
      if resolved.Some? && Tracks(src, resolved.value) {
        assert r.events[|s.events|..] == [ExperimentalGroup(resolved.value)];
        assert ExperimentalGroup(resolved.value) in r.events[|s.events|..];
      } else if resolved.None? {
        assert r.events[|s.events|..] == (if src.keeperRepr(key).Some? then [IncorrectValue(key, src.keeperRepr(key).value)] else [KeyNotFound(key)]);
      } else {
        assert r.events[|s.events|..] == [];
      }
    } else {
      assert r.events[|s.events|..] == [];
    }
  }

  /**
   * When a type keeps the protocol extension's `shouldTrack`, a value in the
   * baseline group is never reported through `trackExperimentalGroup`, and a
   * trackable value outside it is, on a cache miss.
   */
  lemma DefaultShouldTrack<V>(src: Sources<V>, baselineOf: V -> Option<bool>, s: ServiceState<V>, key: RemoteKey)
    requires forall v :: src.shouldTrack(v) == Tracking.ShouldTrack(baselineOf(v))
    ensures var r := Lookup(src, s, key).0;
      forall e :: e in r.events[|s.events|..] && e.ExperimentalGroup? ==> baselineOf(e.group) != Some(true)
    ensures var r := Lookup(src, s, key).0;
      key.valueType !in s.storage && Resolve(src, key).Some? && src.trackable(Resolve(src, key).value) &&
      baselineOf(Resolve(src, key).value) != Some(true) ==>
        ExperimentalGroup(Resolve(src, key).value) in r.events[|s.events|..]
  {
    TracksOnlyResolvedValues(src, s, key);
    var r := Lookup(src, s, key).0;
    if key.valueType !in s.storage && Resolve(src, key).Some? {
      var v := Resolve(src, key).value;
      assert src.shouldTrack(v) == Tracking.ShouldTrack(baselineOf(v));
      if Tracks(src, v) {
        assert r.events[|s.events|..] == [ExperimentalGroup(v)];
      }
    }
  }

  /**
   * The cache is keyed by type: a second key of the same type gets the first
   * key's value, and its own name is never looked up or reported.
   */
  lemma SameTypeSharesValue<V>(src: Sources<V>, s: ServiceState<V>, k1: RemoteKey, k2: RemoteKey)
    requires k1.valueType == k2.valueType
    ensures var (s1, v1) := Lookup(src, s, k1);
      Lookup(src, s1, k2) == (s1, v1)
  {
  }

  // ---------------------------------------------------------------------
  // Properties of a run of lookups
  // ---------------------------------------------------------------------

  /** Earlier reports are never removed: each list only grows, and the cache only gains types. */
  lemma {:induction false} ListsOnlyGrow<V>(src: Sources<V>, s: ServiceState<V>, keys: seq<RemoteKey>)
    ensures var r := LookupAll(src, s, keys);
      && s.missingKeys <= r.missingKeys
      && s.incorrectValues <= r.incorrectValues
      && s.events <= r.events
      && s.storage.Keys <= r.storage.Keys
      && r.allKeys == s.allKeys
    decreases |keys|
  {
    if keys != [] {
      ListsOnlyGrow(src, s, keys[..|keys| - 1]);
    }
  }

  /** The types of the keys a run of lookups reported, as missing or as incorrect, counted with repetition. */
  function ReportedTypes<V>(s: ServiceState<V>, r: ServiceState<V>): multiset<TypeId>
    requires s.missingKeys <= r.missingKeys && s.incorrectValues <= r.incorrectValues
  {
    multiset(TypesOf(r.missingKeys[|s.missingKeys|..])) + multiset(TypesOf(IncorrectKeys(r.incorrectValues[|s.incorrectValues|..])))
  }

  function TypesOf(keys: seq<RemoteKey>): (r: seq<TypeId>)
    ensures |r| == |keys| && forall i :: 0 <= i < |keys| ==> r[i] == keys[i].valueType
  {
    if keys == [] then [] else [keys[0].valueType] + TypesOf(keys[1..])
  }

  function IncorrectKeys(data: seq<(RemoteKey, string)>): (r: seq<RemoteKey>)
    ensures |r| == |data| && forall i :: 0 <= i < |data| ==> r[i] == data[i].0
  {
    if data == [] then [] else [data[0].0] + IncorrectKeys(data[1..])
  }

  lemma TypesOfAppend(keys: seq<RemoteKey>, key: RemoteKey)
    ensures TypesOf(keys + [key]) == TypesOf(keys) + [key.valueType]
  {
  }

  lemma IncorrectKeysAppend(data: seq<(RemoteKey, string)>, entry: (RemoteKey, string))
    ensures IncorrectKeys(data + [entry]) == IncorrectKeys(data) + [entry.0]
  {
  }

  /** Appending a missing key adds its type to the reported types. */
  lemma ReportedMissing<V>(s: ServiceState<V>, m: ServiceState<V>, r: ServiceState<V>, key: RemoteKey)
    requires s.missingKeys <= m.missingKeys && s.incorrectValues <= m.incorrectValues
    requires r.missingKeys == m.missingKeys + [key] && r.incorrectValues == m.incorrectValues
    ensures s.missingKeys <= r.missingKeys
    ensures ReportedTypes(s, r) == ReportedTypes(s, m) + multiset{key.valueType}
  {
    var mm := m.missingKeys[|s.missingKeys|..];
    assert r.missingKeys[|s.missingKeys|..] == mm + [key];
    TypesOfAppend(mm, key);
  }

  /** Appending an incorrect value adds its key's type to the reported types. */
  lemma ReportedIncorrect<V>(s: ServiceState<V>, m: ServiceState<V>, r: ServiceState<V>, entry: (RemoteKey, string))
    requires s.missingKeys <= m.missingKeys && s.incorrectValues <= m.incorrectValues
    requires r.missingKeys == m.missingKeys && r.incorrectValues == m.incorrectValues + [entry]
    ensures s.incorrectValues <= r.incorrectValues
    ensures ReportedTypes(s, r) == ReportedTypes(s, m) + multiset{entry.0.valueType}
  {
    var mi := m.incorrectValues[|s.incorrectValues|..];
    assert r.incorrectValues[|s.incorrectValues|..] == mi + [entry];
    IncorrectKeysAppend(mi, entry);
    TypesOfAppend(IncorrectKeys(mi), entry.0);
  }

  /** One lookup adds to the reported types at most its own key's type, and only on a miss. */
  lemma ReportStep<V>(src: Sources<V>, s: ServiceState<V>, m: ServiceState<V>, key: RemoteKey)
    requires s.missingKeys <= m.missingKeys && s.incorrectValues <= m.incorrectValues
    ensures var r := Lookup(src, m, key).0;
      && s.missingKeys <= r.missingKeys && s.incorrectValues <= r.incorrectValues
      && (ReportedTypes(s, r) == ReportedTypes(s, m) ||
          (key.valueType !in m.storage && ReportedTypes(s, r) == ReportedTypes(s, m) + multiset{key.valueType}))
  {
    var r := Lookup(src, m, key).0;
    if key.valueType in m.storage {
      assert r == m;
    } else {
      ReportsAtMostOne(src, m, key);
      if Resolve(src, key).Some? {
        assert r.missingKeys == m.missingKeys && r.incorrectValues == m.incorrectValues;
      } else if src.keeperRepr(key).Some? {
        ReportedIncorrect(s, m, r, (key, src.keeperRepr(key).value));
      } else {
        ReportedMissing(s, m, r, key);
      }
    }
  }

  /**
   * Each value type is reported at most once by a run of lookups, and only
   * if it was not cached before: the reports name distinct, newly cached types.
   */
  lemma {:induction false} EachTypeReportedOnce<V>(src: Sources<V>, s: ServiceState<V>, keys: seq<RemoteKey>)
    ensures var r := LookupAll(src, s, keys);
      && s.missingKeys <= r.missingKeys && s.incorrectValues <= r.incorrectValues
      && forall t :: t in ReportedTypes(s, r) ==>
           ReportedTypes(s, r)[t] == 1 && t in r.storage && t !in s.storage
    decreases |keys|
  {
    if keys == [] {
      assert ReportedTypes(s, s) == multiset{};
    } else {
      var prefix := keys[..|keys| - 1];
      var key := keys[|keys| - 1];
      var m := LookupAll(src, s, prefix);
      EachTypeReportedOnce(src, s, prefix);
      ReportStep(src, s, m, key);
      ListsOnlyGrow(src, s, prefix);
    }
  }

  /**
   * `getValues` records its keys, resolves them in order and never clears
   * the lists, so its batch reports repeat what earlier calls reported.
   */
  lemma GetValuesKeepsHistory<V>(src: Sources<V>, s: ServiceState<V>, keys: seq<RemoteKey>)
    ensures var r := AfterGetValues(src, s, keys);
      && r.allKeys == keys
      && s.events <= r.events
      && s.missingKeys <= r.missingKeys
      && s.incorrectValues <= r.incorrectValues
      && (s.missingKeys != [] ==> KeysNotFound(r.missingKeys) in r.events[|s.events|..])
  {
    var s0 := s.(allKeys := keys);
    ListsOnlyGrow(src, s0, keys);
    var l := LookupAll(src, s0, keys);
    var r := AfterGetValues(src, s, keys);
    if s.missingKeys != [] {
      assert l.missingKeys != [];
      var e1 := l.events + [KeysNotFound(l.missingKeys)];
      assert r.events[..|e1|] == e1;
      assert r.events[|s.events|..][|l.events| - |s.events|] == KeysNotFound(l.missingKeys);
    }
  }

  /**
   * A batch report is made exactly when its list is non-empty, after the
   * lookups' own reports.
   */
  lemma BatchReportsWhenNonEmpty<V>(s: ServiceState<V>)
    ensures var r := BatchReports(s);
      && r.events[..|s.events|] == s.events
      && (KeysNotFound(s.missingKeys) in r.events[|s.events|..] <==> s.missingKeys != [])
      && (IncorrectValues(s.incorrectValues) in r.events[|s.events|..] <==> s.incorrectValues != [])
      && r.(events := s.events) == s
  {
    var r := BatchReports(s);
    var tail := r.events[|s.events|..];
    var k := KeysNotFound(s.missingKeys);
    var v := IncorrectValues(s.incorrectValues);
    assert r.events == s.events + tail;
    if s.missingKeys != [] && s.incorrectValues != [] {
      assert tail == [k, v];
    } else if s.missingKeys != [] {
      assert tail == [k];
    } else if s.incorrectValues != [] {
      assert tail == [v];
    } else {
      assert tail == [];
    }
  }

  // ---------------------------------------------------------------------
  // With the Firebase keeper
  // ---------------------------------------------------------------------

  /** The sources the service sees through a `FirebaseRemoteConfigKeeper` and no debug override. */
  function FirebaseSources<V>(config: FirebaseKeeper.Config, kindOf: TypeId -> ValueKinds.ValueKind<V>,
                              defaultOf: TypeId -> V, trackable: V -> bool, shouldTrack: V -> bool): (r: Sources<V>)
    ensures forall key :: r.debugValue(key).None?
  {
    Sources(
      (_: RemoteKey) => None,
      (key: RemoteKey) => FirebaseKeeper.Value(config, key.name, kindOf(key.valueType)),
      (key: RemoteKey) => FirebaseKeeper.StringValueRepresentation(config, key.name),
      defaultOf, trackable, shouldTrack)
  }

  /**
   * Through the Firebase keeper a bool-only flag is never an incorrect value:
   * it is decoded, or missing when its string is empty or absent.
   */
  lemma BoolFlagNeverIncorrect<V>(config: FirebaseKeeper.Config, kindOf: TypeId -> ValueKinds.ValueKind<V>,
                                  defaultOf: TypeId -> V, trackable: V -> bool, shouldTrack: V -> bool,
                                  s: ServiceState<V>, key: RemoteKey)
    requires kindOf(key.valueType).stringInit.None? && kindOf(key.valueType).boolInit.Some?
    ensures var src := FirebaseSources(config, kindOf, defaultOf, trackable, shouldTrack);
      Lookup(src, s, key).0.incorrectValues == s.incorrectValues
  {
    FirebaseKeeper.BoolFlagNeverIncorrect(config, key.name, kindOf(key.valueType));
  }

  // ---------------------------------------------------------------------
  // The service object
  // ---------------------------------------------------------------------

  class RemoteConfigService<V> {
    const src: Sources<V>

    var storage: map<TypeId, V>
    var missingKeys: seq<RemoteKey>
    var incorrectValues: seq<(RemoteKey, string)>
    var allKeys: seq<RemoteKey>
    var events: seq<Event<V>>

    /** The stored properties, as one value. */
    function Snapshot(): ServiceState<V>
      reads this
    {
      ServiceState(storage, missingKeys, incorrectValues, allKeys, events)
    }

    /** `init(remoteConfigKeeper:)` */
    constructor(src: Sources<V>)
      ensures this.src == src && Snapshot() == Initial()
    {
      this.src := src;
      storage := map[];
      missingKeys := [];
      incorrectValues := [];
      allKeys := [];
      events := [];
    }

    /** `getRemoteValue(for: key, with: key.valueType)` */
    method GetRemoteValue(key: RemoteKey) returns (value: V)
      modifies this
      ensures (Snapshot(), value) == Lookup(src, old(Snapshot()), key)
    {
      var storageKey := key.valueType;
      if storageKey in storage {
        return storage[storageKey];
      }

      var remoteValue := src.debugValue(key);
      if remoteValue.None? {
        remoteValue := src.keeperValue(key);
      }

      if remoteValue.None? {
        var representation := src.keeperRepr(key);
        if representation.Some? {
          incorrectValues := incorrectValues + [(key, representation.value)];
          events := events + [IncorrectValue(key, representation.value)];
        } else {
          missingKeys := missingKeys + [key];
          events := events + [KeyNotFound(key)];
        }
      }

      if remoteValue.Some? && src.trackable(remoteValue.value) && src.shouldTrack(remoteValue.value) {
        events := events + [ExperimentalGroup(remoteValue.value)];
      }

      value := if remoteValue.Some? then remoteValue.value else src.defaultOf(storageKey);
      storage := storage[storageKey := value];
    }

    /** `getValues(for:)` */
    method GetValues(keys: seq<RemoteKey>)
      modifies this
      ensures Snapshot() == AfterGetValues(src, old(Snapshot()), keys)
    {
      allKeys := keys;
      ghost var start := Snapshot();
      var i := 0;
      while i < |keys|
        invariant 0 <= i <= |keys|
        invariant Snapshot() == LookupAll(src, start, keys[..i])
      {
        assert keys[..i + 1][..i] == keys[..i];
        var _ := GetRemoteValue(keys[i]);
        i := i + 1;
      }
      assert keys[..i] == keys;
      if missingKeys != [] {
        events := events + [KeysNotFound(missingKeys)];
      }
      if incorrectValues != [] {
        events := events + [IncorrectValues(incorrectValues)];
      }
    }

    /**
     * `getRemoteValuePublisher(for: key, with: key.valueType)`: the value the
     * returned publisher currently holds. The type's entry is created by a
     * lookup when absent, and left alone when present.
     */
    method GetRemoteValuePublisher(key: RemoteKey) returns (current: V)
      modifies this
      ensures old(key.valueType in storage) ==> Snapshot() == old(Snapshot()) && current == storage[key.valueType]
      ensures old(key.valueType !in storage) ==> (Snapshot(), current) == Lookup(src, old(Snapshot()), key)
      ensures key.valueType in storage && current == storage[key.valueType]
    {
      if key.valueType !in storage {
        var _ := GetRemoteValue(key);
      }
      current := storage[key.valueType];
    }
  }
}
