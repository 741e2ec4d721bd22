/** Registration: the device-type registry that maps an `int32_t` device kind
    to that kind's operator registry, the keys under which engine-specific
    operator variants are registered, and the static-initialization sequence
    that fills a registry. A duplicate key is never allowed to shadow an entry:
    the process exits instead. */
module Registry {
  import opened Numbers

  // ---------------------------------------------------------------------------
  // Duplicate-refusing insertion
  // ---------------------------------------------------------------------------

  /** The result of inserting into a registry: the new contents, or the key
      that was already present. */
  datatype Registration<K, V> = Added(entries: map<K, V>) | Duplicate(key: K)

  /** Insert one entry unless its key is already present. */
  function Register<K, V>(m: map<K, V>, key: K, value: V): (r: Registration<K, V>)
    ensures r.Duplicate? <==> key in m
    ensures r.Duplicate? ==> r.key == key
    ensures r.Added? ==> r.entries.Keys == m.Keys + {key} && r.entries[key] == value
    ensures r.Added? ==> forall k :: k in m ==> r.entries[k] == m[k]
  {
    if key in m then Duplicate(key) else Added(m[key := value])
  }

  /** Registrations in the order their static initializers run; the first
      duplicate stops the program. */
  function RegisterAll<K, V>(m: map<K, V>, entries: seq<(K, V)>): (r: Registration<K, V>)
    ensures r.Added? ==> forall k :: k in m ==> k in r.entries && r.entries[k] == m[k]
    ensures r.Duplicate? ==> exists i :: 0 <= i < |entries| && entries[i].0 == r.key
    decreases |entries|
  {
    if |entries| == 0 then Added(m)
    else match Register(m, entries[0].0, entries[0].1)
      case Duplicate(k) => Duplicate(k)
      case Added(m') => RegisterAll(m', entries[1..])
  }

  ghost function KeysOf<K, V>(entries: seq<(K, V)>): set<K>
  {
    set e | e in entries :: e.0
  }

  /** No key is registered twice, neither against the starting contents nor
      among the new entries. */
  predicate NoClash<K, V>(m: map<K, V>, entries: seq<(K, V)>)
  {
    && (forall i :: 0 <= i < |entries| ==> entries[i].0 !in m)
    && (forall i, j :: 0 <= i < j < |entries| ==> entries[i].0 != entries[j].0)
  }

  /** Peeling off the first registration: no clash overall exactly when the
      first key is fresh and the rest clash with neither. */
  lemma NoClashFirst<K, V>(m: map<K, V>, entries: seq<(K, V)>)
    requires |entries| > 0
    ensures NoClash(m, entries) <==>
      entries[0].0 !in m && NoClash(m[entries[0].0 := entries[0].1], entries[1..])
  {
    var e := entries[0];
    var rest := entries[1..];
    var m' := m[e.0 := e.1];
    if NoClash(m, entries) {
      forall i, j | 0 <= i < j < |rest|
        ensures rest[i].0 != rest[j].0
      {
        assert entries[i + 1].0 != entries[j + 1].0;
      }
      forall i | 0 <= i < |rest|
        ensures rest[i].0 !in m'
      {
        assert entries[0].0 != entries[i + 1].0;
        assert entries[i + 1].0 !in m;
      }
    }
    if e.0 !in m && NoClash(m', rest) {
      forall i | 0 <= i < |entries|
        ensures entries[i].0 !in m
      {
        if i > 0 {
          assert rest[i - 1].0 !in m';
        }
      }
      forall i, j | 0 <= i < j < |entries|
        ensures entries[i].0 != entries[j].0
      {
        if i > 0 {
          assert rest[i - 1].0 != rest[j - 1].0;
        } else {
          assert rest[j - 1].0 !in m';
        }
      }
    }
  }

  /** A run of registrations succeeds exactly when no key clashes. */
  lemma {:induction false} RegisterAllSucceedsIffNoClash<K, V>(m: map<K, V>, entries: seq<(K, V)>)
    ensures RegisterAll(m, entries).Added? <==> NoClash(m, entries)
    decreases |entries|
  {
    if |entries| > 0 {
      NoClashFirst(m, entries);
      if entries[0].0 !in m {
        RegisterAllSucceedsIffNoClash(m[entries[0].0 := entries[0].1], entries[1..]);
      }
    }
  }

  /** A successful run yields the starting contents plus every entry, nothing
      overwritten. */
  lemma {:induction false} RegisterAllContents<K, V>(m: map<K, V>, entries: seq<(K, V)>)
    ensures RegisterAll(m, entries).Added? ==> Describes(RegisterAll(m, entries).entries, m, entries)
    decreases |entries|
  {
    if |entries| > 0 && entries[0].0 !in m {
      var e := entries[0];
      var rest := entries[1..];
      var m' := m[e.0 := e.1];
      assert RegisterAll(m, entries) == RegisterAll(m', rest);
      RegisterAllContents(m', rest);
      if RegisterAll(m', rest).Added? {
        var r := RegisterAll(m', rest).entries;
        assert KeysOf(entries) == {e.0} + KeysOf(rest) by {
          assert entries == [e] + rest;
        }
        forall i | 0 <= i < |entries|
          ensures entries[i].0 in r && r[entries[i].0] == entries[i].1
        {
          if i > 0 {
            assert entries[i] == rest[i - 1];
          }
        }
      }
    }
  }

  /** The key at position `i` is already taken when its registration runs. */
  predicate TakenBefore<K, V>(m: map<K, V>, entries: seq<(K, V)>, i: nat)
    requires i < |entries|
  {
    entries[i].0 in m || exists j :: 0 <= j < i && entries[j].0 == entries[i].0
  }

  /** Position `i` is the first registration whose key is already taken:
      the one whose registerer stops start-up. */
  predicate FirstClashAt<K, V>(m: map<K, V>, entries: seq<(K, V)>, i: nat)
  {
    && i < |entries|
    && TakenBefore(m, entries, i)
    && forall j :: 0 <= j < i ==> !TakenBefore(m, entries, j)
  }

  /** A failed run names the key of the first registration that found its key
      taken. */
  lemma {:induction false} RegisterAllNamesClash<K, V>(m: map<K, V>, entries: seq<(K, V)>)
    requires RegisterAll(m, entries).Duplicate?
    ensures exists i :: 0 <= i < |entries| && FirstClashAt(m, entries, i) && entries[i].0 == RegisterAll(m, entries).key
    decreases |entries|
  {
    var e := entries[0];
    if e.0 in m {
      assert FirstClashAt(m, entries, 0);
    } else {
      var m' := m[e.0 := e.1];
      var rest := entries[1..];
      assert RegisterAll(m, entries) == RegisterAll(m', rest);
      RegisterAllNamesClash(m', rest);
      var i :| 0 <= i < |rest| && FirstClashAt(m', rest, i) && rest[i].0 == RegisterAll(m', rest).key;
      assert entries[i + 1] == rest[i];
      if rest[i].0 in m' && rest[i].0 !in m {
        assert entries[0].0 == entries[i + 1].0;
      } else if rest[i].0 !in m' {
        var j :| 0 <= j < i && rest[j].0 == rest[i].0;
        assert entries[j + 1] == rest[j];
      }
      assert TakenBefore(m, entries, i + 1);
      forall j | 0 <= j < i + 1
        ensures !TakenBefore(m, entries, j)
      {
        if j > 0 {
          assert !TakenBefore(m', rest, j - 1);
          assert entries[j] == rest[j - 1];
          forall k | 0 <= k < j
            ensures entries[k].0 != entries[j].0
          {
            if k > 0 {
              assert entries[k] == rest[k - 1];
            }
          }
        }
      }
      assert FirstClashAt(m, entries, i + 1);
    }
  }

  /** A key seen at two positions occurs at least twice in the bag. */
  lemma TwoPositionsTwoOccurrences<T>(s: seq<T>, i: nat, j: nat)
    requires i < j < |s| && s[i] == s[j]
    ensures multiset(s)[s[i]] >= 2
  {
    assert s == s[..i] + [s[i]] + s[i + 1..j] + [s[j]] + s[j + 1..];
  }

  /** Without clashing keys no entry occurs twice. */
  lemma {:induction false} NoClashOccursOnce<K, V>(m: map<K, V>, a: seq<(K, V)>, x: (K, V))
    requires NoClash(m, a)
    ensures multiset(a)[x] <= 1
    decreases |a|
  {
    if |a| > 0 {
      var rest := a[1..];
      assert a == [a[0]] + rest;
      assert NoClash(m, rest) by {
        forall i, j | 0 <= i < j < |rest|
          ensures rest[i].0 != rest[j].0
        {
          assert a[i + 1].0 != a[j + 1].0;
        }
      }
      NoClashOccursOnce(m, rest, x);
      if a[0] == x {
        forall k | 0 <= k < |rest|
          ensures rest[k] != x
        {
          assert a[0].0 != a[k + 1].0;
        }
        assert x !in multiset(rest);
      }
    }
  }

  lemma NoClashPermutation<K, V>(m: map<K, V>, a: seq<(K, V)>, b: seq<(K, V)>)
    requires multiset(a) == multiset(b)
    requires NoClash(m, a)
    ensures NoClash(m, b)
  {
    forall i | 0 <= i < |b|
      ensures b[i].0 !in m
    {
      assert b[i] in multiset(a);
    }
    forall i, j | 0 <= i < j < |b|
      ensures b[i].0 != b[j].0
    {
      if b[i] == b[j] {
        TwoPositionsTwoOccurrences(b, i, j);
        NoClashOccursOnce(m, a, b[i]);
        assert false;
      } else {
        assert b[i] in multiset(a) && b[j] in multiset(a);
        var p :| 0 <= p < |a| && a[p] == b[i];
        var q :| 0 <= q < |a| && a[q] == b[j];
        if p < q {
          assert a[p].0 != a[q].0;
        } else {
          assert a[q].0 != a[p].0;
        }
      }
    }
  }

  /** `r` is the starting contents `m` plus every entry, nothing overwritten. */
  ghost predicate Describes<K, V>(r: map<K, V>, m: map<K, V>, entries: seq<(K, V)>)
  {
    && r.Keys == m.Keys + KeysOf(entries)
    && (forall k :: k in m ==> k in r && r[k] == m[k])
    && (forall i :: 0 <= i < |entries| ==> entries[i].0 in r && r[entries[i].0] == entries[i].1)
  }

  /** Such a description fixes the map, whatever the order of the entries. */
  lemma DescriptionDeterminesMap<K, V>(ra: map<K, V>, rb: map<K, V>, m: map<K, V>, a: seq<(K, V)>, b: seq<(K, V)>)
    requires multiset(a) == multiset(b)
    requires Describes(ra, m, a) && Describes(rb, m, b)
    ensures ra == rb
  {
    assert KeysOf(a) == KeysOf(b) by {
      forall e | e in a
        ensures e in b
      {
        assert e in multiset(b);
      }
      forall e | e in b
        ensures e in a
      {
        assert e in multiset(a);
      }
    }
    forall k | k in ra
      ensures ra[k] == rb[k]
    {
      if k !in m {
        var e :| e in a && e.0 == k;
        var i :| 0 <= i < |a| && a[i] == e;
        assert e in multiset(b);
        var j :| 0 <= j < |b| && b[j] == e;
        assert ra[a[i].0] == a[i].1;
        assert rb[b[j].0] == b[j].1;
      }
    }
  }

  /** Static initializers run in an order the language leaves open. Because
      duplicates are refused, that order decides neither whether start-up
      succeeds nor what the registry holds afterwards. */
  lemma RegistrationOrderIrrelevant<K, V>(m: map<K, V>, a: seq<(K, V)>, b: seq<(K, V)>)
    requires multiset(a) == multiset(b)
    ensures RegisterAll(m, a).Added? <==> RegisterAll(m, b).Added?
    ensures RegisterAll(m, a).Added? ==> RegisterAll(m, a).entries == RegisterAll(m, b).entries
  {
    RegisterAllSucceedsIffNoClash(m, a);
    RegisterAllSucceedsIffNoClash(m, b);
    if NoClash(m, a) {
      NoClashPermutation(m, a, b);
      RegisterAllContents(m, a);
      RegisterAllContents(m, b);
      DescriptionDeterminesMap(RegisterAll(m, a).entries, RegisterAll(m, b).entries, m, a, b);
    } else if NoClash(m, b) {
      NoClashPermutation(m, b, a);
      assert false;
    }
  }

  // ---------------------------------------------------------------------------
  // The device-type registry: DeviceTypeRegisterer
  // ---------------------------------------------------------------------------

  /** The operator registry that a device kind's registry function returns. */
  datatype RegistryRef = RegistryRef(name: string)

  type DeviceTypeRegistry = map<int32, RegistryRef>

  /** Program start-up either continues with some state or has exited with a
      status and a line on standard error. */
  datatype Startup<T> = Running(state: T) | Exited(status: int, stderr: string)

  const DEVICE_TYPE: string := "Device type "
  const REGISTERED_TWICE: string :=
    "registered twice. This should not happen. Did you have duplicated numbers assigned to different devices?"

  /** The diagnostic for a repeated device kind, as written: the number runs
      straight into "registered". */
  function DuplicateDeviceMessage(deviceType: int32): (msg: string)
    ensures |msg| > |DEVICE_TYPE| + |Decimal(deviceType)| && msg[..|DEVICE_TYPE|] == DEVICE_TYPE
    ensures msg[|DEVICE_TYPE|..|DEVICE_TYPE| + |Decimal(deviceType)|] == Decimal(deviceType)
    ensures msg[|DEVICE_TYPE| + |Decimal(deviceType)|..] == REGISTERED_TWICE
  {
    DEVICE_TYPE + Decimal(deviceType) + REGISTERED_TWICE
  }

  /** `DeviceTypeRegisterer(type, func)`: a device kind already present exits
      the program with status 1 and leaves its entry alone; otherwise the
      registry gains exactly that one entry. */
  function RegisterDeviceType(g: DeviceTypeRegistry, deviceType: int32, func: RegistryRef): (r: Startup<DeviceTypeRegistry>)
    ensures r.Exited? <==> deviceType in g
    ensures r.Exited? ==> r.status == 1 && r.stderr == DuplicateDeviceMessage(deviceType)
    ensures r.Running? ==> r.state.Keys == g.Keys + {deviceType} && r.state[deviceType] == func
    ensures r.Running? ==> forall k :: k in g ==> r.state[k] == g[k]
  {
    match Register(g, deviceType, func)
    case Duplicate(k) => Exited(1, DuplicateDeviceMessage(k))
    case Added(g') => Running(g')
  }

  /** All `CAFFE_REGISTER_DEVICE_TYPE` registerers of a program, run in the
      order their initializers happen to run. */
  function RegisterDeviceTypes(g: DeviceTypeRegistry, registerers: seq<(int32, RegistryRef)>): (r: Startup<DeviceTypeRegistry>)
    ensures r.Running? <==> NoClash(g, registerers)
    ensures r.Running? ==> r.state.Keys == g.Keys + KeysOf(registerers)
    ensures r.Running? ==> forall i :: 0 <= i < |registerers| ==> r.state[registerers[i].0] == registerers[i].1
    ensures r.Running? ==> forall k :: k in g ==> r.state[k] == g[k]
    ensures r.Exited? ==> r.status == 1
    ensures r.Exited? ==> exists i :: 0 <= i < |registerers| && FirstClashAt(g, registerers, i)
                                      && r.stderr == DuplicateDeviceMessage(registerers[i].0)
  {
    RegisterAllSucceedsIffNoClash(g, registerers);
    RegisterAllContents(g, registerers);
    match RegisterAll(g, registerers)
    case Duplicate(k) =>
      RegisterAllNamesClash(g, registerers);
      Exited(1, DuplicateDeviceMessage(k))
    case Added(g') => Running(g')
  }

  /** The diagnostic names the device kind unambiguously. */
  lemma DuplicateDeviceMessageNamesType(a: int32, b: int32)
    requires DuplicateDeviceMessage(a) == DuplicateDeviceMessage(b)
    ensures a == b
  {
    var p := DEVICE_TYPE;
    var sa := DuplicateDeviceMessage(a);
    var sb := DuplicateDeviceMessage(b);
    assert |Decimal(a)| == |Decimal(b)|;
    assert sa[|p|..|p| + |Decimal(a)|] == Decimal(a);
    assert sb[|p|..|p| + |Decimal(b)|] == Decimal(b);
    DecimalInjective(a, b);
  }

  /** The two reference device kinds, then the CPU kind again: start-up exits. */
  lemma RepeatedCpuRegistrationExits()
    ensures RegisterDeviceTypes(map[], [(0, RegistryRef("CPUOperatorRegistry")),
                                        (1, RegistryRef("CUDAOperatorRegistry")),
                                        (0, RegistryRef("CPUOperatorRegistry"))]).Exited?
  {
    var rs: seq<(int32, RegistryRef)> := [(0, RegistryRef("CPUOperatorRegistry")),
                                          (1, RegistryRef("CUDAOperatorRegistry")),
                                          (0, RegistryRef("CPUOperatorRegistry"))];
    assert rs[0].0 == rs[2].0;
  }

  // ---------------------------------------------------------------------------
  // Operator registration keys
  // ---------------------------------------------------------------------------

  const ENGINE_SEPARATOR: string := "_ENGINE_"

  /** `name##_ENGINE_##engine`: the key of an engine-specific variant. */
  function EngineKey(name: string, engine: string): (key: string)
    ensures |key| == |name| + |ENGINE_SEPARATOR| + |engine|
    ensures key[..|name|] == name && key[|name| + |ENGINE_SEPARATOR|..] == engine
    ensures key[|name|..|name| + |ENGINE_SEPARATOR|] == ENGINE_SEPARATOR
  {
    name + ENGINE_SEPARATOR + engine
  }

  predicate SeparatorAt(s: string, p: nat)
  {
    p + |ENGINE_SEPARATOR| <= |s| && s[p..p + |ENGINE_SEPARATOR|] == ENGINE_SEPARATOR
  }

  /** The first position at or after `from` where the separator starts, or -1. */
  function FindSeparator(s: string, from: nat): (p: int)
    requires from <= |s|
    ensures p == -1 || (from <= p <= |s| && SeparatorAt(s, p))
    ensures forall q :: from <= q <= |s| && (p == -1 || q < p) ==> !SeparatorAt(s, q)
    decreases |s| - from
  {
    if SeparatorAt(s, from) then from
    else if from == |s| then -1
    else FindSeparator(s, from + 1)
  }

  datatype SplitKey = EngineVariant(name: string, engine: string) | PlainKey

  /** Reading a registry key back: the part before the first separator is the
      operator name, the rest the engine. */
  function SplitEngineKey(key: string): (r: SplitKey)
    ensures r.EngineVariant? ==> EngineKey(r.name, r.engine) == key
  {
    var p := FindSeparator(key, 0);
    if p < 0 then PlainKey
    else
      assert key == key[..p] + ENGINE_SEPARATOR + key[p + |ENGINE_SEPARATOR|..];
      EngineVariant(key[..p], key[p + |ENGINE_SEPARATOR|..])
  }

  predicate NoUnderscore(name: string)
  {
    forall i :: 0 <= i < |name| ==> name[i] != '_'
  }

  /** For an operator name without underscores (the usual CamelCase type
      names) the key splits back into exactly its name and engine. */
  lemma SplitEngineKeyInvertsEngineKey(name: string, engine: string)
    ensures NoUnderscore(name) ==> SplitEngineKey(EngineKey(name, engine)) == EngineVariant(name, engine)
  {
    if !NoUnderscore(name) {
      return;
    }
    var key := EngineKey(name, engine);
    assert SeparatorAt(key, |name|);
    forall q | 0 <= q < |name|
      ensures !SeparatorAt(key, q)
    {
      assert key[q] == name[q];
    }
    var p := FindSeparator(key, 0);
    assert p == |name|;
  }

  /** The key format is ambiguous once names carry the separator themselves. */
  lemma EngineKeyAmbiguous()
    ensures EngineKey("A_ENGINE_B", "C") == EngineKey("A", "B_ENGINE_C")
  {
  }

  /** A per-device operator registry maps keys to creator classes. */
  datatype Creator = Creator(className: string)

  /** The two per-device operator registries the header declares. */
  datatype DeviceRegistry = CPUOperatorRegistry | CUDAOperatorRegistry

  /** What one `REGISTER_*_OPERATOR*` macro contributes: a key and a creator in
      one of the per-device registries. */
  datatype OperatorEntry = OperatorEntry(registry: DeviceRegistry, key: string, creator: Creator)

  /** `REGISTER_CPU_OPERATOR_WITH_ENGINE` / `REGISTER_CUDA_OPERATOR_WITH_ENGINE`. */
  function RegisterWithEngine(registry: DeviceRegistry, name: string, engine: string, creator: Creator): (e: OperatorEntry)
    ensures e.registry == registry && e.creator == creator
    ensures e.key == EngineKey(name, engine)
    ensures NoUnderscore(name) ==> SplitEngineKey(e.key) == EngineVariant(name, engine)
  {
    SplitEngineKeyInvertsEngineKey(name, engine);
    OperatorEntry(registry, EngineKey(name, engine), creator)
  }

  /** `REGISTER_CUDNN_OPERATOR`: the CUDA registry, engine `CUDNN`. */
  function RegisterCudnn(name: string, creator: Creator): (e: OperatorEntry)
    ensures e.registry == CUDAOperatorRegistry && e.creator == creator
    ensures e.key == EngineKey(name, "CUDNN")
    ensures NoUnderscore(name) ==> SplitEngineKey(e.key) == EngineVariant(name, "CUDNN")
  {
    RegisterWithEngine(CUDAOperatorRegistry, name, "CUDNN", creator)
  }
}
