/**
 * The process-wide dependency registry of service/shared/registry.py.
 *
 * In the source every piece of state is a class attribute: the dict
 * `_registry`, the singleton slot `_instance` and the flag `_initialized`.
 * A `Registry` object here stands for that Python class object, so its
 * fields are those class attributes:
 *   - `entries` is the dict's contents;
 *   - `order` is the dict's key order (a Python dict remembers insertion
 *     order, and a deleted key that is inserted again goes to the end);
 *   - `hasInstance` is `_instance is not None`;
 *   - `initialized` is `_initialized`.
 * The lock is left out: every method is one atomic step.
 */
module SharedRegistry {
  import opened Wrappers
  import opened Vocabulary

  /** No name occurs twice. */
  predicate NoDuplicates(s: seq<string>)
  {
    forall i, j :: 0 <= i < j < |s| ==> s[i] != s[j]
  }

  /** The set of elements of a sequence. */
  function Elements(s: seq<string>): set<string>
  {
    set k | k in s
  }

  /** The sequence with every occurrence of `x` taken out, order kept. */
  function Without(s: seq<string>, x: string): seq<string>
  {
    if s == [] then []
    else if s[0] == x then Without(s[1..], x)
    else [s[0]] + Without(s[1..], x)
  }

  lemma {:induction false} WithoutElements(s: seq<string>, x: string)
    ensures Elements(Without(s, x)) == Elements(s) - {x}
  {
    if s != [] {
      WithoutElements(s[1..], x);
      assert s == [s[0]] + s[1..];
      assert Elements(s) == {s[0]} + Elements(s[1..]);
      if s[0] != x {
        assert Elements([s[0]] + Without(s[1..], x)) == {s[0]} + Elements(Without(s[1..], x));
      }
    }
  }

  lemma {:induction false} WithoutNoDuplicates(s: seq<string>, x: string)
    requires NoDuplicates(s)
    ensures NoDuplicates(Without(s, x))
  {
    if s != [] {
      assert NoDuplicates(s[1..]) by {
        forall i, j | 0 <= i < j < |s[1..]| ensures s[1..][i] != s[1..][j] {
          assert s[1..][i] == s[i + 1] && s[1..][j] == s[j + 1];
        }
      }
      WithoutNoDuplicates(s[1..], x);
      WithoutElements(s[1..], x);
      if s[0] != x {
        var t := Without(s[1..], x);
        assert s[0] !in s[1..] by {
          assert forall j :: 0 <= j < |s[1..]| ==> s[1..][j] == s[j + 1] != s[0];
        }
        assert s[0] !in Elements(t);
        forall i, j | 0 <= i < j < |[s[0]] + t| ensures ([s[0]] + t)[i] != ([s[0]] + t)[j] {
          if i == 0 {
            assert ([s[0]] + t)[j] == t[j - 1];
            assert t[j - 1] in Elements(t);
          }
        }
      }
    }
  }

  /** Taking out a name that is absent changes nothing. */
  lemma {:induction false} WithoutAbsent(s: seq<string>, x: string)
    requires x !in s
    ensures Without(s, x) == s
  {
    if s != [] {
      assert x !in s[1..];
      WithoutAbsent(s[1..], x);
      assert s == [s[0]] + s[1..];
    }
  }

  /** A duplicate-free sequence has as many elements as its set. */
  lemma {:induction false} NoDuplicatesCardinality(s: seq<string>)
    requires NoDuplicates(s)
    ensures |Elements(s)| == |s|
  {
    if s != [] {
      var t := s[1..];
      assert NoDuplicates(t) by {
        forall i, j | 0 <= i < j < |t| ensures t[i] != t[j] {
          assert t[i] == s[i + 1] && t[j] == s[j + 1];
        }
      }
      NoDuplicatesCardinality(t);
      assert s[0] !in Elements(t) by {
        assert forall j :: 0 <= j < |t| ==> t[j] == s[j + 1] != s[0];
      }
      assert s == [s[0]] + t;
      assert Elements(s) == {s[0]} + Elements(t);
    }
  }

  class Registry<V> {
    var entries: map<string, V>
    var order: seq<string>
    var hasInstance: bool
    var initialized: bool

    /** The dict's key order lists exactly its keys, each once; the flag
        is only ever set together with the instance. */
    ghost predicate Valid()
      reads this
    {
      && NoDuplicates(order)
      && Elements(order) == entries.Keys
      && (initialized ==> hasInstance)
    }

    /** What `dict.get(name)` returns: the value, or `None`. */
    function Lookup(name: string): (r: Option<V>)
      reads this
      ensures r.Some? <==> name in entries
      ensures r.Some? ==> r.value == entries[name]
    {
      if name in entries then Some(entries[name]) else None
    }

    /** The class attributes as the class body leaves them: an empty dict,
        no instance, `_initialized = False`. */
    constructor ()
      ensures Valid()
      ensures entries == map[] && order == []
      ensures !hasInstance && !initialized
    {
      entries := map[];
      order := [];
      hasInstance := false;
      initialized := false;
    }

    /** `Registry()`, that is `__new__`: the first call creates the
        instance and sets `_initialized`; later calls change nothing. */
    method Instantiate()
      requires Valid()
      modifies this`hasInstance, this`initialized
      ensures Valid()
      ensures hasInstance
      ensures initialized == (old(initialized) || !old(hasInstance))
      ensures old(initialized) ==> initialized
    {
      if !hasInstance {
        hasInstance := true;
        initialized := true;
      }
    }

    /** `is_initialized()`: whether `__new__` ever created the instance. */
    method IsInitialized() returns (b: bool)
      requires Valid()
      ensures b == initialized
      ensures b ==> hasInstance
    {
      b := initialized;
    }

    /** `register(name, item)`: first writer wins.  An absent name is
        added at the end of the key order; a present one changes nothing. */
    method Register(name: string, item: V)
      requires Valid()
      modifies this`entries, this`order
      ensures Valid()
      ensures name in old(entries) ==> entries == old(entries) && order == old(order)
      ensures name !in old(entries) ==>
                entries == old(entries)[name := item] && order == old(order) + [name]
      ensures name in entries
      ensures |entries| == if name in old(entries) then old(|entries|) else old(|entries|) + 1
    {
      if name !in entries {
        assert name !in Elements(order);
        assert Elements(order + [name]) == Elements(order) + {name};
        forall i, j | 0 <= i < j < |order + [name]| ensures (order + [name])[i] != (order + [name])[j] {
          if j == |order| {
            assert order[i] in Elements(order);
          }
        }
        entries := entries[name := item];
        order := order + [name];
      }
    }

    /** `unregister(name)`: takes out one name if present, else nothing. */
    method Unregister(name: string)
      requires Valid()
      modifies this`entries, this`order
      ensures Valid()
      ensures entries == old(entries) - {name}
      ensures order == Without(old(order), name)
      ensures name !in old(entries) ==> entries == old(entries) && order == old(order)
      ensures name !in entries
      ensures |entries| == if name in old(entries) then old(|entries|) - 1 else old(|entries|)
    {
      WithoutElements(order, name);
      WithoutNoDuplicates(order, name);
      if name !in entries {
        WithoutAbsent(order, name);
      }
      if name in entries {
        entries := entries - {name};
        order := Without(order, name);
      }
    }

    /** `get(name)`: creates the instance when there is none, but does not
        set `_initialized`; returns the value or `None`, and never touches
        the dict. */
    method Get(name: string) returns (r: Option<V>)
      requires Valid()
      modifies this`hasInstance
      ensures Valid()
      ensures hasInstance
      ensures r == Lookup(name)
      ensures r == None <==> name !in entries
    {
      if !hasInstance {
        hasInstance := true;
      }
      r := Lookup(name);
    }

    /** `count()`: the number of entries, 0 when there are none. */
    method Count() returns (n: nat)
      requires Valid()
      ensures n == |entries| && n == |order|
      ensures n == 0 <==> entries == map[]
    {
      NoDuplicatesCardinality(order);
      assert |entries.Keys| == |entries|;
      if entries != map[] {
        n := |entries|;
      } else {
        n := 0;
      }
    }

    /** `reset()`: a fresh empty dict; the singleton state is untouched. */
    method Reset()
      requires Valid()
      modifies this`entries, this`order
      ensures Valid()
      ensures entries == map[] && order == []
    {
      entries := map[];
      order := [];
    }

    /** `list_resources()`: every registered name once, in insertion order. */
    method ListResources() returns (names: seq<string>)
      requires Valid()
      ensures names == order
      ensures NoDuplicates(names)
      ensures forall k :: k in names <==> k in entries
      ensures |names| == |entries|
    {
      NoDuplicatesCardinality(order);
      assert |entries.Keys| == |entries|;
      names := order;
    }
  }

  /** Importing service/shared/registry.py: the class body sets up the class
      attributes, then the module runs `REGISTRY = Registry()`. */
  method Load<V>() returns (reg: Registry<V>)
    ensures fresh(reg) && reg.Valid()
    ensures reg.entries == map[] && reg.order == []
    ensures reg.hasInstance && reg.initialized
  {
    reg := new Registry<V>();
    reg.Instantiate();
  }

  /** `inject(name)`: `Registry().get(name)`.  Its result is the same as
      `get(name)`'s, and it leaves the dict unchanged. */
  method Inject<V>(reg: Registry<V>, name: string) returns (r: Option<V>)
    requires reg.Valid()
    modifies reg`hasInstance, reg`initialized
    ensures reg.Valid()
    ensures r == reg.Lookup(name)
    ensures reg.hasInstance
    ensures reg.initialized == (old(reg.initialized) || !old(reg.hasInstance))
  {
    reg.Instantiate();
    r := reg.Get(name);
  }

  /** Registering two values under one name keeps the first. */
  method FirstWriterWinsScenario(v1: int, v2: int)
  {
    ValueIsLowerCaseName();
    var reg := Load<int>();
    reg.Register(Value(Settings), v1);
    reg.Register(Value(Settings), v2);
    var r := reg.Get(Value(Settings));
    assert r == Some(v1);
    var b := reg.IsInitialized();
    assert b;
  }

  /** Names are listed in registration order, and `unregister` takes out
      exactly one of them. */
  method KeyOrderScenario(v1: int, v2: int)
  {
    ValueIsLowerCaseName();
    var reg := Load<int>();
    reg.Register(Value(Settings), v1);
    reg.Register(Value(Logger), v2);
    var names := reg.ListResources();
    assert names == [Value(Settings), Value(Logger)];
    reg.Unregister(Value(Settings));
    assert Value(Settings) !in reg.entries && Value(Logger) in reg.entries;
    var n := reg.Count();
    assert n == 1;
  }

  /** `unregister` of an absent name does nothing; `reset` empties. */
  method AbsentAndResetScenario(v: int)
  {
    ValueIsLowerCaseName();
    var reg := Load<int>();
    reg.Register(Value(Logger), v);
    reg.Unregister(Value(Settings));
    var n := reg.Count();
    assert n == 1;
    reg.Reset();
    var r := reg.Get(Value(Logger));
    assert r == None;
    n := reg.Count();
    assert n == 0;
  }

  /** A `get` on the bare class creates the instance without setting
      `_initialized`, so a later `Registry()` leaves it false for good. */
  method GetBeforeConstructionScenario()
  {
    ValueIsLowerCaseName();
    var reg := new Registry<int>();
    var r := reg.Get(Value(Settings));
    assert r == None;
    reg.Instantiate();
    var b := reg.IsInitialized();
    assert !b;
    r := Inject(reg, Value(Logger));
    b := reg.IsInitialized();
    assert !b;
  }
}
