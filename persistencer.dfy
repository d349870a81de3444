/** src/utils/Persistencer.py: a process-wide cache of instances by key,
    created once through the `@singleton` decorator of
    src/common/decorator/decotator.py. */
module Persistence {
  import opened Wrappers

  /** The cache and the error `remove` raises: the first key (in argument
      order) that is not present when its turn comes, Python's KeyError. */
  function RemoveAll<V>(m: map<string, V>, keys: seq<string>): (r: (map<string, V>, Option<string>))
    ensures r.0.Keys <= m.Keys
    ensures forall k | k in r.0 :: r.0[k] == m[k]
    ensures r.1.None? ==> r.0.Keys == m.Keys - set i | 0 <= i < |keys| :: keys[i]
    ensures r.1.Some? ==> r.1.value in keys && r.1.value !in r.0
    decreases |keys|
  {
    if keys == [] then (m, None)
    else if keys[0] !in m then (m, Some(keys[0]))
    else
      var r := RemoveAll(m - {keys[0]}, keys[1..]);
      assert r.1.None? ==> (set i | 0 <= i < |keys| :: keys[i]) == {keys[0]} + set i | 0 <= i < |keys[1..]| :: keys[1..][i];
      r
  }

  /** The keys in `keys[..i]` as a set. */
  function Prefix(keys: seq<string>, i: nat): set<string>
    requires i <= |keys|
  {
    set j | 0 <= j < i :: keys[j]
  }

  /** When the first `i` keys are distinct and present and `keys[i]` is
      missing (never stored, or deleted earlier in the same call), `remove`
      raises KeyError on `keys[i]` and the first `i` keys stay deleted. */
  lemma {:induction false} FailureKeepsEarlierDeletions<V>(m: map<string, V>, keys: seq<string>, i: nat)
    requires i < |keys|
    requires forall j | 0 <= j < i :: keys[j] in m
    requires forall j, j' | 0 <= j < j' < i :: keys[j] != keys[j']
    requires keys[i] !in m.Keys - Prefix(keys, i)
    ensures RemoveAll(m, keys) == (m - Prefix(keys, i), Some(keys[i]))
    decreases i
  {
    if i > 0 {
      var tail := keys[1..];
      var m' := m - {keys[0]};
      assert Prefix(keys, i) == {keys[0]} + Prefix(tail, i - 1);
      forall j | 0 <= j < i - 1 ensures tail[j] in m' {
        assert tail[j] == keys[j + 1] != keys[0];
      }
      assert tail[i - 1] == keys[i];
      FailureKeepsEarlierDeletions(m', tail, i - 1);
      assert m' - Prefix(tail, i - 1) == m - Prefix(keys, i);
      assert RemoveAll(m, keys) == RemoveAll(m', tail);
    } else {
      assert Prefix(keys, 0) == {};
      assert m - Prefix(keys, 0) == m;
    }
  }

  /** When the keys are distinct and all stored, `remove` deletes every one
      of them and raises nothing. */
  lemma {:induction false} DistinctPresentSucceeds<V>(m: map<string, V>, keys: seq<string>)
    requires forall j | 0 <= j < |keys| :: keys[j] in m
    requires forall j, j' | 0 <= j < j' < |keys| :: keys[j] != keys[j']
    ensures RemoveAll(m, keys) == (m - Prefix(keys, |keys|), None)
    decreases |keys|
  {
    if keys == [] {
      assert Prefix(keys, 0) == {};
      assert m - Prefix(keys, 0) == m;
    } else {
      var tail := keys[1..];
      var m' := m - {keys[0]};
      forall j | 0 <= j < |tail| ensures tail[j] in m' {
        assert tail[j] == keys[j + 1] != keys[0];
      }
      DistinctPresentSucceeds(m', tail);
      assert Prefix(keys, |keys|) == {keys[0]} + Prefix(tail, |tail|);
      assert m' - Prefix(tail, |tail|) == m - Prefix(keys, |keys|);
    }
  }

  /** Conversely, `remove` raises nothing only when its keys are distinct and
      all stored. */
  lemma {:induction false} SuccessNeedsDistinctPresent<V>(m: map<string, V>, keys: seq<string>)
    requires RemoveAll(m, keys).1.None?
    ensures forall j | 0 <= j < |keys| :: keys[j] in m
    ensures forall j, j' | 0 <= j < j' < |keys| :: keys[j] != keys[j']
    decreases |keys|
  {
    if keys != [] {
      var tail := keys[1..];
      var m' := m - {keys[0]};
      assert RemoveAll(m, keys) == RemoveAll(m', tail);
      SuccessNeedsDistinctPresent(m', tail);
      forall j | 0 <= j < |keys| ensures keys[j] in m {
        if j > 0 {
          assert keys[j] == tail[j - 1];
        }
      }
      forall j, j' | 0 <= j < j' < |keys| ensures keys[j] != keys[j'] {
        assert keys[j'] == tail[j' - 1] && tail[j' - 1] in m';
        if j > 0 {
          assert keys[j] == tail[j - 1];
        }
      }
    }
  }

  /** Removing a key twice in one call fails on the repetition. */
  lemma RepeatedKeyFails<V>(m: map<string, V>, k: string)
    requires k in m
    ensures RemoveAll(m, [k, k]) == (m - {k}, Some(k))
  {
  }

  class Persistencer<V> {
    var instances: map<string, V>

    constructor ()
      ensures instances == map[]
    {
      instances := map[];
    }

    /** `update(**key_instance)`: every given key now maps to its given instance. */
    method Update(keyInstance: map<string, V>)
      modifies this
      ensures instances == old(instances) + keyInstance
      ensures forall k | k in keyInstance :: Get(k) == Some(keyInstance[k])
      ensures forall k | k !in keyInstance :: Get(k) == old(Get(k))
    {
      instances := instances + keyInstance;
    }

    /** `remove(*key)`: deletes the keys in order; a missing key raises
        KeyError (returned here) and the keys before it stay deleted. */
    method Remove(keys: seq<string>) returns (error: Option<string>)
      modifies this
      ensures (instances, error) == RemoveAll(old(instances), keys)
      ensures error.None? ==> forall k | k in keys :: !Exist(k)
    {
      var i := 0;
      while i < |keys|
        invariant 0 <= i <= |keys|
        invariant RemoveAll(old(instances), keys) == RemoveAll(instances, keys[i..])
        decreases |keys| - i
      {
        var key := keys[i];
        if key !in instances {
          return Some(key);
        }
        assert keys[i..][1..] == keys[i + 1..];
        instances := instances - {key};
        i := i + 1;
      }
      error := None;
    }

    /** `get(key)`: the stored instance, None when the key is absent. */
    function Get(key: string): (r: Option<V>)
      reads this
      ensures r.Some? <==> key in instances
      ensures r.Some? ==> r.value == instances[key]
    {
      if key in instances then Some(instances[key]) else None
    }

    /** `exist(key)`. */
    predicate Exist(key: string)
      reads this
      ensures Exist(key) <==> Get(key).Some?
    {
      key in instances
    }
  }

  /** The closure state of `@singleton` applied to Persistencer: the one
      instance, once made. */
  class Singleton<V> {
    var instance: Option<Persistencer<V>>

    constructor ()
      ensures instance == None
    {
      instance := None;
    }

    /** Calling the decorated class: the first call constructs the
        instance, every later call returns that same instance. */
    method Instance() returns (p: Persistencer<V>)
      modifies this
      ensures old(instance).Some? ==> p == old(instance).value && instance == old(instance)
      ensures old(instance).None? ==> fresh(p) && p.instances == map[]
      ensures instance == Some(p)
    {
      if instance.None? {
        var created := new Persistencer<V>();
        instance := Some(created);
      }
      p := instance.value;
    }
  }

  /** Two calls of the decorated class yield one object. */
  method InstanceTwice<V>(s: Singleton<V>) returns (first: Persistencer<V>, second: Persistencer<V>)
    modifies s
    ensures first == second
  {
    first := s.Instance();
    second := s.Instance();
  }
}
