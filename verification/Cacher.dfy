/** The cache of converted data, queried and deleted from by string prefix. A Go nil value is
    None: Put removes the key then, but Reset can bring nil values into the cache. */
module Cacher {
  import opened Text

  type Data<V> = map<string, Option<V>>

  /** The entries whose key starts with prefix. */
  function Range<V>(data: Data<V>, prefix: string): Data<V>
  {
    map k | k in data && prefix <= k :: data[k]
  }

  /** What a query answers: the one entry stored at key itself, or else everything below. */
  function Lookup<V>(data: Data<V>, key: string): Data<V>
  {
    if key in data then map[key := data[key]] else Range(data, key)
  }

  /** The data after every entry of delta was put: nil entries remove. */
  function Overlay<V>(data: Data<V>, delta: Data<V>): Data<V>
  {
    map k | k in data.Keys + delta.Keys && (k in delta ==> delta[k].Some?) ::
      if k in delta then delta[k] else data[k]
  }

  /** The two versions of the data hold the same entries outside the given keys. */
  ghost predicate AgreeOutside<V>(before: Data<V>, after: Data<V>, keys: set<string>)
  {
    forall k :: k !in keys ==>
      (k in before <==> k in after) && (k in before ==> before[k] == after[k])
  }

  /** A change of keys outside a query's prefix never alters its answer. */
  lemma LookupIsLocal<V>(before: Data<V>, after: Data<V>, keys: set<string>, prefix: string)
    requires AgreeOutside(before, after, keys)
    requires forall k :: k in keys ==> !(prefix <= k)
    ensures Lookup(before, prefix) == Lookup(after, prefix)
  {
    assert prefix <= prefix;
    assert prefix in before <==> prefix in after;
    assert Range(before, prefix) == Range(after, prefix);
  }

  /** A query is the prefix search its documentation describes exactly when its key is not
      stored, or nothing longer is stored below it: an exact match hides the longer keys. */
  lemma LookupIsRange<V>(data: Data<V>, key: string)
    ensures Lookup(data, key) == Range(data, key) <==>
            key !in data || forall k :: k in data && key <= k ==> k == key
  {
    if key in data && (forall k :: k in data && key <= k ==> k == key) {
      assert map[key := data[key]] == Range(data, key);
    }
    if key in data && Lookup(data, key) == Range(data, key) {
      forall k | k in data && key <= k
        ensures k == key
      {
        assert k in Range(data, key);
        assert k in map[key := data[key]];
      }
    }
  }

  /** A query shows entries as they are stored: the one at its key if there is one, or else all
      whose key it begins. */
  lemma LookupInWords<V>(data: Data<V>, key: string, k: string)
    ensures k in Lookup(data, key) <==> k in data && (if key in data then k == key else key <= k)
    ensures k in Lookup(data, key) ==> Lookup(data, key)[k] == data[k]
  {
  }

  /** The empty prefix, which stands for "*", answers with everything exactly when no entry
      has the empty key, or that entry is the only one. */
  lemma LookupEverything<V>(data: Data<V>)
    ensures Lookup(data, "") == data <==> "" !in data || data.Keys == {""}
  {
    LookupIsRange(data, "");
    assert Range(data, "") == data;
    if data.Keys == {""} {
      forall k | k in data
        ensures k == ""
      {
        assert k in {""};
      }
    }
  }

  /** The keys removed with key when the removal is recursive. */
  function Removed<V>(data: Data<V>, key: string, recursive: bool): set<string>
  {
    set k | k in data && (if recursive then key <= k else k == key)
  }

  predicate Distinct(keys: seq<string>)
  {
    forall i, j :: 0 <= i < j < |keys| ==> keys[i] != keys[j]
  }

  function Members(keys: seq<string>): set<string>
  {
    set k | k in keys
  }

  lemma MembersAppend(keys: seq<string>, k: string)
    ensures Members(keys + [k]) == Members(keys) + {k}
    ensures k !in Members(keys) && Distinct(keys) ==> Distinct(keys + [k])
  {
  }

  lemma OverlayPut<V>(data: Data<V>, delta: Data<V>, k: string, value: Option<V>)
    ensures Overlay(Overlay(data, delta), map[k := value]) == Overlay(data, delta[k := value])
  {
  }

  class Cacher<V> {
    var data: Data<V>

    constructor (data: Data<V>)
      ensures this.data == data
    {
      this.data := data;
    }

    method Put(key: string, value: Option<V>)
      modifies this
      ensures data == Overlay(old(data), map[key := value])
    {
      if value.None? {
        data := data - {key};
      } else {
        data := data[key := value];
      }
      assert data == Overlay(old(data), map[key := value]);
    }

    method Reset(data: Data<V>)
      modifies this
      ensures this.data == data
    {
      this.data := data;
    }

    /** The keys come back in no particular order, each once. */
    method Delete(key: string, recursive: bool) returns (keys: seq<string>)
      modifies this
      ensures Distinct(keys) && Members(keys) == Removed(old(data), key, recursive)
      ensures data == old(data) - Removed(old(data), key, recursive)
    {
      keys := [];
      if recursive {
        var rest := data.Keys;
        while rest != {}
          invariant rest <= old(data).Keys && Distinct(keys)
          invariant Members(keys) == Removed(old(data), key, true) - rest
          invariant data == old(data) - Members(keys)
          decreases rest
        {
          var k :| k in rest;
          rest := rest - {k};
          if key <= k {
            assert k !in Members(keys);
            data := data - {k};
            keys := keys + [k];
            assert Members(keys) == Members(keys[..|keys| - 1]) + {k};
          }
        }
      } else if key in data {
        data := data - {key};
        keys := [key];
      }
    }

    method Get(key: string) returns (r: Data<V>)
      ensures r == Lookup(data, key)
    {
      if key in data {
        return map[key := data[key]];
      }
      r := map[];
      var rest := data.Keys;
      while rest != {}
        invariant rest <= data.Keys
        invariant r == map k | k in data && k !in rest && key <= k :: data[k]
        decreases rest
      {
        var k :| k in rest;
        rest := rest - {k};
        if key <= k {
          r := r[k := data[k]];
        }
      }
    }

    method GetAll() returns (r: Data<V>)
      ensures r == data
    {
      r := map[];
      var rest := data.Keys;
      while rest != {}
        invariant rest <= data.Keys
        invariant r == map k | k in data && k !in rest :: data[k]
        decreases rest
      {
        var k :| k in rest;
        rest := rest - {k};
        r := r[k := data[k]];
      }
    }

    method GetAllKeys() returns (keys: seq<string>)
      ensures Distinct(keys) && Members(keys) == data.Keys
    {
      keys := [];
      var rest := data.Keys;
      while rest != {}
        invariant rest <= data.Keys && Distinct(keys)
        invariant Members(keys) == data.Keys - rest
        decreases rest
      {
        var k :| k in rest;
        rest := rest - {k};
        assert k !in Members(keys);
        keys := keys + [k];
        assert Members(keys) == Members(keys[..|keys| - 1]) + {k};
      }
    }
  }
}
