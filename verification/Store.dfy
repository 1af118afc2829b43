/** The store of hosted files (internal/ephemeral/store.go). */
module EphemeralStore {
  import opened Keys

  datatype Lookup<V> = Missing | Present(value: V)

  /** The files whose keys do not start with `prefix`. */
  function WithoutPrefix<V>(data: map<string, V>, prefix: string): map<string, V> {
    map key | key in data && !(prefix <= key) :: data[key]
  }

  class Store<V(==)> {
    var data: map<string, V>

    constructor ()
      ensures data == map[]
    {
      data := map[];
    }

    method Put(key: string, value: V)
      modifies this
      ensures data == old(data)[key := value]
    {
      data := data[key := value];
    }

    method Get(key: string) returns (r: Lookup<V>)
      ensures r.Present? <==> key in data
      ensures r.Present? ==> r.value == data[key]
    {
      if key in data {
        return Present(data[key]);
      }
      return Missing;
    }

    method Delete(key: string)
      modifies this
      ensures data == old(data) - {key}
    {
      data := data - {key};
    }

    /** The source deletes while it walks the map, in any order. */
    method DeletePrefix(prefix: string)
      modifies this
      ensures data == WithoutPrefix(old(data), prefix)
    {
      var todo := data.Keys;
      while todo != {}
        invariant todo <= old(data.Keys)
        invariant forall key :: key in data <==> key in old(data) && (key in todo || !(prefix <= key))
        invariant forall key :: key in data ==> data[key] == old(data)[key]
      {
        var key :| key in todo;
        todo := todo - {key};
        if prefix <= key {
          data := data - {key};
        }
      }
      assert data == WithoutPrefix(old(data), prefix);
    }

    method Clear()
      modifies this
      ensures data == map[]
    {
      data := map[];
    }
  }

  /** Deleting by a round's prefix drops that round's receipts and keeps every other file. */
  lemma CleanupIsExact<V>(data: map<string, V>, round: nat, name: Name)
    requires Key(name) in data
    ensures Key(name) in WithoutPrefix(data, RoundPrefix(round)) <==> !(name.Receipt? && name.round == round)
    ensures Key(name) in WithoutPrefix(data, AutoFoldPrefix(round)) <==> !(name.AutoFold? && name.round == round)
    ensures Key(name) in WithoutPrefix(data, RoundPrefix(round)) ==>
              WithoutPrefix(data, RoundPrefix(round))[Key(name)] == data[Key(name)]
  {
    RoundPrefixExact(round, name);
    AutoFoldPrefixExact(round, name);
  }

  /** The store of a peer, by file name. */
  ghost function ByKey<V>(files: map<Name, V>): (data: map<string, V>)
    ensures forall name :: Key(name) in data <==> name in files
    ensures forall name :: name in files ==> data[Key(name)] == files[name]
  {
    forall a: Name, b: Name ensures Key(a) == Key(b) <==> a == b { KeysInjective(a, b); }
    map name | name in files :: Key(name) := files[name]
  }

  lemma OnlyKeys<V>(files: map<Name, V>, key: string)
    requires key in ByKey(files)
    ensures exists name :: name in files && Key(name) == key
  {
  }

  /** A store with no other keys than those of `files` is the store of `files`. */
  lemma SameByKey<V>(data: map<string, V>, files: map<Name, V>)
    requires forall key :: key in data ==> exists name :: name in files && Key(name) == key
    requires forall name :: name in files ==> Key(name) in data && data[Key(name)] == files[name]
    ensures data == ByKey(files)
  {
    var other := ByKey(files);
    forall key ensures key in data <==> key in other {
      if key in data {
        var name :| name in files && Key(name) == key;
      }
      if key in other { OnlyKeys(files, key); }
    }
    forall key | key in data ensures data[key] == other[key] {
      var name :| name in files && Key(name) == key;
    }
  }

  /** Since keys never clash, hosting by name and hosting by key are the same thing. */
  lemma HostingByKey<V>(files: map<Name, V>, name: Name, value: V)
    ensures ByKey(files)[Key(name) := value] == ByKey(files[name := value])
  {
    hide Key;
    hide ByKey;
    var data, after := ByKey(files)[Key(name) := value], files[name := value];
    forall key | key in data ensures exists n :: n in after && Key(n) == key {
      if key == Key(name) {
        assert name in after;
      } else {
        OnlyKeys(files, key);
        var n :| n in files && Key(n) == key;
        assert n in after;
      }
    }
    forall n | n in after ensures Key(n) in data && data[Key(n)] == after[n] { KeysInjective(n, name); }
    SameByKey(data, after);
  }

  /** Deleting a key deletes one file. */
  lemma DeletingByKey<V>(files: map<Name, V>, name: Name)
    ensures ByKey(files) - {Key(name)} == ByKey(files - {name})
  {
    hide Key;
    hide ByKey;
    var data, after := ByKey(files) - {Key(name)}, files - {name};
    forall key | key in data ensures exists n :: n in after && Key(n) == key {
      OnlyKeys(files, key);
      var n :| n in files && Key(n) == key;
      assert n in after;
    }
    forall n | n in after ensures Key(n) in data && data[Key(n)] == after[n] { KeysInjective(n, name); }
    SameByKey(data, after);
  }

  /** All files but the receipts of a round. */
  ghost function WithoutReceipts<V>(files: map<Name, V>, round: nat): map<Name, V> {
    map name | name in files && !(name.Receipt? && name.round == round) :: files[name]
  }

  /** All files but the attestations of a round. */
  ghost function WithoutFolds<V>(files: map<Name, V>, round: nat): map<Name, V> {
    map name | name in files && !(name.AutoFold? && name.round == round) :: files[name]
  }

  /** Deleting by a round's prefix deletes exactly that round's receipts. */
  lemma DroppingReceipts<V>(files: map<Name, V>, round: nat)
    ensures WithoutPrefix(ByKey(files), RoundPrefix(round)) == ByKey(WithoutReceipts(files, round))
  {
    hide Key;
    hide ByKey;
    hide RoundPrefix;
    var data, after := WithoutPrefix(ByKey(files), RoundPrefix(round)), WithoutReceipts(files, round);
    forall key | key in data ensures exists n :: n in after && Key(n) == key {
      OnlyKeys(files, key);
      var n :| n in files && Key(n) == key;
      RoundPrefixExact(round, n);
      assert n in after;
    }
    forall n | n in after ensures Key(n) in data && data[Key(n)] == after[n] { RoundPrefixExact(round, n); }
    SameByKey(data, after);
  }

  /** Deleting by a round's auto-fold prefix deletes exactly that round's attestations. */
  lemma DroppingFolds<V>(files: map<Name, V>, round: nat)
    ensures WithoutPrefix(ByKey(files), AutoFoldPrefix(round)) == ByKey(WithoutFolds(files, round))
  {
    hide Key;
    hide ByKey;
    hide AutoFoldPrefix;
    var data, after := WithoutPrefix(ByKey(files), AutoFoldPrefix(round)), WithoutFolds(files, round);
    forall key | key in data ensures exists n :: n in after && Key(n) == key {
      OnlyKeys(files, key);
      var n :| n in files && Key(n) == key;
      AutoFoldPrefixExact(round, n);
      assert n in after;
    }
    forall n | n in after ensures Key(n) in data && data[Key(n)] == after[n] { AutoFoldPrefixExact(round, n); }
    SameByKey(data, after);
  }
}
