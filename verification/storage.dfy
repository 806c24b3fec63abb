/** The namespaced key/value store: a prefixed view over the browser's
    string-to-string storage, whose availability is probed once and cached.
    Values are written with `Stringify` and read back with `Parse`. */
module Storage {
  import opened Wrappers
  import opened Text
  import opened Json

  /** Every key this service writes starts with this prefix. */
  const Prefix: string := "app_"

  /** The key written and removed again by the availability probe. */
  const TestKey: string := "__storage_test__"

  /** `#getFullKey`: the physical key behind a logical key. */
  function FullKey(key: string): (k: string)
    ensures StartsWith(k, Prefix) && k[|Prefix|..] == key
  {
    StartsWithConcat(Prefix, key);
    Prefix + key
  }

  /** `#validateKey` accepts exactly the non-empty strings. */
  predicate ValidKey(key: string) {
    key != []
  }

  // ------------------------------------------------- the operations on a map

  /** What `get` returns when storage works: the decoded value, or the default
      for an invalid key, a missing key or text that does not decode. */
  function GetFrom(store: map<string, string>, key: string, default: Json): Json {
    if !ValidKey(key) || FullKey(key) !in store then default
    else Parse(store[FullKey(key)]).GetOr(default)
  }

  /** What `has` returns when storage works. */
  predicate HasIn(store: map<string, string>, key: string) {
    ValidKey(key) && FullKey(key) in store
  }

  /** The store after `clear`: every prefixed key gone, nothing else touched. */
  function Cleared(store: map<string, string>): map<string, string> {
    map k | k in store && !StartsWith(k, Prefix) :: store[k]
  }

  /** What `keys` lists: the prefixed keys with the prefix stripped. */
  function KeysOf(store: map<string, string>): set<string> {
    set k | k in store && StartsWith(k, Prefix) :: k[|Prefix|..]
  }

  predicate Distinct(xs: seq<string>) {
    forall i, j :: 0 <= i < j < |xs| ==> xs[i] != xs[j]
  }

  lemma FullKeyInjective(a: string, b: string)
    ensures FullKey(a) == FullKey(b) ==> a == b
  {
  }

  /** The probe's key lies outside the namespace, so probing never touches
      what the service stores. */
  lemma TestKeyOutsideNamespace(key: string)
    ensures FullKey(key) != TestKey
    ensures !StartsWith(TestKey, Prefix)
  {
    assert TestKey[0] != Prefix[0];
    assert FullKey(key)[0] == Prefix[0];
  }

  /** `get` after a successful `set` of the same key yields the value set. */
  lemma GetAfterSet(store: map<string, string>, key: string, value: Json, default: Json)
    requires ValidKey(key)
    ensures GetFrom(store[FullKey(key) := Stringify(value)], key, default) == value
  {
    ParseStringify(value);
  }

  /** Setting one key leaves what `get` returns for every other key unchanged. */
  lemma GetAfterSetOther(store: map<string, string>, key: string, other: string, value: Json, default: Json)
    requires key != other
    ensures GetFrom(store[FullKey(key) := Stringify(value)], other, default) == GetFrom(store, other, default)
  {
    FullKeyInjective(key, other);
  }

  /** A missing key reads as the default. */
  lemma GetAbsent(store: map<string, string>, key: string, default: Json)
    requires !HasIn(store, key)
    ensures GetFrom(store, key, default) == default
  {
  }

  /** After `remove(k)`, `has(k)` is false and `get(k)` is the default. */
  lemma HasAfterRemove(store: map<string, string>, key: string, default: Json)
    ensures !HasIn(store - {FullKey(key)}, key)
    ensures GetFrom(store - {FullKey(key)}, key, default) == default
  {
  }

  /** `keys` lists a name exactly when the prefixed key is stored; `has`
      agrees with it for every valid key. The bare key "app_" is listed as
      the empty name, which `has` rejects. */
  lemma KeysOfExactly(store: map<string, string>, key: string)
    ensures key in KeysOf(store) <==> FullKey(key) in store
    ensures HasIn(store, key) <==> ValidKey(key) && key in KeysOf(store)
  {
    if key in KeysOf(store) {
      var k :| k in store && StartsWith(k, Prefix) && k[|Prefix|..] == key;
      assert k == k[..|Prefix|] + k[|Prefix|..];
    }
  }

  /** `clear` leaves no key in the namespace and keeps every other key with
      its value. */
  lemma ClearedExactly(store: map<string, string>)
    ensures KeysOf(Cleared(store)) == {}
    ensures forall k :: k in store && !StartsWith(k, Prefix) ==> k in Cleared(store) && Cleared(store)[k] == store[k]
    ensures forall k :: k in Cleared(store) ==> k in store && !StartsWith(k, Prefix)
  {
  }

  // ------------------------------------------------------------ the service

  /** The static `StorageService`. `usable` says whether the browser's
      storage accepts writes at all and `quotaFull` whether it refuses new
      data for lack of space; both belong to the environment. */
  class StorageService {
    /** The browser storage (all keys, not only this service's). */
    var store: map<string, string>
    /** `#isAvailable`: None until the first probe, then the cached result. */
    var isAvailable: Option<bool>
    const usable: bool
    const quotaFull: bool

    /** The cached availability, once there is one, is the true one. */
    ghost predicate Valid()
      reads this
    {
      isAvailable.Some? ==> isAvailable.value == usable
    }

    /** The store as the next operation's probe leaves it: a first probe on
        working storage writes and removes the test key. */
    function ProbedStore(): map<string, string>
      reads this
    {
      if isAvailable.None? && usable then store - {TestKey} else store
    }

    constructor (initial: map<string, string>, usable: bool, quotaFull: bool)
      ensures Valid()
      ensures store == initial && isAvailable == None
      ensures this.usable == usable && this.quotaFull == quotaFull
    {
      store := initial;
      isAvailable := None;
      this.usable := usable;
      this.quotaFull := quotaFull;
    }

    /** `#checkAvailability`: probes only while nothing is cached. */
    method CheckAvailability() returns (ok: bool)
      requires Valid()
      modifies this
      ensures Valid()
      ensures ok == usable && isAvailable == Some(usable)
      ensures store == old(ProbedStore())
      ensures old(isAvailable).Some? ==> store == old(store)
    {
      if isAvailable.Some? {
        return isAvailable.value;
      }
      if usable {
        store := store[TestKey := "test"];
        store := store - {TestKey};
        isAvailable := Some(true);
        return true;
      } else {
        isAvailable := Some(false);
        return false;
      }
    }

    method Set(key: string, value: Json) returns (ok: bool)
      requires Valid()
      modifies this
      ensures Valid() && isAvailable == Some(usable)
      ensures ok == (usable && ValidKey(key) && !quotaFull)
      ensures store == if ok then old(ProbedStore())[FullKey(key) := Stringify(value)] else old(ProbedStore())
    {
      ok := CheckAvailability();
      if !ok {
        return;
      }
      if !ValidKey(key) || quotaFull {
        return false;
      }
      store := store[FullKey(key) := Stringify(value)];
    }

    method Get(key: string, default: Json) returns (v: Json)
      requires Valid()
      modifies this
      ensures Valid() && isAvailable == Some(usable)
      ensures store == old(ProbedStore())
      ensures v == if usable then GetFrom(store, key, default) else default
    {
      var ok := CheckAvailability();
      if !ok || !ValidKey(key) {
        return default;
      }
      var full := FullKey(key);
      if full !in store {
        return default;
      }
      match Parse(store[full])
      case Some(parsed) => v := parsed;
      case None => v := default;
    }

    method Remove(key: string) returns (ok: bool)
      requires Valid()
      modifies this
      ensures Valid() && isAvailable == Some(usable)
      ensures ok == (usable && ValidKey(key))
      ensures store == if ok then old(ProbedStore()) - {FullKey(key)} else old(ProbedStore())
    {
      ok := CheckAvailability();
      if !ok {
        return;
      }
      if !ValidKey(key) {
        return false;
      }
      store := store - {FullKey(key)};
    }

    method Has(key: string) returns (present: bool)
      requires Valid()
      modifies this
      ensures Valid() && isAvailable == Some(usable)
      ensures store == old(ProbedStore())
      ensures present == (usable && HasIn(store, key))
    {
      var ok := CheckAvailability();
      if !ok || !ValidKey(key) {
        return false;
      }
      present := FullKey(key) in store;
    }

    /** Walks every stored key and removes those in the namespace. */
    method Clear() returns (ok: bool)
      requires Valid()
      modifies this
      ensures Valid() && isAvailable == Some(usable)
      ensures ok == usable
      ensures store == if ok then Cleared(old(ProbedStore())) else old(ProbedStore())
    {
      ok := CheckAvailability();
      if !ok {
        return;
      }
      ghost var before := store;
      var keys := store.Keys;
      var remaining := keys;
      while remaining != {}
        invariant remaining <= keys == before.Keys
        invariant isAvailable == Some(usable)
        invariant store == map k | k in before && (k in remaining || !StartsWith(k, Prefix)) :: before[k]
        decreases remaining
      {
        var k :| k in remaining;
        if StartsWith(k, Prefix) {
          store := store - {k};
        }
        remaining := remaining - {k};
      }
    }

    /** Lists the names in the namespace, in the order the browser
        enumerates its keys. */
    method Keys() returns (names: seq<string>)
      requires Valid()
      modifies this
      ensures Valid() && isAvailable == Some(usable)
      ensures store == old(ProbedStore())
      ensures usable ==> Distinct(names) && forall n :: n in names <==> n in KeysOf(store)
      ensures !usable ==> names == []
    {
      var ok := CheckAvailability();
      if !ok {
        return [];
      }
      names := [];
      var remaining := store.Keys;
      while remaining != {}
        invariant remaining <= store.Keys
        invariant Distinct(names)
        invariant forall n :: n in names ==> n in KeysOf(store) && FullKey(n) !in remaining
        invariant forall k :: k in store && k !in remaining && StartsWith(k, Prefix) ==> k[|Prefix|..] in names
        decreases remaining
      {
        var k :| k in remaining;
        if StartsWith(k, Prefix) {
          assert k == FullKey(k[|Prefix|..]);
          names := names + [k[|Prefix|..]];
        }
        remaining := remaining - {k};
      }
      forall n | n in KeysOf(store)
        ensures n in names
      {
        var k :| k in store && StartsWith(k, Prefix) && k[|Prefix|..] == n;
      }
    }
  }
}
