/**
 Proxies shared by reference ids: a table of proxies by key, the number of ids
 that own each key, and the keys each id owns.
 */
module ProxyTables {
  import opened Options

  /** The ids that own a key. */
  ghost function Owners(owned: map<string, set<string>>, key: string): set<string> {
    set id | id in owned && key in owned[id]
  }

  function Reading(counts: map<string, nat>, key: string): nat {
    if key in counts then counts[key] else 0
  }

  function KeysOf(owned: map<string, set<string>>, id: string): set<string> {
    if id in owned then owned[id] else {}
  }

  /** Every count is the number of owners, and only owned keys have one. */
  ghost predicate TrueCounts(counts: map<string, nat>, owned: map<string, set<string>>) {
    && (forall key :: Reading(counts, key) == |Owners(owned, key)|)
    && (forall key :: key in counts ==> counts[key] > 0)
  }

  /** Every registered proxy has an owner. */
  ghost predicate AllOwned(proxies: map<string, nat>, owned: map<string, set<string>>) {
    forall key :: key in proxies ==> Owners(owned, key) != {}
  }

  ghost predicate TableOk(proxies: map<string, nat>, counts: map<string, nat>, owned: map<string, set<string>>) {
    TrueCounts(counts, owned) && AllOwned(proxies, owned)
  }

  lemma NoOwners(proxies: map<string, nat>, counts: map<string, nat>, owned: map<string, set<string>>)
    requires TableOk(proxies, counts, owned) && owned == map[]
    ensures proxies == map[] && counts == map[]
  {
    forall key ensures key !in counts && key !in proxies {
      assert Owners(owned, key) == {};
      assert Reading(counts, key) == 0;
    }
  }

  lemma FewerProxies(proxies: map<string, nat>, fewer: map<string, nat>, counts: map<string, nat>, owned: map<string, set<string>>)
    requires TableOk(proxies, counts, owned) && fewer.Keys <= proxies.Keys
    ensures TableOk(fewer, counts, owned)
  {}

  lemma MoreProxies(proxies: map<string, nat>, counts: map<string, nat>, owned: map<string, set<string>>, id: string, key: string, proxy: nat)
    requires TableOk(proxies, counts, owned) && key in KeysOf(owned, id)
    ensures TableOk(proxies[key := proxy], counts, owned)
  {
    assert id in Owners(owned, key);
  }

  // ---------- Retaining a key ----------

  function Retained(owned: map<string, set<string>>, id: string, key: string): map<string, set<string>> {
    owned[id := KeysOf(owned, id) + {key}]
  }

  lemma OthersAfterRetain(owned: map<string, set<string>>, id: string, key: string, other: string)
    requires other != key
    ensures Owners(Retained(owned, id, key), other) == Owners(owned, other)
  {}

  lemma OwnersAfterRetain(owned: map<string, set<string>>, id: string, key: string)
    ensures Owners(Retained(owned, id, key), key) == Owners(owned, key) + {id}
    ensures id in Owners(owned, key) <==> key in KeysOf(owned, id)
  {}

  lemma CountAfterRetain(owned: map<string, set<string>>, id: string, key: string, other: string)
    ensures |Owners(Retained(owned, id, key), other)| == |Owners(owned, other)| + if other == key && key !in KeysOf(owned, id) then 1 else 0
    ensures Owners(owned, other) <= Owners(Retained(owned, id, key), other)
  {
    if other == key {
      OwnersAfterRetain(owned, id, key);
      if id in Owners(owned, key) {
        assert Owners(owned, key) + {id} == Owners(owned, key);
      }
    } else {
      OthersAfterRetain(owned, id, key, other);
    }
  }

  lemma RetainKeeps(proxies: map<string, nat>, counts: map<string, nat>, owned: map<string, set<string>>, id: string, key: string)
    requires TableOk(proxies, counts, owned)
    ensures key in KeysOf(owned, id) ==> TableOk(proxies, counts, Retained(owned, id, key))
    ensures key !in KeysOf(owned, id) ==> TableOk(proxies, counts[key := Reading(counts, key) + 1], Retained(owned, id, key))
  {
    var owned' := Retained(owned, id, key);
    forall other
      ensures |Owners(owned', other)| == |Owners(owned, other)| + if other == key && key !in KeysOf(owned, id) then 1 else 0
      ensures Owners(owned, other) <= Owners(owned', other)
    {
      CountAfterRetain(owned, id, key, other);
    }
    forall k | k in proxies ensures Owners(owned', k) != {} {
      assert Owners(owned, k) != {} && Owners(owned, k) <= Owners(owned', k);
    }
    forall other ensures Reading(counts, other) == |Owners(owned, other)| {}
  }

  ghost function RegisteredKeys(proxies: map<string, nat>, keys: seq<string>): set<string> {
    set key | key in keys && key != "" && key in proxies
  }

  lemma RegisteredNext(proxies: map<string, nat>, keys: seq<string>, i: nat)
    requires i < |keys|
    ensures RegisteredKeys(proxies, keys[..i + 1]) ==
      RegisteredKeys(proxies, keys[..i]) + if keys[i] != "" && keys[i] in proxies then {keys[i]} else {}
  {
    assert keys[..i + 1] == keys[..i] + [keys[i]];
  }

  /** One id owns these keys too, the others own what they did. */
  ghost predicate OwnsMore(owned: map<string, set<string>>, before: map<string, set<string>>, id: string, keys: set<string>) {
    forall x :: KeysOf(owned, x) == KeysOf(before, x) + if x == id then keys else {}
  }

  lemma OwnsOneMore(owned: map<string, set<string>>, before: map<string, set<string>>, id: string, keys: set<string>, key: string)
    requires OwnsMore(owned, before, id, keys)
    ensures OwnsMore(Retained(owned, id, key), before, id, keys + {key})
  {
    forall x ensures KeysOf(Retained(owned, id, key), x) == KeysOf(before, x) + if x == id then keys + {key} else {} {
      assert KeysOf(owned, x) == KeysOf(before, x) + if x == id then keys else {};
    }
  }

  // ---------- Releasing an id ----------

  /** The keys an id is the last owner of. */
  ghost function LastOwned(owned: map<string, set<string>>, id: string): set<string> {
    set key | key in KeysOf(owned, id) && Owners(owned, key) == {id}
  }

  /** It owns them, and no other id does. */
  lemma LastOwnedMeaning(owned: map<string, set<string>>, id: string, key: string)
    ensures key in LastOwned(owned, id) <==> id in owned && key in owned[id] && forall other :: other in owned && other != id ==> key !in owned[other]
  {
    if id in owned && key in owned[id] && forall other :: other in owned && other != id ==> key !in owned[other] {
      assert Owners(owned, key) == {id};
    }
    if key in LastOwned(owned, id) {
      forall other | other in owned && other != id ensures key !in owned[other] {
        assert other !in Owners(owned, key);
      }
    }
  }

  lemma OwnersAfterRelease(owned: map<string, set<string>>, id: string, key: string)
    ensures Owners(owned - {id}, key) == Owners(owned, key) - {id}
    ensures id in Owners(owned, key) <==> key in KeysOf(owned, id)
    ensures id in Owners(owned, key) ==> (|Owners(owned, key)| <= 1 <==> Owners(owned, key) == {id})
    ensures |Owners(owned - {id}, key)| == |Owners(owned, key)| - if key in KeysOf(owned, id) then 1 else 0
  {
    var before := Owners(owned, key);
    if id in before {
      assert before == (before - {id}) + {id};
      if |before| <= 1 {
        assert |before - {id}| == 0;
      }
    }
  }

  /** Part of a release: the keys in `todo` are still to be given up. */
  ghost predicate Releasing(proxies: map<string, nat>, counts: map<string, nat>, owned: map<string, set<string>>, id: string, todo: set<string>,
                            proxies': map<string, nat>, counts': map<string, nat>, closed: map<string, nat>) {
    var gone := LastOwned(owned, id) - todo;
    && (forall key :: Reading(counts', key) == |Owners(owned, key)| - if key in KeysOf(owned, id) - todo then 1 else 0)
    && (forall key :: key in counts' ==> counts'[key] > 0)
    && proxies' == proxies - gone
    && closed == proxies - (proxies.Keys - gone)
  }

  lemma ReleaseStart(proxies: map<string, nat>, counts: map<string, nat>, owned: map<string, set<string>>, id: string)
    requires TableOk(proxies, counts, owned)
    ensures Releasing(proxies, counts, owned, id, KeysOf(owned, id), proxies, counts, map[])
  {
    assert LastOwned(owned, id) - KeysOf(owned, id) == {};
  }

  function Lowered(counts: map<string, nat>, key: string): map<string, nat> {
    if Reading(counts, key) <= 1 then counts - {key} else counts[key := counts[key] - 1]
  }

  lemma ReleaseNext(proxies: map<string, nat>, counts: map<string, nat>, owned: map<string, set<string>>, id: string, todo: set<string>,
                    proxies': map<string, nat>, counts': map<string, nat>, closed: map<string, nat>, key: string)
    requires TableOk(proxies, counts, owned) && Releasing(proxies, counts, owned, id, todo, proxies', counts', closed)
    requires key in todo && todo <= KeysOf(owned, id)
    ensures var last := Reading(counts', key) <= 1;
      Releasing(proxies, counts, owned, id, todo - {key},
        if last then proxies' - {key} else proxies', Lowered(counts', key),
        if last && key in proxies' then closed[key := proxies'[key]] else closed)
  {
    OwnersAfterRelease(owned, id, key);
    assert Reading(counts', key) == |Owners(owned, key)|;
    assert Reading(counts', key) <= 1 <==> key in LastOwned(owned, id);
    var todo' := todo - {key};
    forall k ensures Reading(Lowered(counts', key), k) == |Owners(owned, k)| - if k in KeysOf(owned, id) - todo' then 1 else 0 {
      assert Reading(counts', k) == |Owners(owned, k)| - if k in KeysOf(owned, id) - todo then 1 else 0;
    }
    if key in LastOwned(owned, id) {
      assert LastOwned(owned, id) - todo' == (LastOwned(owned, id) - todo) + {key};
    } else {
      assert LastOwned(owned, id) - todo' == LastOwned(owned, id) - todo;
    }
  }

  lemma ReleaseDone(proxies: map<string, nat>, counts: map<string, nat>, owned: map<string, set<string>>, id: string,
                    proxies': map<string, nat>, counts': map<string, nat>, closed: map<string, nat>)
    requires TableOk(proxies, counts, owned) && Releasing(proxies, counts, owned, id, {}, proxies', counts', closed)
    ensures TableOk(proxies', counts', owned - {id})
    ensures proxies' == proxies - LastOwned(owned, id) && closed == proxies - (proxies.Keys - LastOwned(owned, id))
  {
    assert LastOwned(owned, id) - {} == LastOwned(owned, id) && KeysOf(owned, id) - {} == KeysOf(owned, id);
    forall key ensures Reading(counts', key) == |Owners(owned - {id}, key)| {
      OwnersAfterRelease(owned, id, key);
    }
    forall key | key in proxies' ensures Owners(owned - {id}, key) != {} {
      OwnersAfterRelease(owned, id, key);
      assert Owners(owned, key) != {};
    }
  }

  // ---------- The table ----------

  /** A proxy is a number that no other proxy has. */
  class ProxyTable {
    var proxies: map<string, nat>
    var counts: map<string, nat>
    var owned: map<string, set<string>>

    ghost predicate Valid()
      reads this
    {
      TableOk(proxies, counts, owned)
    }

    constructor ()
      ensures Valid() && proxies == map[] && counts == map[] && owned == map[]
    {
      proxies, counts, owned := map[], map[], map[];
      new;
      forall key ensures Owners(owned, key) == {} {}
    }

    method Retain(id: string, key: string)
      requires Valid()
      modifies this`counts, this`owned
      ensures Valid() && owned == Retained(old(owned), id, key)
    {
      RetainKeeps(proxies, counts, owned, id, key);
      var keys := KeysOf(owned, id);
      owned := owned[id := keys + {key}];
      if key !in keys {
        counts := counts[key := Reading(counts, key) + 1];
      }
    }

    /** Retains the keys that are named and registered. */
    method RetainAll(id: string, keys: seq<string>)
      requires Valid()
      modifies this`counts, this`owned
      ensures Valid() && OwnsMore(owned, old(owned), id, RegisteredKeys(proxies, keys))
      ensures owned.Keys <= old(owned).Keys + {id}
    {
      ghost var before := owned;
      for i := 0 to |keys|
        invariant Valid() && OwnsMore(owned, before, id, RegisteredKeys(proxies, keys[..i]))
        invariant owned.Keys <= before.Keys + {id}
      {
        RegisteredNext(proxies, keys, i);
        if keys[i] != "" && keys[i] in proxies {
          OwnsOneMore(owned, before, id, RegisteredKeys(proxies, keys[..i]), keys[i]);
          Retain(id, keys[i]);
        }
      }
      assert keys[..|keys|] == keys;
    }

    method DropClosed(key: string, open: bool)
      requires Valid()
      modifies this`proxies
      ensures Valid() && proxies == (if open then old(proxies) else old(proxies) - {key})
    {
      if key in proxies && !open {
        FewerProxies(proxies, proxies - {key}, counts, owned);
        proxies := proxies - {key};
      }
    }

    method Register(id: string, key: string, proxy: nat)
      requires Valid()
      modifies this
      ensures Valid() && owned == Retained(old(owned), id, key) && proxies == old(proxies)[key := proxy]
    {
      Retain(id, key);
      MoreProxies(proxies, counts, owned, id, key, proxy);
      proxies := proxies[key := proxy];
    }

    /**
     Makes sure that the key has an open proxy that the id owns. `open` says
     whether the registered one is, `listened` is the new one if listening works.
     */
    method Ensure(id: string, registered: bool, key: string, open: bool, listened: Option<nat>) returns (ok: bool, discarded: Option<nat>)
      requires Valid()
      modifies this
      ensures Valid()
      ensures ok <==> registered && ((key in old(proxies) && open) || listened.Some?)
      ensures owned == if ok then Retained(old(owned), id, key) else old(owned)
      ensures key in old(proxies) && open ==> proxies == old(proxies)
      ensures !(key in old(proxies) && open) ==> proxies == if ok then old(proxies)[key := listened.value] else old(proxies) - {key}
      ensures discarded == if !registered && !(key in old(proxies) && open) then listened else None
    {
      DropClosed(key, open);
      if key in proxies {
        if registered {
          Retain(id, key);
        }
        return registered, None;
      }
      ok, discarded := Listen(id, registered, key, listened);
    }

    /** Registers a new proxy for a key without one; one that came too late is discarded. */
    method Listen(id: string, registered: bool, key: string, listened: Option<nat>) returns (ok: bool, discarded: Option<nat>)
      requires Valid()
      modifies this
      ensures Valid()
      ensures ok <==> registered && listened.Some?
      ensures owned == if ok then Retained(old(owned), id, key) else old(owned)
      ensures proxies == if ok then old(proxies)[key := listened.value] else old(proxies)
      ensures discarded == if registered then None else listened
    {
      if listened.None? {
        return false, None;
      }
      if !registered {
        return false, listened;
      }
      Register(id, key, listened.value);
      return true, None;
    }

    method GiveUp(key: string, closed: map<string, nat>) returns (closed': map<string, nat>)
      modifies this`proxies, this`counts
      ensures var last := Reading(old(counts), key) <= 1;
        && counts == Lowered(old(counts), key)
        && proxies == (if last then old(proxies) - {key} else old(proxies))
        && closed' == if last && key in old(proxies) then closed[key := old(proxies)[key]] else closed
    {
      closed' := closed;
      if Reading(counts, key) <= 1 {
        counts := counts - {key};
        if key in proxies {
          closed' := closed[key := proxies[key]];
          proxies := proxies - {key};
        }
      } else {
        counts := counts[key := counts[key] - 1];
      }
    }

    /** Gives up all keys of an id; the proxies it was the last owner of are to be closed. */
    method Release(id: string) returns (closed: map<string, nat>)
      requires Valid()
      modifies this
      ensures Valid() && owned == old(owned) - {id}
      ensures proxies == old(proxies) - LastOwned(old(owned), id)
      ensures closed == old(proxies) - (old(proxies).Keys - LastOwned(old(owned), id))
    {
      ghost var proxies0, counts0, owned0 := proxies, counts, owned;
      closed := map[];
      var todo := KeysOf(owned, id);
      ReleaseStart(proxies, counts, owned, id);
      while todo != {}
        invariant todo <= KeysOf(owned0, id) && owned == owned0
        invariant Releasing(proxies0, counts0, owned0, id, todo, proxies, counts, closed)
        decreases todo
      {
        var key :| key in todo;
        ReleaseNext(proxies0, counts0, owned0, id, todo, proxies, counts, closed, key);
        closed := GiveUp(key, closed);
        todo := todo - {key};
      }
      ReleaseDone(proxies0, counts0, owned0, id, proxies, counts, closed);
      owned := owned - {id};
    }

    method Clear() returns (closed: map<string, nat>)
      modifies this
      ensures Valid() && proxies == map[] && counts == map[] && owned == map[] && closed == old(proxies)
    {
      closed := proxies;
      proxies, counts, owned := map[], map[], map[];
      forall key ensures Owners(owned, key) == {} {}
    }
  }
}
