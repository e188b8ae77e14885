/**
 The life of a shared tunnel runtime: counted references, the proxies they
 hold, the timer that closes an idle runtime, and closing it once.
 */
module WireGuardRefs {
  import opened Options
  import opened ProxyTables

  /** What a runtime held when it was claimed for closing. */
  datatype Resources = Resources(outbound: map<string, nat>, inbound: map<string, nat>)

  /**
   An armed timer is of the present generation and finds no references; a
   timer of the present generation has seen no reference come since it was armed.
   */
  ghost predicate TimersOk(timer: Option<nat>, generation: nat, refs: map<string, nat>, closed: bool, acquisitions: nat, armedAt: map<nat, nat>) {
    && (timer.Some? ==> timer.value == generation && generation in armedAt && refs == map[] && !closed)
    && (forall g :: g in armedAt ==> g <= generation)
    && (generation in armedAt && !closed ==> timer == Some(generation) && armedAt[generation] == acquisitions)
  }

  ghost predicate Positive(refs: map<string, nat>) {
    forall id :: id in refs ==> refs[id] > 0
  }

  class Runtime {
    var refs: map<string, nat>
    const outbound: ProxyTable
    const inbound: ProxyTable
    /** The armed release timer, by its generation. */
    var timer: Option<nat>
    var generation: nat
    var closed: bool
    /** How many references were ever acquired, and how many when each timer was armed. */
    ghost var acquisitions: nat
    ghost var armedAt: map<nat, nat>

    ghost predicate Valid()
      reads this, outbound, inbound
    {
      && outbound != inbound && outbound.Valid() && inbound.Valid()
      && Positive(refs) && (closed ==> refs == map[])
      && outbound.owned.Keys <= refs.Keys && inbound.owned.Keys <= refs.Keys
      && TimersOk(timer, generation, refs, closed, acquisitions, armedAt)
    }

    constructor ()
      ensures Valid() && fresh(outbound) && fresh(inbound)
      ensures refs == map[] && !closed && timer == None && outbound.proxies == map[] && inbound.proxies == map[]
    {
      refs, timer, generation, closed, acquisitions, armedAt := map[], None, 0, false, 0, map[];
      outbound := new ProxyTable();
      inbound := new ProxyTable();
    }

    /** Without references both tables are empty. */
    lemma IdleIsEmpty()
      requires Valid() && refs == map[]
      ensures outbound.proxies == map[] && outbound.counts == map[] && inbound.proxies == map[] && inbound.counts == map[]
    {
      NoOwners(outbound.proxies, outbound.counts, outbound.owned);
      NoOwners(inbound.proxies, inbound.counts, inbound.owned);
    }

    /** Counts a reference and stops the release timer, if one is armed; if it fires all the same, its generation is past. */
    method AddRef(id: string, keys: seq<string>) returns (ok: bool)
      requires Valid()
      modifies this, outbound
      ensures Valid() && ok == !closed && closed == old(closed) && armedAt == old(armedAt)
      ensures refs == if ok then old(refs)[id := Reading(old(refs), id) + 1] else old(refs)
      ensures acquisitions == old(acquisitions) + if ok then 1 else 0
      ensures ok ==> timer == None
      ensures outbound.proxies == old(outbound.proxies)
      ensures forall x, key :: key in KeysOf(outbound.owned, x) <==>
        key in KeysOf(old(outbound.owned), x) || (ok && x == id && key in keys && key != "" && key in outbound.proxies)
    {
      if closed {
        return false;
      }
      if timer.Some? {
        timer := None;
        generation := generation + 1;
      }
      acquisitions := acquisitions + 1;
      refs := refs[id := Reading(refs, id) + 1];
      outbound.RetainAll(id, keys);
      return true;
    }

    /**
     Gives a reference up. The last one of an id releases its keys, and exactly
     the proxies it was the last owner of are to be closed; the last one of all
     arms the release timer.
     */
    method Release(id: string) returns (toClose: Resources, armed: Option<nat>)
      requires Valid()
      modifies this, outbound, inbound
      ensures Valid() && closed == old(closed) && acquisitions == old(acquisitions)
      ensures refs == if Reading(old(refs), id) <= 1 then old(refs) - {id} else old(refs)[id := old(refs)[id] - 1]
      ensures Reading(old(refs), id) == 1 ==>
        && outbound.owned == old(outbound.owned) - {id} && inbound.owned == old(inbound.owned) - {id}
        && ClosesLast(outbound.proxies, old(outbound.proxies), old(outbound.owned), id, toClose.outbound)
        && ClosesLast(inbound.proxies, old(inbound.proxies), old(inbound.owned), id, toClose.inbound)
      ensures Reading(old(refs), id) != 1 ==>
        && outbound.owned == old(outbound.owned) && inbound.owned == old(inbound.owned)
        && outbound.proxies == old(outbound.proxies) && inbound.proxies == old(inbound.proxies) && toClose == Resources(map[], map[])
      ensures armed.Some? <==> id in old(refs) && refs == map[]
      ensures armed.Some? ==> timer == armed && armedAt == old(armedAt)[armed.value := acquisitions]
      ensures armed.None? ==> armedAt == old(armedAt)
    {
      toClose := Resources(map[], map[]);
      if Reading(refs, id) == 0 {
        return toClose, None;
      }
      if refs[id] <= 1 {
        refs := refs - {id};
        var fromOutbound := outbound.Release(id);
        var fromInbound := inbound.Release(id);
        toClose := Resources(fromOutbound, fromInbound);
      } else {
        refs := refs[id := refs[id] - 1];
      }
      armed := None;
      if refs == map[] && timer.None? && !closed {
        generation := generation + 1;
        timer := Some(generation);
        armedAt := armedAt[generation := acquisitions];
        armed := timer;
      }
    }

    method EnsureOutbound(id: string, key: string, open: bool, listened: Option<nat>) returns (ok: bool, discarded: Option<nat>)
      requires Valid()
      modifies outbound
      ensures Valid()
      ensures ok <==> id in refs && ((key in old(outbound.proxies) && open) || listened.Some?)
      ensures outbound.owned == if ok then Retained(old(outbound.owned), id, key) else old(outbound.owned)
      ensures closed || (key in old(outbound.proxies) && open) ==> outbound.proxies == old(outbound.proxies)
      ensures !closed && !(key in old(outbound.proxies) && open) ==>
        outbound.proxies == if ok then old(outbound.proxies)[key := listened.value] else old(outbound.proxies) - {key}
    {
      if closed {
        return false, None;
      }
      ok, discarded := outbound.Ensure(id, Reading(refs, id) > 0, key, open, listened);
    }

    method EnsureInbound(id: string, key: string, open: bool, listened: Option<nat>) returns (ok: bool, discarded: Option<nat>)
      requires Valid()
      modifies inbound
      ensures Valid()
      ensures ok <==> id in refs && ((key in old(inbound.proxies) && open) || listened.Some?)
      ensures inbound.owned == if ok then Retained(old(inbound.owned), id, key) else old(inbound.owned)
      ensures closed || (key in old(inbound.proxies) && open) ==> inbound.proxies == old(inbound.proxies)
      ensures !closed && !(key in old(inbound.proxies) && open) ==>
        inbound.proxies == if ok then old(inbound.proxies)[key := listened.value] else old(inbound.proxies) - {key}
    {
      if closed {
        return false, None;
      }
      ok, discarded := inbound.Ensure(id, Reading(refs, id) > 0, key, open, listened);
    }

    /** Claims everything for closing; only the first claim gets it. */
    method ClaimClose() returns (claimed: Option<Resources>)
      requires Valid()
      modifies this, outbound, inbound
      ensures Valid() && closed && refs == map[]
      ensures claimed == if old(closed) then None else Some(Resources(old(outbound.proxies), old(inbound.proxies)))
      ensures outbound.proxies == map[] && inbound.proxies == map[]
      ensures armedAt == old(armedAt) && acquisitions == old(acquisitions)
    {
      if closed {
        IdleIsEmpty();
        return None;
      }
      closed := true;
      timer := None;
      generation := generation + 1;
      var fromOutbound := outbound.Clear();
      var fromInbound := inbound.Clear();
      refs := map[];
      return Some(Resources(fromOutbound, fromInbound));
    }

    /**
     A release timer fires; `current` says whether the tunnel still uses this
     runtime. It is closed only when no reference has been acquired since the
     timer was armed.
     */
    method StopIfUnused(armed: nat, current: bool) returns (claimed: Option<Resources>)
      requires Valid() && armed in armedAt
      modifies this, outbound, inbound
      ensures Valid() && armedAt == old(armedAt) && acquisitions == old(acquisitions)
      ensures claimed.Some? <==> current && !old(closed) && old(refs) == map[] && old(generation) == armed
      ensures claimed.Some? ==> closed && armedAt[armed] == acquisitions && claimed == Some(Resources(map[], map[]))
      ensures claimed.None? ==> closed == old(closed) && refs == old(refs)
    {
      claimed := None;
      if current && !closed && refs == map[] && generation == armed {
        IdleIsEmpty();
        claimed := ClaimClose();
      }
    }
  }

  /** Exactly the proxies of the keys last owned by this id have left the table, to be closed. */
  ghost predicate ClosesLast(proxies: map<string, nat>, before: map<string, nat>, owned: map<string, set<string>>, id: string, closed: map<string, nat>) {
    proxies == before - LastOwned(owned, id) && closed == before - (before.Keys - LastOwned(owned, id))
  }
}
