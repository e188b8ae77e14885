/**
 The session tables of a datagram entry: sessions by client address and by
 session id, the number of sessions per source address, and hard caps on both.
 */
module SessionTable {
  import opened Words
  import opened Reclamation

  const IDLE_TIMEOUT: int := 300_000_000_000
  const STALLED_TIMEOUT: int := 2 * IDLE_TIMEOUT

  datatype Admission = BelowLimit | RejectPerIP | RejectGlobal

  function CheckCapacity(total: int, perIP: int, ip: string, policy: Policy): Admission {
    if ip != "" && policy.hardPerIP > 0 && perIP >= policy.hardPerIP then RejectPerIP
    else if policy.hardSessions > 0 && total >= policy.hardSessions then RejectGlobal
    else BelowLimit
  }

  predicate ExpiredAt(now: int, s: Snapshot) {
    && s.lastActivity > 0
    && (now - s.lastActivity >= STALLED_TIMEOUT || (s.pending <= 0 && now - s.lastActivity >= IDLE_TIMEOUT))
  }

  class EntrySession {
    const key: string
    const sessionID: uint64
    const sourceIP: string
    var lastActivity: int
    /** Queued packets, pending reassemblies and leases in flight. */
    var pending: int

    constructor (key: string, sessionID: uint64, sourceIP: string, now: int)
      ensures this.key == key && this.sessionID == sessionID && this.sourceIP == sourceIP
      ensures lastActivity == now && pending == 0
    {
      this.key, this.sessionID, this.sourceIP := key, sessionID, sourceIP;
      lastActivity, pending := now, 0;
    }

    function Snap(): Snapshot
      reads this
    {
      Snapshot(sourceIP, lastActivity, pending)
    }
  }

  // ---------- What the three maps say ----------

  ghost function ClientIPs(byClient: map<string, EntrySession>): map<string, string> {
    map k | k in byClient :: byClient[k].sourceIP
  }

  ghost predicate Indexed(byClient: map<string, EntrySession>, byID: map<uint64, EntrySession>, k: string)
    requires k in byClient
  {
    var s := byClient[k];
    s.key == k && s.sessionID in byID && byID[s.sessionID] == s
  }

  ghost predicate Owned(byClient: map<string, EntrySession>, byID: map<uint64, EntrySession>, id: uint64)
    requires id in byID
  {
    var s := byID[id];
    s.sessionID == id && s.key in byClient && byClient[s.key] == s
  }

  /** Both maps hold the same sessions, each under its own key and id. */
  ghost predicate SameSessions(byClient: map<string, EntrySession>, byID: map<uint64, EntrySession>) {
    && (forall k :: k in byClient ==> Indexed(byClient, byID, k))
    && (forall id :: id in byID ==> Owned(byClient, byID, id))
  }

  /** The per-address map holds the true counts, and only addresses that have a session. */
  ghost predicate TrueCounts(ips: map<string, string>, perIP: map<string, nat>) {
    && (forall ip :: CountFrom(ips, ip) == Reading(perIP, ip))
    && (forall ip :: ip in perIP ==> perIP[ip] > 0)
  }

  function Reading(perIP: map<string, nat>, ip: string): nat {
    if ip in perIP then perIP[ip] else 0
  }

  ghost predicate WithinCaps(ips: map<string, string>, policy: Policy) {
    && (policy.hardSessions > 0 ==> |ips| <= policy.hardSessions)
    && (policy.hardPerIP > 0 ==> forall ip :: ip != "" ==> CountFrom(ips, ip) <= policy.hardPerIP)
  }

  ghost predicate TablesOk(byClient: map<string, EntrySession>, byID: map<uint64, EntrySession>, perIP: map<string, nat>, policy: Policy) {
    SameSessions(byClient, byID) && TrueCounts(ClientIPs(byClient), perIP) && WithinCaps(ClientIPs(byClient), policy)
  }

  lemma SameSize(byClient: map<string, EntrySession>)
    ensures |ClientIPs(byClient)| == |byClient|
  {
    assert ClientIPs(byClient).Keys == byClient.Keys;
    assert |ClientIPs(byClient).Keys| == |ClientIPs(byClient)| && |byClient.Keys| == |byClient|;
  }

  lemma EmptyTables(policy: Policy)
    ensures TablesOk(map[], map[], map[], policy)
  {
    assert ClientIPs(map[]) == map[];
    forall ip ensures CountFrom(map[], ip) == 0 {
      assert From<string>(map[], ip) == {};
    }
  }

  // ---------- Entering and leaving ----------

  lemma AdmitKeepsSessions(byClient: map<string, EntrySession>, byID: map<uint64, EntrySession>, s: EntrySession)
    requires SameSessions(byClient, byID) && s.key !in byClient && s.sessionID !in byID
    ensures SameSessions(byClient[s.key := s], byID[s.sessionID := s])
  {
    var byClient', byID' := byClient[s.key := s], byID[s.sessionID := s];
    forall k | k in byClient' ensures Indexed(byClient', byID', k) {
      if k in byClient { assert Indexed(byClient, byID, k); }
    }
    forall id | id in byID' ensures Owned(byClient', byID', id) {
      if id in byID { assert Owned(byClient, byID, id); }
    }
  }

  lemma DetachKeepsSessions(byClient: map<string, EntrySession>, byID: map<uint64, EntrySession>, s: EntrySession)
    requires SameSessions(byClient, byID) && s.key in byClient && byClient[s.key] == s
    ensures s.sessionID in byID && byID[s.sessionID] == s
    ensures SameSessions(byClient - {s.key}, byID - {s.sessionID})
  {
    assert Indexed(byClient, byID, s.key);
    var byClient', byID' := byClient - {s.key}, byID - {s.sessionID};
    forall k | k in byClient' ensures Indexed(byClient', byID', k) {
      assert Indexed(byClient, byID, k);
    }
    forall id | id in byID' ensures Owned(byClient', byID', id) {
      assert Owned(byClient, byID, id);
    }
  }

  lemma AdmitKeepsCounts(ips: map<string, string>, perIP: map<string, nat>, policy: Policy, key: string, ip: string)
    requires TrueCounts(ips, perIP) && WithinCaps(ips, policy) && key !in ips
    requires CheckCapacity(|ips|, Reading(perIP, ip), ip, policy) == BelowLimit
    ensures TrueCounts(ips[key := ip], perIP[ip := Reading(perIP, ip) + 1])
    ensures WithinCaps(ips[key := ip], policy)
  {
    var perIP' := perIP[ip := Reading(perIP, ip) + 1];
    forall other
      ensures CountFrom(ips[key := ip], other) == CountFrom(ips, other) + if ip == other then 1 else 0
      ensures CountFrom(ips[key := ip], other) == Reading(perIP', other)
    {
      CountAdd(ips, key, ip, other);
      assert CountFrom(ips, other) == Reading(perIP, other);
    }
    assert ips[key := ip].Keys == ips.Keys + {key};
    assert |ips[key := ip]| == |ips| + 1;
  }

  function Dropped(perIP: map<string, nat>, ip: string): map<string, nat> {
    if Reading(perIP, ip) <= 1 then perIP - {ip} else perIP[ip := perIP[ip] - 1]
  }

  lemma DetachKeepsCounts(ips: map<string, string>, perIP: map<string, nat>, policy: Policy, key: string)
    requires TrueCounts(ips, perIP) && WithinCaps(ips, policy) && key in ips
    ensures TrueCounts(ips - {key}, Dropped(perIP, ips[key]))
    ensures WithinCaps(ips - {key}, policy)
  {
    var perIP' := Dropped(perIP, ips[key]);
    forall other
      ensures CountFrom(ips - {key}, other) == CountFrom(ips, other) - if ips[key] == other then 1 else 0
      ensures CountFrom(ips - {key}, other) == Reading(perIP', other)
    {
      CountRemove(ips, key, other);
      assert CountFrom(ips, other) == Reading(perIP, other);
    }
    SizeRemove(ips, key);
  }

  lemma AdmitKeeps(byClient: map<string, EntrySession>, byID: map<uint64, EntrySession>, perIP: map<string, nat>, policy: Policy, s: EntrySession)
    requires TablesOk(byClient, byID, perIP, policy) && s.key !in byClient && s.sessionID !in byID
    requires CheckCapacity(|byClient|, Reading(perIP, s.sourceIP), s.sourceIP, policy) == BelowLimit
    ensures TablesOk(byClient[s.key := s], byID[s.sessionID := s], perIP[s.sourceIP := Reading(perIP, s.sourceIP) + 1], policy)
  {
    SameSize(byClient);
    AdmitKeepsSessions(byClient, byID, s);
    AdmitKeepsCounts(ClientIPs(byClient), perIP, policy, s.key, s.sourceIP);
    assert ClientIPs(byClient[s.key := s]) == ClientIPs(byClient)[s.key := s.sourceIP];
  }

  lemma DetachKeeps(byClient: map<string, EntrySession>, byID: map<uint64, EntrySession>, perIP: map<string, nat>, policy: Policy, s: EntrySession)
    requires TablesOk(byClient, byID, perIP, policy) && s.key in byClient && byClient[s.key] == s
    ensures s.sessionID in byID && byID[s.sessionID] == s
    ensures TablesOk(byClient - {s.key}, byID - {s.sessionID}, Dropped(perIP, s.sourceIP), policy)
  {
    DetachKeepsSessions(byClient, byID, s);
    DetachKeepsCounts(ClientIPs(byClient), perIP, policy, s.key);
    assert ClientIPs(byClient - {s.key}) == ClientIPs(byClient) - {s.key};
  }

  // ---------- The tables ----------

  datatype AdmitResult = Existing | Collision | Rejected(reason: Admission) | Admitted(pressure: bool)

  class SessionTables {
    var byClient: map<string, EntrySession>
    var byID: map<uint64, EntrySession>
    var perIP: map<string, nat>
    const policy: Policy

    ghost predicate Valid()
      reads this
    {
      TablesOk(byClient, byID, perIP, policy)
    }

    constructor (policy: Policy)
      ensures Valid() && byClient == map[] && this.policy == policy
    {
      this.policy := policy;
      byClient, byID, perIP := map[], map[], map[];
      EmptyTables(policy);
    }

    /** How many registered sessions come from this address. */
    ghost function SessionsFrom(ip: string): nat
      reads this
    {
      CountFrom(ClientIPs(byClient), ip)
    }

    /** The read-only check before a session is created. */
    method Preflight(key: string, ip: string) returns (admission: Admission)
      requires Valid()
      ensures admission == RejectPerIP <==> key !in byClient && ip != "" && policy.hardPerIP > 0 && SessionsFrom(ip) >= policy.hardPerIP
      ensures admission == RejectGlobal <==>
        admission != RejectPerIP && key !in byClient && policy.hardSessions > 0 && |byClient| >= policy.hardSessions
    {
      if key in byClient {
        return BelowLimit;
      }
      assert Reading(perIP, ip) == SessionsFrom(ip);
      return CheckCapacity(|byClient|, Reading(perIP, ip), ip, policy);
    }

    /** Registers a created session, unless its key or id is taken or a cap is reached. */
    method Admit(created: EntrySession) returns (r: AdmitResult)
      requires Valid()
      modifies this
      ensures Valid()
      ensures r.Existing? <==> created.key in old(byClient)
      ensures r.Collision? <==> created.key !in old(byClient) && created.sessionID in old(byID)
      ensures r == Rejected(RejectPerIP) <==>
        && created.key !in old(byClient) && created.sessionID !in old(byID)
        && created.sourceIP != "" && policy.hardPerIP > 0 && old(SessionsFrom(created.sourceIP)) >= policy.hardPerIP
      ensures r == Rejected(RejectGlobal) <==>
        && created.key !in old(byClient) && created.sessionID !in old(byID) && r != Rejected(RejectPerIP)
        && policy.hardSessions > 0 && |old(byClient)| >= policy.hardSessions
      ensures r != Rejected(BelowLimit)
      ensures r.Admitted? ==> (r.pressure <==>
        || (policy.softSessions > 0 && |byClient| >= policy.softSessions)
        || (created.sourceIP != "" && policy.softPerIP > 0 && SessionsFrom(created.sourceIP) >= policy.softPerIP))
      ensures r.Admitted? ==> byClient == old(byClient)[created.key := created] && byID == old(byID)[created.sessionID := created]
      ensures !r.Admitted? ==> byClient == old(byClient) && byID == old(byID) && perIP == old(perIP)
    {
      if created.key in byClient {
        return Existing;
      }
      if created.sessionID in byID {
        return Collision;
      }
      var ip := created.sourceIP;
      var decision := CheckCapacity(|byClient|, Reading(perIP, ip), ip, policy);
      assert Reading(perIP, ip) == SessionsFrom(ip);
      if decision != BelowLimit {
        return Rejected(decision);
      }
      AdmitKeeps(byClient, byID, perIP, policy, created);
      var perIP' := perIP[ip := Reading(perIP, ip) + 1];
      byClient := byClient[created.key := created];
      byID := byID[created.sessionID := created];
      perIP := perIP';
      var pressure := (policy.softSessions > 0 && |byClient| >= policy.softSessions)
        || (ip != "" && policy.softPerIP > 0 && perIP'[ip] >= policy.softPerIP);
      return Admitted(pressure);
    }

    method DropAddress(ip: string)
      modifies this`perIP
      ensures perIP == Dropped(old(perIP), ip)
    {
      if Reading(perIP, ip) <= 1 {
        perIP := perIP - {ip};
      } else {
        perIP := perIP[ip := perIP[ip] - 1];
      }
    }

    /** Takes a session out of all three maps; a session that is not registered changes nothing. */
    method Detach(session: EntrySession) returns (detached: bool)
      requires Valid()
      modifies this
      ensures Valid()
      ensures detached <==> session.key in old(byClient) && old(byClient)[session.key] == session
      ensures detached ==> byClient == old(byClient) - {session.key} && byID == old(byID) - {session.sessionID}
      ensures !detached ==> byClient == old(byClient) && byID == old(byID) && perIP == old(perIP)
    {
      if session.key !in byClient || byClient[session.key] != session {
        return false;
      }
      var ip := session.sourceIP;
      DetachKeeps(byClient, byID, perIP, policy, session);
      byClient := byClient - {session.key};
      if session.sessionID in byID && byID[session.sessionID] == session {
        byID := byID - {session.sessionID};
      }
      DropAddress(ip);
      return true;
    }

    /** The sweep's first pass: every expired session goes, and is returned to be closed. */
    method DetachExpired(now: int, ghost snaps: map<string, Snapshot>) returns (expired: seq<EntrySession>)
      requires Valid() && Shows(byClient, snaps)
      modifies this
      ensures Valid() && Shows(old(byClient), snaps)
      ensures Swept(now, old(byClient), snaps, {}, byClient, expired)
    {
      expired := [];
      var todo := byClient.Keys;
      ghost var was := byClient;
      SweptStart(now, was, snaps);
      while todo != {}
        invariant Valid() && todo <= was.Keys && Shows(was, snaps)
        invariant Swept(now, was, snaps, todo, byClient, expired)
        decreases todo
      {
        var key :| key in todo;
        expired := SweepOne(now, was, snaps, todo, key, expired);
        todo := todo - {key};
      }
    }

    method SweepOne(now: int, ghost was: map<string, EntrySession>, ghost snaps: map<string, Snapshot>, ghost todo: set<string>,
                    key: string, expired: seq<EntrySession>)
      returns (expired': seq<EntrySession>)
      requires Valid() && Shows(was, snaps) && key in todo && todo <= was.Keys
      requires Swept(now, was, snaps, todo, byClient, expired)
      modifies this
      ensures Valid() && Shows(was, snaps)
      ensures Swept(now, was, snaps, todo - {key}, byClient, expired')
    {
      SweptNext(now, was, snaps, todo, byClient, expired, key);
      var session := byClient[key];
      assert Indexed(byClient, byID, key) && session.Snap() == snaps[key];
      expired' := expired;
      if ExpiredAt(now, session.Snap()) {
        var detached := Detach(session);
        expired' := expired + if detached then [session] else [];
      }
    }

    /** The sweep's second pass: carries the reclamation plan out, in order. */
    method DetachPlanned(plan: seq<string>) returns (reclaimed: seq<EntrySession>)
      requires Valid() && Distinct(plan) && TakenKeys(plan) <= byClient.Keys
      modifies this
      ensures Valid()
      ensures Reclaimed(old(byClient), plan, byClient, reclaimed)
    {
      reclaimed := [];
      ghost var was := byClient;
      ReclaimedStart(was);
      for n := 0 to |plan|
        invariant Valid() && Reclaimed(was, plan[..n], byClient, reclaimed)
      {
        ReclaimedNext(was, plan, n, byClient, reclaimed);
        var victim := byClient[plan[n]];
        assert Indexed(byClient, byID, plan[n]);
        var detached := Detach(victim);
        reclaimed := reclaimed + if detached then [victim] else [];
      }
      assert plan[..|plan|] == plan;
    }

    method PlanSweep(now: int, ghost snaps: map<string, Snapshot>) returns (plan: seq<string>)
      requires Shows(byClient, snaps)
      ensures GoodPlan(snaps, Cutoff(now, policy), policy, plan)
      ensures Distinct(plan) && TakenKeys(plan) <= byClient.Keys
    {
      var snapshots := Snapshots(byClient);
      assert snapshots == snaps;
      plan := PlanReclamation(now, snapshots, policy);
    }

    /** One sweep: expired sessions first, then the reclamation plan for what is left. */
    method Sweep(now: int, ghost snaps: map<string, Snapshot>)
      returns (expired: seq<EntrySession>, reclaimed: seq<EntrySession>, ghost left: map<string, EntrySession>, ghost plan: seq<string>)
      requires Valid() && Shows(byClient, snaps)
      modifies this
      ensures Valid()
      ensures Swept(now, old(byClient), snaps, {}, left, expired)
      ensures forall k :: k in old(byClient) ==> (k !in left <==>
        && snaps[k].lastActivity > 0
        && (now - snaps[k].lastActivity >= 600_000_000_000 || (snaps[k].pending <= 0 && now - snaps[k].lastActivity >= 300_000_000_000)))
      ensures GoodPlan(snaps - (snaps.Keys - left.Keys), Cutoff(now, policy), policy, plan)
      ensures Reclaimed(left, plan, byClient, reclaimed)
    {
      expired := DetachExpired(now, snaps);
      left := byClient;
      SweptByTime(now, old(byClient), snaps, left, expired);
      StillShown(old(byClient), left, snaps);
      var victims := PlanSweep(now, snaps - (snaps.Keys - left.Keys));
      plan := victims;
      reclaimed := DetachPlanned(victims);
    }
  }

  // ---------- What a sweep takes ----------

  function Snapshots(byClient: map<string, EntrySession>): map<string, Snapshot>
    reads byClient.Values
  {
    map k | k in byClient :: byClient[k].Snap()
  }

  /** The snapshots are those of the registered sessions. */
  ghost predicate Shows(byClient: map<string, EntrySession>, snaps: map<string, Snapshot>)
    reads byClient.Values
  {
    snaps.Keys == byClient.Keys && forall k :: k in byClient ==> byClient[k].Snap() == snaps[k]
  }

  lemma StillShown(was: map<string, EntrySession>, left: map<string, EntrySession>, snaps: map<string, Snapshot>)
    requires Shows(was, snaps) && left.Keys <= was.Keys && forall k :: k in left ==> left[k] == was[k]
    ensures Shows(left, snaps - (snaps.Keys - left.Keys))
  {}

  /** The sessions of these keys, in this order. */
  ghost predicate Listed(byClient: map<string, EntrySession>, keys: seq<string>, sessions: seq<EntrySession>) {
    && |keys| == |sessions|
    && forall i :: 0 <= i < |sessions| ==> keys[i] in byClient && byClient[keys[i]] == sessions[i]
  }

  /**
   After visiting every key outside `todo`, exactly the expired sessions among
   them have left the tables, and exactly they are listed to be closed.
   */
  ghost predicate Swept(now: int, was: map<string, EntrySession>, snaps: map<string, Snapshot>, todo: set<string>,
                        left: map<string, EntrySession>, expired: seq<EntrySession>) {
    && left.Keys <= was.Keys && (forall k :: k in left ==> left[k] == was[k])
    && (forall k :: k in was && k in snaps ==> (k in left <==> k in todo || !ExpiredAt(now, snaps[k])))
    && ListsExactly(was, was.Keys - left.Keys, expired)
  }

  /** A sweep takes what has been silent for ten minutes, or for five with nothing pending. */
  lemma SweptByTime(now: int, was: map<string, EntrySession>, snaps: map<string, Snapshot>, left: map<string, EntrySession>, expired: seq<EntrySession>)
    requires Swept(now, was, snaps, {}, left, expired) && was.Keys == snaps.Keys
    ensures forall k :: k in was ==> (k !in left <==>
      && snaps[k].lastActivity > 0
      && (now - snaps[k].lastActivity >= 600_000_000_000 || (snaps[k].pending <= 0 && now - snaps[k].lastActivity >= 300_000_000_000)))
  {}

  /** The sessions of exactly these keys, each once. */
  ghost predicate ListsExactly(was: map<string, EntrySession>, gone: set<string>, sessions: seq<EntrySession>) {
    exists keys :: Distinct(keys) && Listed(was, keys, sessions) && TakenKeys(keys) == gone
  }

  lemma SweptStart(now: int, was: map<string, EntrySession>, snaps: map<string, Snapshot>)
    ensures Swept(now, was, snaps, was.Keys, was, [])
  {
    assert Distinct([]) && Listed(was, [], []) && TakenKeys([]) == was.Keys - was.Keys;
  }

  lemma TakenAppend(keys: seq<string>, key: string)
    ensures TakenKeys(keys + [key]) == TakenKeys(keys) + {key}
  {
    var next := keys + [key];
    assert next[|keys|] == key;
    forall k | k in TakenKeys(keys)
      ensures k in TakenKeys(next)
    {
      var i :| 0 <= i < |keys| && keys[i] == k;
      assert next[i] == k;
    }
  }

  lemma SweptNext(now: int, was: map<string, EntrySession>, snaps: map<string, Snapshot>, todo: set<string>,
                  left: map<string, EntrySession>, expired: seq<EntrySession>, key: string)
    requires Swept(now, was, snaps, todo, left, expired) && key in todo && todo <= was.Keys && was.Keys == snaps.Keys
    ensures key in left && left[key] == was[key]
    ensures !ExpiredAt(now, snaps[key]) ==> Swept(now, was, snaps, todo - {key}, left, expired)
    ensures ExpiredAt(now, snaps[key]) ==> Swept(now, was, snaps, todo - {key}, left - {key}, expired + [was[key]])
  {
    var keys :| Distinct(keys) && Listed(was, keys, expired) && TakenKeys(keys) == was.Keys - left.Keys;
    if ExpiredAt(now, snaps[key]) {
      var next := keys + [key];
      TakenAppend(keys, key);
      forall i | 0 <= i < |keys| ensures keys[i] != key {
        assert keys[i] in TakenKeys(keys);
      }
      assert Distinct(next) && Listed(was, next, expired + [was[key]]);
      assert TakenKeys(next) == was.Keys - (left - {key}).Keys;
    }
  }

  /** Exactly the planned sessions have left the tables, and are listed to be closed in the plan's order. */
  ghost predicate Reclaimed(was: map<string, EntrySession>, plan: seq<string>, left: map<string, EntrySession>, reclaimed: seq<EntrySession>) {
    left == was - TakenKeys(plan) && Listed(was, plan, reclaimed)
  }

  lemma ReclaimedStart(was: map<string, EntrySession>)
    ensures Reclaimed(was, [], was, [])
  {}

  lemma ReclaimedNext(was: map<string, EntrySession>, plan: seq<string>, n: nat, left: map<string, EntrySession>, reclaimed: seq<EntrySession>)
    requires n < |plan| && Reclaimed(was, plan[..n], left, reclaimed) && Distinct(plan) && TakenKeys(plan) <= was.Keys
    ensures plan[n] in left && left[plan[n]] == was[plan[n]]
    ensures Reclaimed(was, plan[..n + 1], left - {plan[n]}, reclaimed + [left[plan[n]]])
  {
    assert plan[..n + 1] == plan[..n] + [plan[n]];
    TakenAppend(plan[..n], plan[n]);
    assert plan[n] in TakenKeys(plan);
    assert plan[n] !in TakenKeys(plan[..n]);
  }
}
