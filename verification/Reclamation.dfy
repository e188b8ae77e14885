/**
 The reclamation of idle sessions under pressure: which sessions of a table
 are closed to get back under the soft limits.
 */
module Reclamation {

  const RECLAIM_AFTER: int := 30_000_000_000

  datatype Policy = Policy(softSessions: int, hardSessions: int, softPerIP: int, hardPerIP: int, reclaimAfter: int)

  datatype Snapshot = Snapshot(sourceIP: string, lastActivity: int, pending: int)

  // ---------- Counting by source address ----------

  ghost function From<S>(ips: map<string, S>, ip: S): set<string> {
    set k | k in ips && ips[k] == ip
  }

  /** How many of the keys have this source address. */
  ghost function CountFrom(ips: map<string, string>, ip: string): nat {
    |From(ips, ip)|
  }

  lemma CountAdd(ips: map<string, string>, key: string, ip: string, other: string)
    requires key !in ips
    ensures CountFrom(ips[key := ip], other) == CountFrom(ips, other) + if ip == other then 1 else 0
  {
    var after := From(ips[key := ip], other);
    if ip == other {
      assert after == From(ips, other) + {key};
    } else {
      assert after == From(ips, other);
    }
  }

  lemma CountRemove(ips: map<string, string>, key: string, other: string)
    requires key in ips
    ensures CountFrom(ips - {key}, other) == CountFrom(ips, other) - if ips[key] == other then 1 else 0
  {
    var after := From(ips - {key}, other);
    if ips[key] == other {
      assert From(ips, other) == after + {key};
    } else {
      assert after == From(ips, other);
    }
  }

  lemma {:induction false} CountMonotone(ips: map<string, string>, fewer: map<string, string>, ip: string)
    requires fewer.Keys <= ips.Keys && forall k :: k in fewer ==> fewer[k] == ips[k]
    ensures CountFrom(fewer, ip) <= CountFrom(ips, ip)
  {
    SubsetSize(From(fewer, ip), From(ips, ip));
  }

  lemma {:induction false} SubsetSize<T>(a: set<T>, b: set<T>)
    requires a <= b
    ensures |a| <= |b|
    decreases a
  {
    if a != {} {
      var x :| x in a;
      SubsetSize(a - {x}, b - {x});
    }
  }

  // ---------- The reclamation plan ----------

  function IPs(sessions: map<string, Snapshot>): map<string, string> {
    map k | k in sessions :: sessions[k].sourceIP
  }

  /** The remaining sessions press against the soft limits, all of them or those of one address. */
  ghost predicate Pressure(remaining: map<string, Snapshot>, ip: string, policy: Policy) {
    || (policy.softSessions > 0 && |remaining| >= policy.softSessions)
    || (ip != "" && policy.softPerIP > 0 && CountFrom(IPs(remaining), ip) >= policy.softPerIP)
  }

  function Cutoff(now: int, policy: Policy): int {
    now - if policy.reclaimAfter <= 0 then RECLAIM_AFTER else policy.reclaimAfter
  }

  /** Idle and drained. */
  predicate Idle(s: Snapshot, cutoff: int) {
    0 < s.lastActivity <= cutoff && s.pending <= 0
  }

  predicate StringLeq(a: string, b: string) {
    a == "" || (b != "" && (a[0] < b[0] || (a[0] == b[0] && StringLeq(a[1..], b[1..]))))
  }

  lemma {:induction false} StringLeqTotal(a: string, b: string)
    ensures StringLeq(a, b) || StringLeq(b, a)
  {
    if a != "" && b != "" && a[0] == b[0] {
      StringLeqTotal(a[1..], b[1..]);
    }
  }

  lemma {:induction false} StringLeqTransitive(a: string, b: string, c: string)
    requires StringLeq(a, b) && StringLeq(b, c)
    ensures StringLeq(a, c)
  {
    if a != "" && a[0] == b[0] == c[0] {
      StringLeqTransitive(a[1..], b[1..], c[1..]);
    }
  }

  /** The order of strings: by their first difference, and a prefix comes first. */
  lemma {:induction false} StringLeqAt(a: string, b: string, n: nat)
    requires n <= |a| && n <= |b| && a[..n] == b[..n]
    ensures n == |a| ==> StringLeq(a, b)
    ensures n == |b| < |a| ==> !StringLeq(a, b)
    ensures n < |a| && n < |b| && a[n] != b[n] ==> (StringLeq(a, b) <==> a[n] < b[n])
  {
    if n > 0 {
      assert a[0] == a[..n][0] == b[..n][0] == b[0];
      assert a[1..][..n - 1] == a[..n][1..] == b[..n][1..] == b[1..][..n - 1];
      StringLeqAt(a[1..], b[1..], n - 1);
    }
  }

  datatype Candidate = Candidate(key: string, sourceIP: string, lastActivity: int)

  /** Oldest first; sessions of the same age by key. */
  predicate Precedes(a: Candidate, b: Candidate) {
    a.lastActivity < b.lastActivity || (a.lastActivity == b.lastActivity && StringLeq(a.key, b.key))
  }

  ghost predicate Sorted(cs: seq<Candidate>) {
    forall i, j :: 0 <= i < j < |cs| ==> Precedes(cs[i], cs[j])
  }

  lemma PrecedesOrder(a: Candidate, b: Candidate, c: Candidate)
    ensures Precedes(a, b) || Precedes(b, a)
    ensures Precedes(a, b) && Precedes(b, c) ==> Precedes(a, c)
  {
    StringLeqTotal(a.key, b.key);
    if StringLeq(a.key, b.key) && StringLeq(b.key, c.key) {
      StringLeqTransitive(a.key, b.key, c.key);
    }
  }

  method InsertSorted(cs: seq<Candidate>, c: Candidate) returns (sorted: seq<Candidate>)
    requires Sorted(cs)
    ensures Sorted(sorted) && multiset(sorted) == multiset(cs) + multiset{c}
  {
    var i := 0;
    while i < |cs| && Precedes(cs[i], c)
      invariant 0 <= i <= |cs|
      invariant forall j :: 0 <= j < i ==> Precedes(cs[j], c)
    {
      i := i + 1;
    }
    forall j | i <= j < |cs|
      ensures Precedes(c, cs[j])
    {
      PrecedesOrder(cs[i], c, c);
      PrecedesOrder(c, cs[i], cs[j]);
    }
    sorted := cs[..i] + [c] + cs[i..];
    assert cs == cs[..i] + cs[i..];
  }

  method SortCandidates(cs: seq<Candidate>) returns (sorted: seq<Candidate>)
    ensures Sorted(sorted) && multiset(sorted) == multiset(cs)
  {
    sorted := [];
    for i := 0 to |cs|
      invariant Sorted(sorted) && multiset(sorted) == multiset(cs[..i])
    {
      assert cs[..i + 1] == cs[..i] + [cs[i]];
      sorted := InsertSorted(sorted, cs[i]);
    }
    assert cs[..|cs|] == cs;
  }

  ghost function Keys(cs: seq<Candidate>): set<string> {
    set i | 0 <= i < |cs| :: cs[i].key
  }

  ghost predicate NoDuplicates(cs: seq<Candidate>) {
    forall i, j :: 0 <= i < j < |cs| ==> cs[i].key != cs[j].key
  }

  predicate Describes(c: Candidate, sessions: map<string, Snapshot>, cutoff: int) {
    c.key in sessions && Idle(sessions[c.key], cutoff)
    && c.sourceIP == sessions[c.key].sourceIP && c.lastActivity == sessions[c.key].lastActivity
  }

  /** The counters agree with the sessions visited so far. */
  ghost predicate Counted(visited: map<string, string>, total: nat, perIP: map<string, nat>) {
    && total == |visited| && "" !in perIP
    && (forall ip :: ip in perIP ==> perIP[ip] == CountFrom(visited, ip))
    && (forall ip :: ip !in perIP && ip != "" ==> CountFrom(visited, ip) == 0)
  }

  function Bumped(perIP: map<string, nat>, ip: string): map<string, nat> {
    if ip == "" then perIP else perIP[ip := (if ip in perIP then perIP[ip] else 0) + 1]
  }

  lemma CountedNext(visited: map<string, string>, total: nat, perIP: map<string, nat>, key: string, ip: string)
    requires Counted(visited, total, perIP) && key !in visited
    ensures Counted(visited[key := ip], total + 1, Bumped(perIP, ip))
  {
    forall other
      ensures CountFrom(visited[key := ip], other) == CountFrom(visited, other) + if ip == other then 1 else 0
    {
      CountAdd(visited, key, ip, other);
    }
  }

  /** The candidates are exactly the idle sessions visited so far. */
  ghost predicate Gathered(sessions: map<string, Snapshot>, todo: set<string>, candidates: seq<Candidate>, cutoff: int) {
    && NoDuplicates(candidates)
    && (forall i :: 0 <= i < |candidates| ==> Describes(candidates[i], sessions, cutoff) && candidates[i].key !in todo)
    && (forall k :: k in sessions && k !in todo && Idle(sessions[k], cutoff) ==> k in Keys(candidates))
  }

  lemma GatheredNext(sessions: map<string, Snapshot>, todo: set<string>, candidates: seq<Candidate>, cutoff: int, key: string)
    requires Gathered(sessions, todo, candidates, cutoff) && key in todo && key in sessions
    ensures var next := if Idle(sessions[key], cutoff)
                        then candidates + [Candidate(key, sessions[key].sourceIP, sessions[key].lastActivity)] else candidates;
      Gathered(sessions, todo - {key}, next, cutoff)
  {
    if Idle(sessions[key], cutoff) {
      var next := candidates + [Candidate(key, sessions[key].sourceIP, sessions[key].lastActivity)];
      KeysAppend(candidates, next[|candidates|]);
    }
  }

  lemma KeysAppend(cs: seq<Candidate>, c: Candidate)
    ensures Keys(cs + [c]) == Keys(cs) + {c.key}
  {
    var next := cs + [c];
    forall k | k in Keys(cs) + {c.key}
      ensures k in Keys(next)
    {
      if k == c.key {
        assert next[|cs|].key == k;
      } else {
        var i :| 0 <= i < |cs| && cs[i].key == k;
        assert next[i].key == k;
      }
    }
  }

  lemma GatherStart(sessions: map<string, Snapshot>, cutoff: int)
    ensures Counted(Visited(sessions, sessions.Keys), 0, map[])
    ensures Gathered(sessions, sessions.Keys, [], cutoff)
  {
    assert Visited(sessions, sessions.Keys) == map[];
    forall ip ensures CountFrom(map[], ip) == 0 {
      assert From<string>(map[], ip) == {};
    }
  }

  lemma VisitedAll(sessions: map<string, Snapshot>)
    ensures Visited(sessions, {}) == IPs(sessions)
  {}

  /** Counts one session and makes it a candidate when it is idle. */
  method Visit(sessions: map<string, Snapshot>, ghost todo: set<string>, key: string, cutoff: int,
               candidates: seq<Candidate>, total: nat, perIP: map<string, nat>)
    returns (candidates': seq<Candidate>, total': nat, perIP': map<string, nat>)
    requires key in todo && key in sessions
    requires Counted(Visited(sessions, todo), total, perIP) && Gathered(sessions, todo, candidates, cutoff)
    ensures Counted(Visited(sessions, todo - {key}), total', perIP') && Gathered(sessions, todo - {key}, candidates', cutoff)
  {
    var state := sessions[key];
    VisitedNext(sessions, todo, key);
    CountedNext(Visited(sessions, todo), total, perIP, key, state.sourceIP);
    GatheredNext(sessions, todo, candidates, cutoff, key);
    candidates', total', perIP' := candidates, total + 1, perIP;
    if state.sourceIP != "" {
      perIP' := perIP[state.sourceIP := (if state.sourceIP in perIP then perIP[state.sourceIP] else 0) + 1];
    }
    assert perIP' == Bumped(perIP, state.sourceIP);
    if state.lastActivity > 0 && state.lastActivity <= cutoff && state.pending <= 0 {
      candidates' := candidates + [Candidate(key, state.sourceIP, state.lastActivity)];
    }
  }

  method GatherCandidates(sessions: map<string, Snapshot>, cutoff: int)
    returns (candidates: seq<Candidate>, total: nat, perIP: map<string, nat>)
    ensures Counted(IPs(sessions), total, perIP)
    ensures Gathered(sessions, {}, candidates, cutoff)
  {
    candidates, total, perIP := [], 0, map[];
    var todo := sessions.Keys;
    GatherStart(sessions, cutoff);
    while todo != {}
      invariant todo <= sessions.Keys
      invariant Counted(Visited(sessions, todo), total, perIP)
      invariant Gathered(sessions, todo, candidates, cutoff)
      decreases todo
    {
      var key :| key in todo;
      candidates, total, perIP := Visit(sessions, todo, key, cutoff, candidates, total, perIP);
      todo := todo - {key};
    }
    VisitedAll(sessions);
  }

  /** The source addresses of the sessions outside `todo`. */
  ghost function Visited(sessions: map<string, Snapshot>, todo: set<string>): map<string, string> {
    IPs(sessions) - todo
  }

  lemma VisitedNext(sessions: map<string, Snapshot>, todo: set<string>, key: string)
    requires key in todo && key in sessions
    ensures key !in Visited(sessions, todo)
    ensures Visited(sessions, todo - {key}) == Visited(sessions, todo)[key := sessions[key].sourceIP]
  {}

  ghost function TakenKeys(plan: seq<string>): set<string> {
    set i | 0 <= i < |plan| :: plan[i]
  }

  /** The sessions left after the first n of the plan are taken. */
  ghost function After(sessions: map<string, Snapshot>, plan: seq<string>): map<string, Snapshot> {
    sessions - TakenKeys(plan)
  }

  /**
   What a plan promises: it takes idle drained sessions only, none twice,
   oldest first, each of them under pressure at the moment it is taken, and
   leaves no idle session under pressure.
   */
  ghost predicate GoodPlan(sessions: map<string, Snapshot>, cutoff: int, policy: Policy, plan: seq<string>) {
    && (forall i :: 0 <= i < |plan| ==> plan[i] in sessions && Idle(sessions[plan[i]], cutoff))
    && Distinct(plan) && OldestFirst(sessions, plan) && PressedWhenTaken(sessions, policy, plan)
    && (forall k :: k in After(sessions, plan) && Idle(sessions[k], cutoff) ==> !Pressure(After(sessions, plan), sessions[k].sourceIP, policy))
  }

  ghost function AsCandidate(sessions: map<string, Snapshot>, key: string): Candidate {
    if key in sessions then Candidate(key, sessions[key].sourceIP, sessions[key].lastActivity) else Candidate(key, "", 0)
  }

  lemma PressureFades(before: map<string, Snapshot>, after: map<string, Snapshot>, ip: string, policy: Policy)
    requires after.Keys <= before.Keys && forall k :: k in after ==> after[k] == before[k]
    requires Pressure(after, ip, policy)
    ensures Pressure(before, ip, policy)
  {
    CountMonotone(IPs(before), IPs(after), ip);
    SubsetSize(after.Keys, before.Keys);
    assert |after.Keys| == |after| && |before.Keys| == |before|;
  }

  lemma AfterAppend(sessions: map<string, Snapshot>, plan: seq<string>, key: string)
    ensures After(sessions, plan + [key]) == After(sessions, plan) - {key}
  {
    var next := plan + [key];
    var taken, taken' := TakenKeys(plan), TakenKeys(next);
    assert taken' == taken + {key} by {
      forall k | k in taken + {key}
        ensures k in taken'
      {
        if k == key {
          assert next[|plan|] == k;
        } else {
          var i :| 0 <= i < |plan| && plan[i] == k;
          assert next[i] == k;
        }
      }
    }
  }

  lemma SizeRemove<K, V>(m: map<K, V>, k: K)
    requires k in m
    ensures |m - {k}| == |m| - 1
  {
    assert (m - {k}).Keys == m.Keys - {k};
    assert |m| == |m.Keys| && |m - {k}| == |(m - {k}).Keys|;
  }

  function Lowered(perIP: map<string, nat>, ip: string): map<string, nat> {
    if ip in perIP && perIP[ip] > 0 then perIP[ip := perIP[ip] - 1] else perIP
  }

  lemma CountedTaken(remaining: map<string, Snapshot>, total: nat, perIP: map<string, nat>, key: string)
    requires Counted(IPs(remaining), total, perIP) && key in remaining
    ensures var ip := remaining[key].sourceIP;
      && total > 0 && (ip != "" ==> ip in perIP && perIP[ip] > 0)
      && Counted(IPs(remaining - {key}), total - 1, Lowered(perIP, ip))
  {
    var ips := IPs(remaining);
    assert key in From(ips, ips[key]);
    SizeRemove(ips, key);
    assert IPs(remaining - {key}) == ips - {key};
    forall other
      ensures CountFrom(ips - {key}, other) == CountFrom(ips, other) - if ips[key] == other then 1 else 0
    {
      CountRemove(ips, key, other);
    }
  }

  /** The counters answer the pressure question. */
  lemma CountersTell(remaining: map<string, Snapshot>, total: nat, perIP: map<string, nat>, ip: string, policy: Policy)
    requires Counted(IPs(remaining), total, perIP) && (ip != "" ==> ip in perIP)
    ensures Pressure(remaining, ip, policy) <==>
      (policy.softSessions > 0 && total >= policy.softSessions) || (ip != "" && policy.softPerIP > 0 && perIP[ip] >= policy.softPerIP)
  {
    assert IPs(remaining).Keys == remaining.Keys;
    assert |IPs(remaining)| == |IPs(remaining).Keys| && |remaining| == |remaining.Keys|;
  }

  ghost predicate Drawn(cs: seq<Candidate>, n: nat, plan: seq<string>)
    requires n <= |cs|
  {
    forall i :: 0 <= i < |plan| ==> exists j :: 0 <= j < n && cs[j].key == plan[i]
  }

  ghost predicate Distinct(plan: seq<string>) {
    forall i, j :: 0 <= i < j < |plan| ==> plan[i] != plan[j]
  }

  ghost predicate OldestFirst(sessions: map<string, Snapshot>, plan: seq<string>) {
    forall i, j :: 0 <= i < j < |plan| ==> Precedes(AsCandidate(sessions, plan[i]), AsCandidate(sessions, plan[j]))
  }

  ghost predicate PressedWhenTaken(sessions: map<string, Snapshot>, policy: Policy, plan: seq<string>) {
    forall i :: 0 <= i < |plan| ==> plan[i] in sessions && Pressure(After(sessions, plan[..i]), sessions[plan[i]].sourceIP, policy)
  }

  ghost predicate Relieved(sessions: map<string, Snapshot>, policy: Policy, cs: seq<Candidate>, n: nat, plan: seq<string>)
    requires n <= |cs|
  {
    forall j :: 0 <= j < n && cs[j].key in After(sessions, plan) ==> !Pressure(After(sessions, plan), cs[j].sourceIP, policy)
  }

  /** The plan built from the first n candidates. */
  ghost predicate PartialPlan(sessions: map<string, Snapshot>, policy: Policy, cs: seq<Candidate>, n: nat, plan: seq<string>)
    requires n <= |cs|
  {
    Drawn(cs, n, plan) && Distinct(plan) && OldestFirst(sessions, plan)
    && PressedWhenTaken(sessions, policy, plan) && Relieved(sessions, policy, cs, n, plan)
  }

  /** Sorted candidates without duplicates that describe idle sessions. */
  ghost predicate Queued(sessions: map<string, Snapshot>, cutoff: int, cs: seq<Candidate>) {
    Sorted(cs) && NoDuplicates(cs) && forall j :: 0 <= j < |cs| ==> Describes(cs[j], sessions, cutoff)
  }

  lemma NextNotTaken(sessions: map<string, Snapshot>, cutoff: int, cs: seq<Candidate>, n: nat, plan: seq<string>)
    requires n < |cs| && Drawn(cs, n, plan) && Queued(sessions, cutoff, cs)
    ensures cs[n].key in After(sessions, plan) && cs[n].key !in TakenKeys(plan)
  {
    assert Describes(cs[n], sessions, cutoff);
  }

  lemma DrawnNext(cs: seq<Candidate>, n: nat, plan: seq<string>)
    requires n < |cs| && Drawn(cs, n, plan)
    ensures Drawn(cs, n + 1, plan) && Drawn(cs, n + 1, plan + [cs[n].key])
  {
    forall i | 0 <= i < |plan| ensures exists j :: 0 <= j < n + 1 && cs[j].key == plan[i] {
      var j :| 0 <= j < n && cs[j].key == plan[i];
      assert cs[j].key == plan[i];
    }
    assert cs[n].key == (plan + [cs[n].key])[|plan|];
  }

  lemma OldestNext(sessions: map<string, Snapshot>, cutoff: int, cs: seq<Candidate>, n: nat, plan: seq<string>)
    requires n < |cs| && Drawn(cs, n, plan) && Queued(sessions, cutoff, cs) && OldestFirst(sessions, plan)
    ensures OldestFirst(sessions, plan + [cs[n].key])
  {
    forall i | 0 <= i < |plan|
      ensures Precedes(AsCandidate(sessions, plan[i]), AsCandidate(sessions, cs[n].key))
    {
      var j :| 0 <= j < n && cs[j].key == plan[i];
      assert Describes(cs[j], sessions, cutoff) && Describes(cs[n], sessions, cutoff);
      assert AsCandidate(sessions, plan[i]) == cs[j] && AsCandidate(sessions, cs[n].key) == cs[n];
    }
  }

  lemma PressedNext(sessions: map<string, Snapshot>, policy: Policy, plan: seq<string>, key: string)
    requires PressedWhenTaken(sessions, policy, plan) && key in sessions
    requires Pressure(After(sessions, plan), sessions[key].sourceIP, policy)
    ensures PressedWhenTaken(sessions, policy, plan + [key])
  {
    var next := plan + [key];
    forall i | 0 <= i < |next|
      ensures next[i] in sessions && Pressure(After(sessions, next[..i]), sessions[next[i]].sourceIP, policy)
    {
      if i < |plan| {
        assert next[..i] == plan[..i];
      } else {
        assert next[..i] == plan;
      }
    }
  }

  lemma RelievedNext(sessions: map<string, Snapshot>, policy: Policy, cs: seq<Candidate>, n: nat, plan: seq<string>)
    requires n < |cs| && Relieved(sessions, policy, cs, n, plan)
    ensures Relieved(sessions, policy, cs, n + 1, plan + [cs[n].key])
  {
    var next := plan + [cs[n].key];
    AfterAppend(sessions, plan, cs[n].key);
    forall j | 0 <= j < n + 1 && cs[j].key in After(sessions, next)
      ensures !Pressure(After(sessions, next), cs[j].sourceIP, policy)
    {
      if Pressure(After(sessions, next), cs[j].sourceIP, policy) {
        PressureFades(After(sessions, plan), After(sessions, next), cs[j].sourceIP, policy);
      }
    }
  }

  lemma TakeNext(sessions: map<string, Snapshot>, cutoff: int, policy: Policy, cs: seq<Candidate>, n: nat, plan: seq<string>)
    requires n < |cs| && PartialPlan(sessions, policy, cs, n, plan) && Queued(sessions, cutoff, cs)
    requires Pressure(After(sessions, plan), cs[n].sourceIP, policy)
    ensures PartialPlan(sessions, policy, cs, n + 1, plan + [cs[n].key])
  {
    NextNotTaken(sessions, cutoff, cs, n, plan);
    DrawnNext(cs, n, plan);
    OldestNext(sessions, cutoff, cs, n, plan);
    assert Describes(cs[n], sessions, cutoff);
    PressedNext(sessions, policy, plan, cs[n].key);
    RelievedNext(sessions, policy, cs, n, plan);
  }

  lemma SkipNext(sessions: map<string, Snapshot>, policy: Policy, cs: seq<Candidate>, n: nat, plan: seq<string>)
    requires n < |cs| && PartialPlan(sessions, policy, cs, n, plan)
    requires !Pressure(After(sessions, plan), cs[n].sourceIP, policy)
    ensures PartialPlan(sessions, policy, cs, n + 1, plan)
  {
    DrawnNext(cs, n, plan);
  }

  lemma SortedKeepsCandidates(sessions: map<string, Snapshot>, cutoff: int, gathered: seq<Candidate>, sorted: seq<Candidate>)
    requires Gathered(sessions, {}, gathered, cutoff) && multiset(sorted) == multiset(gathered)
    ensures Gathered(sessions, {}, sorted, cutoff)
  {
    assert |sorted| == |multiset(sorted)| == |multiset(gathered)| == |gathered|;
    forall i | 0 <= i < |sorted|
      ensures Describes(sorted[i], sessions, cutoff)
    {
      assert sorted[i] in multiset(gathered);
    }
    forall i, j | 0 <= i < j < |sorted|
      ensures sorted[i].key != sorted[j].key
    {
      DistinctStays(gathered, sorted, i, j);
    }
    forall k | k in sessions && Idle(sessions[k], cutoff)
      ensures k in Keys(sorted)
    {
      assert k in Keys(gathered);
      var i :| 0 <= i < |gathered| && gathered[i].key == k;
      assert gathered[i] in multiset(sorted);
    }
  }

  lemma {:induction false} NoDuplicatesOnce(cs: seq<Candidate>, c: Candidate)
    requires NoDuplicates(cs)
    ensures multiset(cs)[c] <= 1
  {
    if cs != [] {
      var n := |cs| - 1;
      assert cs == cs[..n] + [cs[n]];
      NoDuplicatesOnce(cs[..n], c);
      if c == cs[n] {
        assert c !in cs[..n];
      }
    }
  }

  lemma DistinctStays(gathered: seq<Candidate>, sorted: seq<Candidate>, i: nat, j: nat)
    requires NoDuplicates(gathered) && multiset(sorted) == multiset(gathered) && i < j < |sorted|
    ensures sorted[i].key != sorted[j].key
  {
    var a, b := sorted[i], sorted[j];
    NoDuplicatesOnce(gathered, a);
    assert sorted == sorted[..j] + [b] + sorted[j + 1..];
    assert a in sorted[..j] by { assert sorted[..j][i] == a; }
    assert a in multiset(gathered) && b in multiset(gathered);
    var x :| 0 <= x < |gathered| && gathered[x] == a;
    var y :| 0 <= y < |gathered| && gathered[y] == b;
    assert multiset(sorted)[a] == multiset(sorted[..j])[a] + multiset([b])[a] + multiset(sorted[j + 1..])[a];
    assert x != y;
  }

  lemma PlanIsGood(sessions: map<string, Snapshot>, cutoff: int, policy: Policy, cs: seq<Candidate>, plan: seq<string>)
    requires PartialPlan(sessions, policy, cs, |cs|, plan) && Gathered(sessions, {}, cs, cutoff)
    ensures GoodPlan(sessions, cutoff, policy, plan)
  {
    forall k | k in After(sessions, plan) && Idle(sessions[k], cutoff)
      ensures !Pressure(After(sessions, plan), sessions[k].sourceIP, policy)
    {
      assert k in Keys(cs);
      var j :| 0 <= j < |cs| && cs[j].key == k;
      assert Describes(cs[j], sessions, cutoff);
    }
  }

  /** Takes the next candidate when it is under pressure. */
  method Consider(ghost sessions: map<string, Snapshot>, ghost cutoff: int, policy: Policy, candidates: seq<Candidate>, n: nat,
                  plan: seq<string>, total: nat, perIP: map<string, nat>)
    returns (plan': seq<string>, total': nat, perIP': map<string, nat>)
    requires n < |candidates| && Queued(sessions, cutoff, candidates)
    requires PartialPlan(sessions, policy, candidates, n, plan) && Counted(IPs(After(sessions, plan)), total, perIP)
    ensures PartialPlan(sessions, policy, candidates, n + 1, plan') && Counted(IPs(After(sessions, plan')), total', perIP')
  {
    var candidate := candidates[n];
    var ip := candidate.sourceIP;
    NextNotTaken(sessions, cutoff, candidates, n, plan);
    assert Describes(candidate, sessions, cutoff);
    CountedTaken(After(sessions, plan), total, perIP, candidate.key);
    CountersTell(After(sessions, plan), total, perIP, ip, policy);
    plan', total', perIP' := plan, total, perIP;
    var globalPressure := policy.softSessions > 0 && total >= policy.softSessions;
    var perIPPressure := ip != "" && policy.softPerIP > 0 && perIP[ip] >= policy.softPerIP;
    if globalPressure || perIPPressure {
      TakeNext(sessions, cutoff, policy, candidates, n, plan);
      AfterAppend(sessions, plan, candidate.key);
      plan' := plan + [candidate.key];
      total' := total - 1;
      if ip != "" {
        perIP' := perIP[ip := perIP[ip] - 1];
      }
      assert ip == "" ==> ip !in perIP;
      assert perIP' == Lowered(perIP, ip);
    } else {
      SkipNext(sessions, policy, candidates, n, plan);
    }
  }

  lemma PlanStart(sessions: map<string, Snapshot>, policy: Policy, cs: seq<Candidate>)
    ensures PartialPlan(sessions, policy, cs, 0, []) && After(sessions, []) == sessions
  {}

  lemma {:induction false} AfterSize(sessions: map<string, Snapshot>, plan: seq<string>)
    requires Distinct(plan) && forall i :: 0 <= i < |plan| ==> plan[i] in sessions
    ensures |After(sessions, plan)| == |sessions| - |plan|
  {
    if plan == [] {
      assert After(sessions, plan) == sessions;
    } else {
      var n := |plan| - 1;
      assert plan == plan[..n] + [plan[n]];
      AfterSize(sessions, plan[..n]);
      AfterAppend(sessions, plan[..n], plan[n]);
      SizeRemove(After(sessions, plan[..n]), plan[n]);
    }
  }

  /** A good plan takes, oldest first, what has been idle for the policy's time, or 30 s, and has nothing pending. */
  lemma PlanTakesIdle(now: int, sessions: map<string, Snapshot>, policy: Policy, plan: seq<string>)
    requires GoodPlan(sessions, Cutoff(now, policy), policy, plan)
    ensures forall i :: 0 <= i < |plan| ==>
      && plan[i] in sessions && 0 < sessions[plan[i]].lastActivity && sessions[plan[i]].pending <= 0
      && now - sessions[plan[i]].lastActivity >= if policy.reclaimAfter > 0 then policy.reclaimAfter else 30_000_000_000
    ensures forall i, j :: 0 <= i < j < |plan| ==>
      && plan[i] != plan[j] && sessions[plan[i]].lastActivity <= sessions[plan[j]].lastActivity
      && (sessions[plan[i]].lastActivity == sessions[plan[j]].lastActivity ==> StringLeq(plan[i], plan[j]))
  {
    forall i, j | 0 <= i < j < |plan|
      ensures sessions[plan[i]].lastActivity <= sessions[plan[j]].lastActivity
      ensures sessions[plan[i]].lastActivity == sessions[plan[j]].lastActivity ==> StringLeq(plan[i], plan[j])
    {
      assert Precedes(AsCandidate(sessions, plan[i]), AsCandidate(sessions, plan[j]));
    }
  }

  /** Whenever a good plan takes a session, the sessions left before it reach a soft limit. */
  lemma PlanTakesUnderPressure(sessions: map<string, Snapshot>, cutoff: int, policy: Policy, plan: seq<string>, i: nat)
    requires GoodPlan(sessions, cutoff, policy, plan) && i < |plan|
    ensures plan[i] in sessions
    ensures
      || (policy.softSessions > 0 && |sessions| - i >= policy.softSessions)
      || (policy.softPerIP > 0 && sessions[plan[i]].sourceIP != "" && CountFrom(IPs(After(sessions, plan[..i])), sessions[plan[i]].sourceIP) >= policy.softPerIP)
  {
    assert Distinct(plan[..i]);
    AfterSize(sessions, plan[..i]);
    assert Pressure(After(sessions, plan[..i]), sessions[plan[i]].sourceIP, policy);
  }

  /** A good plan leaves idle sessions only where no soft limit is reached. */
  lemma PlanRelieves(now: int, sessions: map<string, Snapshot>, policy: Policy, plan: seq<string>, k: string)
    requires GoodPlan(sessions, Cutoff(now, policy), policy, plan) && k in sessions && k !in plan
    requires 0 < sessions[k].lastActivity && sessions[k].pending <= 0
    requires now - sessions[k].lastActivity >= if policy.reclaimAfter > 0 then policy.reclaimAfter else 30_000_000_000
    ensures policy.softSessions > 0 ==> |sessions| - |plan| < policy.softSessions
    ensures policy.softPerIP > 0 && sessions[k].sourceIP != "" ==> CountFrom(IPs(After(sessions, plan)), sessions[k].sourceIP) < policy.softPerIP
  {
    AfterSize(sessions, plan);
    assert k in After(sessions, plan);
    assert Idle(sessions[k], Cutoff(now, policy));
  }

  method PlanReclamation(now: int, sessions: map<string, Snapshot>, policy: Policy) returns (plan: seq<string>)
    ensures GoodPlan(sessions, Cutoff(now, policy), policy, plan)
  {
    var cutoff := Cutoff(now, policy);
    var gathered, total: nat, perIP := GatherCandidates(sessions, cutoff);
    var candidates := SortCandidates(gathered);
    SortedKeepsCandidates(sessions, cutoff, gathered, candidates);
    plan := [];
    PlanStart(sessions, policy, candidates);
    for n := 0 to |candidates|
      invariant PartialPlan(sessions, policy, candidates, n, plan)
      invariant Counted(IPs(After(sessions, plan)), total, perIP)
    {
      plan, total, perIP := Consider(sessions, cutoff, policy, candidates, n, plan, total, perIP);
    }
    PlanIsGood(sessions, cutoff, policy, candidates, plan);
  }
}
