/**
 Port access limits compiled to firewall rules: one counter chain for each
 user and threshold, and one dispatcher that sends each limited port to the
 counter of the user who owns it.
 */
module PortLimits {
  import opened Options
  import opened Words

  datatype Spec = Spec(userID: int64, maxIPs: int64, ports: seq<int64>)

  /** The digest in a chain name is taken to be injective, so a name is what it was made from. */
  datatype Chain = Dispatch(specs: seq<Spec>) | Counter(userID: int64, maxIPs: int64)

  datatype Rule = Drop(above: int, mask: int) | Jump(ports: seq<int64>, counter: Chain) | Return

  const MAX_PORTS := 15

  // ---------- Normalising the specifications ----------

  /** This entry limits its user to so many addresses on this port. */
  predicate LimitsPort(s: Spec, user: int64, maxIPs: int64, port: int64) {
    s.userID == user && s.maxIPs == maxIPs && maxIPs > 0 && port in s.ports
  }

  ghost predicate Limits(specs: seq<Spec>, user: int64, maxIPs: int64, port: int64) {
    exists i :: 0 <= i < |specs| && LimitsPort(specs[i], user, maxIPs, port)
  }

  /** The same limits, whatever the order of the entries and of their ports. */
  ghost predicate SameLimits(a: seq<Spec>, b: seq<Spec>) {
    forall user, maxIPs, port :: Limits(a, user, maxIPs, port) <==> Limits(b, user, maxIPs, port)
  }

  predicate ValidSpec(s: Spec) {
    s.userID > 0 && s.maxIPs >= 0 && (s.maxIPs > 0 ==> forall p :: p in s.ports ==> 1 <= p <= 65535)
  }

  /** Two entries are of different users and share no limited port. */
  ghost predicate Apart(a: Spec, b: Spec) {
    a.userID != b.userID && (a.maxIPs > 0 && b.maxIPs > 0 ==> forall p :: p in a.ports ==> p !in b.ports)
  }

  /** Users are positive and distinct; a limited port is a port, and belongs to one user. */
  ghost predicate ValidSpecs(specs: seq<Spec>) {
    && (forall i :: 0 <= i < |specs| ==> ValidSpec(specs[i]))
    && (forall i, j :: 0 <= i < j < |specs| ==> Apart(specs[i], specs[j]))
  }

  ghost predicate Ascending(ports: seq<int64>) {
    forall i, j :: 0 <= i < j < |ports| ==> ports[i] < ports[j]
  }

  ghost predicate Tidy(s: Spec) {
    ValidSpec(s) && s.maxIPs > 0 && s.ports != [] && Ascending(s.ports)
  }

  /** Sorted by user, with sorted distinct ports, without idle entries, and without overlaps. */
  ghost predicate Normalized(specs: seq<Spec>) {
    && (forall i :: 0 <= i < |specs| ==> Tidy(specs[i]))
    && (forall i, j :: 0 <= i < j < |specs| ==> specs[i].userID < specs[j].userID)
    && (forall i, j :: 0 <= i < j < |specs| ==> Apart(specs[i], specs[j]))
  }

  method InsertPort(sorted: seq<int64>, port: int64) returns (r: seq<int64>)
    requires Ascending(sorted) && port !in sorted
    ensures Ascending(r) && forall p :: p in r <==> p in sorted || p == port
  {
    var i := 0;
    while i < |sorted| && sorted[i] < port
      invariant 0 <= i <= |sorted| && forall j :: 0 <= j < i ==> sorted[j] < port
    {
      i := i + 1;
    }
    r := sorted[..i] + [port] + sorted[i..];
    assert forall j :: i <= j < |sorted| ==> port < sorted[j];
    assert sorted == sorted[..i] + sorted[i..];
  }

  ghost predicate DistinctPorts(ports: seq<int64>) {
    forall i, j :: 0 <= i < j < |ports| ==> ports[i] != ports[j]
  }

  method SortPorts(ports: seq<int64>) returns (sorted: seq<int64>)
    requires DistinctPorts(ports)
    ensures Ascending(sorted) && forall p :: p in sorted <==> p in ports
  {
    sorted := [];
    for i := 0 to |ports|
      invariant Ascending(sorted) && forall p :: p in sorted <==> p in ports[..i]
    {
      assert ports[..i + 1] == ports[..i] + [ports[i]];
      assert ports[i] !in ports[..i];
      sorted := InsertPort(sorted, ports[i]);
    }
    assert ports[..|ports|] == ports;
  }

  /** One entry's ports, each once; none when a port is out of range or already taken by another user. */
  method CollectPorts(ports: seq<int64>, taken: set<int64>) returns (mine: Option<seq<int64>>)
    ensures mine.Some? <==> forall p :: p in ports ==> 1 <= p <= 65535 && p !in taken
    ensures mine.Some? ==> DistinctPorts(mine.value) && forall p :: p in mine.value <==> p in ports
  {
    var collected: seq<int64> := [];
    for i := 0 to |ports|
      invariant DistinctPorts(collected) && (forall p :: p in collected <==> p in ports[..i])
      invariant forall p :: p in ports[..i] ==> 1 <= p <= 65535 && p !in taken
    {
      assert ports[..i + 1] == ports[..i] + [ports[i]];
      var port := ports[i];
      assert port in ports;
      if port < 1 || port > 65535 || port in taken {
        return None;
      }
      if port !in collected {
        collected := collected + [port];
      }
    }
    assert ports[..|ports|] == ports;
    return Some(collected);
  }

  method PlaceOf(sorted: seq<Spec>, s: Spec) returns (n: nat)
    requires Normalized(sorted) && forall i :: 0 <= i < |sorted| ==> Apart(sorted[i], s)
    ensures n <= |sorted|
    ensures forall i :: 0 <= i < n ==> sorted[i].userID < s.userID
    ensures forall i :: n <= i < |sorted| ==> s.userID < sorted[i].userID
  {
    n := 0;
    while n < |sorted| && sorted[n].userID < s.userID
      invariant n <= |sorted| && forall j :: 0 <= j < n ==> sorted[j].userID < s.userID
    {
      n := n + 1;
    }
  }

  method InsertSpec(sorted: seq<Spec>, s: Spec) returns (r: seq<Spec>)
    requires Normalized(sorted) && Tidy(s) && forall i :: 0 <= i < |sorted| ==> Apart(sorted[i], s)
    ensures Normalized(r) && multiset(r) == multiset(sorted) + multiset{s}
  {
    var n := PlaceOf(sorted, s);
    InsertKeeps(sorted, s, n);
    InsertAdds(sorted, s, n);
    r := sorted[..n] + [s] + sorted[n..];
  }

  lemma InsertAdds(sorted: seq<Spec>, s: Spec, n: nat)
    requires n <= |sorted|
    ensures multiset(sorted[..n] + [s] + sorted[n..]) == multiset(sorted) + multiset{s}
  {
    assert sorted == sorted[..n] + sorted[n..];
  }

  lemma InsertKeeps(sorted: seq<Spec>, s: Spec, n: nat)
    requires Normalized(sorted) && Tidy(s) && n <= |sorted|
    requires forall i :: 0 <= i < |sorted| ==> Apart(sorted[i], s)
    requires forall i :: 0 <= i < n ==> sorted[i].userID < s.userID
    requires forall i :: n <= i < |sorted| ==> s.userID < sorted[i].userID
    ensures Normalized(sorted[..n] + [s] + sorted[n..])
  {
    var r := sorted[..n] + [s] + sorted[n..];
    forall i, j | 0 <= i < j < |r|
      ensures r[i].userID < r[j].userID && Apart(r[i], r[j])
    {
      var i', j' := if i > n then i - 1 else i, if j > n then j - 1 else j;
      if i == n {
        assert r[j] == sorted[j'] && Apart(sorted[j'], s);
      } else if j == n {
        assert r[i] == sorted[i'];
      } else {
        assert r[i] == sorted[i'] && r[j] == sorted[j'];
      }
    }
    forall i | 0 <= i < |r| ensures Tidy(r[i]) {
      var i' := if i > n then i - 1 else i;
      assert i == n || r[i] == sorted[i'];
    }
  }

  lemma FromMultiset(a: seq<Spec>, b: seq<Spec>)
    requires multiset(a) == multiset(b)
    ensures forall s :: s in a <==> s in b
  {
    forall s ensures s in a <==> s in b {
      assert s in multiset(a) <==> s in multiset(b);
    }
  }

  method SortSpecs(specs: seq<Spec>) returns (sorted: seq<Spec>)
    requires forall i :: 0 <= i < |specs| ==> Tidy(specs[i])
    requires forall i, j :: 0 <= i < j < |specs| ==> Apart(specs[i], specs[j])
    ensures Normalized(sorted) && forall s :: s in sorted <==> s in specs
  {
    sorted := [];
    for i := 0 to |specs|
      invariant Normalized(sorted) && multiset(sorted) == multiset(specs[..i])
    {
      FromMultiset(sorted, specs[..i]);
      assert specs[..i + 1] == specs[..i] + [specs[i]];
      forall j | 0 <= j < |sorted| ensures Apart(sorted[j], specs[i]) {
        assert sorted[j] in specs[..i];
      }
      sorted := InsertSpec(sorted, specs[i]);
    }
    assert specs[..|specs|] == specs;
    FromMultiset(sorted, specs);
  }

  // ---------- Normalising, entry by entry ----------

  ghost predicate TidyOf(s: Spec, t: Spec) {
    Tidy(t) && t.userID == s.userID && t.maxIPs == s.maxIPs && forall p :: p in t.ports <==> p in s.ports
  }

  /** The users and ports that the entries take. */
  ghost predicate Taken(specs: seq<Spec>, users: set<int64>, ports: set<int64>) {
    && (forall u :: u in users <==> exists i :: 0 <= i < |specs| && specs[i].userID == u)
    && (forall p :: p in ports <==> exists i :: 0 <= i < |specs| && specs[i].maxIPs > 0 && p in specs[i].ports)
  }

  ghost predicate HasSource(specs: seq<Spec>, t: Spec) {
    exists i :: 0 <= i < |specs| && TidyOf(specs[i], t)
  }

  ghost predicate HasTidy(s: Spec, out: seq<Spec>) {
    exists k :: 0 <= k < |out| && TidyOf(s, out[k])
  }

  ghost predicate FromSpecs(specs: seq<Spec>, out: seq<Spec>) {
    forall k :: 0 <= k < |out| ==> HasSource(specs, out[k])
  }

  ghost predicate AllTidied(specs: seq<Spec>, out: seq<Spec>) {
    forall i :: 0 <= i < |specs| && specs[i].maxIPs > 0 && specs[i].ports != [] ==> HasTidy(specs[i], out)
  }

  /** The tidy entries are those of the entries that limit something. */
  ghost predicate Tidied(specs: seq<Spec>, out: seq<Spec>) {
    FromSpecs(specs, out) && AllTidied(specs, out) && forall j, k :: 0 <= j < k < |out| ==> Apart(out[j], out[k])
  }

  lemma TidiedLimits(specs: seq<Spec>, out: seq<Spec>)
    requires Tidied(specs, out)
    ensures SameLimits(specs, out)
  {
    forall user, maxIPs, port
      ensures Limits(specs, user, maxIPs, port) <==> Limits(out, user, maxIPs, port)
    {
      if Limits(specs, user, maxIPs, port) {
        var i :| 0 <= i < |specs| && LimitsPort(specs[i], user, maxIPs, port);
        assert HasTidy(specs[i], out);
        var k :| 0 <= k < |out| && TidyOf(specs[i], out[k]);
        assert LimitsPort(out[k], user, maxIPs, port);
      }
      if Limits(out, user, maxIPs, port) {
        var k :| 0 <= k < |out| && LimitsPort(out[k], user, maxIPs, port);
        assert HasSource(specs, out[k]);
        var i :| 0 <= i < |specs| && TidyOf(specs[i], out[k]);
        assert LimitsPort(specs[i], user, maxIPs, port);
      }
    }
  }

  lemma ValidNext(pre: seq<Spec>, s: Spec)
    ensures ValidSpecs(pre + [s]) <==> ValidSpecs(pre) && ValidSpec(s) && forall i :: 0 <= i < |pre| ==> Apart(pre[i], s)
  {
    var next := pre + [s];
    assert next[|pre|] == s;
    if ValidSpecs(next) {
      forall i | 0 <= i < |pre| ensures ValidSpec(pre[i]) && Apart(pre[i], s) {
        assert next[i] == pre[i] && Apart(next[i], next[|pre|]);
      }
      forall i, j | 0 <= i < j < |pre| ensures Apart(pre[i], pre[j]) {
        assert next[i] == pre[i] && next[j] == pre[j];
      }
    }
  }

  lemma ApartByTaken(pre: seq<Spec>, users: set<int64>, ports: set<int64>, s: Spec)
    requires Taken(pre, users, ports)
    ensures (forall i :: 0 <= i < |pre| ==> Apart(pre[i], s)) <==> s.userID !in users && (s.maxIPs > 0 ==> forall p :: p in s.ports ==> p !in ports)
  {
    if forall i :: 0 <= i < |pre| ==> Apart(pre[i], s) {
      assert s.userID !in users;
      if s.maxIPs > 0 {
        forall p | p in s.ports ensures p !in ports {
          forall i | 0 <= i < |pre| ensures !(pre[i].maxIPs > 0 && p in pre[i].ports) {
            assert Apart(pre[i], s);
          }
        }
      }
    }
  }

  lemma TakenNext(pre: seq<Spec>, users: set<int64>, ports: set<int64>, s: Spec)
    requires Taken(pre, users, ports)
    ensures Taken(pre + [s], users + {s.userID}, if s.maxIPs > 0 then ports + PortSet(s.ports) else ports)
  {
    var next := pre + [s];
    assert next[|pre|] == s;
    forall u | u in users ensures exists i :: 0 <= i < |next| && next[i].userID == u {
      var i :| 0 <= i < |pre| && pre[i].userID == u;
      assert next[i].userID == u;
    }
    forall p | p in ports ensures exists i :: 0 <= i < |next| && next[i].maxIPs > 0 && p in next[i].ports {
      var i :| 0 <= i < |pre| && pre[i].maxIPs > 0 && p in pre[i].ports;
      assert p in next[i].ports;
    }
  }

  function PortSet(ports: seq<int64>): set<int64> {
    set p | p in ports
  }

  lemma TidiedNext(pre: seq<Spec>, out: seq<Spec>, s: Spec, t: Spec)
    requires Tidied(pre, out) && TidyOf(s, t) && forall i :: 0 <= i < |pre| ==> Apart(pre[i], s)
    ensures Tidied(pre + [s], out + [t])
  {
    TidiedMore(pre, out, s, [t]);
    forall k | 0 <= k < |out| ensures Apart(out[k], t) {
      assert HasSource(pre, out[k]);
      var i :| 0 <= i < |pre| && TidyOf(pre[i], out[k]);
      assert Apart(pre[i], s);
    }
  }

  lemma TidiedMore(pre: seq<Spec>, out: seq<Spec>, s: Spec, more: seq<Spec>)
    requires Tidied(pre, out) && |more| <= 1 && (forall t :: t in more ==> TidyOf(s, t))
    requires s.maxIPs > 0 && s.ports != [] ==> more != []
    ensures FromSpecs(pre + [s], out + more) && AllTidied(pre + [s], out + more)
  {
    var next, out' := pre + [s], out + more;
    forall k | 0 <= k < |out'| ensures HasSource(next, out'[k]) {
      if k < |out| {
        assert HasSource(pre, out[k]);
        var i :| 0 <= i < |pre| && TidyOf(pre[i], out[k]);
        assert TidyOf(next[i], out'[k]);
      } else {
        assert out'[k] in more;
        assert TidyOf(next[|pre|], out'[k]);
      }
    }
    forall i | 0 <= i < |next| && next[i].maxIPs > 0 && next[i].ports != []
      ensures HasTidy(next[i], out')
    {
      if i < |pre| {
        assert HasTidy(pre[i], out);
        var k :| 0 <= k < |out| && TidyOf(pre[i], out[k]);
        assert TidyOf(next[i], out'[k]);
      } else {
        assert more[0] in more;
        assert TidyOf(next[i], out'[|out|]);
      }
    }
  }

  lemma TidiedSkip(pre: seq<Spec>, out: seq<Spec>, s: Spec)
    requires Tidied(pre, out) && (s.maxIPs == 0 || s.ports == [])
    ensures Tidied(pre + [s], out)
  {
    TidiedMore(pre, out, s, []);
    assert out + [] == out;
  }

  /** What has been read of the specifications so far. */
  datatype Progress = Progress(users: set<int64>, ports: set<int64>, out: seq<Spec>)

  ghost predicate Reached(pre: seq<Spec>, p: Progress) {
    ValidSpecs(pre) && Taken(pre, p.users, p.ports) && Tidied(pre, p.out)
  }

  lemma SomePorts(ports: seq<int64>, mine: seq<int64>, sorted: seq<int64>)
    requires (forall p :: p in sorted <==> p in mine) && (forall p :: p in mine <==> p in ports)
    ensures sorted == [] <==> ports == []
  {
    if ports != [] {
      assert ports[0] in ports;
      assert ports[0] in mine;
      assert ports[0] in sorted;
    }
    if sorted != [] {
      assert sorted[0] in sorted;
      assert sorted[0] in mine;
      assert sorted[0] in ports;
    }
  }

  /** Reads one more entry; none when it makes the specifications invalid. */
  method ReadSpec(ghost pre: seq<Spec>, s: Spec, p: Progress) returns (p': Option<Progress>)
    requires Reached(pre, p)
    ensures p'.Some? <==> ValidSpecs(pre + [s])
    ensures p'.Some? ==> Reached(pre + [s], p'.value)
  {
    ValidNext(pre, s);
    ApartByTaken(pre, p.users, p.ports, s);
    TakenNext(pre, p.users, p.ports, s);
    if s.userID <= 0 || s.maxIPs < 0 || s.userID in p.users {
      return None;
    }
    if s.maxIPs == 0 {
      TidiedSkip(pre, p.out, s);
      return Some(p.(users := p.users + {s.userID}));
    }
    var mine := CollectPorts(s.ports, p.ports);
    if mine.None? {
      return None;
    }
    var sorted := SortPorts(mine.value);
    SomePorts(s.ports, mine.value, sorted);
    var t := s.(ports := sorted);
    var out := p.out;
    if sorted != [] {
      TidiedNext(pre, p.out, s, t);
      out := p.out + [t];
    } else {
      TidiedSkip(pre, p.out, s);
    }
    return Some(Progress(p.users + {s.userID}, p.ports + PortSet(s.ports), out));
  }

  lemma InvalidPrefix(specs: seq<Spec>, n: nat)
    requires n <= |specs| && !ValidSpecs(specs[..n])
    ensures !ValidSpecs(specs)
  {}

  lemma SameMembers(a: seq<Spec>, b: seq<Spec>)
    requires forall s :: s in a <==> s in b
    ensures SameLimits(a, b)
  {
    forall user, maxIPs, port
      ensures Limits(a, user, maxIPs, port) <==> Limits(b, user, maxIPs, port)
    {
      MoreMembers(a, b, user, maxIPs, port);
      MoreMembers(b, a, user, maxIPs, port);
    }
  }

  lemma MoreMembers(a: seq<Spec>, b: seq<Spec>, user: int64, maxIPs: int64, port: int64)
    requires forall s :: s in a ==> s in b
    ensures Limits(a, user, maxIPs, port) ==> Limits(b, user, maxIPs, port)
  {
    if Limits(a, user, maxIPs, port) {
      var i :| 0 <= i < |a| && LimitsPort(a[i], user, maxIPs, port);
      assert a[i] in a;
      var j :| 0 <= j < |b| && b[j] == a[i];
    }
  }

  /** Exactly the valid specifications are accepted, and normalising them changes no limit. */
  method NormalizedPortLimits(specs: seq<Spec>) returns (r: Option<seq<Spec>>)
    ensures r.Some? <==>
      && (forall i :: 0 <= i < |specs| ==> specs[i].userID > 0 && specs[i].maxIPs >= 0)
      && (forall i, p :: 0 <= i < |specs| && specs[i].maxIPs > 0 && p in specs[i].ports ==> 1 <= p <= 65535)
      && (forall i, j :: 0 <= i < j < |specs| ==> specs[i].userID != specs[j].userID)
      && (forall i, j, p :: 0 <= i < j < |specs| && specs[i].maxIPs > 0 && specs[j].maxIPs > 0 && p in specs[i].ports ==> p !in specs[j].ports)
    ensures r.Some? ==> Normalized(r.value) && SameLimits(specs, r.value)
  {
    var progress := Progress({}, {}, []);
    for n := 0 to |specs|
      invariant Reached(specs[..n], progress)
    {
      assert specs[..n + 1] == specs[..n] + [specs[n]];
      var next := ReadSpec(specs[..n], specs[n], progress);
      if next.None? {
        InvalidPrefix(specs, n + 1);
        return None;
      }
      progress := next.value;
    }
    assert specs[..|specs|] == specs;
    TidiedLimits(specs, progress.out);
    var sorted := SortSpecs(progress.out);
    SameMembers(progress.out, sorted);
    return Some(sorted);
  }
}
