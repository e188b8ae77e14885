/**
 What a firewall table must satisfy at every moment while its port limits are
 changed, the phases of the change, and what a safe table does with a connection.
 */
module PortLimitSafety {
  import opened Options
  import opened Words
  import opened PortLimits
  import opened PortLimitRules
  import opened Firewall

  datatype Goal = Goal(specs: seq<Spec>, ipv6: bool)

  ghost function Target(g: Goal): Option<Chain> {
    if g.specs == [] then None else Some(Dispatch(g.specs))
  }

  // ---------- Tables ----------

  ghost predicate ReturnsLast(rules: seq<Rule>) {
    forall i, j :: 0 <= i < j < |rules| && rules[i].Return? ==> rules[j].Return?
  }

  /** A chain holds only rules made for it, with nothing behind a return. */
  ghost predicate Own(c: Chain, rules: seq<Rule>, ipv6: bool) {
    ReturnsLast(rules) && forall r :: r in rules ==> r in RulesOf(c, ipv6)
  }

  /** Hooks and jumps lead to chains that exist, and chains hold their own rules. */
  ghost predicate WellFormed(t: Table, ipv6: bool) {
    && (forall c :: c in t.chains ==> Own(c, t.chains[c], ipv6))
    && (forall b, c :: c in Hooks(t, b) ==> c in t.chains && c.Dispatch?)
    && (forall c, r :: c in t.chains && r in t.chains[c] && r.Jump? ==> r.counter in t.chains)
  }

  ghost predicate Complete(t: Table, c: Chain, ipv6: bool) {
    c in t.chains && forall r :: r in RulesOf(c, ipv6) ==> r in t.chains[c]
  }

  /** Every wanted chain has all its rules. */
  ghost predicate Ready(t: Table, g: Goal) {
    forall c :: c in Wanted(g.specs) ==> Complete(t, c, g.ipv6)
  }

  /** No wanted chain has lost a rule. */
  ghost predicate Kept(t: Table, start: Table, g: Goal) {
    forall c :: c in Wanted(g.specs) && c in start.chains ==> c in t.chains && forall r :: r in start.chains[c] ==> r in t.chains[c]
  }

  /** The other chains are as they were. */
  ghost predicate Others(t: Table, start: Table, g: Goal) {
    forall c :: c !in Wanted(g.specs) ==> (c in t.chains <==> c in start.chains) && (c in t.chains ==> t.chains[c] == start.chains[c])
  }

  /** The hooks of the start, perhaps with the new one in front. */
  ghost predicate HooksStay(t: Table, start: Table, g: Goal, b: Base) {
    Hooks(t, b) == Hooks(start, b) || (Target(g).Some? && Hooks(t, b) == [Target(g).value] + Hooks(start, b))
  }

  ghost predicate Hooked(t: Table, g: Goal) {
    Target(g).Some? ==> Target(g).value in t.pre && Target(g).value in t.out
  }

  /** An old dispatcher, and the counters it leads to, do what they did at the start. */
  ghost predicate StillWorks(t: Table, start: Table, c: Chain) {
    && c in start.chains && c in t.chains && t.chains[c] == start.chains[c]
    && forall r :: r in t.chains[c] && r.Jump? && r.counter in start.chains ==>
         r.counter in t.chains && forall x :: x in start.chains[r.counter] ==> x in t.chains[r.counter]
  }

  /**
   What holds after every single command: a newly hooked dispatcher is
   complete, all old hooks stay until both base chains carry the new one and it
   is complete, any other dispatcher that is still hooked works as before, and no wanted chain
   ever loses a rule.
   */
  ghost predicate Safe(t: Table, start: Table, g: Goal) {
    && WellFormed(t, g.ipv6)
    && (forall b :: Target(g).Some? && Target(g).value in Hooks(t, b) && Target(g).value !in Hooks(start, b) ==> Ready(t, g))
    && (Target(g).Some? && !(Hooked(t, g) && Ready(t, g)) ==> forall b :: HooksStay(t, start, g, b))
    && (forall b, c :: c in Hooks(t, b) && c !in Wanted(g.specs) ==> StillWorks(t, start, c))
    && Kept(t, start, g)
  }

  // ---------- The four phases ----------

  ghost predicate Preparing(t: Table, start: Table, g: Goal) {
    WellFormed(t, g.ipv6) && WellFormed(start, g.ipv6) && Kept(t, start, g) && Others(t, start, g) && t.pre == start.pre && t.out == start.out
  }

  ghost predicate Hooking(t: Table, start: Table, g: Goal) {
    && WellFormed(t, g.ipv6) && WellFormed(start, g.ipv6) && Kept(t, start, g) && Others(t, start, g) && Ready(t, g)
    && HooksStay(t, start, g, Prerouting) && HooksStay(t, start, g, Output)
  }

  ghost predicate Unhooking(t: Table, start: Table, g: Goal) {
    WellFormed(t, g.ipv6) && WellFormed(start, g.ipv6) && Kept(t, start, g) && Others(t, start, g) && Ready(t, g) && Hooked(t, g)
  }

  ghost predicate OnlyTarget(t: Table, g: Goal) {
    forall b, c :: c in Hooks(t, b) ==> Target(g) == Some(c)
  }

  /** What a check looks for: unwanted chains that nothing hooks do not matter to it. */
  ghost predicate Healthy(t: Table, g: Goal) {
    Ready(t, g) && Hooked(t, g) && OnlyTarget(t, g)
  }

  ghost predicate Removing(t: Table, start: Table, g: Goal) {
    WellFormed(t, g.ipv6) && Kept(t, start, g) && Ready(t, g) && Hooked(t, g) && OnlyTarget(t, g)
  }

  lemma TargetWanted(g: Goal)
    ensures Target(g).Some? ==> Target(g).value in Wanted(g.specs)
  {}

  lemma OldWorks(t: Table, start: Table, g: Goal, c: Chain)
    requires WellFormed(t, g.ipv6) && WellFormed(start, g.ipv6) && Kept(t, start, g) && Others(t, start, g)
    requires c in t.chains && c !in Wanted(g.specs)
    ensures StillWorks(t, start, c)
  {
    forall r | r in t.chains[c] && r.Jump? && r.counter in start.chains
      ensures r.counter in t.chains && forall x :: x in start.chains[r.counter] ==> x in t.chains[r.counter]
    {
      assert r.counter in Wanted(g.specs) || r.counter !in Wanted(g.specs);
    }
  }

  lemma PreparingSafe(t: Table, start: Table, g: Goal)
    requires Preparing(t, start, g)
    ensures Safe(t, start, g)
  {
    forall b, c | c in Hooks(t, b) && c !in Wanted(g.specs) ensures StillWorks(t, start, c) {
      OldWorks(t, start, g, c);
    }
    forall b ensures Hooks(t, b) == Hooks(start, b) {}
  }

  lemma HookingSafe(t: Table, start: Table, g: Goal)
    requires Hooking(t, start, g)
    ensures Safe(t, start, g)
  {
    forall b, c | c in Hooks(t, b) && c !in Wanted(g.specs) ensures StillWorks(t, start, c) {
      OldWorks(t, start, g, c);
    }
    forall b ensures HooksStay(t, start, g, b) {}
  }

  lemma UnhookingSafe(t: Table, start: Table, g: Goal)
    requires Unhooking(t, start, g)
    ensures Safe(t, start, g)
  {
    forall b, c | c in Hooks(t, b) && c !in Wanted(g.specs) ensures StillWorks(t, start, c) {
      OldWorks(t, start, g, c);
    }
  }

  lemma RemovingSafe(t: Table, start: Table, g: Goal)
    requires Removing(t, start, g)
    ensures Safe(t, start, g)
  {
    TargetWanted(g);
    forall b, c | c in Hooks(t, b) ensures c in Wanted(g.specs) {
      assert Target(g) == Some(c);
    }
  }

  // ---------- What a safe table does with a connection ----------

  lemma {:induction false} EnteredMembers(rules: seq<Rule>, port: int64, c: Chain)
    requires ReturnsLast(rules)
    ensures c in Entered(rules, port) <==> exists r :: r in rules && Matches(r, port) && r.counter == c
  {
    if rules != [] {
      var rest := rules[1..];
      assert forall r :: r in rules <==> r == rules[0] || r in rest;
      if rules[0].Return? {
        assert forall i :: 0 <= i < |rules| ==> rules[i].Return?;
      } else {
        forall i, j | 0 <= i < j < |rest| && rest[i].Return? ensures rest[j].Return? {
          assert rest[i] == rules[i + 1] && rest[j] == rules[j + 1];
        }
        EnteredMembers(rest, port, c);
      }
    }
  }

  /** A complete dispatcher sends a connection into exactly the counters that limit its port. */
  lemma CompleteMeaning(t: Table, g: Goal, port: int64, user: int64, maxIPs: int64)
    requires WellFormed(t, g.ipv6) && Ready(t, g) && g.specs != [] && Normalized(g.specs)
    ensures Dispatch(g.specs) in t.chains
    ensures Counter(user, maxIPs) in Entered(t.chains[Dispatch(g.specs)], port) <==> Limits(g.specs, user, maxIPs, port)
  {
    var d, c := Dispatch(g.specs), Counter(user, maxIPs);
    assert Complete(t, d, g.ipv6);
    var rules := t.chains[d];
    assert Own(d, rules, g.ipv6);
    EnteredMembers(rules, port, c);
    JumpsMembers(g.specs, port, user, maxIPs);
    assert forall r :: r in rules && r.Jump? <==> r in Jumps(g.specs) && r.Jump?;
  }

  lemma JumpsMembers(specs: seq<Spec>, port: int64, user: int64, maxIPs: int64)
    requires Normalized(specs)
    ensures (exists r :: r in Jumps(specs) && Matches(r, port) && r.counter == Counter(user, maxIPs)) <==> Limits(specs, user, maxIPs, port)
  {
    var rules := Jumps(specs) + [Rule.Return];
    OwnerEntered(specs, port, user, maxIPs);
    ReturnOnlyLast(specs);
    EnteredMembers(rules, port, Counter(user, maxIPs));
    assert forall r :: Matches(r, port) ==> (r in rules <==> r in Jumps(specs));
  }

  lemma ReturnOnlyLast(specs: seq<Spec>)
    ensures ReturnsLast(Jumps(specs) + [Rule.Return])
  {
    ChunkSizes(specs);
    forall i | 0 <= i < |Jumps(specs)| ensures !(Jumps(specs) + [Rule.Return])[i].Return? {
      assert Jumps(specs)[i] in Jumps(specs);
    }
  }

  lemma OwnerEntered(specs: seq<Spec>, port: int64, user: int64, maxIPs: int64)
    requires Normalized(specs)
    ensures Counter(user, maxIPs) in Entered(Jumps(specs) + [Rule.Return], port) <==> Limits(specs, user, maxIPs, port)
  {
    DispatchMeaning(specs, Jumps(specs), port);
    if u, m :| Limits(specs, u, m, port) {
      assert Entered(Jumps(specs) + [Rule.Return], port) == [Counter(u, m)];
    }
  }

  // ---------- No gap while the limits change ----------

  /** The counters a new connection goes through behind these hooks, in order. */
  function EnteredFrom(t: Table, hooks: seq<Chain>, port: int64): seq<Chain> {
    if hooks == [] then []
    else (if hooks[0] in t.chains then Entered(t.chains[hooks[0]], port) else []) + EnteredFrom(t, hooks[1..], port)
  }

  /** A new connection to the port goes through this counter, and the counter has all its rules. */
  ghost predicate Counts(t: Table, b: Base, c: Chain, ipv6: bool, port: int64) {
    c in EnteredFrom(t, Hooks(t, b), port) && Complete(t, c, ipv6)
  }

  /** The counter by which these limits limit the port. */
  ghost predicate LimitedBy(g: Goal, c: Chain, port: int64) {
    c.Counter? && Limits(g.specs, c.userID, c.maxIPs, port)
  }

  lemma {:induction false} EnteredBehind(t: Table, hooks: seq<Chain>, d: Chain, c: Chain, port: int64)
    requires d in hooks && d in t.chains && c in Entered(t.chains[d], port)
    ensures c in EnteredFrom(t, hooks, port)
  {
    if hooks[0] != d {
      EnteredBehind(t, hooks[1..], d, c, port);
    }
  }

  lemma LimitWanted(g: Goal, c: Chain, port: int64)
    requires LimitedBy(g, c, port)
    ensures g.specs != [] && c in Wanted(g.specs)
  {
    var i :| 0 <= i < |g.specs| && LimitsPort(g.specs[i], c.userID, c.maxIPs, port);
    assert CounterOf(g.specs[i]) == c;
  }

  /** Behind a hooked dispatcher of a ready table the port is counted. */
  lemma ReadyCounts(t: Table, g: Goal, b: Base, c: Chain, port: int64)
    requires WellFormed(t, g.ipv6) && Ready(t, g) && Normalized(g.specs) && LimitedBy(g, c, port) && Dispatch(g.specs) in Hooks(t, b)
    ensures Counts(t, b, c, g.ipv6, port)
  {
    LimitWanted(g, c, port);
    CompleteMeaning(t, g, port, c.userID, c.maxIPs);
    EnteredBehind(t, Hooks(t, b), Dispatch(g.specs), c, port);
    assert Complete(t, c, g.ipv6);
  }

  lemma {:induction false} EnteredVia(t: Table, hooks: seq<Chain>, c: Chain, port: int64) returns (d: Chain)
    requires c in EnteredFrom(t, hooks, port)
    ensures d in hooks && d in t.chains && c in Entered(t.chains[d], port)
  {
    if hooks[0] in t.chains && c in Entered(t.chains[hooks[0]], port) {
      d := hooks[0];
    } else {
      d := EnteredVia(t, hooks[1..], c, port);
    }
  }

  lemma {:induction false} JumpsToCounters(specs: seq<Spec>, r: Rule)
    requires r in Jumps(specs)
    ensures r.Jump? && r.counter in Counters(specs)
  {
    var s := specs[0];
    ChunksToCounter(s.ports, CounterOf(s));
    if r !in Chunks(s.ports, CounterOf(s)) {
      JumpsToCounters(specs[1..], r);
      var i :| 0 <= i < |specs| - 1 && CounterOf(specs[1..][i]) == r.counter;
      assert CounterOf(specs[i + 1]) == r.counter;
    }
  }

  lemma {:induction false} ChunksToCounter(ports: seq<int64>, counter: Chain)
    ensures forall r :: r in Chunks(ports, counter) ==> r.Jump? && r.counter == counter
  {
    if ports != [] {
      ChunksToCounter(ports[if |ports| < MAX_PORTS then |ports| else MAX_PORTS..], counter);
    }
  }

  /** A dispatcher that stays hooked goes on sending connections to the counters it sent them to, and these lose no rule. */
  lemma GoesOnCounting(t: Table, start: Table, g: Goal, d: Chain, c: Chain, port: int64)
    requires WellFormed(t, g.ipv6) && WellFormed(start, g.ipv6) && Kept(t, start, g) && d in start.chains
    requires d in Wanted(g.specs) || StillWorks(t, start, d)
    requires d.Dispatch? && c in Entered(start.chains[d], port) && Complete(start, c, g.ipv6)
    ensures d in t.chains && c in Entered(t.chains[d], port) && Complete(t, c, g.ipv6)
  {
    assert Own(d, start.chains[d], g.ipv6);
    EnteredMembers(start.chains[d], port, c);
    var r :| r in start.chains[d] && Matches(r, port) && r.counter == c;
    if d in Wanted(g.specs) {
      assert r in Jumps(g.specs);
      JumpsToCounters(g.specs, r);
    }
    assert Own(d, t.chains[d], g.ipv6);
    EnteredMembers(t.chains[d], port, c);
  }

  /**
   No gap: a connection that some counter counts at the start is counted in
   every safe table on the way to limits that limit its port, by that counter
   or by the new one of the port.
   */
  lemma NoGap(t: Table, start: Table, g: Goal, b: Base, earlier: Chain, next: Chain, port: int64)
    requires Normalized(g.specs) && WellFormed(start, g.ipv6) && Safe(t, start, g)
    requires Counts(start, b, earlier, g.ipv6, port) && LimitedBy(g, next, port)
    ensures Counts(t, b, earlier, g.ipv6, port) || Counts(t, b, next, g.ipv6, port)
  {
    LimitWanted(g, next, port);
    if Dispatch(g.specs) in Hooks(t, b) && Ready(t, g) {
      ReadyCounts(t, g, b, next, port);
    } else {
      assert !(Hooked(t, g) && Ready(t, g));
      assert HooksStay(t, start, g, b);
      var d := EnteredVia(start, Hooks(start, b), earlier, port);
      GoesOnCounting(t, start, g, d, earlier, port);
      EnteredBehind(t, Hooks(t, b), d, earlier, port);
    }
  }

  /** A healthy table counts every limited port. */
  lemma HealthyCounts(t: Table, g: Goal, b: Base, c: Chain, port: int64)
    requires WellFormed(t, g.ipv6) && Healthy(t, g) && Normalized(g.specs) && LimitedBy(g, c, port)
    ensures Counts(t, b, c, g.ipv6, port)
  {
    LimitWanted(g, c, port);
    ReadyCounts(t, g, b, c, port);
  }

  // ---------- What a safe table refuses ----------

  lemma ReturnsLastTail(rules: seq<Rule>)
    requires ReturnsLast(rules) && rules != []
    ensures ReturnsLast(rules[1..])
    ensures rules[0].Return? ==> forall r :: r in rules ==> r.Return?
  {
    var rest := rules[1..];
    forall i, j | 0 <= i < j < |rest| && rest[i].Return? ensures rest[j].Return? {
      assert rest[i] == rules[i + 1] && rest[j] == rules[j + 1];
    }
    assert rules[0].Return? ==> forall i :: 0 <= i < |rules| ==> rules[i].Return?;
  }

  lemma {:induction false} DropsBy(rules: seq<Rule>, c: Chain, load: Load)
    requires ReturnsLast(rules)
    ensures Drops(rules, c, load) <==> exists r :: r in rules && r.Drop? && load(c, r.mask) > r.above
  {
    if rules != [] {
      ReturnsLastTail(rules);
      DropsBy(rules[1..], c, load);
      assert forall r :: r in rules <==> r == rules[0] || r in rules[1..];
    }
  }

  /** A counter with all its rules drops exactly the connections beyond its limit, each IPv4 or IPv6 address counted for itself. */
  lemma CompleteDrops(t: Table, c: Chain, ipv6: bool, load: Load)
    requires WellFormed(t, ipv6) && c.Counter? && c.maxIPs > 0 && Complete(t, c, ipv6)
    ensures Drops(t.chains[c], c, load) <==> load(c, if ipv6 then 128 else 32) > c.maxIPs
  {
    assert Own(c, t.chains[c], ipv6);
    DropsBy(t.chains[c], c, load);
    var rule := Rule.Drop(c.maxIPs, if ipv6 then 128 else 32);
    assert RulesOf(c, ipv6) == [rule, Rule.Return];
    assert rule in RulesOf(c, ipv6);
  }

  /** A new connection to the port is refused: a counter that it goes through drops it. */
  ghost predicate Refused(t: Table, b: Base, port: int64, load: Load) {
    exists c :: c in EnteredFrom(t, Hooks(t, b), port) && c in t.chains && Drops(t.chains[c], c, load)
  }

  /** A counted connection beyond the limit is refused. */
  lemma CountedRefused(t: Table, b: Base, c: Chain, ipv6: bool, port: int64, load: Load)
    requires WellFormed(t, ipv6) && c.Counter? && c.maxIPs > 0 && Counts(t, b, c, ipv6, port)
    requires load(c, if ipv6 then 128 else 32) > c.maxIPs
    ensures Refused(t, b, port, load)
  {
    CompleteDrops(t, c, ipv6, load);
  }

  lemma LimitPositive(g: Goal, c: Chain, port: int64)
    requires LimitedBy(g, c, port)
    ensures c.maxIPs > 0
  {}

  /**
   While limits change from one threshold to another, a connection that exceeds
   both is refused in every safe table on the way.
   */
  lemma ExcessRefused(t: Table, start: Table, g: Goal, b: Base, earlier: Chain, next: Chain, port: int64, load: Load)
    requires Normalized(g.specs) && WellFormed(start, g.ipv6) && Safe(t, start, g)
    requires Counts(start, b, earlier, g.ipv6, port) && LimitedBy(g, next, port) && earlier.Counter? && earlier.maxIPs > 0
    requires load(earlier, if g.ipv6 then 128 else 32) > earlier.maxIPs && load(next, if g.ipv6 then 128 else 32) > next.maxIPs
    ensures Refused(t, b, port, load)
  {
    NoGap(t, start, g, b, earlier, next, port);
    LimitPositive(g, next, port);
    CountedRefused(t, b, if Counts(t, b, earlier, g.ipv6, port) then earlier else next, g.ipv6, port, load);
  }

  /**
   A table that enforces the limits refuses a new connection exactly when the
   user of its port has more connections from its source than allowed.
   */
  ghost predicate Enforces(t: Table, g: Goal) {
    forall b, port: int64, load: Load ::
      Refused(t, b, port, load) <==>
      exists user, maxIPs :: Limits(g.specs, user, maxIPs, port) && load(Counter(user, maxIPs), if g.ipv6 then 128 else 32) > maxIPs
  }

  /** Behind the hooks of a healthy table there are only counters of the limits. */
  lemma HealthyEnters(t: Table, g: Goal, b: Base, c: Chain, port: int64)
    requires WellFormed(t, g.ipv6) && Healthy(t, g) && Normalized(g.specs) && c in EnteredFrom(t, Hooks(t, b), port)
    ensures LimitedBy(g, c, port)
  {
    var d := EnteredVia(t, Hooks(t, b), c, port);
    assert Target(g) == Some(d) && g.specs != [];
    assert Own(d, t.chains[d], g.ipv6);
    EnteredMembers(t.chains[d], port, c);
    var r :| r in t.chains[d] && Matches(r, port) && r.counter == c;
    assert r in Jumps(g.specs);
    JumpsToCounters(g.specs, r);
    CompleteMeaning(t, g, port, c.userID, c.maxIPs);
  }

  lemma HealthyEnforces(t: Table, g: Goal)
    requires WellFormed(t, g.ipv6) && Healthy(t, g) && Normalized(g.specs)
    ensures Enforces(t, g)
  {
    forall b, port: int64, load: Load
      ensures Refused(t, b, port, load) <==>
              exists user, maxIPs :: Limits(g.specs, user, maxIPs, port) && load(Counter(user, maxIPs), if g.ipv6 then 128 else 32) > maxIPs
    {
      if Refused(t, b, port, load) {
        var c :| c in EnteredFrom(t, Hooks(t, b), port) && c in t.chains && Drops(t.chains[c], c, load);
        HealthyEnters(t, g, b, c, port);
        HealthyDrops(t, g, c, port, load);
        assert Limits(g.specs, c.userID, c.maxIPs, port) && Counter(c.userID, c.maxIPs) == c;
      }
      if user, maxIPs :| Limits(g.specs, user, maxIPs, port) && load(Counter(user, maxIPs), if g.ipv6 then 128 else 32) > maxIPs {
        var c := Counter(user, maxIPs);
        HealthyCounts(t, g, b, c, port);
        LimitPositive(g, c, port);
        CountedRefused(t, b, c, g.ipv6, port, load);
      }
    }
  }

  lemma HealthyDrops(t: Table, g: Goal, c: Chain, port: int64, load: Load)
    requires WellFormed(t, g.ipv6) && Healthy(t, g) && LimitedBy(g, c, port)
    ensures c in t.chains && (Drops(t.chains[c], c, load) <==> load(c, if g.ipv6 then 128 else 32) > c.maxIPs)
  {
    LimitWanted(g, c, port);
    LimitPositive(g, c, port);
    assert Complete(t, c, g.ipv6);
    CompleteDrops(t, c, g.ipv6, load);
  }
}
