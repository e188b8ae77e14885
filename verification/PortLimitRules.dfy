/**
 The firewall rules made from normalised port limits, and what they mean for
 a new connection to a port.
 */
module PortLimitRules {
  import opened Options
  import opened Words
  import opened PortLimits

  // ---------- The rules ----------

  function CounterRules(maxIPs: int64, ipv6: bool): seq<Rule> {
    (if maxIPs > 0 then [Rule.Drop(maxIPs, if ipv6 then 128 else 32)] else []) + [Rule.Return]
  }

  /** Jumps to a counter for all of the ports, at most fifteen in each rule. */
  function Chunks(ports: seq<int64>, counter: Chain): seq<Rule> {
    if ports == [] then []
    else
      var n := if |ports| < MAX_PORTS then |ports| else MAX_PORTS;
      [Jump(ports[..n], counter)] + Chunks(ports[n..], counter)
  }

  function CounterOf(s: Spec): Chain {
    Counter(s.userID, s.maxIPs)
  }

  function Jumps(specs: seq<Spec>): seq<Rule> {
    if specs == [] then [] else Chunks(specs[0].ports, CounterOf(specs[0])) + Jumps(specs[1..])
  }

  function RulesOf(c: Chain, ipv6: bool): seq<Rule> {
    match c
    case Dispatch(specs) => Jumps(specs) + [Rule.Return]
    case Counter(_, maxIPs) => CounterRules(maxIPs, ipv6)
  }

  ghost function Counters(specs: seq<Spec>): set<Chain> {
    set i | 0 <= i < |specs| :: CounterOf(specs[i])
  }

  /** The chains wanted for these specifications; none for none. */
  ghost function Wanted(specs: seq<Spec>): set<Chain> {
    if specs == [] then {} else Counters(specs) + {Dispatch(specs)}
  }

  ghost predicate CountersCompiled(specs: seq<Spec>, ipv6: bool, rules: map<Chain, seq<Rule>>) {
    rules.Keys == Counters(specs) && forall c :: c in rules ==> rules[c] == RulesOf(c, ipv6)
  }

  ghost predicate JumpsCompiled(specs: seq<Spec>, n: nat, jumps: seq<Rule>)
    requires n <= |specs|
  {
    jumps + Jumps(specs[n..]) == Jumps(specs)
  }

  /** All the jump rules of one specification, behind those there are already. */
  method AppendJumps(ports: seq<int64>, counter: Chain, jumps: seq<Rule>) returns (r: seq<Rule>)
    ensures r == jumps + Chunks(ports, counter)
  {
    r := jumps;
    var start := 0;
    while start < |ports|
      invariant 0 <= start <= |ports|
      invariant r + Chunks(ports[start..], counter) == jumps + Chunks(ports, counter)
    {
      var end := start + 15;
      if end > |ports| {
        end := |ports|;
      }
      var rest := ports[start..];
      assert rest[..end - start] == ports[start..end] && rest[end - start..] == ports[end..];
      assert Chunks(rest, counter) == [Jump(ports[start..end], counter)] + Chunks(ports[end..], counter);
      r := r + [Jump(ports[start..end], counter)];
      start := end;
    }
    assert ports[start..] == [];
  }

  lemma CountersNext(specs: seq<Spec>, n: nat)
    requires n < |specs|
    ensures Counters(specs[..n + 1]) == Counters(specs[..n]) + {CounterOf(specs[n])}
  {
    var pre, next := specs[..n], specs[..n + 1];
    assert next[n] == specs[n];
    forall c | c in Counters(pre) ensures c in Counters(next) {
      var i :| 0 <= i < n && CounterOf(pre[i]) == c;
      assert CounterOf(next[i]) == c;
    }
  }

  lemma JumpsNext(specs: seq<Spec>, n: nat)
    requires n < |specs|
    ensures Jumps(specs[n..]) == Chunks(specs[n].ports, CounterOf(specs[n])) + Jumps(specs[n + 1..])
  {
    assert specs[n..][1..] == specs[n + 1..];
  }

  method CompileCounter(specs: seq<Spec>, n: nat, ipv6: bool, rules: map<Chain, seq<Rule>>) returns (rules': map<Chain, seq<Rule>>)
    requires n < |specs| && CountersCompiled(specs[..n], ipv6, rules)
    ensures CountersCompiled(specs[..n + 1], ipv6, rules')
  {
    var spec := specs[n];
    CountersNext(specs, n);
    var counter: seq<Rule> := [];
    if spec.maxIPs > 0 {
      counter := counter + [Rule.Drop(spec.maxIPs, if ipv6 then 128 else 32)];
    }
    counter := counter + [Rule.Return];
    rules' := rules[CounterOf(spec) := counter];
  }

  method CompileJumps(specs: seq<Spec>, n: nat, jumps: seq<Rule>) returns (jumps': seq<Rule>)
    requires n < |specs| && JumpsCompiled(specs, n, jumps)
    ensures JumpsCompiled(specs, n + 1, jumps')
  {
    JumpsNext(specs, n);
    jumps' := AppendJumps(specs[n].ports, CounterOf(specs[n]), jumps);
    Associative(jumps, Chunks(specs[n].ports, CounterOf(specs[n])), Jumps(specs[n + 1..]));
  }

  lemma Associative(a: seq<Rule>, b: seq<Rule>, c: seq<Rule>)
    ensures (a + b) + c == a + (b + c)
  {}

  /** The dispatcher, if anything is limited, and the rules of every chain. */
  method CompileRules(specs: seq<Spec>, ipv6: bool) returns (dispatch: Option<Chain>, rules: map<Chain, seq<Rule>>)
    requires Normalized(specs)
    ensures dispatch == if specs == [] then None else Some(Dispatch(specs))
    ensures rules.Keys == Wanted(specs) && forall c :: c in rules ==> rules[c] == RulesOf(c, ipv6)
    ensures forall c :: c in rules && c.Counter? && c.maxIPs > 0 ==> rules[c] == [Rule.Drop(c.maxIPs, if ipv6 then 128 else 32), Rule.Return]
    ensures dispatch.Some? ==> rules[dispatch.value] == Jumps(specs) + [Rule.Return]
  {
    if specs == [] {
      return None, map[];
    }
    rules := map[];
    var jumps: seq<Rule> := [];
    assert specs[0..] == specs && Counters(specs[..0]) == {};
    for n := 0 to |specs|
      invariant CountersCompiled(specs[..n], ipv6, rules) && JumpsCompiled(specs, n, jumps)
    {
      rules := CompileCounter(specs, n, ipv6, rules);
      jumps := CompileJumps(specs, n, jumps);
    }
    assert specs[..|specs|] == specs && specs[|specs|..] == [] && jumps + [] == jumps;
    rules := rules[Dispatch(specs) := jumps + [Rule.Return]];
    return Some(Dispatch(specs)), rules;
  }

  // ---------- What a counter does ----------

  /**
   How many connections a counter has when a new one comes, the new one
   included, from sources that agree with its own in so many bits.
   */
  type Load = (Chain, int) -> int

  /** The counter drops a new connection that enters it. */
  predicate Drops(rules: seq<Rule>, c: Chain, load: Load) {
    rules != [] && !rules[0].Return? && ((rules[0].Drop? && load(c, rules[0].mask) > rules[0].above) || Drops(rules[1..], c, load))
  }

  // ---------- What a dispatcher does ----------

  predicate Matches(r: Rule, port: int64) {
    r.Jump? && port in r.ports
  }

  /** The counters a new connection to this port goes through; a counter returns, and the next rule is tried. */
  function Entered(rules: seq<Rule>, port: int64): seq<Chain> {
    if rules == [] || rules[0].Return? then []
    else (if Matches(rules[0], port) then [rules[0].counter] else []) + Entered(rules[1..], port)
  }

  /** Exactly one rule, once, matches the port. */
  ghost predicate OnlyMatch(rules: seq<Rule>, port: int64, r: Rule) {
    Matches(r, port) && multiset(rules)[r] == 1 && forall x :: x in multiset(rules) && Matches(x, port) ==> x == r
  }

  ghost predicate NoMatch(rules: seq<Rule>, port: int64) {
    forall x :: x in multiset(rules) ==> !Matches(x, port)
  }

  ghost predicate OnlyJumps(rules: seq<Rule>) {
    forall x :: x in multiset(rules) ==> x.Jump?
  }

  lemma {:induction false} EntersNothing(rules: seq<Rule>, port: int64)
    requires OnlyJumps(rules) && NoMatch(rules, port)
    ensures Entered(rules + [Rule.Return], port) == []
  {
    if rules != [] {
      var rest := rules[1..];
      assert rules == [rules[0]] + rest && multiset(rules) == multiset{rules[0]} + multiset(rest);
      assert (rules + [Rule.Return])[1..] == rest + [Rule.Return];
      EntersNothing(rest, port);
    }
  }

  lemma {:induction false} EntersOnce(rules: seq<Rule>, port: int64, r: Rule)
    requires OnlyJumps(rules) && OnlyMatch(rules, port, r)
    ensures Entered(rules + [Rule.Return], port) == [r.counter]
  {
    var rest := rules[1..];
    assert rules == [rules[0]] + rest && multiset(rules) == multiset{rules[0]} + multiset(rest);
    assert (rules + [Rule.Return])[1..] == rest + [Rule.Return];
    if rules[0] == r {
      EntersNothing(rest, port);
    } else {
      EntersOnce(rest, port, r);
    }
  }

  lemma MatchLeft(a: seq<Rule>, b: seq<Rule>, port: int64, r: Rule)
    requires OnlyMatch(a, port, r) && NoMatch(b, port)
    ensures OnlyMatch(a + b, port, r)
  {
    assert multiset(a + b) == multiset(a) + multiset(b);
  }

  lemma MatchRight(a: seq<Rule>, b: seq<Rule>, port: int64, r: Rule)
    requires NoMatch(a, port) && OnlyMatch(b, port, r)
    ensures OnlyMatch(a + b, port, r)
  {
    assert multiset(a + b) == multiset(a) + multiset(b);
  }

  lemma MatchNeither(a: seq<Rule>, b: seq<Rule>, port: int64)
    ensures NoMatch(a, port) && NoMatch(b, port) ==> NoMatch(a + b, port)
    ensures OnlyJumps(a) && OnlyJumps(b) ==> OnlyJumps(a + b)
  {
    assert multiset(a + b) == multiset(a) + multiset(b);
  }

  lemma AscendingTail(ports: seq<int64>, n: nat)
    requires Ascending(ports) && n <= |ports|
    ensures Ascending(ports[..n]) && Ascending(ports[n..])
    ensures forall p :: p in ports <==> p in ports[..n] || p in ports[n..]
    ensures forall p :: p in ports[..n] ==> p !in ports[n..]
  {
    assert ports == ports[..n] + ports[n..];
  }

  lemma {:induction false} ChunksMiss(ports: seq<int64>, counter: Chain, port: int64)
    requires port !in ports
    ensures NoMatch(Chunks(ports, counter), port)
  {
    if ports != [] {
      var n := if |ports| < MAX_PORTS then |ports| else MAX_PORTS;
      ChunksMiss(ports[n..], counter, port);
      MatchNeither([Jump(ports[..n], counter)], Chunks(ports[n..], counter), port);
    }
  }

  lemma {:induction false} ChunksJump(ports: seq<int64>, counter: Chain)
    ensures OnlyJumps(Chunks(ports, counter))
  {
    if ports != [] {
      var n := if |ports| < MAX_PORTS then |ports| else MAX_PORTS;
      ChunksJump(ports[n..], counter);
      MatchNeither([Jump(ports[..n], counter)], Chunks(ports[n..], counter), 0);
    }
  }

  lemma {:induction false} ChunksMatch(ports: seq<int64>, counter: Chain, port: int64) returns (r: Rule)
    requires Ascending(ports) && port in ports
    ensures OnlyMatch(Chunks(ports, counter), port, r) && r.counter == counter
  {
    var n := if |ports| < MAX_PORTS then |ports| else MAX_PORTS;
    var head, tail := Jump(ports[..n], counter), Chunks(ports[n..], counter);
    AscendingTail(ports, n);
    if port in ports[..n] {
      r := head;
      ChunksMiss(ports[n..], counter, port);
      MatchLeft([head], tail, port, r);
    } else {
      r := ChunksMatch(ports[n..], counter, port);
      MatchRight([head], tail, port, r);
    }
  }

  ghost predicate Unlimited(specs: seq<Spec>, port: int64) {
    forall i :: 0 <= i < |specs| ==> port !in specs[i].ports
  }

  lemma {:induction false} JumpsMiss(specs: seq<Spec>, port: int64)
    requires Unlimited(specs, port)
    ensures NoMatch(Jumps(specs), port)
  {
    if specs != [] {
      ChunksMiss(specs[0].ports, CounterOf(specs[0]), port);
      JumpsMiss(specs[1..], port);
      MatchNeither(Chunks(specs[0].ports, CounterOf(specs[0])), Jumps(specs[1..]), port);
    }
  }

  lemma {:induction false} JumpsJump(specs: seq<Spec>)
    ensures OnlyJumps(Jumps(specs))
  {
    if specs != [] {
      ChunksJump(specs[0].ports, CounterOf(specs[0]));
      JumpsJump(specs[1..]);
      MatchNeither(Chunks(specs[0].ports, CounterOf(specs[0])), Jumps(specs[1..]), 0);
    }
  }

  lemma NormalizedTail(specs: seq<Spec>)
    requires Normalized(specs) && specs != []
    ensures Normalized(specs[1..])
    ensures forall i :: 0 <= i < |specs| - 1 ==> Apart(specs[0], specs[1..][i]) && Tidy(specs[1..][i])
    ensures Tidy(specs[0])
  {}

  lemma {:induction false} JumpsMatch(specs: seq<Spec>, port: int64, i: nat) returns (r: Rule)
    requires Normalized(specs) && i < |specs| && port in specs[i].ports
    ensures OnlyMatch(Jumps(specs), port, r) && r.counter == CounterOf(specs[i])
  {
    var s, rest := specs[0], specs[1..];
    NormalizedTail(specs);
    if i == 0 {
      r := ChunksMatch(s.ports, CounterOf(s), port);
      JumpsMiss(rest, port);
      MatchLeft(Chunks(s.ports, CounterOf(s)), Jumps(rest), port, r);
    } else {
      assert rest[i - 1] == specs[i] && Apart(specs[0], specs[i]);
      ChunksMiss(s.ports, CounterOf(s), port);
      r := JumpsMatch(rest, port, i - 1);
      MatchRight(Chunks(s.ports, CounterOf(s)), Jumps(rest), port, r);
    }
  }

  /**
   Compiling preserves the meaning of the limits, in whatever order the jump
   rules stand ahead of the final return: a limited port goes through the
   counter of the one user it belongs to, once, and any other port through none.
   */
  lemma DispatchMeaning(specs: seq<Spec>, body: seq<Rule>, port: int64)
    requires Normalized(specs) && multiset(body) == multiset(Jumps(specs))
    ensures forall user, maxIPs :: Limits(specs, user, maxIPs, port) ==> Entered(body + [Rule.Return], port) == [Counter(user, maxIPs)]
    ensures (forall user, maxIPs :: !Limits(specs, user, maxIPs, port)) ==> Entered(body + [Rule.Return], port) == []
  {
    JumpsJump(specs);
    forall user, maxIPs | Limits(specs, user, maxIPs, port)
      ensures Entered(body + [Rule.Return], port) == [Counter(user, maxIPs)]
    {
      var i :| 0 <= i < |specs| && LimitsPort(specs[i], user, maxIPs, port);
      var r := JumpsMatch(specs, port, i);
      EntersOnce(body, port, r);
    }
    if forall user, maxIPs :: !Limits(specs, user, maxIPs, port) {
      forall i | 0 <= i < |specs| ensures port !in specs[i].ports {
        assert !Limits(specs, specs[i].userID, specs[i].maxIPs, port);
        assert Tidy(specs[i]) && !LimitsPort(specs[i], specs[i].userID, specs[i].maxIPs, port);
      }
      JumpsMiss(specs, port);
      EntersNothing(body, port);
    }
  }

  /** Every jump rule lists at least one port and at most fifteen. */
  lemma {:induction false} ChunkSizes(specs: seq<Spec>)
    ensures forall r :: r in Jumps(specs) ==> r.Jump? && 1 <= |r.ports| <= 15
  {
    if specs != [] {
      ChunkSize(specs[0].ports, CounterOf(specs[0]));
      ChunkSizes(specs[1..]);
    }
  }

  lemma {:induction false} ChunkSize(ports: seq<int64>, counter: Chain)
    ensures forall r :: r in Chunks(ports, counter) ==> r.Jump? && 1 <= |r.ports| <= 15
  {
    if ports != [] {
      ChunkSize(ports[if |ports| < MAX_PORTS then |ports| else MAX_PORTS..], counter);
    }
  }
}
