/**
 Moving a live firewall table from whatever limits it carries to the wanted
 ones, one command at a time: the new chains are completed before they are
 hooked, and the old hooks go only when both base chains carry the new one.
 */
module PortLimitReconcile {
  import opened Options
  import opened Words
  import opened PortLimits
  import opened PortLimitRules
  import opened Firewall
  import opened PortLimitSafety

  /** Every table from the n-th on is safe. */
  ghost predicate SafeSince(trace: seq<Table>, n: nat, start: Table, g: Goal) {
    n <= |trace| && forall i :: n <= i < |trace| ==> Safe(trace[i], start, g)
  }

  ghost predicate AtPrepare(fw: Firewall, n: nat, start: Table, g: Goal)
    reads fw
  {
    Preparing(fw.table, start, g) && SafeSince(fw.trace, n, start, g)
  }

  ghost predicate AtHook(fw: Firewall, n: nat, start: Table, g: Goal)
    reads fw
  {
    Hooking(fw.table, start, g) && SafeSince(fw.trace, n, start, g)
  }

  ghost predicate AtUnhook(fw: Firewall, n: nat, start: Table, g: Goal)
    reads fw
  {
    Unhooking(fw.table, start, g) && SafeSince(fw.trace, n, start, g)
  }

  ghost predicate AtRemove(fw: Firewall, n: nat, start: Table, g: Goal)
    reads fw
  {
    Removing(fw.table, start, g) && SafeSince(fw.trace, n, start, g)
  }

  /** One command between safe tables. */
  method Advance(fw: Firewall, cmd: Command, ghost n: nat, ghost start: Table, ghost g: Goal) returns (ok: bool)
    requires SafeSince(fw.trace, n, start, g) && Safe(fw.table, start, g)
    requires Effect(fw.table, cmd).Some? ==> Safe(Effect(fw.table, cmd).value, start, g)
    modifies fw`table, fw`clock, fw`trace
    ensures SafeSince(fw.trace, n, start, g)
    ensures fw.table == old(fw.table) || Effect(old(fw.table), cmd) == Some(fw.table)
    ensures ok ==> Effect(old(fw.table), cmd) == Some(fw.table)
    ensures fw.Reliable() && Effect(old(fw.table), cmd).Some? ==> ok
  {
    ok := fw.Run(cmd);
  }

  method AdvancePrepare(fw: Firewall, cmd: Command, ghost n: nat, ghost start: Table, ghost g: Goal) returns (ok: bool)
    requires AtPrepare(fw, n, start, g)
    requires Effect(fw.table, cmd).Some? ==> Preparing(Effect(fw.table, cmd).value, start, g)
    modifies fw`table, fw`clock, fw`trace
    ensures AtPrepare(fw, n, start, g)
    ensures fw.table == old(fw.table) || Effect(old(fw.table), cmd) == Some(fw.table)
    ensures ok ==> Effect(old(fw.table), cmd) == Some(fw.table)
    ensures fw.Reliable() && Effect(old(fw.table), cmd).Some? ==> ok
  {
    PreparingSafe(fw.table, start, g);
    if Effect(fw.table, cmd).Some? {
      PreparingSafe(Effect(fw.table, cmd).value, start, g);
    }
    ok := Advance(fw, cmd, n, start, g);
  }

  method AdvanceHook(fw: Firewall, cmd: Command, ghost n: nat, ghost start: Table, ghost g: Goal) returns (ok: bool)
    requires AtHook(fw, n, start, g)
    requires Effect(fw.table, cmd).Some? ==> Hooking(Effect(fw.table, cmd).value, start, g)
    modifies fw`table, fw`clock, fw`trace
    ensures AtHook(fw, n, start, g)
    ensures fw.table == old(fw.table) || Effect(old(fw.table), cmd) == Some(fw.table)
    ensures ok ==> Effect(old(fw.table), cmd) == Some(fw.table)
    ensures fw.Reliable() && Effect(old(fw.table), cmd).Some? ==> ok
  {
    HookingSafe(fw.table, start, g);
    if Effect(fw.table, cmd).Some? {
      HookingSafe(Effect(fw.table, cmd).value, start, g);
    }
    ok := Advance(fw, cmd, n, start, g);
  }

  method AdvanceUnhook(fw: Firewall, cmd: Command, ghost n: nat, ghost start: Table, ghost g: Goal) returns (ok: bool)
    requires AtUnhook(fw, n, start, g)
    requires Effect(fw.table, cmd).Some? ==> Unhooking(Effect(fw.table, cmd).value, start, g)
    modifies fw`table, fw`clock, fw`trace
    ensures AtUnhook(fw, n, start, g)
    ensures fw.table == old(fw.table) || Effect(old(fw.table), cmd) == Some(fw.table)
    ensures ok ==> Effect(old(fw.table), cmd) == Some(fw.table)
    ensures fw.Reliable() && Effect(old(fw.table), cmd).Some? ==> ok
  {
    UnhookingSafe(fw.table, start, g);
    if Effect(fw.table, cmd).Some? {
      UnhookingSafe(Effect(fw.table, cmd).value, start, g);
    }
    ok := Advance(fw, cmd, n, start, g);
  }

  method AdvanceRemove(fw: Firewall, cmd: Command, ghost n: nat, ghost start: Table, ghost g: Goal) returns (ok: bool)
    requires AtRemove(fw, n, start, g)
    requires Effect(fw.table, cmd).Some? ==> Removing(Effect(fw.table, cmd).value, start, g)
    modifies fw`table, fw`clock, fw`trace
    ensures AtRemove(fw, n, start, g)
    ensures fw.table == old(fw.table) || Effect(old(fw.table), cmd) == Some(fw.table)
    ensures ok ==> Effect(old(fw.table), cmd) == Some(fw.table)
    ensures fw.Reliable() && Effect(old(fw.table), cmd).Some? ==> ok
  {
    RemovingSafe(fw.table, start, g);
    if Effect(fw.table, cmd).Some? {
      RemovingSafe(Effect(fw.table, cmd).value, start, g);
    }
    ok := Advance(fw, cmd, n, start, g);
  }

  // ---------- Preparing the chains ----------

  /** No chain and no rule is lost. */
  ghost predicate Grows(t: Table, before: Table) {
    forall c :: c in before.chains ==> c in t.chains && forall r :: r in before.chains[c] ==> r in t.chains[c]
  }

  lemma NewChainKeeps(t: Table, start: Table, g: Goal, c: Chain)
    requires Preparing(t, start, g) && c in Wanted(g.specs) && c !in t.chains
    ensures Preparing(t.(chains := t.chains[c := []]), start, g)
  {
    StillFormed(t, t.chains[c := []], g.ipv6);
  }

  lemma StillFormed(t: Table, chains: map<Chain, seq<Rule>>, ipv6: bool)
    requires WellFormed(t, ipv6) && t.chains.Keys <= chains.Keys && forall c :: c in chains ==> Own(c, chains[c], ipv6)
    requires forall c, r :: c in chains && r in chains[c] && r.Jump? ==> r.counter in chains
    ensures WellFormed(t.(chains := chains), ipv6)
  {
    var t' := t.(chains := chains);
    forall b, c | c in Hooks(t', b) ensures c in t'.chains && c.Dispatch? {
      assert c in Hooks(t, b);
    }
  }

  lemma NewRulesKeep(t: Table, start: Table, g: Goal, c: Chain, rules: seq<Rule>)
    requires Preparing(t, start, g) && c in Wanted(g.specs) && c in t.chains && Own(c, rules, g.ipv6)
    requires forall r :: r in t.chains[c] ==> r in rules
    requires forall r :: r in rules && r.Jump? ==> r.counter in t.chains
    ensures Preparing(t.(chains := t.chains[c := rules]), start, g)
  {
    StillFormed(t, t.chains[c := rules], g.ipv6);
  }

  lemma InFront(t: Table, start: Table, g: Goal, c: Chain, r: Rule)
    requires Preparing(t, start, g) && c in Wanted(g.specs) && CanHold(t, c, r) && r in RulesOf(c, g.ipv6) && !r.Return?
    ensures Preparing(Effect(t, InsertRule(c, r)).value, start, g)
  {
    var rules := [r] + t.chains[c];
    forall i, j | 0 <= i < j < |rules| && rules[i].Return? ensures rules[j].Return? {
      assert rules[i] == t.chains[c][i - 1] && rules[j] == t.chains[c][j - 1];
    }
    NewRulesKeep(t, start, g, c, rules);
  }

  lemma Behind(t: Table, start: Table, g: Goal, c: Chain, r: Rule)
    requires Preparing(t, start, g) && c in Wanted(g.specs) && CanHold(t, c, r) && r in RulesOf(c, g.ipv6) && r.Return?
    ensures Preparing(Effect(t, AppendRule(c, r)).value, start, g)
  {
    NewRulesKeep(t, start, g, c, t.chains[c] + [r]);
  }

  /** Missing rules go before the return, which goes to the end. */
  method AddRule(fw: Firewall, c: Chain, r: Rule, ghost n: nat, ghost start: Table, ghost g: Goal) returns (ok: bool)
    requires AtPrepare(fw, n, start, g) && c in Wanted(g.specs) && r in RulesOf(c, g.ipv6)
    modifies fw`table, fw`clock, fw`trace
    ensures AtPrepare(fw, n, start, g) && Grows(fw.table, old(fw.table)) && fw.table.chains.Keys == old(fw.table).chains.Keys
    ensures ok ==> c in fw.table.chains && r in fw.table.chains[c]
    ensures fw.Reliable() && CanHold(old(fw.table), c, r) ==> ok
  {
    if r.Return? {
      if CanHold(fw.table, c, r) {
        Behind(fw.table, start, g, c, r);
      }
      ok := AdvancePrepare(fw, AppendRule(c, r), n, start, g);
    } else {
      if CanHold(fw.table, c, r) {
        InFront(fw.table, start, g, c, r);
      }
      ok := AdvancePrepare(fw, InsertRule(c, r), n, start, g);
    }
  }

  lemma GrowsTwice(t: Table, middle: Table, before: Table)
    requires Grows(t, middle) && Grows(middle, before)
    ensures Grows(t, before)
  {}

  /** Makes sure of one rule; a check only looks. */
  method EnsureRule(fw: Firewall, c: Chain, r: Rule, checkOnly: bool, ghost n: nat, ghost start: Table, ghost g: Goal) returns (ok: bool)
    requires AtPrepare(fw, n, start, g) && c in Wanted(g.specs) && r in RulesOf(c, g.ipv6)
    modifies fw`table, fw`clock, fw`trace
    ensures AtPrepare(fw, n, start, g) && Grows(fw.table, old(fw.table)) && fw.table.chains.Keys == old(fw.table).chains.Keys
    ensures ok ==> c in fw.table.chains && r in fw.table.chains[c]
    ensures checkOnly ==> fw.table == old(fw.table)
    ensures fw.Reliable() && checkOnly && c in fw.table.chains && r in fw.table.chains[c] ==> ok
    ensures fw.Reliable() && !checkOnly && CanHold(old(fw.table), c, r) ==> ok
  {
    ok := fw.CheckRule(c, r);
    if !ok && !checkOnly {
      ok := AddRule(fw, c, r, n, start, g);
    }
  }

  /** The first rules are there, and no chain or rule is lost. */
  ghost predicate RulesDone(t: Table, before: Table, c: Chain, rules: seq<Rule>, n: nat)
    requires n <= |rules|
  {
    Grows(t, before) && t.chains.Keys == before.chains.Keys && c in t.chains && forall j :: 0 <= j < n ==> rules[j] in t.chains[c]
  }

  method EnsureNext(fw: Firewall, c: Chain, rules: seq<Rule>, i: nat, checkOnly: bool,
                    ghost n: nat, ghost start: Table, ghost before: Table, ghost g: Goal)
    returns (ok: bool)
    requires AtPrepare(fw, n, start, g) && c in Wanted(g.specs) && rules == RulesOf(c, g.ipv6)
    requires i < |rules| && RulesDone(fw.table, before, c, rules, i)
    modifies fw`table, fw`clock, fw`trace
    ensures AtPrepare(fw, n, start, g) && RulesDone(fw.table, before, c, rules, if ok then i + 1 else i)
    ensures checkOnly ==> fw.table == old(fw.table)
    ensures fw.Reliable() && Attainable(fw.table, before, c, rules, checkOnly) ==> ok
  {
    ghost var middle := fw.table;
    assert rules[i] in rules;
    ok := EnsureRule(fw, c, rules[i], checkOnly, n, start, g);
    OneMoreRule(fw.table, middle, before, c, rules, i, ok);
  }

  lemma OneMoreRule(t: Table, middle: Table, before: Table, c: Chain, rules: seq<Rule>, i: nat, done: bool)
    requires i < |rules| && RulesDone(middle, before, c, rules, i) && Grows(t, middle) && t.chains.Keys == middle.chains.Keys
    requires done ==> c in t.chains && rules[i] in t.chains[c]
    ensures RulesDone(t, before, c, rules, if done then i + 1 else i)
  {
    GrowsTwice(t, middle, before);
  }

  /** Nothing stands in the way: the rules are there already, or the chain can hold them. */
  ghost predicate Attainable(t: Table, before: Table, c: Chain, rules: seq<Rule>, checkOnly: bool) {
    if checkOnly then c in t.chains && forall r :: r in rules ==> r in t.chains[c]
    else forall r :: r in rules ==> CanHold(before, c, r)
  }

  method EnsureRules(fw: Firewall, c: Chain, rules: seq<Rule>, checkOnly: bool, ghost n: nat, ghost start: Table, ghost g: Goal) returns (ok: bool)
    requires AtPrepare(fw, n, start, g) && c in Wanted(g.specs) && rules == RulesOf(c, g.ipv6) && c in fw.table.chains
    modifies fw`table, fw`clock, fw`trace
    ensures AtPrepare(fw, n, start, g) && RulesDone(fw.table, old(fw.table), c, rules, if ok then |rules| else 0)
    ensures checkOnly ==> fw.table == old(fw.table)
    ensures fw.Reliable() && Attainable(fw.table, old(fw.table), c, rules, checkOnly) ==> ok
  {
    ghost var before := fw.table;
    for i := 0 to |rules|
      invariant AtPrepare(fw, n, start, g) && RulesDone(fw.table, before, c, rules, i)
      invariant checkOnly ==> fw.table == before
    {
      ok := EnsureNext(fw, c, rules, i, checkOnly, n, start, before, g);
      if !ok {
        return false;
      }
    }
    ok := true;
  }

  /** Makes sure of one wanted chain and all its rules. */
  method PrepareChain(fw: Firewall, c: Chain, rules: seq<Rule>, existed: bool, checkOnly: bool, ghost n: nat, ghost start: Table, ghost g: Goal)
    returns (ok: bool)
    requires AtPrepare(fw, n, start, g) && c in Wanted(g.specs) && rules == RulesOf(c, g.ipv6)
    requires existed <==> c in fw.table.chains
    modifies fw`table, fw`clock, fw`trace
    ensures AtPrepare(fw, n, start, g) && Grows(fw.table, old(fw.table)) && fw.table.chains.Keys <= old(fw.table).chains.Keys + {c}
    ensures ok ==> Complete(fw.table, c, g.ipv6)
    ensures checkOnly ==> fw.table == old(fw.table)
    ensures fw.Reliable() && checkOnly && Complete(fw.table, c, g.ipv6) ==> ok
    ensures fw.Reliable() && !checkOnly && (forall r :: r in rules && r.Jump? ==> r.counter in old(fw.table).chains) ==> ok
  {
    ghost var before := fw.table;
    if !existed {
      if checkOnly {
        return false;
      }
      NewChainKeeps(fw.table, start, g, c);
      var created := AdvancePrepare(fw, NewChain(c), n, start, g);
      if !created {
        return false;
      }
    }
    ghost var middle := fw.table;
    ok := EnsureRules(fw, c, rules, checkOnly, n, start, g);
    GrowsTwice(fw.table, middle, before);
  }

  lemma {:induction false} JumpsLead(specs: seq<Spec>)
    ensures forall r :: r in Jumps(specs) && r.Jump? ==> r.counter in Counters(specs)
  {
    if specs != [] {
      var rest := specs[1..];
      ChunksLead(specs[0].ports, CounterOf(specs[0]));
      JumpsLead(rest);
      assert CounterOf(specs[0]) in Counters(specs);
      forall c | c in Counters(rest) ensures c in Counters(specs) {
        var i :| 0 <= i < |rest| && CounterOf(rest[i]) == c;
        assert CounterOf(specs[i + 1]) == c;
      }
    }
  }

  lemma {:induction false} ChunksLead(ports: seq<int64>, counter: Chain)
    ensures forall r :: r in Chunks(ports, counter) && r.Jump? ==> r.counter == counter
  {
    if ports != [] {
      ChunksLead(ports[if |ports| < MAX_PORTS then |ports| else MAX_PORTS..], counter);
    }
  }

  ghost predicate AllComplete(t: Table, chains: set<Chain>, ipv6: bool) {
    forall c :: c in chains ==> Complete(t, c, ipv6)
  }

  lemma CompleteStays(t: Table, before: Table, chains: set<Chain>, ipv6: bool)
    requires AllComplete(before, chains, ipv6) && Grows(t, before)
    ensures AllComplete(t, chains, ipv6)
  {
    forall c | c in chains ensures Complete(t, c, ipv6) {
      assert Complete(before, c, ipv6);
    }
  }

  /** The counters done so far are complete, and nothing else is new. */
  ghost predicate CountersDone(t: Table, before: Table, done: set<Chain>, ipv6: bool) {
    Grows(t, before) && t.chains.Keys <= before.chains.Keys + done && AllComplete(t, done, ipv6)
  }

  method PrepareCounter(fw: Firewall, c: Chain, ghost done: set<Chain>, rules: seq<Rule>, existing: set<Chain>, checkOnly: bool,
                        ghost n: nat, ghost start: Table, ghost before: Table, ghost g: Goal)
    returns (ok: bool)
    requires AtPrepare(fw, n, start, g) && c.Counter? && c in Wanted(g.specs) && c !in done && rules == RulesOf(c, g.ipv6)
    requires existing == before.chains.Keys && CountersDone(fw.table, before, done, g.ipv6)
    modifies fw`table, fw`clock, fw`trace
    ensures AtPrepare(fw, n, start, g)
    ensures Grows(fw.table, before) && fw.table.chains.Keys <= before.chains.Keys + done + {c}
    ensures ok ==> CountersDone(fw.table, before, done + {c}, g.ipv6)
    ensures checkOnly ==> fw.table == old(fw.table)
    ensures fw.Reliable() && (checkOnly ==> Complete(fw.table, c, g.ipv6)) ==> ok
  {
    ghost var middle := fw.table;
    ok := PrepareChain(fw, c, rules, c in existing, checkOnly, n, start, g);
    GrowsTwice(fw.table, middle, before);
    CompleteStays(fw.table, middle, done, g.ipv6);
  }

  /** Makes sure of the counter chains. */
  method PrepareCounters(fw: Firewall, counters: set<Chain>, rules: map<Chain, seq<Rule>>, existing: set<Chain>, checkOnly: bool,
                         ghost n: nat, ghost start: Table, ghost g: Goal)
    returns (ok: bool)
    requires AtPrepare(fw, n, start, g) && existing == fw.table.chains.Keys
    requires counters <= rules.Keys && counters <= Wanted(g.specs) && forall c :: c in counters ==> c.Counter? && rules[c] == RulesOf(c, g.ipv6)
    modifies fw`table, fw`clock, fw`trace
    ensures AtPrepare(fw, n, start, g) && Grows(fw.table, old(fw.table)) && fw.table.chains.Keys <= existing + counters
    ensures ok ==> AllComplete(fw.table, counters, g.ipv6)
    ensures checkOnly ==> fw.table == old(fw.table)
    ensures fw.Reliable() && (checkOnly ==> AllComplete(fw.table, counters, g.ipv6)) ==> ok
  {
    ghost var before := fw.table;
    ghost var done: set<Chain> := {};
    var todo := counters;
    ok := true;
    while ok && todo != {}
      invariant done + todo == counters && done !! todo && AtPrepare(fw, n, start, g)
      invariant Grows(fw.table, before) && fw.table.chains.Keys <= existing + counters
      invariant ok ==> CountersDone(fw.table, before, done, g.ipv6)
      invariant checkOnly ==> fw.table == before
      invariant fw.Reliable() && (checkOnly ==> AllComplete(fw.table, counters, g.ipv6)) ==> ok
      decreases todo
    {
      var c :| c in todo;
      ok := PrepareCounter(fw, c, done, rules[c], existing, checkOnly, n, start, before, g);
      done, todo := done + {c}, todo - {c};
    }
  }

  /** Counters first, then the dispatcher that jumps to them. */
  method PrepareAll(fw: Firewall, dispatch: Option<Chain>, rules: map<Chain, seq<Rule>>, existing: set<Chain>, checkOnly: bool,
                    ghost n: nat, ghost start: Table, ghost g: Goal)
    returns (ok: bool)
    requires AtPrepare(fw, n, start, g) && existing == fw.table.chains.Keys
    requires dispatch == Target(g) && rules.Keys == Wanted(g.specs) && forall c :: c in rules ==> rules[c] == RulesOf(c, g.ipv6)
    modifies fw`table, fw`clock, fw`trace
    ensures AtPrepare(fw, n, start, g) && fw.table.chains.Keys <= existing + Wanted(g.specs)
    ensures ok ==> Ready(fw.table, g)
    ensures checkOnly ==> fw.table == old(fw.table)
    ensures fw.Reliable() && (checkOnly ==> Ready(fw.table, g)) ==> ok
  {
    if dispatch.None? {
      return true;
    }
    var counters := rules.Keys - {dispatch.value};
    assert counters == Counters(g.specs);
    ok := PrepareCounters(fw, counters, rules, existing, checkOnly, n, start, g);
    if !ok {
      return false;
    }
    JumpsLead(g.specs);
    ghost var middle := fw.table;
    ok := PrepareChain(fw, dispatch.value, rules[dispatch.value], dispatch.value in existing, checkOnly, n, start, g);
    CompleteStays(fw.table, middle, counters, g.ipv6);
  }

  // ---------- Hooking ----------

  lemma StartHooking(t: Table, start: Table, g: Goal)
    requires Preparing(t, start, g) && Ready(t, g)
    ensures Hooking(t, start, g)
  {}

  lemma HookFormed(t: Table, b: Base, d: Chain, ipv6: bool)
    requires WellFormed(t, ipv6) && d in t.chains && d.Dispatch?
    ensures WellFormed(WithHooks(t, b, [d] + Hooks(t, b)), ipv6)
  {
    var t' := WithHooks(t, b, [d] + Hooks(t, b));
    forall b', c | c in Hooks(t', b') ensures c in t'.chains && c.Dispatch? {
      assert c == d || c in Hooks(t, b');
    }
  }

  /** What concerns the chains alone does not depend on the hooks. */
  lemma ChainsAlone(t': Table, t: Table, start: Table, g: Goal)
    requires t'.chains == t.chains && Kept(t, start, g) && Others(t, start, g) && Ready(t, g)
    ensures Kept(t', start, g) && Others(t', start, g) && Ready(t', g)
  {
    forall c | c in Wanted(g.specs) ensures Complete(t', c, g.ipv6) {
      assert Complete(t, c, g.ipv6);
    }
  }

  lemma HookKeeps(t: Table, start: Table, g: Goal, b: Base, d: Chain)
    requires Hooking(t, start, g) && Target(g) == Some(d) && Hooks(t, b) == Hooks(start, b) && d in t.chains
    ensures Hooking(WithHooks(t, b, [d] + Hooks(t, b)), start, g)
  {
    HookFormed(t, b, d, g.ipv6);
    ChainsAlone(WithHooks(t, b, [d] + Hooks(t, b)), t, start, g);
  }

  method EnsureHook(fw: Firewall, b: Base, d: Chain, checkOnly: bool, ghost n: nat, ghost start: Table, ghost g: Goal) returns (ok: bool)
    requires AtHook(fw, n, start, g) && Target(g) == Some(d) && Hooks(fw.table, b) == Hooks(start, b)
    modifies fw`table, fw`clock, fw`trace
    ensures AtHook(fw, n, start, g) && fw.table.chains == old(fw.table).chains
    ensures forall b' :: b' != b ==> Hooks(fw.table, b') == old(Hooks(fw.table, b'))
    ensures ok ==> d in Hooks(fw.table, b)
    ensures checkOnly ==> fw.table == old(fw.table)
    ensures fw.Reliable() && (checkOnly ==> d in Hooks(fw.table, b)) ==> ok
  {
    TargetWanted(g);
    assert Complete(fw.table, d, g.ipv6);
    ok := fw.CheckHook(b, d);
    if !ok && !checkOnly {
      HookKeeps(fw.table, start, g, b, d);
      ok := AdvanceHook(fw, InsertHook(b, d), n, start, g);
    }
  }

  /** Hooks the dispatcher in both base chains. */
  method HookAll(fw: Firewall, dispatch: Option<Chain>, checkOnly: bool, ghost n: nat, ghost start: Table, ghost g: Goal) returns (ok: bool)
    requires AtHook(fw, n, start, g) && dispatch == Target(g) && fw.table.pre == start.pre && fw.table.out == start.out
    modifies fw`table, fw`clock, fw`trace
    ensures AtHook(fw, n, start, g) && fw.table.chains == old(fw.table).chains
    ensures ok ==> Hooked(fw.table, g)
    ensures checkOnly ==> fw.table == old(fw.table)
    ensures fw.Reliable() && (checkOnly ==> Hooked(fw.table, g)) ==> ok
  {
    if dispatch.None? {
      return true;
    }
    ok := EnsureHook(fw, Prerouting, dispatch.value, checkOnly, n, start, g);
    if !ok {
      return false;
    }
    assert Hooks(fw.table, Output) == start.out;
    ghost var pre := Hooks(fw.table, Prerouting);
    ok := EnsureHook(fw, Output, dispatch.value, checkOnly, n, start, g);
    assert Hooks(fw.table, Prerouting) == pre;
  }

  // ---------- Unhooking ----------

  function Obsolete(hooks: seq<Chain>, dispatch: Option<Chain>): seq<Chain> {
    if hooks == [] then []
    else (if dispatch == Some(hooks[0]) then [] else [hooks[0]]) + Obsolete(hooks[1..], dispatch)
  }

  lemma {:induction false} ObsoleteMembers(hooks: seq<Chain>, dispatch: Option<Chain>)
    ensures forall c :: c in Obsolete(hooks, dispatch) <==> c in hooks && dispatch != Some(c)
  {
    if hooks != [] {
      ObsoleteMembers(hooks[1..], dispatch);
      assert forall c :: c in hooks <==> c == hooks[0] || c in hooks[1..];
    }
  }

  /** Taking the first obsolete hook away leaves the other obsolete ones, and the dispatcher if it is there. */
  lemma {:induction false} ObsoleteShrinks(hooks: seq<Chain>, dispatch: Option<Chain>)
    requires Obsolete(hooks, dispatch) != []
    ensures var c := Obsolete(hooks, dispatch)[0];
      && c in hooks && dispatch != Some(c)
      && Obsolete(RemoveFirst(hooks, c), dispatch) == Obsolete(hooks, dispatch)[1..]
      && (forall x :: x in RemoveFirst(hooks, c) ==> x in hooks)
      && (forall x :: x in hooks && x != c ==> x in RemoveFirst(hooks, c))
  {
    if dispatch == Some(hooks[0]) {
      ObsoleteShrinks(hooks[1..], dispatch);
    }
  }

  lemma StartUnhooking(t: Table, start: Table, g: Goal)
    requires Hooking(t, start, g) && Hooked(t, g)
    ensures Unhooking(t, start, g)
    ensures forall b :: Obsolete(Hooks(t, b), Target(g)) == Obsolete(Hooks(start, b), Target(g))
  {
    forall b ensures Obsolete(Hooks(t, b), Target(g)) == Obsolete(Hooks(start, b), Target(g)) {
      assert HooksStay(t, start, g, b);
      if Target(g).Some? && Hooks(t, b) == [Target(g).value] + Hooks(start, b) {
        assert Hooks(t, b)[1..] == Hooks(start, b);
      }
    }
  }

  lemma FewerHooks(t: Table, b: Base, hooks: seq<Chain>, ipv6: bool)
    requires WellFormed(t, ipv6) && forall x :: x in hooks ==> x in Hooks(t, b)
    ensures WellFormed(WithHooks(t, b, hooks), ipv6)
  {
    var t' := WithHooks(t, b, hooks);
    forall b', x | x in Hooks(t', b') ensures x in t'.chains && x.Dispatch? {
      assert x in Hooks(t, b');
    }
  }

  lemma UnhookKeeps(t: Table, start: Table, g: Goal, b: Base, c: Chain)
    requires Unhooking(t, start, g)
    requires Obsolete(Hooks(t, b), Target(g)) != [] && Obsolete(Hooks(t, b), Target(g))[0] == c
    ensures c in Hooks(t, b) && Unhooking(WithHooks(t, b, RemoveFirst(Hooks(t, b), c)), start, g)
  {
    ObsoleteShrinks(Hooks(t, b), Target(g));
    FewerHooks(t, b, RemoveFirst(Hooks(t, b), c), g.ipv6);
  }

  ghost predicate SameBut(t: Table, before: Table, b: Base) {
    t.chains == before.chains && forall b' :: b' != b ==> Hooks(t, b') == Hooks(before, b')
  }

  method UnhookOne(fw: Firewall, b: Base, c: Chain, ghost n: nat, ghost start: Table, ghost g: Goal) returns (ok: bool)
    requires AtUnhook(fw, n, start, g)
    requires Obsolete(Hooks(fw.table, b), Target(g)) != [] && Obsolete(Hooks(fw.table, b), Target(g))[0] == c
    modifies fw`table, fw`clock, fw`trace
    ensures AtUnhook(fw, n, start, g) && SameBut(fw.table, old(fw.table), b)
    ensures ok ==> Obsolete(Hooks(fw.table, b), Target(g)) == Obsolete(old(Hooks(fw.table, b)), Target(g))[1..]
    ensures fw.Reliable() ==> ok
  {
    UnhookKeeps(fw.table, start, g, b, c);
    DeleteHookEffect(fw.table, b, c, Target(g));
    ok := AdvanceUnhook(fw, DeleteHook(b, c), n, start, g);
  }

  lemma DeleteHookEffect(t: Table, b: Base, c: Chain, dispatch: Option<Chain>)
    requires Obsolete(Hooks(t, b), dispatch) != [] && Obsolete(Hooks(t, b), dispatch)[0] == c
    ensures Effect(t, DeleteHook(b, c)) == Some(WithHooks(t, b, RemoveFirst(Hooks(t, b), c)))
    ensures SameBut(WithHooks(t, b, RemoveFirst(Hooks(t, b), c)), t, b) && SameBut(t, t, b)
    ensures Obsolete(Hooks(WithHooks(t, b, RemoveFirst(Hooks(t, b), c)), b), dispatch) == Obsolete(Hooks(t, b), dispatch)[1..]
  {
    ObsoleteShrinks(Hooks(t, b), dispatch);
  }

  /** Takes the obsolete hooks of one base chain out. */
  method UnhookBase(fw: Firewall, b: Base, obsolete: seq<Chain>, ghost n: nat, ghost start: Table, ghost g: Goal) returns (ok: bool)
    requires AtUnhook(fw, n, start, g) && obsolete == Obsolete(Hooks(fw.table, b), Target(g))
    modifies fw`table, fw`clock, fw`trace
    ensures AtUnhook(fw, n, start, g) && SameBut(fw.table, old(fw.table), b)
    ensures ok ==> Obsolete(Hooks(fw.table, b), Target(g)) == []
    ensures fw.Reliable() ==> ok
  {
    ghost var before := fw.table;
    for i := 0 to |obsolete|
      invariant AtUnhook(fw, n, start, g) && SameBut(fw.table, before, b)
      invariant Obsolete(Hooks(fw.table, b), Target(g)) == obsolete[i..]
    {
      assert obsolete[i..][1..] == obsolete[i + 1..];
      ok := UnhookOne(fw, b, obsolete[i], n, start, g);
      if !ok {
        return false;
      }
    }
    ok := true;
  }

  lemma StartRemoving(t: Table, start: Table, g: Goal)
    requires Unhooking(t, start, g) && forall b :: Obsolete(Hooks(t, b), Target(g)) == []
    ensures Removing(t, start, g)
  {
    forall b, c | c in Hooks(t, b) ensures Target(g) == Some(c) {
      ObsoleteMembers(Hooks(t, b), Target(g));
      assert c !in Obsolete(Hooks(t, b), Target(g));
    }
  }

  // ---------- Removing what is obsolete ----------

  /** No unwanted dispatcher is left. */
  ghost predicate DispatchersGone(t: Table, g: Goal) {
    forall c :: c in t.chains && c.Dispatch? ==> c in Wanted(g.specs)
  }

  lemma JumpTargets(t: Table, ipv6: bool, k: Chain, r: Rule)
    requires WellFormed(t, ipv6) && k in t.chains && r in t.chains[k] && r.Jump?
    ensures k.Dispatch? && r.counter.Counter? && r.counter in Counters(k.specs)
  {
    assert Own(k, t.chains[k], ipv6);
    assert r in RulesOf(k, ipv6);
    if k.Dispatch? {
      JumpsLead(k.specs);
    }
  }

  /** An unwanted dispatcher is not referenced, nor is an unwanted counter once those are gone. */
  lemma Unreferenced(t: Table, start: Table, g: Goal, c: Chain)
    requires Removing(t, start, g) && c !in Wanted(g.specs) && (c.Dispatch? || DispatchersGone(t, g))
    ensures !Referenced(t, c)
  {
    TargetWanted(g);
    forall b ensures c !in Hooks(t, b) {
      assert c in Hooks(t, b) ==> Target(g) == Some(c);
    }
    assert c !in Hooks(t, Prerouting) && c !in Hooks(t, Output);
    forall k, r | k in t.chains && r in t.chains[k] && r.Jump? ensures r.counter != c {
      JumpTargets(t, g.ipv6, k, r);
      if c.Counter? {
        assert k in Wanted(g.specs);
        assert k == Dispatch(g.specs);
      }
    }
  }

  lemma SameHooks(t: Table, before: Table, g: Goal)
    requires t.pre == before.pre && t.out == before.out && Hooked(before, g) && OnlyTarget(before, g)
    ensures Hooked(t, g) && OnlyTarget(t, g)
  {
    forall b, c | c in Hooks(t, b) ensures Target(g) == Some(c) {
      assert c in Hooks(before, b);
    }
  }

  lemma FlushKeeps(t: Table, start: Table, g: Goal, c: Chain)
    requires Removing(t, start, g) && c in t.chains && c !in Wanted(g.specs)
    ensures Removing(t.(chains := t.chains[c := []]), start, g)
  {
    var t' := t.(chains := t.chains[c := []]);
    StillFormed(t, t.chains[c := []], g.ipv6);
    SameHooks(t', t, g);
    forall x | x in Wanted(g.specs) ensures Complete(t', x, g.ipv6) {
      assert Complete(t, x, g.ipv6);
    }
  }

  lemma DeleteKeeps(t: Table, start: Table, g: Goal, c: Chain)
    requires Removing(t, start, g) && c in t.chains && c !in Wanted(g.specs) && !Referenced(t, c)
    ensures Removing(t.(chains := t.chains - {c}), start, g)
  {
    var t' := t.(chains := t.chains - {c});
    forall b, x | x in Hooks(t', b) ensures x in t'.chains && x.Dispatch? {
      assert x in Hooks(t, b);
    }
    forall k, r | k in t'.chains && r in t'.chains[k] && r.Jump? ensures r.counter in t'.chains {
      assert k in t.chains && !JumpsTo(t.chains[k], c);
    }
    SameHooks(t', t, g);
    forall x | x in Wanted(g.specs) ensures Complete(t', x, g.ipv6) {
      assert Complete(t, x, g.ipv6);
    }
  }

  method RemoveChain(fw: Firewall, c: Chain, ghost n: nat, ghost start: Table, ghost g: Goal) returns (ok: bool)
    requires AtRemove(fw, n, start, g) && c in fw.table.chains && c !in Wanted(g.specs)
    requires c.Dispatch? || DispatchersGone(fw.table, g)
    modifies fw`table, fw`clock, fw`trace
    ensures AtRemove(fw, n, start, g)
    ensures ok ==> fw.table.chains.Keys == old(fw.table).chains.Keys - {c}
    ensures fw.Reliable() ==> ok
  {
    FlushKeeps(fw.table, start, g, c);
    ok := AdvanceRemove(fw, Flush(c), n, start, g);
    if !ok {
      return false;
    }
    Unreferenced(fw.table, start, g, c);
    DeleteKeeps(fw.table, start, g, c);
    ok := AdvanceRemove(fw, DeleteChain(c), n, start, g);
  }

  method RemoveChains(fw: Firewall, names: set<Chain>, ghost n: nat, ghost start: Table, ghost g: Goal) returns (ok: bool)
    requires AtRemove(fw, n, start, g) && names <= fw.table.chains.Keys && names !! Wanted(g.specs)
    requires (forall c :: c in names ==> c.Dispatch?) || DispatchersGone(fw.table, g)
    modifies fw`table, fw`clock, fw`trace
    ensures AtRemove(fw, n, start, g)
    ensures ok ==> fw.table.chains.Keys == old(fw.table).chains.Keys - names
    ensures fw.Reliable() ==> ok
  {
    ghost var before := fw.table;
    var todo := names;
    while todo != {}
      invariant todo <= names && AtRemove(fw, n, start, g)
      invariant fw.table.chains.Keys == before.chains.Keys - (names - todo)
      decreases todo
    {
      var c :| c in todo;
      assert c.Dispatch? || DispatchersGone(fw.table, g);
      ok := RemoveChain(fw, c, n, start, g);
      if !ok {
        return false;
      }
      todo := todo - {c};
    }
    ok := true;
  }

  /** The outcome: the wanted chains and no others, hooked in both base chains, and nothing else hooked. */
  ghost predicate Settled(t: Table, g: Goal) {
    Ready(t, g) && Hooked(t, g) && OnlyTarget(t, g) && t.chains.Keys == Wanted(g.specs)
  }

  method RemoveAll(fw: Firewall, existing: set<Chain>, wanted: set<Chain>, ghost n: nat, ghost start: Table, ghost g: Goal) returns (ok: bool)
    requires AtRemove(fw, n, start, g) && wanted == Wanted(g.specs)
    requires existing <= fw.table.chains.Keys <= existing + wanted
    modifies fw`table, fw`clock, fw`trace
    ensures AtRemove(fw, n, start, g)
    ensures ok ==> Settled(fw.table, g)
    ensures fw.Reliable() ==> ok
  {
    var dispatchers := set c | c in existing && c.Dispatch? && c !in wanted;
    var counters := set c | c in existing && c.Counter? && c !in wanted;
    ok := RemoveChains(fw, dispatchers, n, start, g);
    if !ok {
      return false;
    }
    ok := RemoveChains(fw, counters, n, start, g);
    if ok {
      forall c | c in wanted ensures c in fw.table.chains {
        assert Complete(fw.table, c, g.ipv6);
      }
      assert fw.table.chains.Keys == wanted;
    }
  }

  // ---------- Reconciling ----------

  lemma StartPreparing(t: Table, g: Goal)
    requires WellFormed(t, g.ipv6)
    ensures Preparing(t, t, g)
  {}

  lemma CheckedClean(t: Table, g: Goal)
    requires Hooked(t, g)
    ensures OnlyTarget(t, g) <==> Obsolete(t.pre, Target(g)) == [] && Obsolete(t.out, Target(g)) == []
  {
    ObsoleteMembers(t.pre, Target(g));
    ObsoleteMembers(t.out, Target(g));
    if OnlyTarget(t, g) {
      NothingObsolete(t.pre, Target(g));
      NothingObsolete(t.out, Target(g));
      forall c | c in t.pre ensures Target(g) == Some(c) { assert c in Hooks(t, Prerouting); }
      forall c | c in t.out ensures Target(g) == Some(c) { assert c in Hooks(t, Output); }
    }
    if Obsolete(t.pre, Target(g)) == [] && Obsolete(t.out, Target(g)) == [] {
      forall b, c | c in Hooks(t, b) ensures Target(g) == Some(c) {
        assert c in t.pre || c in t.out;
      }
    }
  }

  lemma {:induction false} NothingObsolete(hooks: seq<Chain>, dispatch: Option<Chain>)
    ensures (forall c :: c in hooks ==> dispatch == Some(c)) ==> Obsolete(hooks, dispatch) == []
  {
    if hooks != [] {
      NothingObsolete(hooks[1..], dispatch);
    }
  }

  /** Old hooks out, then the chains nothing needs any more. */
  method CleanUp(fw: Firewall, snapshot: Table, dispatch: Option<Chain>, wanted: set<Chain>, ghost n: nat, ghost g: Goal) returns (ok: bool)
    requires AtHook(fw, n, snapshot, g) && Hooked(fw.table, g) && dispatch == Target(g) && wanted == Wanted(g.specs)
    requires snapshot.chains.Keys <= fw.table.chains.Keys <= snapshot.chains.Keys + wanted
    modifies fw`table, fw`clock, fw`trace
    ensures SafeSince(fw.trace, n, snapshot, g) && Safe(fw.table, snapshot, g)
    ensures ok ==> Settled(fw.table, g)
    ensures fw.Reliable() ==> ok
  {
    StartUnhooking(fw.table, snapshot, g);
    assert Obsolete(Hooks(fw.table, Prerouting), dispatch) == Obsolete(Hooks(snapshot, Prerouting), dispatch);
    assert Obsolete(Hooks(fw.table, Output), dispatch) == Obsolete(Hooks(snapshot, Output), dispatch);
    ok := UnhookBase(fw, Prerouting, Obsolete(snapshot.pre, dispatch), n, snapshot, g);
    UnhookingSafe(fw.table, snapshot, g);
    if !ok {
      return false;
    }
    ghost var pre := Hooks(fw.table, Prerouting);
    ok := UnhookBase(fw, Output, Obsolete(snapshot.out, dispatch), n, snapshot, g);
    UnhookingSafe(fw.table, snapshot, g);
    if !ok {
      return false;
    }
    assert Hooks(fw.table, Prerouting) == pre;
    StartRemoving(fw.table, snapshot, g);
    ok := RemoveAll(fw, snapshot.chains.Keys, wanted, n, snapshot, g);
    RemovingSafe(fw.table, snapshot, g);
  }

  /**
   Reconciles one address family. Every table on the way is safe, whatever
   fails; success settles the table, and with reliable commands it is certain.
   A check changes nothing, and finds fault exactly with an unhealthy table.
   */
  method ReconcileFamily(fw: Firewall, specs: seq<Spec>, ipv6: bool, checkOnly: bool) returns (ok: bool)
    requires Normalized(specs) && WellFormed(fw.table, ipv6)
    modifies fw`table, fw`clock, fw`trace
    ensures SafeSince(fw.trace, |old(fw.trace)|, old(fw.table), Goal(specs, ipv6)) && Safe(fw.table, old(fw.table), Goal(specs, ipv6))
    ensures ok && !checkOnly ==> Settled(fw.table, Goal(specs, ipv6))
    ensures fw.Reliable() && !checkOnly ==> ok
    ensures checkOnly ==> fw.table == old(fw.table)
    ensures checkOnly && ok ==> Healthy(fw.table, Goal(specs, ipv6))
    ensures checkOnly && fw.Reliable() && Healthy(fw.table, Goal(specs, ipv6)) ==> ok
  {
    ghost var g, n := Goal(specs, ipv6), |fw.trace|;
    var dispatch, desired := CompileRules(specs, ipv6);
    StartPreparing(fw.table, g);
    PreparingSafe(fw.table, fw.table, g);
    var listed := fw.List();
    if listed.None? {
      return false;
    }
    var snapshot := listed.value;
    ok := PrepareAll(fw, dispatch, desired, snapshot.chains.Keys, checkOnly, n, snapshot, g);
    PreparingSafe(fw.table, snapshot, g);
    if !ok {
      return false;
    }
    StartHooking(fw.table, snapshot, g);
    ok := HookAll(fw, dispatch, checkOnly, n, snapshot, g);
    HookingSafe(fw.table, snapshot, g);
    if !ok {
      return false;
    }
    if checkOnly {
      CheckedClean(snapshot, g);
      return Obsolete(snapshot.pre, dispatch) == [] && Obsolete(snapshot.out, dispatch) == [];
    }
    ok := CleanUp(fw, snapshot, dispatch, desired.Keys, n, g);
  }

  /**
   A reconciliation and a check after it, in which other commands may fail.
   Once the first is done the check is clean unless one of its own commands
   fails, and a clean check means a healthy table, whoever failed before.
   When no command fails at all, both succeed.
   */
  method ReconcileThenCheck(fw: Firewall, specs: seq<Spec>, ipv6: bool, later: nat -> Fault) returns (done: bool, clean: bool)
    requires Normalized(specs) && WellFormed(fw.table, ipv6)
    modifies fw`table, fw`clock, fw`trace
    ensures done && (forall n :: !later(n).fails) ==> clean
    ensures fw.Reliable() ==> done
    ensures done || clean ==> Healthy(fw.table, Goal(specs, ipv6)) && Enforces(fw.table, Goal(specs, ipv6))
    ensures done ==> fw.table.chains.Keys == Wanted(specs)
  {
    done := ReconcileFamily(fw, specs, ipv6, false);
    var check := new Firewall(fw.table, later);
    clean := ReconcileFamily(check, specs, ipv6, true);
    if done || clean {
      HealthyEnforces(fw.table, Goal(specs, ipv6));
    }
  }

  // ---------- Any number of changes ----------

  /** A reconciliation to these limits, with what goes wrong in it, and the table it is killed at, if it is. */
  datatype Attempt = Attempt(specs: seq<Spec>, faults: nat -> Fault, crash: Option<nat>)

  /** All these limits limit the user on this port. */
  ghost predicate AllLimit(attempts: seq<Attempt>, user: int64, port: int64) {
    forall i :: 0 <= i < |attempts| ==> exists maxIPs :: Limits(attempts[i].specs, user, maxIPs, port)
  }

  /** The user's limit on the port is this one at the start, or in one of the attempts. */
  ghost predicate OnTheWay(attempts: seq<Attempt>, user: int64, maxIPs: int64, port: int64, first: int64) {
    maxIPs == first || exists i :: 0 <= i < |attempts| && Limits(attempts[i].specs, user, maxIPs, port)
  }

  ghost predicate UserCounted(t: Table, b: Base, user: int64, first: int64, attempts: seq<Attempt>, ipv6: bool, port: int64) {
    exists maxIPs :: OnTheWay(attempts, user, maxIPs, port, first) && Counts(t, b, Counter(user, maxIPs), ipv6, port)
  }

  lemma StaysCounted(t: Table, middle: Table, attempts: seq<Attempt>, i: nat, b: Base, user: int64, first: int64, ipv6: bool, port: int64)
    requires i < |attempts| && Normalized(attempts[i].specs) && WellFormed(middle, ipv6) && Safe(t, middle, Goal(attempts[i].specs, ipv6))
    requires UserCounted(middle, b, user, first, attempts, ipv6, port) && AllLimit(attempts, user, port)
    ensures UserCounted(t, b, user, first, attempts, ipv6, port)
  {
    var earlier :| OnTheWay(attempts, user, earlier, port, first) && Counts(middle, b, Counter(user, earlier), ipv6, port);
    var next :| Limits(attempts[i].specs, user, next, port);
    assert OnTheWay(attempts, user, next, port, first);
    NoGap(t, middle, Goal(attempts[i].specs, ipv6), b, Counter(user, earlier), Counter(user, next), port);
  }

  /** Every table of a history counts what the first one counts, as far as all limits on the way ask for it. */
  ghost predicate CountedIn(t: Table, start: Table, attempts: seq<Attempt>, ipv6: bool) {
    forall b, user, first, port :: AllLimit(attempts, user, port) && Counts(start, b, Counter(user, first), ipv6, port) ==>
      UserCounted(t, b, user, first, attempts, ipv6, port)
  }

  /** For the source of a new connection the user has more connections than any limit on the way allows. */
  ghost predicate Exceeds(load: Load, attempts: seq<Attempt>, user: int64, first: int64, ipv6: bool, port: int64) {
    first > 0 && forall maxIPs :: OnTheWay(attempts, user, maxIPs, port, first) ==> load(Counter(user, maxIPs), if ipv6 then 128 else 32) > maxIPs
  }

  /** Every table of a history refuses these connections, if the first one counts them. */
  ghost predicate RefusedIn(t: Table, start: Table, attempts: seq<Attempt>, ipv6: bool) {
    forall b, user, first, port, load ::
      (AllLimit(attempts, user, port) && Counts(start, b, Counter(user, first), ipv6, port) && Exceeds(load, attempts, user, first, ipv6, port)
       ==> Refused(t, b, port, load))
  }

  lemma HistoryRefuses(t: Table, start: Table, attempts: seq<Attempt>, ipv6: bool)
    requires WellFormed(t, ipv6) && CountedIn(t, start, attempts, ipv6)
    ensures RefusedIn(t, start, attempts, ipv6)
  {
    forall b, user, first, port, load |
      AllLimit(attempts, user, port) && Counts(start, b, Counter(user, first), ipv6, port) && Exceeds(load, attempts, user, first, ipv6, port)
      ensures Refused(t, b, port, load)
    {
      var maxIPs :| OnTheWay(attempts, user, maxIPs, port, first) && Counts(t, b, Counter(user, maxIPs), ipv6, port);
      OnTheWayPositive(attempts, user, maxIPs, port, first);
      CountedRefused(t, b, Counter(user, maxIPs), ipv6, port, load);
    }
  }

  lemma OnTheWayPositive(attempts: seq<Attempt>, user: int64, maxIPs: int64, port: int64, first: int64)
    requires first > 0 && OnTheWay(attempts, user, maxIPs, port, first)
    ensures maxIPs > 0
  {}

  /** What all tables of a history keep. */
  ghost predicate Guarded(t: Table, start: Table, attempts: seq<Attempt>, ipv6: bool) {
    WellFormed(t, ipv6) && CountedIn(t, start, attempts, ipv6) && RefusedIn(t, start, attempts, ipv6)
  }

  lemma StartGuarded(start: Table, attempts: seq<Attempt>, ipv6: bool)
    requires WellFormed(start, ipv6)
    ensures Guarded(start, start, attempts, ipv6)
  {
    forall b, user, first, port | AllLimit(attempts, user, port) && Counts(start, b, Counter(user, first), ipv6, port)
      ensures UserCounted(start, b, user, first, attempts, ipv6, port)
    {
      assert OnTheWay(attempts, user, first, port, first);
    }
    HistoryRefuses(start, start, attempts, ipv6);
  }

  lemma AttemptGuards(t: Table, middle: Table, start: Table, attempts: seq<Attempt>, i: nat, ipv6: bool)
    requires i < |attempts| && Normalized(attempts[i].specs) && WellFormed(middle, ipv6)
    requires CountedIn(middle, start, attempts, ipv6) && Safe(t, middle, Goal(attempts[i].specs, ipv6))
    ensures Guarded(t, start, attempts, ipv6)
  {
    forall b, user, first, port | AllLimit(attempts, user, port) && Counts(start, b, Counter(user, first), ipv6, port)
      ensures UserCounted(t, b, user, first, attempts, ipv6, port)
    {
      StaysCounted(t, middle, attempts, i, b, user, first, ipv6, port);
    }
    HistoryRefuses(t, start, attempts, ipv6);
  }

  /** One attempt, and where it leaves the table: at its end, or where it is killed. */
  method MakeAttempt(middle: Table, attempts: seq<Attempt>, i: nat, ipv6: bool, ghost start: Table) returns (end: Table, tables: seq<Table>)
    requires i < |attempts| && Normalized(attempts[i].specs) && Guarded(middle, start, attempts, ipv6)
    ensures Guarded(end, start, attempts, ipv6)
    ensures forall k :: 0 <= k < |tables| ==> Guarded(tables[k], start, attempts, ipv6)
  {
    var fw := new Firewall(middle, attempts[i].faults);
    var _ := ReconcileFamily(fw, attempts[i].specs, ipv6, false);
    end, tables := fw.table, fw.trace;
    if attempts[i].crash.Some? && attempts[i].crash.value < |tables| {
      end := tables[attempts[i].crash.value];
    }
    AttemptGuards(end, middle, start, attempts, i, ipv6);
    forall k | 0 <= k < |tables| ensures Guarded(tables[k], start, attempts, ipv6) {
      AttemptGuards(tables[k], middle, start, attempts, i, ipv6);
    }
  }

  /**
   Any number of changes of the limits, with any faults and killed anywhere: at
   every moment a new connection of a user whose port all of these limits limit
   goes through a complete counter of that user, if it did at the start, and is
   refused when it exceeds all these limits.
   */
  method CountedThroughout(start: Table, attempts: seq<Attempt>, ipv6: bool) returns (end: Table, tables: seq<Table>)
    requires WellFormed(start, ipv6) && forall i :: 0 <= i < |attempts| ==> Normalized(attempts[i].specs)
    ensures Guarded(end, start, attempts, ipv6)
    ensures forall k :: 0 <= k < |tables| ==> Guarded(tables[k], start, attempts, ipv6)
  {
    end, tables := start, [];
    StartGuarded(start, attempts, ipv6);
    for i := 0 to |attempts|
      invariant Guarded(end, start, attempts, ipv6)
      invariant forall k :: 0 <= k < |tables| ==> Guarded(tables[k], start, attempts, ipv6)
    {
      var more: seq<Table>;
      end, more := MakeAttempt(end, attempts, i, ipv6, start);
      tables := tables + more;
    }
  }

  /** The empty table is well formed: so is every table from then on. */
  lemma EmptyFormed(ipv6: bool)
    ensures WellFormed(Table(map[], [], []), ipv6)
  {}
}
