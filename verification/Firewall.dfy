/**
 The part of a firewall table that port limits use: their chains and rules,
 and the hooks of the two base chains. Commands take effect one at a time; a
 failed one may or may not have taken effect.
 */
module Firewall {
  import opened Options
  import opened PortLimits

  datatype Base = Prerouting | Output

  /** The managed chains, and for each base chain the dispatchers hooked in it, in order. */
  datatype Table = Table(chains: map<Chain, seq<Rule>>, pre: seq<Chain>, out: seq<Chain>)

  datatype Command =
    | NewChain(chain: Chain)
    | InsertRule(chain: Chain, rule: Rule)
    | AppendRule(chain: Chain, rule: Rule)
    | InsertHook(base: Base, chain: Chain)
    | DeleteHook(base: Base, chain: Chain)
    | Flush(chain: Chain)
    | DeleteChain(chain: Chain)

  function Hooks(t: Table, b: Base): seq<Chain> {
    if b.Prerouting? then t.pre else t.out
  }

  function WithHooks(t: Table, b: Base, hooks: seq<Chain>): Table {
    if b.Prerouting? then t.(pre := hooks) else t.(out := hooks)
  }

  function RemoveFirst(hooks: seq<Chain>, c: Chain): seq<Chain> {
    if hooks == [] then [] else if hooks[0] == c then hooks[1..] else [hooks[0]] + RemoveFirst(hooks[1..], c)
  }

  predicate JumpsTo(rules: seq<Rule>, c: Chain) {
    exists r :: r in rules && r.Jump? && r.counter == c
  }

  predicate Referenced(t: Table, c: Chain) {
    c in t.pre || c in t.out || exists k :: k in t.chains && JumpsTo(t.chains[k], c)
  }

  /** What a command does; nothing when the kernel refuses it. */
  function Effect(t: Table, cmd: Command): Option<Table> {
    match cmd
    case NewChain(c) => if c in t.chains then None else Some(t.(chains := t.chains[c := []]))
    case InsertRule(c, r) => if CanHold(t, c, r) then Some(t.(chains := t.chains[c := [r] + t.chains[c]])) else None
    case AppendRule(c, r) => if CanHold(t, c, r) then Some(t.(chains := t.chains[c := t.chains[c] + [r]])) else None
    case InsertHook(b, c) => if c in t.chains then Some(WithHooks(t, b, [c] + Hooks(t, b))) else None
    case DeleteHook(b, c) => if c in Hooks(t, b) then Some(WithHooks(t, b, RemoveFirst(Hooks(t, b), c))) else None
    case Flush(c) => if c in t.chains then Some(t.(chains := t.chains[c := []])) else None
    case DeleteChain(c) =>
      if c !in t.chains || t.chains[c] != [] || Referenced(t, c) then None else Some(t.(chains := t.chains - {c}))
  }

  /** A rule needs its chain, and the counter it jumps to. */
  predicate CanHold(t: Table, c: Chain, r: Rule) {
    c in t.chains && (r.Jump? ==> r.counter in t.chains)
  }

  datatype Fault = Fault(fails: bool, applied: bool)

  class Firewall {
    var table: Table
    const faults: nat -> Fault
    var clock: nat
    /** Every table since the start; a crash leaves one of them behind. */
    var trace: seq<Table>

    constructor (table: Table, faults: nat -> Fault)
      ensures this.table == table && this.faults == faults && trace == []
    {
      this.table, this.faults, clock, trace := table, faults, 0, [];
    }

    /** No command fails that the kernel does not refuse. */
    ghost predicate Reliable() {
      forall n :: !faults(n).fails
    }

    method Run(cmd: Command) returns (ok: bool)
      modifies this`table, this`clock, this`trace
      ensures table == old(table) || Effect(old(table), cmd) == Some(table)
      ensures ok ==> Effect(old(table), cmd) == Some(table)
      ensures Reliable() && Effect(old(table), cmd).Some? ==> ok
      ensures trace == old(trace) + [table]
    {
      var fault := faults(clock);
      clock := clock + 1;
      var effect := Effect(table, cmd);
      if effect.Some? && (!fault.fails || fault.applied) {
        table := effect.value;
      }
      trace := trace + [table];
      return effect.Some? && !fault.fails;
    }

    method List() returns (snapshot: Option<Table>)
      modifies this`clock
      ensures snapshot.Some? ==> snapshot.value == table
      ensures Reliable() ==> snapshot.Some?
    {
      var fault := faults(clock);
      clock := clock + 1;
      return if fault.fails then None else Some(table);
    }

    method CheckRule(c: Chain, r: Rule) returns (found: bool)
      modifies this`clock
      ensures found ==> c in table.chains && r in table.chains[c]
      ensures Reliable() && c in table.chains && r in table.chains[c] ==> found
    {
      var fault := faults(clock);
      clock := clock + 1;
      return !fault.fails && c in table.chains && r in table.chains[c];
    }

    method CheckHook(b: Base, c: Chain) returns (found: bool)
      modifies this`clock
      ensures found ==> c in Hooks(table, b)
      ensures Reliable() && c in Hooks(table, b) ==> found
    {
      var fault := faults(clock);
      clock := clock + 1;
      return !fault.fails && c in Hooks(table, b);
    }
  }
}
