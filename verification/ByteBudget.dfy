/**
 The two-level byte budget: every rule has its own limit and all rules of the
 process share a second one. One lock guards both, so each operation is atomic.
 */
module ByteBudget {
  import opened Options

  /** What one rule and the process hold at a moment. */
  datatype Usage = Usage(ruleLimit: int, rule: nat, processLimit: int, process: int) {
    ghost predicate Sound() {
      rule <= ruleLimit && rule <= process <= processLimit
    }

    predicate Fits(bytes: int) {
      bytes <= ruleLimit - rule && bytes <= processLimit - process
    }

    function Add(bytes: int): Usage
      requires rule + bytes >= 0
    {
      this.(rule := rule + bytes, process := process + bytes)
    }
  }

  /** The result of a reservation and whether it was granted. */
  function Reserved(u: Usage, bytes: int): (r: (Usage, bool))
    ensures u.Sound() && bytes >= 0 ==> r.0.Sound()
  {
    if bytes < 0 then (u, false)
    else if bytes == 0 then (u, true)
    else if u.Fits(bytes) then (u.Add(bytes), true)
    else (u, false)
  }

  function Replaced(u: Usage, release: int, reserve: int): (r: (Usage, bool))
    ensures u.Sound() ==> r.0.Sound()
  {
    if release < 0 || reserve < 0 then (u, false)
    else if release > u.rule || release > u.process then (u, false)
    else if u.Add(-release).Fits(reserve) then (u.Add(reserve - release), true)
    else (u, false)
  }

  /** A release is clamped to what the rule holds. */
  function Released(u: Usage, bytes: int): (r: Usage)
    ensures u.Sound() ==> r.Sound()
    ensures 0 <= bytes <= u.rule ==> r == u.Add(-bytes)
  {
    if bytes <= 0 then u
    else u.Add(-(if bytes > u.rule then u.rule else bytes))
  }

  /** Two releases that the rule can cover are one release of the sum, in any order. */
  lemma ReleasedTwice(u: Usage, a: nat, b: nat)
    ensures Released(Released(u, a), b) == Released(u, a + b)
  {}

  // An absent budget grants everything.

  function BudgetReserved(u: Option<Usage>, bytes: int): (Option<Usage>, bool) {
    match u
    case None => (None, true)
    case Some(usage) => var (after, granted) := Reserved(usage, bytes); (Some(after), granted)
  }

  function BudgetReplaced(u: Option<Usage>, release: int, reserve: int): (Option<Usage>, bool) {
    match u
    case None => (None, true)
    case Some(usage) => var (after, granted) := Replaced(usage, release, reserve); (Some(after), granted)
  }

  function BudgetReleased(u: Option<Usage>, bytes: int): Option<Usage> {
    match u
    case None => None
    case Some(usage) => Some(Released(usage, bytes))
  }

  class ProcessBudget {
    const limit: int
    var used: int

    constructor (limit: int)
      ensures this.limit == if limit < 0 then 0 else limit
      ensures used == 0
    {
      this.limit := if limit < 0 then 0 else limit;
      used := 0;
    }
  }

  class RuleBudget {
    const process: ProcessBudget
    const limit: int
    var used: nat

    function View(): Usage
      reads this, process
    {
      Usage(limit, used, process.limit, process.used)
    }

    constructor (process: ProcessBudget, limit: int)
      ensures this.process == process
      ensures this.limit == if limit < 0 then 0 else limit
      ensures used == 0
    {
      this.process := process;
      this.limit := if limit < 0 then 0 else limit;
      used := 0;
    }

    method Reserve(bytes: int) returns (granted: bool)
      modifies this, process
      ensures (View(), granted) == Reserved(old(View()), bytes)
      ensures granted <==> bytes == 0 || (bytes > 0 && old(used) + bytes <= limit && old(process.used) + bytes <= process.limit)
      ensures used == old(used) + (if granted then bytes else 0) && process.used == old(process.used) + (if granted then bytes else 0)
    {
      if bytes < 0 {
        return false;
      }
      if bytes == 0 {
        return true;
      }
      if bytes > limit - used || bytes > process.limit - process.used {
        return false;
      }
      used := used + bytes;
      process.used := process.used + bytes;
      return true;
    }

    method Replace(release: int, reserve: int) returns (granted: bool)
      modifies this, process
      ensures (View(), granted) == Replaced(old(View()), release, reserve)
      ensures granted <==>
        && 0 <= release <= old(used) && release <= old(process.used) && 0 <= reserve
        && old(used) - release + reserve <= limit && old(process.used) - release + reserve <= process.limit
      ensures used == old(used) + (if granted then reserve - release else 0)
      ensures process.used == old(process.used) + (if granted then reserve - release else 0)
    {
      if release < 0 || reserve < 0 {
        return false;
      }
      if release > used || release > process.used {
        return false;
      }
      var ruleBase, processBase := used - release, process.used - release;
      if reserve > limit - ruleBase || reserve > process.limit - processBase {
        return false;
      }
      used := ruleBase + reserve;
      process.used := processBase + reserve;
      return true;
    }

    method Release(bytes: int)
      modifies this, process
      ensures View() == Released(old(View()), bytes)
      ensures used == if bytes <= 0 then old(used) else if bytes > old(used) then 0 else old(used) - bytes
      ensures process.used == old(process.used) - (old(used) - used)
    {
      if bytes <= 0 {
        return;
      }
      var n := if bytes > used then used else bytes;
      used := used - n;
      process.used := process.used - n;
    }
  }
}
