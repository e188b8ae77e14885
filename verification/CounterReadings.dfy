/**
 What an agent reads from the byte counters of a port. The kernel keeps them in
 columns (a protocol of IPv4 or IPv6) and chains; a reading adds, in each chain,
 the columns whose listing could be read and takes the largest chain. A listing
 that fails leaves its columns out, as if they had counted nothing.
 */
module CounterReadings {
  import opened AgentLedger

  /** Which columns were listed. */
  type View = seq<bool>

  /** One direction of the counters, by chain and column. */
  type Table = seq<seq<nat>>

  ghost predicate Shaped(t: Table, chains: nat, columns: nat) {
    |t| == chains && forall k :: 0 <= k < chains ==> |t[k]| == columns
  }

  function Listed(row: seq<nat>, view: View): nat
    requires |row| == |view|
  {
    if row == [] then 0 else (if view[0] then row[0] else 0) + Listed(row[1..], view[1..])
  }

  function Total(row: seq<nat>): nat {
    if row == [] then 0 else row[0] + Total(row[1..])
  }

  function Larger(a: nat, b: nat): nat {
    if a > b then a else b
  }

  function Reading(t: Table, view: View): nat
    requires Shaped(t, |t|, |view|)
  {
    if t == [] then 0 else Larger(Listed(t[0], view), Reading(t[1..], view))
  }

  lemma {:induction false} ReadingLargest(t: Table, view: View)
    requires Shaped(t, |t|, |view|)
    ensures forall k :: 0 <= k < |t| ==> Listed(t[k], view) <= Reading(t, view)
    ensures t != [] ==> exists k :: 0 <= k < |t| && Listed(t[k], view) == Reading(t, view)
  {
    if t != [] {
      ReadingLargest(t[1..], view);
      forall k | 0 <= k < |t| ensures Listed(t[k], view) <= Reading(t, view) {
        assert k > 0 ==> t[1..][k - 1] == t[k];
      }
      if Listed(t[0], view) < Reading(t, view) {
        var k :| 0 <= k < |t| - 1 && Listed(t[1..][k], view) == Reading(t[1..], view);
        assert Listed(t[k + 1], view) == Reading(t, view);
      }
    }
  }

  method SumListed(row: seq<nat>, view: View) returns (sum: nat)
    requires |row| == |view|
    ensures sum == Listed(row, view)
  {
    sum := 0;
    for i := 0 to |row|
      invariant sum + Listed(row[i..], view[i..]) == Listed(row, view)
    {
      assert row[i..][1..] == row[i + 1..] && view[i..][1..] == view[i + 1..];
      if view[i] {
        sum := sum + row[i];
      }
    }
  }

  method LargestChain(t: Table, view: View) returns (bytes: nat)
    requires Shaped(t, |t|, |view|)
    ensures bytes == Reading(t, view)
    ensures forall k :: 0 <= k < |t| ==> Listed(t[k], view) <= bytes
    ensures if t == [] then bytes == 0 else exists k :: 0 <= k < |t| && Listed(t[k], view) == bytes
  {
    ReadingLargest(t, view);
    bytes := 0;
    for k := 0 to |t|
      invariant Larger(bytes, Reading(t[k..], view)) == Reading(t, view)
    {
      assert t[k..][1..] == t[k + 1..];
      var sum := SumListed(t[k], view);
      if sum > bytes {
        bytes := sum;
      }
    }
  }

  // ---------- Two readings of one chain ----------

  /** Each column later: what it has counted since, on top of what it kept. */
  function Later(before: seq<nat>, growth: seq<nat>, reset: View): (after: seq<nat>)
    requires |before| == |growth| == |reset|
    ensures |after| == |before|
  {
    seq(|before|, i requires 0 <= i < |before| => growth[i] + if reset[i] then 0 else before[i])
  }

  /** The columns that are listed and were not reset. */
  function Kept(view: View, reset: View): (kept: View)
    requires |view| == |reset|
    ensures |kept| == |view|
  {
    seq(|view|, i requires 0 <= i < |view| => view[i] && !reset[i])
  }

  ghost predicate Blank(view: View) {
    forall i :: 0 <= i < |view| ==> !view[i]
  }

  /** A sample with these two readings counts no more than all the columns have grown. */
  ghost predicate CountsNoMore(base: View, now: View, reset: View, before: seq<nat>, growth: seq<nat>)
    requires |base| == |now| == |reset| == |before| == |growth|
  {
    Delta(Listed(Later(before, growth, reset), now), Listed(before, base)) <= Total(growth)
  }

  lemma {:induction false} ListedLater(before: seq<nat>, growth: seq<nat>, reset: View, now: View)
    requires |before| == |growth| == |reset| == |now|
    ensures Listed(Later(before, growth, reset), now) == Listed(before, Kept(now, reset)) + Listed(growth, now)
    ensures Listed(growth, now) <= Total(growth)
  {
    if before != [] {
      ListedLater(before[1..], growth[1..], reset[1..], now[1..]);
      assert Kept(now, reset)[1..] == Kept(now[1..], reset[1..]);
      assert Later(before, growth, reset)[1..] == Later(before[1..], growth[1..], reset[1..]);
    }
  }

  /** When all listed columns but one are zero, that one is the sum. */
  lemma {:induction false} ListedLone(row: seq<nat>, view: View, i: nat)
    requires |row| == |view| && i < |row|
    requires forall j :: 0 <= j < |row| && j != i && view[j] ==> row[j] == 0
    ensures Listed(row, view) == (if view[i] then row[i] else 0)
  {
    if i == 0 {
      ListedZero(row[1..], view[1..]);
    } else {
      ListedLone(row[1..], view[1..], i - 1);
    }
  }

  lemma {:induction false} ListedZero(row: seq<nat>, view: View)
    requires |row| == |view| && forall j :: 0 <= j < |row| && view[j] ==> row[j] == 0
    ensures Listed(row, view) == 0
  {
    if row != [] {
      ListedZero(row[1..], view[1..]);
    }
  }

  lemma {:induction false} ListedAtLeast(row: seq<nat>, view: View, i: nat)
    requires |row| == |view| && i < |row| && view[i]
    ensures Listed(row, view) >= row[i]
  {
    if i > 0 {
      ListedAtLeast(row[1..], view[1..], i - 1);
    }
  }

  lemma {:induction false} TotalZero(row: seq<nat>)
    requires forall i :: 0 <= i < |row| ==> row[i] == 0
    ensures Total(row) == 0
  {
    if row != [] {
      TotalZero(row[1..]);
    }
  }

  function Zeros(n: nat): (row: seq<nat>)
    ensures |row| == n
  {
    seq(n, _ => 0)
  }

  function Marked(n: nat, i: nat, j: nat): (row: seq<nat>)
    ensures |row| == n
  {
    seq(n, k => if k == i then 1 else if k == j then 2 else 0)
  }

  /** A column that was not listed before and kept its count is counted whole. */
  lemma AppearingColumn(base: View, now: View, reset: View, i: nat)
    requires |base| == |now| == |reset| && i < |base| && Kept(now, reset)[i] && !base[i]
    ensures !CountsNoMore(base, now, reset, Marked(|base|, i, i), Zeros(|base|))
  {
    var before, growth := Marked(|base|, i, i), Zeros(|base|);
    TotalZero(growth);
    ListedLater(before, growth, reset, now);
    ListedLone(before, Kept(now, reset), i);
    ListedZero(before, base);
  }

  /** When one column goes, or restarts, the others are counted again. */
  lemma VanishingColumn(base: View, now: View, reset: View, i: nat, j: nat)
    requires |base| == |now| == |reset| && i < |base| && j < |base|
    requires Kept(now, reset)[i] && base[j] && !Kept(now, reset)[j]
    ensures !CountsNoMore(base, now, reset, Marked(|base|, i, j), Zeros(|base|))
  {
    var before, growth := Marked(|base|, i, j), Zeros(|base|);
    TotalZero(growth);
    ListedLater(before, growth, reset, now);
    ListedLone(before, Kept(now, reset), i);
    ListedAtLeast(before, base, j);
  }

  /**
   Whatever the counters hold, a sample counts no more than they have grown
   exactly when the columns listed now that kept their counts are those of the
   baseline, or there are none.
   */
  lemma CountsNoMoreIff(base: View, now: View, reset: View)
    requires |base| == |now| == |reset|
    ensures (forall before: seq<nat>, growth: seq<nat> :: |before| == |growth| == |base| ==> CountsNoMore(base, now, reset, before, growth))
       <==> Blank(Kept(now, reset)) || Kept(now, reset) == base
  {
    var kept := Kept(now, reset);
    if Blank(kept) || kept == base {
      forall before: seq<nat>, growth: seq<nat> | |before| == |growth| == |base| ensures CountsNoMore(base, now, reset, before, growth) {
        ListedLater(before, growth, reset, now);
        if Blank(kept) { ListedZero(before, kept); }
      }
    } else {
      var i :| 0 <= i < |base| && kept[i];
      if !base[i] {
        AppearingColumn(base, now, reset, i);
      } else {
        var j :| 0 <= j < |base| && kept[j] != base[j];
        if base[j] { VanishingColumn(base, now, reset, i, j); } else { AppearingColumn(base, now, reset, j); }
      }
    }
  }

  // ---------- Readings of a whole table ----------

  ghost predicate SameShape(t: Table, u: Table) {
    |t| == |u| && forall k :: 0 <= k < |t| ==> |t[k]| == |u[k]|
  }

  ghost predicate RowAtMost(row: seq<nat>, other: seq<nat>) {
    |row| == |other| && forall i :: 0 <= i < |row| ==> row[i] <= other[i]
  }

  /** No column falls, and all of them together grow by the amount at most: what passes is in one column. */
  ghost predicate RowGrows(row: seq<nat>, later: seq<nat>, amount: nat) {
    RowAtMost(row, later) && Total(later) <= Total(row) + amount
  }

  ghost predicate Grows(t: Table, u: Table, amount: nat) {
    |t| == |u| && forall k :: 0 <= k < |t| ==> RowGrows(t[k], u[k], amount)
  }

  /** Some counters, perhaps not all, start again at zero. */
  ghost predicate Restarted(t: Table, u: Table) {
    SameShape(t, u) && forall k, i :: 0 <= k < |t| && 0 <= i < |t[k]| ==> u[k][i] == t[k][i] || u[k][i] == 0
  }

  ghost predicate Cleared(t: Table) {
    forall k, i :: 0 <= k < |t| && 0 <= i < |t[k]| ==> t[k][i] == 0
  }

  lemma {:induction false} ListedGrows(row: seq<nat>, later: seq<nat>, view: View)
    requires |row| == |view| && RowAtMost(row, later)
    ensures 0 <= Listed(later, view) - Listed(row, view) <= Total(later) - Total(row)
  {
    if row != [] {
      ListedGrows(row[1..], later[1..], view[1..]);
    }
  }

  lemma {:induction false} ReadingGrows(t: Table, u: Table, view: View, amount: nat)
    requires Shaped(t, |t|, |view|) && Shaped(u, |u|, |view|) && Grows(t, u, amount)
    ensures Reading(t, view) <= Reading(u, view) <= Reading(t, view) + amount
  {
    if t != [] {
      ListedGrows(t[0], u[0], view);
      assert RowGrows(t[0], u[0], amount);
      forall k | 0 <= k < |t[1..]| ensures RowGrows(t[1..][k], u[1..][k], amount) {
        assert RowGrows(t[k + 1], u[k + 1], amount);
      }
      ReadingGrows(t[1..], u[1..], view, amount);
    }
  }

  lemma {:induction false} ReadingFalls(t: Table, u: Table, view: View)
    requires Shaped(t, |t|, |view|) && Restarted(t, u)
    ensures Shaped(u, |u|, |view|) && Reading(u, view) <= Reading(t, view)
  {
    if t != [] {
      ListedGrows(u[0], t[0], view);
      ReadingFalls(t[1..], u[1..], view);
    }
  }

  lemma {:induction false} ReadingZero(t: Table, view: View)
    requires Shaped(t, |t|, |view|)
    requires forall k, i :: 0 <= k < |t| && 0 <= i < |view| && view[i] ==> t[k][i] == 0
    ensures Reading(t, view) == 0
  {
    if t != [] {
      ListedZero(t[0], view);
      ReadingZero(t[1..], view);
    }
  }

  lemma {:induction false} ReadingAtLeast(t: Table, view: View, k: nat, i: nat)
    requires Shaped(t, |t|, |view|) && k < |t| && i < |view| && view[i]
    ensures Reading(t, view) >= t[k][i]
  {
    if k == 0 {
      ListedAtLeast(t[0], view, i);
    } else {
      ReadingAtLeast(t[1..], view, k - 1, i);
    }
  }

  lemma {:induction false} ReadingLone(t: Table, view: View, k: nat, i: nat)
    requires Shaped(t, |t|, |view|) && k < |t| && i < |view|
    requires forall l, j :: 0 <= l < |t| && 0 <= j < |view| && (l != k || j != i) && view[j] ==> t[l][j] == 0
    ensures Reading(t, view) == (if view[i] then t[k][i] else 0)
  {
    if k == 0 {
      ListedLone(t[0], view, i);
      ReadingZero(t[1..], view);
    } else {
      ListedZero(t[0], view);
      ReadingLone(t[1..], view, k - 1, i);
    }
  }

  // ---------- One counter or several ----------

  ghost predicate Cell(chains: nat, view: View, k: int, i: int) {
    0 <= k < chains && 0 <= i < |view| && view[i]
  }

  /** At most one counter is read. */
  ghost predicate OneCell(chains: nat, view: View) {
    forall k, i, l, j :: Cell(chains, view, k, i) && Cell(chains, view, l, j) ==> k == l && i == j
  }

  lemma OneCellReading(t: Table, view: View, k: nat, i: nat)
    requires Shaped(t, |t|, |view|) && OneCell(|t|, view) && Cell(|t|, view, k, i)
    ensures Reading(t, view) == t[k][i]
  {
    forall l, j | 0 <= l < |t| && 0 <= j < |view| && (l != k || j != i) ensures t[l][j] > 0 ==> !view[j] {
      assert Cell(|t|, view, l, j) == view[j];
    }
    ReadingLone(t, view, k, i);
  }

  lemma NoCellReading(t: Table, view: View)
    requires Shaped(t, |t|, |view|) && forall k, i :: !Cell(|t|, view, k, i)
    ensures Reading(t, view) == 0
  {
    forall k, i | 0 <= k < |t| && 0 <= i < |view| ensures t[k][i] > 0 ==> !view[i] {
      assert Cell(|t|, view, k, i) == view[i];
    }
    ReadingZero(t, view);
  }

  /** A reading of one counter survives a restart or goes to zero; one of several may end anywhere in between. */
  lemma OneCellRestarts(t: Table, u: Table, view: View)
    requires Shaped(t, |t|, |view|) && Restarted(t, u) && OneCell(|t|, view)
    ensures Shaped(u, |u|, |view|) && (Reading(u, view) == Reading(t, view) || Reading(u, view) == 0)
  {
    if k: nat, i: nat :| Cell(|t|, view, k, i) {
      OneCellReading(t, view, k, i);
      OneCellReading(u, view, k, i);
    } else {
      NoCellReading(u, view);
    }
  }
}
