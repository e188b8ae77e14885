/**
 The queue of status reports: the latest report of every key waits its turn,
 a batch is taken to be sent, and a batch that could not be sent is put back
 without touching what has come in since.
 */
module StatusQueue {
  import opened Subsequences
  import opened Words

  /** `serial` numbers the reports as they come in. */
  datatype Report = Report(key: string, issuedAt: int64, serial: nat)

  datatype State = State(order: seq<string>, reports: map<string, Report>, latest: map<string, int64>)

  function Latest(latest: map<string, int64>, key: string): int64 {
    if key in latest then latest[key] else 0
  }

  /** Something later has been issued for the key. */
  predicate Outdated(latest: map<string, int64>, r: Report) {
    Latest(latest, r.key) > 0 && (r.issuedAt <= 0 || r.issuedAt < Latest(latest, r.key))
  }

  // ---------- What the operations do ----------

  function Enqueued(s: State, r: Report): State {
    if Outdated(s.latest, r) then s
    else State(if r.key in s.reports then s.order else s.order + [r.key],
               s.reports[r.key := r],
               if r.issuedAt > Latest(s.latest, r.key) then s.latest[r.key := r.issuedAt] else s.latest)
  }

  function BatchSize(s: State, limit: int): nat {
    if limit <= 0 then 0 else if limit > |s.order| then |s.order| else limit
  }

  function Keys(keys: seq<string>): set<string> {
    set k | k in keys
  }

  function AfterTake(s: State, limit: int): State {
    var n := BatchSize(s, limit);
    State(s.order[n..], s.reports - Keys(s.order[..n]), s.latest)
  }

  /** The batch is that of the first keys, in their order. */
  ghost predicate IsBatch(s: State, limit: int, batch: seq<Report>) {
    && |batch| == BatchSize(s, limit)
    && forall i :: 0 <= i < |batch| ==> s.order[i] in s.reports && batch[i] == s.reports[s.order[i]]
  }

  function RestoredOne(s: State, r: Report): State {
    if Outdated(s.latest, r) || r.key in s.reports then s else s.(order := [r.key] + s.order, reports := s.reports[r.key := r])
  }

  /** Put back from the last one to the first, each in front. */
  function Restored(s: State, batch: seq<Report>): State
    decreases batch
  {
    if batch == [] then s else Restored(RestoredOne(s, batch[|batch| - 1]), batch[..|batch| - 1])
  }

  // ---------- The queue is always in order ----------

  ghost predicate Distinct(keys: seq<string>) {
    forall i, j :: 0 <= i < j < |keys| ==> keys[i] != keys[j]
  }

  /** The order lists the keys of the pending reports, each once; a report is filed under its own key. */
  ghost predicate Ordered(s: State) {
    && Distinct(s.order)
    && (forall k :: k in s.order <==> k in s.reports)
    && (forall k :: k in s.reports ==> s.reports[k].key == k)
  }

  lemma EnqueueOrdered(s: State, r: Report)
    requires Ordered(s)
    ensures Ordered(Enqueued(s, r))
  {}

  lemma TakeOrdered(s: State, limit: int)
    requires Ordered(s)
    ensures Ordered(AfterTake(s, limit))
  {
    var n := BatchSize(s, limit);
    assert s.order == s.order[..n] + s.order[n..];
  }

  lemma RestoreOneOrdered(s: State, r: Report)
    requires Ordered(s)
    ensures Ordered(RestoredOne(s, r))
  {}

  lemma {:induction false} RestoreOrdered(s: State, batch: seq<Report>)
    requires Ordered(s)
    ensures Ordered(Restored(s, batch))
    decreases batch
  {
    if batch != [] {
      RestoreOneOrdered(s, batch[|batch| - 1]);
      RestoreOrdered(RestoredOne(s, batch[|batch| - 1]), batch[..|batch| - 1]);
    }
  }

  /** Restoring displaces nothing: what is pending stays, in its order, and only batch reports are added in front. */
  lemma {:induction false} RestoreDisplacesNothing(s: State, batch: seq<Report>)
    ensures forall k :: k in s.reports ==> k in Restored(s, batch).reports && Restored(s, batch).reports[k] == s.reports[k]
    ensures forall k :: k in Restored(s, batch).reports && k !in s.reports ==> Restored(s, batch).reports[k] in batch
    ensures |Restored(s, batch).order| >= |s.order|
    ensures Restored(s, batch).order[|Restored(s, batch).order| - |s.order|..] == s.order
    ensures Restored(s, batch).latest == s.latest
    decreases batch
  {
    if batch != [] {
      var n := |batch| - 1;
      var s' := RestoredOne(s, batch[n]);
      RestoreDisplacesNothing(s', batch[..n]);
      var order := Restored(s, batch).order;
      assert order[|order| - |s'.order|..] == s'.order;
      assert order[|order| - |s.order|..] == s'.order[|s'.order| - |s.order|..];
    }
  }

  /** A batch report comes back unless something later has been issued for its key, or its key is pending. */
  lemma {:induction false} RestoreMeaning(s: State, batch: seq<Report>)
    ensures forall r :: r in batch && (r.key !in s.latest || s.latest[r.key] <= 0 || r.issuedAt >= s.latest[r.key]) ==> r.key in Restored(s, batch).reports
    ensures forall k :: k in Restored(s, batch).reports && k !in s.reports ==>
      k !in s.latest || s.latest[k] <= 0 || Restored(s, batch).reports[k].issuedAt >= s.latest[k]
    decreases batch
  {
    if batch != [] {
      var n := |batch| - 1;
      var s' := RestoredOne(s, batch[n]);
      assert batch == batch[..n] + [batch[n]];
      RestoreMeaning(s', batch[..n]);
      RestoreDisplacesNothing(s', batch[..n]);
    }
  }

  /** What comes back goes in front, in the order of the batch. */
  lemma {:induction false} RestoreInOrder(s: State, batch: seq<Report>) returns (front: seq<string>)
    ensures Restored(s, batch).order == front + s.order && Subsequence(front, BatchKeys(batch))
    decreases batch
  {
    if batch == [] {
      front := [];
    } else {
      var n := |batch| - 1;
      var key := batch[n].key;
      var ahead := RestoreInOrder(RestoredOne(s, batch[n]), batch[..n]);
      SubsequenceExtends(ahead, BatchKeys(batch[..n]), key);
      assert BatchKeys(batch) == BatchKeys(batch[..n]) + [key];
      front := if RestoredOne(s, batch[n]) == s then ahead else ahead + [key];
      assert ahead + ([key] + s.order) == ahead + [key] + s.order;
    }
  }

  ghost function BatchKeys(batch: seq<Report>): seq<string> {
    seq(|batch|, i requires 0 <= i < |batch| => batch[i].key)
  }

  // ---------- The queue ----------

  class Queue {
    var order: seq<string>
    var reports: map<string, Report>
    var latest: map<string, int64>

    constructor ()
      ensures View() == State([], map[], map[]) && Valid()
    {
      order, reports, latest := [], map[], map[];
    }

    function View(): State
      reads this
    {
      State(order, reports, latest)
    }

    ghost predicate Valid()
      reads this
    {
      Ordered(View())
    }

    method Enqueue(r: Report) returns (accepted: bool)
      requires Valid()
      modifies this
      ensures Valid() && View() == Enqueued(old(View()), r)
      ensures accepted <==> r.key !in old(latest) || old(latest)[r.key] <= 0 || r.issuedAt >= old(latest)[r.key]
      ensures !accepted ==> View() == old(View())
      ensures accepted ==>
        && reports == old(reports)[r.key := r] && order == old(order) + (if r.key in old(reports) then [] else [r.key])
        && (r.issuedAt > 0 ==> r.key in latest && latest[r.key] == r.issuedAt) && (r.issuedAt <= 0 && r.key !in old(latest) ==> latest == old(latest))
        && forall k :: k != r.key ==> Latest(latest, k) == Latest(old(latest), k)
    {
      EnqueueOrdered(View(), r);
      var latestIssuedAt := Latest(latest, r.key);
      if latestIssuedAt > 0 && (r.issuedAt <= 0 || r.issuedAt < latestIssuedAt) {
        return false;
      }
      if r.issuedAt > latestIssuedAt {
        latest := latest[r.key := r.issuedAt];
      }
      if r.key !in reports {
        order := order + [r.key];
      }
      reports := reports[r.key := r];
      return true;
    }

    method Take(limit: int) returns (batch: seq<Report>)
      requires Valid()
      modifies this
      ensures Valid() && View() == AfterTake(old(View()), limit) && IsBatch(old(View()), limit, batch)
      ensures |batch| == if limit <= 0 then 0 else if limit < |old(order)| then limit else |old(order)|
      ensures order == old(order)[|batch|..] && latest == old(latest)
      ensures forall i :: 0 <= i < |batch| ==> old(order)[i] in old(reports) && batch[i] == old(reports)[old(order)[i]]
      ensures forall k :: k in old(reports) ==> if k in old(order)[..|batch|] then k !in reports else k in reports && reports[k] == old(reports)[k]
    {
      TakeOrdered(View(), limit);
      if limit <= 0 || order == [] {
        assert order[0..] == order;
        return [];
      }
      var most := if limit > |order| then |order| else limit;
      var consumed: nat;
      batch, reports, consumed := Collect(order, reports, most);
      order := order[consumed..];
    }

    /** Puts a batch back that could not be sent. */
    method Restore(batch: seq<Report>)
      requires Valid()
      modifies this
      ensures Valid() && View() == Restored(old(View()), batch)
    {
      ghost var s := View();
      RestoreOrdered(s, batch);
      var toRestore, left := Gather(batch, s, order, reports, latest);
      toRestore := Reverse(toRestore);
      reports := left;
      order := toRestore + order;
    }
  }

  /** The batch from `index` on has been put back: these keys, last first, and these reports. */
  ghost predicate Restoring(s: State, batch: seq<Report>, index: nat, toRestore: seq<string>, reports: map<string, Report>) {
    index <= |batch| && Restored(State(Backwards(toRestore) + s.order, reports, s.latest), batch[..index]) == Restored(s, batch)
  }

  lemma RestoreStart(s: State, batch: seq<Report>)
    ensures Restoring(s, batch, |batch|, [], s.reports)
  {
    assert batch[..|batch|] == batch && Backwards([]) + s.order == s.order;
  }

  lemma RestoreNext(s: State, batch: seq<Report>, index: nat, toRestore: seq<string>, reports: map<string, Report>)
    requires 0 < index && Restoring(s, batch, index, toRestore, reports)
    ensures var r := batch[index - 1];
      if Outdated(s.latest, r) || r.key in reports then Restoring(s, batch, index - 1, toRestore, reports)
      else Restoring(s, batch, index - 1, toRestore + [r.key], reports[r.key := r])
  {
    var r := batch[index - 1];
    assert batch[..index][..index - 1] == batch[..index - 1];
    BackwardsNext(toRestore, r.key, s.order);
  }

  lemma BackwardsNext(keys: seq<string>, key: string, order: seq<string>)
    ensures Backwards(keys + [key]) + order == [key] + (Backwards(keys) + order)
  {
    assert (keys + [key])[..|keys|] == keys;
  }

  method Gather(batch: seq<Report>, ghost s: State, order: seq<string>, reports: map<string, Report>, latest: map<string, int64>)
    returns (toRestore: seq<string>, left: map<string, Report>)
    requires s == State(order, reports, latest)
    ensures Restored(s, batch) == State(Backwards(toRestore) + order, left, latest)
  {
    toRestore, left := [], reports;
    var index := |batch|;
    RestoreStart(s, batch);
    while index > 0
      invariant 0 <= index && Restoring(s, batch, index, toRestore, left)
    {
      RestoreNext(s, batch, index, toRestore, left);
      index := index - 1;
      var report := batch[index];
      if !Outdated(latest, report) && report.key !in left {
        left := left[report.key := report];
        toRestore := toRestore + [report.key];
      }
    }
  }

  /** The reports of the first n keys have been collected, and are no longer pending. */
  ghost predicate Collected(order: seq<string>, reports: map<string, Report>, n: nat, batch: seq<Report>, left: map<string, Report>) {
    && |batch| == n <= |order| && left == reports - Keys(order[..n])
    && forall i :: 0 <= i < n ==> order[i] in reports && batch[i] == reports[order[i]]
  }

  lemma CollectNext(order: seq<string>, reports: map<string, Report>, n: nat, batch: seq<Report>, left: map<string, Report>)
    requires n < |order| && Collected(order, reports, n, batch, left) && Distinct(order) && forall k :: k in order ==> k in reports
    ensures order[n] in left && Collected(order, reports, n + 1, batch + [left[order[n]]], left - {order[n]})
  {
    assert order[..n + 1] == order[..n] + [order[n]];
    assert order[n] !in order[..n];
  }

  method Collect(order: seq<string>, reports: map<string, Report>, most: nat) returns (batch: seq<Report>, left: map<string, Report>, consumed: nat)
    requires Distinct(order) && (forall k :: k in order ==> k in reports) && most <= |order|
    ensures consumed == most && Collected(order, reports, most, batch, left)
  {
    batch, left, consumed := [], reports, 0;
    while consumed < |order| && |batch| < most
      invariant consumed <= most && Collected(order, reports, consumed, batch, left)
      decreases |order| - consumed
    {
      var key := order[consumed];
      CollectNext(order, reports, consumed, batch, left);
      consumed := consumed + 1;
      if key in left {
        batch := batch + [left[key]];
        left := left - {key};
      }
    }
  }

  function Backwards(keys: seq<string>): (r: seq<string>)
    ensures |r| == |keys| && forall i :: 0 <= i < |keys| ==> r[i] == keys[|keys| - 1 - i]
  {
    if keys == [] then [] else [keys[|keys| - 1]] + Backwards(keys[..|keys| - 1])
  }

  method Reverse(keys: seq<string>) returns (r: seq<string>)
    ensures r == Backwards(keys)
  {
    r := keys;
    var i, j := 0, |keys| - 1;
    while i < j
      invariant 0 <= i && j == |keys| - 1 - i && i <= j + 1 && |r| == |keys|
      invariant forall k :: 0 <= k < i || j < k < |keys| ==> r[k] == keys[|keys| - 1 - k]
      invariant forall k :: i <= k <= j ==> r[k] == keys[k]
    {
      r := r[i := r[j]][j := r[i]];
      i, j := i + 1, j - 1;
    }
  }

  // ---------- Whole runs ----------

  datatype Step = Enqueue(key: string, issuedAt: int64) | Take(limit: int) | Sent | Failed

  /** One batch is under way at a time. `newest` is the last report accepted for a key, `delivered` what was sent. */
  datatype World = World(queue: State, flight: seq<Report>, next: nat, newest: map<string, Report>, delivered: set<Report>)

  const START: World := World(State([], map[], map[]), [], 0, map[], {})

  ghost function Batch(s: State, limit: int): seq<Report>
    requires Ordered(s)
  {
    seq(BatchSize(s, limit), i requires 0 <= i < BatchSize(s, limit) => s.reports[s.order[i]])
  }

  ghost predicate Enabled(w: World, s: Step) {
    match s
    case Enqueue(_, _) => true
    case Take(_) => w.flight == []
    case Sent => w.flight != []
    case Failed => w.flight != []
  }

  ghost function Next(w: World, s: Step): World {
    match s
    case Enqueue(key, issuedAt) =>
      var r := Report(key, issuedAt, w.next);
      if Outdated(w.queue.latest, r) then w
      else w.(queue := Enqueued(w.queue, r), next := w.next + 1, newest := w.newest[key := r])
    case Take(limit) =>
      if Ordered(w.queue) then w.(queue := AfterTake(w.queue, limit), flight := Batch(w.queue, limit)) else w
    case Sent => w.(flight := [], delivered := w.delivered + set r | r in w.flight)
    case Failed => w.(queue := Restored(w.queue, w.flight), flight := [])
  }

  ghost predicate Legal(w: World, steps: seq<Step>)
    decreases steps
  {
    steps == [] || (Enabled(w, steps[0]) && Legal(Next(w, steps[0]), steps[1..]))
  }

  ghost function Run(w: World, steps: seq<Step>): World
    decreases steps
  {
    if steps == [] then w else Run(Next(w, steps[0]), steps[1..])
  }

  /** The newest report of a key is pending, under way with nothing newer pending, or delivered. */
  ghost predicate NotLost(w: World, key: string)
    requires key in w.newest
  {
    || (key in w.queue.reports && w.queue.reports[key] == w.newest[key])
    || (key !in w.queue.reports && w.newest[key] in w.flight)
    || w.newest[key] in w.delivered
  }

  ghost predicate FlightKeysDistinct(flight: seq<Report>) {
    forall i, j :: 0 <= i < j < |flight| ==> flight[i].key != flight[j].key
  }

  ghost predicate Inv(w: World) {
    && Ordered(w.queue) && FlightKeysDistinct(w.flight)
    && (forall k :: k in w.newest ==> w.newest[k].key == k && NotLost(w, k))
    && (forall k :: k in w.queue.reports ==> k in w.newest && w.queue.reports[k] == w.newest[k])
    && (forall r :: r in w.flight ==> r.key in w.newest && (r == w.newest[r.key] || r.key in w.queue.reports))
    && (forall k :: Latest(w.queue.latest, k) == if k in w.newest && w.newest[k].issuedAt > 0 then w.newest[k].issuedAt else 0)
  }

  lemma EnqueueKeeps(w: World, key: string, issuedAt: int64)
    requires Inv(w)
    ensures Inv(Next(w, Enqueue(key, issuedAt)))
  {
    EnqueueOrdered(w.queue, Report(key, issuedAt, w.next));
  }

  lemma TakeKeeps(w: World, limit: int)
    requires Inv(w) && w.flight == []
    ensures Inv(Next(w, Take(limit)))
  {
    TakeOrdered(w.queue, limit);
    var w' := Next(w, Take(limit));
    var n := BatchSize(w.queue, limit);
    forall k | k in w.newest ensures NotLost(w', k) {
      assert NotLost(w, k);
      if k in w.queue.order[..n] {
        var i :| 0 <= i < n && w.queue.order[i] == k;
        assert w'.flight[i] == w.queue.reports[k];
      }
    }
  }

  /** In a batch a key names one report. */
  lemma SameReport(flight: seq<Report>, r: Report, other: Report)
    requires FlightKeysDistinct(flight) && r in flight && other in flight && r.key == other.key
    ensures r == other
  {}

  /** Putting back the batch restores the newest report of every key that has nothing newer pending. */
  lemma RestoreNewest(s: State, flight: seq<Report>, newest: map<string, Report>, r: Report)
    requires Ordered(s) && FlightKeysDistinct(flight) && r in flight && r.key in newest && (r == newest[r.key] || r.key in s.reports)
    requires Latest(s.latest, r.key) == if newest[r.key].issuedAt > 0 then newest[r.key].issuedAt else 0
    ensures r.key in Restored(s, flight).reports
    ensures r.key !in s.reports ==> Restored(s, flight).reports[r.key] == newest[r.key]
  {
    RestoreMeaning(s, flight);
    RestoreDisplacesNothing(s, flight);
    RestoreOrdered(s, flight);
    if r.key !in s.reports {
      SameReport(flight, r, Restored(s, flight).reports[r.key]);
    }
  }

  lemma FailedNotLost(w: World, k: string)
    requires Inv(w) && k in w.newest
    ensures NotLost(Next(w, Failed), k)
  {
    RestoreDisplacesNothing(w.queue, w.flight);
    assert NotLost(w, k);
    if k !in w.queue.reports && w.newest[k] in w.flight {
      RestoreNewest(w.queue, w.flight, w.newest, w.newest[k]);
    }
  }

  /** What a failed batch puts back is the newest of its key. */
  lemma FailedPending(w: World, k: string)
    requires Inv(w) && k in Restored(w.queue, w.flight).reports
    ensures k in w.newest && Restored(w.queue, w.flight).reports[k] == w.newest[k]
  {
    RestoreDisplacesNothing(w.queue, w.flight);
    if k !in w.queue.reports {
      RestoreOrdered(w.queue, w.flight);
      RestoreNewest(w.queue, w.flight, w.newest, Restored(w.queue, w.flight).reports[k]);
    }
  }

  lemma FailedKeeps(w: World)
    requires Inv(w)
    ensures Inv(Next(w, Failed))
  {
    RestoreOrdered(w.queue, w.flight);
    forall k | k in w.newest ensures NotLost(Next(w, Failed), k) {
      FailedNotLost(w, k);
    }
    forall k | k in Restored(w.queue, w.flight).reports ensures k in w.newest && Restored(w.queue, w.flight).reports[k] == w.newest[k] {
      FailedPending(w, k);
    }
    RestoreDisplacesNothing(w.queue, w.flight);
  }

  lemma SentKeeps(w: World)
    requires Inv(w)
    ensures Inv(Next(w, Sent))
  {
    var w' := Next(w, Sent);
    forall k | k in w.newest ensures NotLost(w', k) {
      assert NotLost(w, k);
    }
  }

  lemma StepKeeps(w: World, s: Step)
    requires Inv(w) && Enabled(w, s)
    ensures Inv(Next(w, s))
  {
    match s
    case Enqueue(key, issuedAt) => EnqueueKeeps(w, key, issuedAt);
    case Take(limit) => TakeKeeps(w, limit);
    case Sent => SentKeeps(w);
    case Failed => FailedKeeps(w);
  }

  lemma {:induction false} RunKeeps(w: World, steps: seq<Step>)
    requires Inv(w) && Legal(w, steps)
    ensures Inv(Run(w, steps))
    decreases steps
  {
    if steps != [] {
      StepKeeps(w, steps[0]);
      RunKeeps(Next(w, steps[0]), steps[1..]);
    }
  }

  /**
   Over every run: the order is a permutation of the pending keys without
   duplicates, what is pending is the newest of its key, and the newest
   accepted report of a key is pending, under way or delivered.
   */
  lemma AlwaysNewest(steps: seq<Step>)
    requires Legal(START, steps)
    ensures var w := Run(START, steps);
      && Distinct(w.queue.order) && (forall k :: k in w.queue.order <==> k in w.queue.reports)
      && (forall k :: k in w.queue.reports ==> k in w.newest && w.queue.reports[k] == w.newest[k])
      && (forall k :: k in w.newest ==> NotLost(w, k))
  {
    RunKeeps(START, steps);
  }

  lemma {:induction false} RunsJoin(w: World, first: seq<Step>, second: seq<Step>)
    requires Legal(w, first) && Legal(Run(w, first), second)
    ensures Legal(w, first + second) && Run(w, first + second) == Run(Run(w, first), second)
    decreases first
  {
    if first == [] {
      assert first + second == second;
    } else {
      assert (first + second)[1..] == first[1..] + second;
      RunsJoin(Next(w, first[0]), first[1..], second);
    }
  }

  lemma OneStep(w: World, s: Step)
    requires Enabled(w, s)
    ensures Legal(w, [s]) && Run(w, [s]) == Next(w, s)
  {
    assert [s][1..] == [];
    assert Legal(Next(w, s), []);
  }

  /** When nothing is under way, one batch of everything leaves nothing newest undelivered. */
  lemma AllSent(w: World) returns (more: seq<Step>)
    requires Inv(w) && w.flight == []
    ensures Legal(w, more) && Run(w, more).newest == w.newest
    ensures forall k :: k in w.newest ==> w.newest[k] in Run(w, more).delivered
  {
    more := [];
    if w.queue.order != [] {
      var all := Take(|w.queue.order|);
      var w1 := Next(w, all);
      OneStep(w, all);
      OneStep(w1, Sent);
      RunsJoin(w, [all], [Sent]);
      more := [all] + [Sent];
      TakeKeeps(w, |w.queue.order|);
      forall k | k in w.newest ensures w.newest[k] in Next(w1, Sent).delivered {
        assert NotLost(w1, k);
        assert w.queue.order[|w.queue.order|..] == [] && k !in w1.queue.reports;
      }
    } else {
      forall k | k in w.newest ensures w.newest[k] in w.delivered {
        assert NotLost(w, k);
      }
    }
  }

  /** From wherever a run has got to, batches that are sent deliver the newest accepted report of every key. */
  lemma DeliveredInTheEnd(steps: seq<Step>) returns (more: seq<Step>)
    requires Legal(START, steps)
    ensures Legal(START, steps + more) && Run(START, steps + more).newest == Run(START, steps).newest
    ensures forall k :: k in Run(START, steps).newest ==> Run(START, steps).newest[k] in Run(START, steps + more).delivered
  {
    RunKeeps(START, steps);
    var w := Run(START, steps);
    if w.flight == [] {
      more := AllSent(w);
    } else {
      OneStep(w, Sent);
      SentKeeps(w);
      var rest := AllSent(Next(w, Sent));
      RunsJoin(w, [Sent], rest);
      more := [Sent] + rest;
    }
    RunsJoin(START, steps, more);
  }
}
