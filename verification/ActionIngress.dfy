/**
 The bounded buffer in front of the action workers: jobs wait in order, and a
 job takes the place of the pending one with its key, unless that is newer.
 */
module ActionIngress {
  import opened Options
  import opened Words
  import opened Subsequences

  /** A job, with the key it coalesces under; jobs without a key never do. */
  datatype Job = Job(id: nat, key: string, issuedAt: int64)

  // ---------- The jobs in order ----------

  function Without(items: seq<Job>, key: string): seq<Job> {
    if items == [] then [] else if items[0].key == key then items[1..] else [items[0]] + Without(items[1..], key)
  }

  function Pending(items: seq<Job>, key: string): Option<Job> {
    if items == [] then None else if items[0].key == key then Some(items[0]) else Pending(items[1..], key)
  }

  /** The pending job of the key is newer than this one. */
  predicate Stale(items: seq<Job>, job: Job) {
    job.key != "" && job.issuedAt > 0 && Pending(items, job.key).Some? && Pending(items, job.key).value.issuedAt > job.issuedAt
  }

  function Pushed(items: seq<Job>, job: Job): seq<Job> {
    if Stale(items, job) then items
    else if job.key != "" then Without(items, job.key) + [job]
    else items + [job]
  }

  /** What a push gives back: the job itself when it is stale, else the one it replaces. */
  function Returned(items: seq<Job>, job: Job): Option<Job> {
    if Stale(items, job) then Some(job) else if job.key != "" then Pending(items, job.key) else None
  }

  /** A push has room, or a pending job of its key to meet; otherwise it waits. */
  predicate Admits(items: seq<Job>, capacity: nat, job: Job) {
    |items| < capacity || (job.key != "" && Pending(items, job.key).Some?)
  }

  /** No two pending jobs have the same key. */
  ghost predicate KeysDistinct(items: seq<Job>) {
    forall i, j :: 0 <= i < j < |items| && items[i].key != "" ==> items[i].key != items[j].key
  }

  lemma {:induction false} PendingFound(items: seq<Job>, key: string)
    ensures Pending(items, key).Some? <==> exists i :: 0 <= i < |items| && items[i].key == key
    ensures Pending(items, key).Some? ==> Pending(items, key).value in items && Pending(items, key).value.key == key
  {
    if items != [] && items[0].key != key {
      var rest := items[1..];
      PendingFound(rest, key);
      if Pending(items, key).Some? {
        var i :| 0 <= i < |rest| && rest[i].key == key;
        assert items[i + 1].key == key;
      }
      if i :| 0 <= i < |items| && items[i].key == key {
        assert rest[i - 1].key == key;
      }
    }
  }

  /** Taking the pending job of a key out takes that job out, and no other. */
  lemma {:induction false} WithoutCounts(items: seq<Job>, key: string)
    ensures match Pending(items, key)
            case None => Without(items, key) == items
            case Some(job) => multiset(items) == multiset(Without(items, key)) + multiset{job} && |Without(items, key)| == |items| - 1
    ensures forall job :: job in Without(items, key) ==> job in items
  {
    if items != [] {
      var rest := items[1..];
      assert items == [items[0]] + rest;
      if items[0].key != key {
        WithoutCounts(rest, key);
      }
    }
  }

  /** No job here has this key. */
  ghost predicate Lacks(items: seq<Job>, key: string) {
    forall job :: job in items ==> job.key != key
  }

  lemma TailDistinct(items: seq<Job>)
    requires KeysDistinct(items) && items != []
    ensures KeysDistinct(items[1..]) && (items[0].key != "" ==> Lacks(items[1..], items[0].key))
  {
    var rest := items[1..];
    forall i, j | 0 <= i < j < |rest| && rest[i].key != "" ensures rest[i].key != rest[j].key {
      assert rest[i] == items[i + 1] && rest[j] == items[j + 1];
    }
    if items[0].key != "" {
      forall job | job in rest ensures job.key != items[0].key {
        var j :| 0 <= j < |rest| && rest[j] == job;
        assert items[j + 1] == job;
      }
    }
  }

  lemma ConsDistinct(job: Job, rest: seq<Job>)
    requires KeysDistinct(rest) && (job.key != "" ==> Lacks(rest, job.key))
    ensures KeysDistinct([job] + rest)
  {
    var items := [job] + rest;
    forall i, j | 0 <= i < j < |items| && items[i].key != "" ensures items[i].key != items[j].key {
      assert items[j] == rest[j - 1] && rest[j - 1] in rest;
      if i > 0 {
        assert items[i] == rest[i - 1];
      }
    }
  }

  lemma AppendDistinct(items: seq<Job>, job: Job)
    requires KeysDistinct(items) && (job.key != "" ==> Lacks(items, job.key))
    ensures KeysDistinct(items + [job])
  {
    var items' := items + [job];
    forall i, j | 0 <= i < j < |items'| && items'[i].key != "" ensures items'[i].key != items'[j].key {
      assert items'[i] == items[i] && items[i] in items;
    }
  }

  lemma {:induction false} WithoutDistinct(items: seq<Job>, key: string)
    requires KeysDistinct(items) && key != ""
    ensures KeysDistinct(Without(items, key)) && Lacks(Without(items, key), key)
  {
    if items != [] {
      TailDistinct(items);
      if items[0].key != key {
        WithoutDistinct(items[1..], key);
        WithoutCounts(items[1..], key);
        ConsDistinct(items[0], Without(items[1..], key));
      }
    }
  }

  /** The first job of a key, and what is left without it. */
  lemma {:induction false} WithoutAt(items: seq<Job>, key: string, n: nat)
    requires n < |items| && items[n].key == key && forall i :: 0 <= i < n ==> items[i].key != key
    ensures Pending(items, key) == Some(items[n]) && Without(items, key) == items[..n] + items[n + 1..]
  {
    if n > 0 {
      WithoutAt(items[1..], key, n - 1);
      assert items[..n] + items[n + 1..] == [items[0]] + (items[1..][..n - 1] + items[1..][n..]);
    }
  }

  /**
   What a push does: a job older than the pending one of its key comes back,
   any other goes to the end, and the pending one of its key comes back.
   */
  lemma PushMeaning(items: seq<Job>, job: Job)
    requires KeysDistinct(items)
    ensures forall n :: 0 <= n < |items| && items[n].key == job.key != "" ==>
      if job.issuedAt > 0 && items[n].issuedAt > job.issuedAt then Pushed(items, job) == items && Returned(items, job) == Some(job)
      else Pushed(items, job) == items[..n] + items[n + 1..] + [job] && Returned(items, job) == Some(items[n])
    ensures job.key == "" || (forall n :: 0 <= n < |items| ==> items[n].key != job.key) ==>
      Pushed(items, job) == items + [job] && Returned(items, job) == None
    ensures forall capacity: nat :: Admits(items, capacity, job) <==>
      |items| < capacity || (job.key != "" && exists n :: 0 <= n < |items| && items[n].key == job.key)
  {
    PendingFound(items, job.key);
    WithoutCounts(items, job.key);
    forall n | 0 <= n < |items| && items[n].key == job.key != ""
      ensures Pending(items, job.key) == Some(items[n]) && Without(items, job.key) == items[..n] + items[n + 1..]
    {
      WithoutAt(items, job.key, n);
    }
  }

  // ---------- The buffer ----------

  /** The index holds exactly the pending jobs that have a key. */
  ghost predicate Indexed(items: seq<Job>, byKey: map<string, Job>) {
    && "" !in byKey
    && forall key :: key != "" ==> (if key in byKey then Some(byKey[key]) else None) == Pending(items, key)
  }

  class Buffer {
    var items: seq<Job>
    var byKey: map<string, Job>
    const capacity: nat

    ghost predicate Valid()
      reads this
    {
      |items| <= capacity && KeysDistinct(items) && Indexed(items, byKey)
    }

    constructor (capacity: nat)
      ensures Valid() && items == [] && this.capacity == capacity
    {
      this.capacity, items, byKey := capacity, [], map[];
    }

    method Push(job: Job) returns (depth: nat, replaced: Option<Job>)
      requires Valid() && Admits(items, capacity, job)
      modifies this
      ensures Valid() && items == Pushed(old(items), job) && replaced == Returned(old(items), job) && depth == |items|
    {
      replaced := None;
      PushedOk(items, byKey, capacity, job);
      if job.key != "" && job.key in byKey {
        var current := byKey[job.key];
        if job.issuedAt > 0 && current.issuedAt > job.issuedAt {
          return |items|, Some(job);
        }
        items := Without(items, job.key);
        replaced := Some(current);
      }
      items := items + [job];
      if job.key != "" {
        byKey := byKey[job.key := job];
      }
      depth := |items|;
    }

    method Pop() returns (job: Option<Job>)
      requires Valid()
      modifies this
      ensures Valid()
      ensures if old(items) == [] then job == None && items == [] else job == Some(old(items)[0]) && items == old(items)[1..]
    {
      if items == [] {
        return None;
      }
      var item := items[0];
      PoppedOk(items, byKey);
      items := items[1..];
      if item.key != "" {
        byKey := byKey - {item.key};
      }
      return Some(item);
    }

    method Reset() returns (drained: seq<Job>)
      requires Valid()
      modifies this
      ensures Valid() && items == [] && drained == old(items)
    {
      drained := items;
      items, byKey := [], map[];
    }
  }

  lemma {:induction false} PendingAppend(items: seq<Job>, job: Job, key: string)
    ensures Pending(items + [job], key) == if Pending(items, key).Some? then Pending(items, key) else if job.key == key then Some(job) else None
  {
    if items != [] {
      assert (items + [job])[1..] == items[1..] + [job];
      PendingAppend(items[1..], job, key);
    }
  }

  lemma {:induction false} PendingWithout(items: seq<Job>, key: string, other: string)
    requires KeysDistinct(items) && key != ""
    ensures Pending(Without(items, key), other) == if other == key then None else Pending(items, other)
  {
    if other == key {
      WithoutDistinct(items, key);
      PendingFound(Without(items, key), key);
    } else {
      PendingOther(items, key, other);
    }
  }

  lemma {:induction false} PendingOther(items: seq<Job>, key: string, other: string)
    requires other != key
    ensures Pending(Without(items, key), other) == Pending(items, other)
  {
    if items != [] && items[0].key != key {
      PendingOther(items[1..], key, other);
    }
  }

  lemma PushedOk(items: seq<Job>, byKey: map<string, Job>, capacity: nat, job: Job)
    requires |items| <= capacity && KeysDistinct(items) && Indexed(items, byKey) && Admits(items, capacity, job)
    ensures |Pushed(items, job)| <= capacity && KeysDistinct(Pushed(items, job))
    ensures Indexed(Pushed(items, job), if job.key == "" || Stale(items, job) then byKey else byKey[job.key := job])
    ensures job.key != "" && job.key !in byKey ==> Without(items, job.key) == items
  {
    WithoutCounts(items, job.key);
    PendingFound(items, job.key);
    if !Stale(items, job) && job.key != "" {
      var left := Without(items, job.key);
      WithoutDistinct(items, job.key);
      AppendDistinct(left, job);
      forall key | key != "" ensures Pending(left + [job], key) == if key == job.key then Some(job) else Pending(items, key) {
        PendingAppend(left, job, key);
        PendingWithout(items, job.key, key);
      }
    } else if job.key == "" {
      AppendDistinct(items, job);
      forall key | key != "" ensures Pending(items + [job], key) == Pending(items, key) {
        PendingAppend(items, job, key);
      }
    }
  }

  lemma PoppedOk(items: seq<Job>, byKey: map<string, Job>)
    requires items != [] && KeysDistinct(items) && Indexed(items, byKey)
    ensures KeysDistinct(items[1..]) && Indexed(items[1..], if items[0].key == "" then byKey else byKey - {items[0].key})
  {
    var key := items[0].key;
    TailDistinct(items);
    if key != "" {
      forall other | other != "" ensures Pending(items[1..], other) == if other == key then None else Pending(items, other) {
        PendingWithout(items, key, other);
      }
    }
  }

  // ---------- Whole runs ----------

  datatype Step = Push(job: Job) | Pop | Reset

  /**
   What was pushed and what has left, popped, returned or drained; and for
   every key the times issued of what was pushed since the key last left.
   */
  datatype World = World(items: seq<Job>, pushed: multiset<Job>, left: multiset<Job>, recent: map<string, set<int64>>)

  const START: World := World([], multiset{}, multiset{}, map[])

  function Times(recent: map<string, set<int64>>, key: string): set<int64> {
    if key in recent then recent[key] else {}
  }

  ghost function OneOrNone(job: Option<Job>): multiset<Job> {
    if job.Some? then multiset{job.value} else multiset{}
  }

  ghost predicate Enabled(w: World, s: Step, capacity: nat) {
    s.Push? ==> Admits(w.items, capacity, s.job)
  }

  ghost function Next(w: World, s: Step): World {
    match s
    case Push(job) =>
      World(Pushed(w.items, job), w.pushed + multiset{job}, w.left + OneOrNone(Returned(w.items, job)),
            w.recent[job.key := Times(w.recent, job.key) + {job.issuedAt}])
    case Pop =>
      if w.items == [] then w
      else World(w.items[1..], w.pushed, w.left + multiset{w.items[0]}, w.recent - {w.items[0].key})
    case Reset => World([], w.pushed, w.left + multiset(w.items), map[])
  }

  ghost predicate Legal(w: World, steps: seq<Step>, capacity: nat)
    decreases steps
  {
    steps == [] || (Enabled(w, steps[0], capacity) && Legal(Next(w, steps[0]), steps[1..], capacity))
  }

  ghost function Run(w: World, steps: seq<Step>): World
    decreases steps
  {
    if steps == [] then w else Run(Next(w, steps[0]), steps[1..])
  }

  /** Every pushed job has left once, or is pending. */
  ghost predicate Conserved(w: World) {
    w.pushed == multiset(w.items) + w.left
  }

  ghost predicate Bounded(w: World, capacity: nat) {
    |w.items| <= capacity && KeysDistinct(w.items)
  }

  lemma PushConserves(items: seq<Job>, job: Job)
    ensures multiset(items) + multiset{job} == multiset(Pushed(items, job)) + OneOrNone(Returned(items, job))
  {
    WithoutCounts(items, job.key);
    if !Stale(items, job) {
      var left := if job.key != "" then Without(items, job.key) else items;
      assert multiset(left + [job]) == multiset(left) + multiset{job};
    }
  }

  lemma Regroup(items: multiset<Job>, left: multiset<Job>, more: multiset<Job>, items': multiset<Job>, returned: multiset<Job>)
    requires items + more == items' + returned
    ensures items + left + more == items' + (left + returned)
  {
    assert items + left + more == (items + more) + left;
    assert (items' + returned) + left == items' + (left + returned);
  }

  lemma PushConserved(w: World, job: Job)
    requires Conserved(w)
    ensures Conserved(Next(w, Push(job)))
  {
    PushConserves(w.items, job);
    Regroup(multiset(w.items), w.left, multiset{job}, multiset(Pushed(w.items, job)), OneOrNone(Returned(w.items, job)));
  }

  lemma PopConserved(w: World)
    requires Conserved(w)
    ensures Conserved(Next(w, Pop))
  {
    if w.items != [] {
      assert w.items == [w.items[0]] + w.items[1..];
      assert multiset(w.items) == multiset{w.items[0]} + multiset(w.items[1..]);
    }
  }

  lemma ResetConserved(w: World)
    requires Conserved(w)
    ensures Conserved(Next(w, Reset))
  {
    assert multiset(Next(w, Reset).items) == multiset{};
  }

  lemma ConservedNext(w: World, s: Step)
    requires Conserved(w)
    ensures Conserved(Next(w, s))
  {
    match s
    case Push(job) => PushConserved(w, job);
    case Pop => PopConserved(w);
    case Reset => ResetConserved(w);
  }

  lemma PushBounded(items: seq<Job>, job: Job, capacity: nat)
    requires |items| <= capacity && KeysDistinct(items) && Admits(items, capacity, job)
    ensures |Pushed(items, job)| <= capacity && KeysDistinct(Pushed(items, job))
  {
    WithoutCounts(items, job.key);
    if job.key != "" {
      WithoutDistinct(items, job.key);
      AppendDistinct(Without(items, job.key), job);
    } else {
      AppendDistinct(items, job);
    }
  }

  lemma BoundedNext(w: World, s: Step, capacity: nat)
    requires Bounded(w, capacity) && Enabled(w, s, capacity)
    ensures Bounded(Next(w, s), capacity)
  {
    match s
    case Push(job) => PushBounded(w.items, job, capacity);
    case Pop =>
      if w.items != [] {
        TailDistinct(w.items);
      }
    case Reset =>
  }

  lemma {:induction false} RunConserved(w: World, steps: seq<Step>, capacity: nat)
    requires Conserved(w) && Bounded(w, capacity) && Legal(w, steps, capacity)
    ensures Conserved(Run(w, steps)) && Bounded(Run(w, steps), capacity)
    decreases steps
  {
    if steps != [] {
      ConservedNext(w, steps[0]);
      BoundedNext(w, steps[0], capacity);
      RunConserved(Next(w, steps[0]), steps[1..], capacity);
    }
  }

  /** Over every run from the empty buffer: it is bounded, and every pushed job leaves exactly once or is pending. */
  lemma AlwaysConserved(steps: seq<Step>, capacity: nat)
    requires Legal(START, steps, capacity)
    ensures var w := Run(START, steps);
      w.pushed == multiset(w.items) + w.left && |w.items| <= capacity && KeysDistinct(w.items)
  {
    RunConserved(START, steps, capacity);
  }

  // ---------- In the order they came ----------

  /** The jobs popped in a run, in order. */
  ghost function Popped(w: World, steps: seq<Step>): seq<Job>
    decreases steps
  {
    if steps == [] then []
    else (if steps[0].Pop? && w.items != [] then [w.items[0]] else []) + Popped(Next(w, steps[0]), steps[1..])
  }

  /** The jobs pushed in a run, in order. */
  ghost function Arrivals(steps: seq<Step>): seq<Job>
    decreases steps
  {
    if steps == [] then [] else (if steps[0].Push? then [steps[0].job] else []) + Arrivals(steps[1..])
  }

  lemma Associative(a: seq<Job>, b: seq<Job>, c: seq<Job>)
    ensures a + b + c == a + (b + c)
  {}

  lemma {:induction false} WithoutInOrder(front: seq<Job>, items: seq<Job>, key: string, ys: seq<Job>)
    requires Subsequence(front + items, ys)
    ensures Subsequence(front + Without(items, key), ys)
    decreases items
  {
    if items != [] {
      var head, rest := [items[0]], items[1..];
      assert items == head + rest;
      Associative(front, head, rest);
      if items[0].key == key {
        SubsequenceSkips(front, items[0], rest, ys);
      } else {
        WithoutInOrder(front + head, rest, key, ys);
        Associative(front, head, Without(rest, key));
      }
    }
  }

  lemma PushInOrder(items: seq<Job>, job: Job, out: seq<Job>, arrived: seq<Job>)
    requires Subsequence(out + items, arrived)
    ensures Subsequence(out + Pushed(items, job), arrived + [job])
  {
    if Stale(items, job) {
      SubsequenceExtends(out + items, arrived, job);
    } else {
      var left := if job.key != "" then Without(items, job.key) else items;
      WithoutInOrder(out, items, job.key, arrived);
      SubsequenceExtends(out + left, arrived, job);
      Associative(out, left, [job]);
    }
  }

  /** After one step, what has been popped and what is pending is still in the order of arrival. */
  lemma StepInOrder(w: World, s: Step, out: seq<Job>, arrived: seq<Job>)
    requires Subsequence(out + w.items, arrived)
    ensures Subsequence(out + (if s.Pop? && w.items != [] then [w.items[0]] else []) + Next(w, s).items, arrived + if s.Push? then [s.job] else [])
  {
    assert out + [] == out && arrived + [] == arrived;
    match s
    case Push(job) => PushInOrder(w.items, job, out, arrived);
    case Pop =>
      if w.items != [] {
        assert w.items == [w.items[0]] + w.items[1..];
        Associative(out, [w.items[0]], w.items[1..]);
      }
    case Reset =>
      SubsequenceDrops(out, w.items, |w.items|, arrived);
      assert w.items[|w.items|..] == [];
  }

  lemma {:induction false} RunInOrder(w: World, steps: seq<Step>, out: seq<Job>, arrived: seq<Job>)
    requires Subsequence(out + w.items, arrived)
    ensures Subsequence(out + Popped(w, steps) + Run(w, steps).items, arrived + Arrivals(steps))
    decreases steps
  {
    if steps == [] {
      assert out + [] == out && arrived + [] == arrived;
    } else {
      var left := if steps[0].Pop? && w.items != [] then [w.items[0]] else [];
      var come := if steps[0].Push? then [steps[0].job] else [];
      StepInOrder(w, steps[0], out, arrived);
      RunInOrder(Next(w, steps[0]), steps[1..], out + left, arrived + come);
      Associative(out, left, Popped(Next(w, steps[0]), steps[1..]));
      Associative(arrived, come, Arrivals(steps[1..]));
    }
  }

  /** Jobs are popped in the order they were pushed; replacing and draining only leave some out. */
  lemma PoppedInOrder(steps: seq<Step>)
    ensures Subsequence(Popped(START, steps) + Run(START, steps).items, Arrivals(steps))
  {
    RunInOrder(START, steps, [], []);
    assert [] + Popped(START, steps) == Popped(START, steps) && [] + Arrivals(steps) == Arrivals(steps);
  }

  /** A key with recent pushes is pending, with the latest time of them. */
  ghost predicate LatestAt(w: World, key: string) {
    Times(w.recent, key) != {} ==>
      var job := Pending(w.items, key);
      job.Some? && job.value.issuedAt in Times(w.recent, key) && forall t :: t in Times(w.recent, key) ==> t <= job.value.issuedAt
  }

  lemma LatestPushed(w: World, job: Job, key: string)
    requires KeysDistinct(w.items) && LatestAt(w, key) && key != "" && job.issuedAt > 0
    requires Times(w.recent, key) == {} <==> Pending(w.items, key).None?
    ensures LatestAt(Next(w, Push(job)), key)
    ensures Times(Next(w, Push(job)).recent, key) == {} <==> Pending(Next(w, Push(job)).items, key).None?
  {
    if job.key == "" {
      PendingAppend(w.items, job, key);
    } else {
      PendingAppend(Without(w.items, job.key), job, key);
      PendingWithout(w.items, job.key, key);
    }
  }

  lemma LatestNext(w: World, s: Step, capacity: nat, key: string)
    requires Bounded(w, capacity) && Enabled(w, s, capacity) && LatestAt(w, key) && key != ""
    requires s.Push? ==> s.job.issuedAt > 0
    requires forall k :: k != "" ==> (Times(w.recent, k) == {} <==> Pending(w.items, k).None?)
    ensures LatestAt(Next(w, s), key)
    ensures Times(Next(w, s).recent, key) == {} <==> Pending(Next(w, s).items, key).None?
  {
    match s
    case Push(job) => LatestPushed(w, job, key);
    case Pop =>
      if w.items != [] {
        if w.items[0].key != "" {
          PendingWithout(w.items, w.items[0].key, key);
        }
      }
    case Reset =>
  }

  ghost predicate TimesPositive(steps: seq<Step>) {
    forall i :: 0 <= i < |steps| && steps[i].Push? ==> steps[i].job.issuedAt > 0
  }

  ghost predicate AllLatest(w: World) {
    forall key :: key != "" ==> LatestAt(w, key) && (Times(w.recent, key) == {} <==> Pending(w.items, key).None?)
  }

  lemma {:induction false} RunLatest(w: World, steps: seq<Step>, capacity: nat)
    requires Bounded(w, capacity) && AllLatest(w) && Legal(w, steps, capacity) && TimesPositive(steps)
    ensures AllLatest(Run(w, steps))
    decreases steps
  {
    if steps != [] {
      BoundedNext(w, steps[0], capacity);
      forall key | key != ""
        ensures LatestAt(Next(w, steps[0]), key) && (Times(Next(w, steps[0]).recent, key) == {} <==> Pending(Next(w, steps[0]).items, key).None?)
      {
        LatestNext(w, steps[0], capacity, key);
      }
      RunLatest(Next(w, steps[0]), steps[1..], capacity);
    }
  }

  /** With positive times, the pending job of a key is the latest one pushed since the key last left. */
  lemma AlwaysLatest(steps: seq<Step>, capacity: nat)
    requires Legal(START, steps, capacity) && TimesPositive(steps)
    ensures AllLatest(Run(START, steps))
  {
    RunLatest(START, steps, capacity);
  }
}
