/**
 What one whole cycle of the ledger credits: a sample, its report, the panel's
 count and answer, the commit and the removal, over a baseline on file.
 */
module LedgerCycles {
  import opened Options
  import opened Reports
  import opened CounterReadings
  import opened AgentLedger
  import opened AgentConservation

  ghost function CycleReport(w: World, source: string, view: View, id: string): Report<Option<Entry>>
    requires source in w.counters && Sized(w.counters[source], |w.counters[source].ins|, |view|)
  {
    Report(id, SampledEntry(w.store, AgentConservation.Sampled(w, source, view, 0, ""), 0, Disk(true, true)))
  }

  ghost function Cycle(w: World, source: string, view: View, id: string): seq<Step>
    requires source in w.counters && Sized(w.counters[source], |w.counters[source].ins|, |view|)
  {
    [Sampling(source, view, Some(id)), Post, Receive(CycleReport(w, source, view, id)), Reply, Commit(true), Remove]
  }

  /** Nothing is under way, and the port has this baseline on file, with nothing else in the cache. */
  ghost predicate Resting(policy: Policy, w: World, b: Baseline) {
    Books(policy, w) && w.pending.None? && w.phase.Idle? && w.store.file == Some(b) && (w.store.cache.None? || w.store.cache == Some(b))
  }

  /** Runs one after the other. */
  lemma {:induction false} RunsJoin(policy: Policy, w: World, first: seq<Step>, second: seq<Step>)
    requires Legal(policy, w, first) && Legal(policy, Run(w, first), second)
    ensures Legal(policy, w, first + second) && Run(w, first + second) == Run(Run(w, first), second)
    decreases first
  {
    if first == [] {
      assert first + second == second;
    } else {
      assert (first + second)[1..] == first[1..] + second;
      RunsJoin(policy, Next(w, first[0]), first[1..], second);
    }
  }

  lemma CycleArrives(policy: Policy, w: World, source: string, view: View, id: string, b: Baseline)
    requires Resting(policy, w, b) && Sampleable(policy, w.counters, source, view) && id !in w.channel.used
    ensures var report, steps := CycleReport(w, source, view, id), [Sampling(source, view, Some(id)), Post, Receive(CycleReport(w, source, view, id))];
      && Legal(policy, w, steps)
      && Run(w, steps).credited == Plus(w.credited, BytesOf(report.body)) && Run(w, steps).passed == w.passed
      && Run(w, steps).store == SampledStore(w.store, AgentConservation.Sampled(w, source, view, 0, ""), 0, Disk(true, true))
      && Run(w, steps).pending == Some(report) && Run(w, steps).phase.Posting? && InDoubt(Run(w, steps).pending, Run(w, steps).channel)
  {
    var report := CycleReport(w, source, view, id);
    var w1 := Next(w, Sampling(source, view, Some(id)));
    assert w1.pending == Some(report) && w1.phase.Idle? && w1.credited == w.credited;
    assert id !in w1.channel.seen by { assert w.channel.seen <= w.channel.used; }
    var w2 := Next(w1, Post);
    assert Legal(policy, Next(w2, Receive(report)), []);
    StepAhead(policy, w2, Receive(report), []);
    StepAhead(policy, w1, Post, [Receive(report)]);
    StepAhead(policy, w, Sampling(source, view, Some(id)), [Post, Receive(report)]);
  }

  lemma CycleSettles(policy: Policy, w: World)
    requires w.phase.Posting? && InDoubt(w.pending, w.channel)
    ensures var steps, line := [Reply, Commit(true), Remove], w.pending.value.body;
      && Legal(policy, w, steps) && Run(w, steps).credited == w.credited && Run(w, steps).passed == w.passed && Run(w, steps).pending.None? && Run(w, steps).phase.Idle?
      && Run(w, steps).store == if line.Some? then AfterWrite(w.store, line.value.baseline, true) else w.store
  {
    var w1 := Next(w, Reply);
    var w2 := Next(w1, Commit(true));
    assert Legal(policy, Next(w2, Remove), []);
    StepAhead(policy, w2, Remove, []);
    StepAhead(policy, w1, Commit(true), [Remove]);
    StepAhead(policy, w, Reply, [Commit(true), Remove]);
  }

  lemma CycleRuns(policy: Policy, w: World, source: string, view: View, id: string, b: Baseline)
    requires Resting(policy, w, b) && Sampleable(policy, w.counters, source, view) && id !in w.channel.used
    ensures var next := AgentConservation.Sampled(w, source, view, 0, "");
      && Legal(policy, w, Cycle(w, source, view, id))
      && Run(w, Cycle(w, source, view, id)).credited == Plus(w.credited, ByteDeltas(b, next))
      && Run(w, Cycle(w, source, view, id)).passed == w.passed
      && Run(w, Cycle(w, source, view, id)).store == Store(Some(next), Some(next))
      && Run(w, Cycle(w, source, view, id)).pending.None? && Run(w, Cycle(w, source, view, id)).phase.Idle?
  {
    var first := [Sampling(source, view, Some(id)), Post, Receive(CycleReport(w, source, view, id))];
    CycleArrives(policy, w, source, view, id, b);
    CycleSettles(policy, Run(w, first));
    RunsJoin(policy, w, first, [Reply, Commit(true), Remove]);
    assert Cycle(w, source, view, id) == first + [Reply, Commit(true), Remove];
    SampledWhole(w.store, b, AgentConservation.Sampled(w, source, view, 0, ""));
  }

  lemma SampledWhole(s: Store, b: Baseline, next: Baseline)
    requires s.file == Some(b) && (s.cache.None? || s.cache == Some(b))
    ensures var entry, s' := SampledEntry(s, next, 0, Disk(true, true)), SampledStore(s, next, 0, Disk(true, true));
      && BytesOf(entry) == ByteDeltas(b, next)
      && (if entry.Some? then AfterWrite(s', entry.value.baseline, true) else s') == Store(Some(next), Some(next))
  {
    assert Previous(s, true) == b;
  }

  /**
   A cycle credits, in each direction, what the counter shows more than the
   baseline, or all it shows when that is less. It credits nothing over a
   baseline of another source, and nothing from a native runtime that has
   started again. The sample is the new baseline, on file and in the cache.
   */
  lemma CycleCredits(policy: Policy, w: World, source: string, view: View, id: string, b: Baseline)
    requires ValidPolicy(policy) && Resting(policy, w, b) && Sampleable(policy, w.counters, source, view) && id !in w.channel.used
    ensures Legal(policy, w, Cycle(w, source, view, id))
    ensures
      var now, epoch, after := Read(w.counters[source], view), w.counters[source].epoch, Run(w, Cycle(w, source, view, id));
      var native := source == "gost-native-v1" || source == "guard-native-v1";
      && Resting(policy, after, Baseline(w.rule, now, 0, "", source, epoch))
      && (b.source != source ==> after.credited == w.credited)
      && (b.source == source && native && (b.epoch != epoch || now.bytesIn < b.bytes.bytesIn || now.bytesOut < b.bytes.bytesOut) ==>
            after.credited == w.credited)
      && (b.source == source && !(native && (b.epoch != epoch || now.bytesIn < b.bytes.bytesIn || now.bytesOut < b.bytes.bytesOut)) ==>
            && after.credited.bytesIn == w.credited.bytesIn + (if now.bytesIn < b.bytes.bytesIn then now.bytesIn else now.bytesIn - b.bytes.bytesIn)
            && after.credited.bytesOut == w.credited.bytesOut + (if now.bytesOut < b.bytes.bytesOut then now.bytesOut else now.bytesOut - b.bytes.bytesOut))
  {
    CycleRuns(policy, w, source, view, id, b);
    CycleBooks(policy, w, Cycle(w, source, view, id));
  }

  lemma {:induction false} CycleBooks(policy: Policy, w: World, steps: seq<Step>)
    requires ValidPolicy(policy) && Books(policy, w) && Legal(policy, w, steps)
    ensures Books(policy, Run(w, steps))
    decreases steps
  {
    if steps != [] {
      BooksKept(policy, w, steps[0]);
      CycleBooks(policy, Next(w, steps[0]), steps[1..]);
    }
  }

  /**
   A source of a kernel starts again as a whole, traffic passes that it shows,
   and a cycle follows. When it has not yet reached the old baseline, exactly
   what has passed is credited.
   */
  lemma RestartThenCycle(policy: Policy, w: World, source: string, view: View, id: string, b: Baseline, counter: Counter, amount: Bytes, counters: Counters)
    returns (steps: seq<Step>)
    requires ValidPolicy(policy) && Resting(policy, w, b) && b.source == source && !IsNative(source) && id !in w.channel.used
    requires source in policy && view in policy[source].views && CounterCleared(counter) && Enabled(policy, w, Restart(source, counter))
    requires CountersGrow(w.counters[source := counter], counters, amount) && Read(counters[source], view) == amount
    requires amount.bytesIn < b.bytes.bytesIn && amount.bytesOut < b.bytes.bytesOut
    ensures Legal(policy, w, steps) && Run(w, steps).passed == Plus(w.passed, amount) && Run(w, steps).credited == Plus(w.credited, amount)
  {
    var w1 := Next(w, Restart(source, counter));
    var w2 := Next(w1, Pass(amount, counters));
    RestartRests(policy, w, source, b, counter);
    PassRests(policy, w1, b, amount, counters);
    assert Sized(counters[source], policy[source].chains, policy[source].columns);
    LowCycle(policy, w2, source, view, id, b);
    var cycle := Cycle(w2, source, view, id);
    StepAhead(policy, w1, Pass(amount, counters), cycle);
    StepAhead(policy, w, Restart(source, counter), [Pass(amount, counters)] + cycle);
    steps := [Restart(source, counter)] + ([Pass(amount, counters)] + cycle);
  }

  lemma RestartRests(policy: Policy, w: World, source: string, b: Baseline, counter: Counter)
    requires ValidPolicy(policy) && Resting(policy, w, b) && Enabled(policy, w, Restart(source, counter))
    ensures Resting(policy, Next(w, Restart(source, counter)), b)
  {
    BooksKept(policy, w, Restart(source, counter));
  }

  lemma PassRests(policy: Policy, w: World, b: Baseline, amount: Bytes, counters: Counters)
    requires ValidPolicy(policy) && Resting(policy, w, b) && CountersGrow(w.counters, counters, amount)
    ensures Resting(policy, Next(w, Pass(amount, counters)), b) && Fitting(policy, counters)
  {
    BooksKept(policy, w, Pass(amount, counters));
  }

  /** A kernel source that shows less than the baseline is credited whole. */
  lemma LowCycle(policy: Policy, w: World, source: string, view: View, id: string, b: Baseline)
    requires ValidPolicy(policy) && Resting(policy, w, b) && Sampleable(policy, w.counters, source, view) && id !in w.channel.used
    requires b.source == source && !IsNative(source)
    requires Read(w.counters[source], view).bytesIn < b.bytes.bytesIn && Read(w.counters[source], view).bytesOut < b.bytes.bytesOut
    ensures Legal(policy, w, Cycle(w, source, view, id))
    ensures Run(w, Cycle(w, source, view, id)).credited == Plus(w.credited, Read(w.counters[source], view))
    ensures Run(w, Cycle(w, source, view, id)).passed == w.passed
  {
    CycleRuns(policy, w, source, view, id, b);
  }
}
