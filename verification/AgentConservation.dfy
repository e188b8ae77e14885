/**
 Conservation of an agent's bytes over whole runs, for one port with a fixed
 rule: traffic, listings that fail, counters that start again, source and epoch
 changes, failed writes, lost, late and repeated reports, and crashes between
 any two steps.
 */
module AgentConservation {
  import opened Options
  import opened Reports
  import opened AgentLedger
  import opened CounterReadings

  /** The kernel or runtime counters of a source; the epoch of a runtime changes when it starts again. */
  datatype Counter = Counter(ins: Table, outs: Table, epoch: string)

  type Counters = map<string, Counter>

  /**
   How a source is read: the size of its tables, the views of them a sample may
   be taken with, and whether single counters of it can start again. A port is
   skipped when the listings at hand leave it without a view.
   */
  datatype Family = Family(chains: nat, columns: nat, views: set<View>, separate: bool)

  type Policy = map<string, Family>

  ghost predicate ValidPolicy(policy: Policy) {
    forall s :: s in policy ==> s != "" && policy[s].chains > 0 && forall v :: v in policy[s].views ==> |v| == policy[s].columns
  }

  ghost predicate SameViews(f: Family) {
    forall u, v :: u in f.views && v in f.views ==> u == v
  }

  ghost predicate ReadsOneCell(f: Family) {
    forall v :: v in f.views ==> OneCell(f.chains, v)
  }

  /** Samples of a source always read the same columns, and a single one where single counters start again unnoticed. */
  ghost predicate Guarded(policy: Policy) {
    forall s :: s in policy ==> SameViews(policy[s]) && (policy[s].separate && !IsNative(s) ==> ReadsOneCell(policy[s]))
  }

  ghost predicate Sized(c: Counter, chains: nat, columns: nat) {
    Shaped(c.ins, chains, columns) && Shaped(c.outs, chains, columns)
  }

  ghost predicate Fitting(policy: Policy, counters: Counters) {
    && counters.Keys == policy.Keys
    && forall s :: s in policy ==> Sized(counters[s], policy[s].chains, policy[s].columns)
  }

  ghost function Read(c: Counter, view: View): Bytes
    requires Sized(c, |c.ins|, |view|)
  {
    Bytes(Reading(c.ins, view), Reading(c.outs, view))
  }

  datatype Phase = Idle | Posting | Confirmed | Committed

  /**
   `passed` is all that has gone through the port and `credited` what the
   panel has counted. The marks are history: what had passed when the
   baseline on file, and that of the pending report, were sampled.
   */
  datatype World = World(rule: int, store: Store, pending: Option<Report<Option<Entry>>>, phase: Phase,
                         channel: Channel<Option<Entry>>, counters: Counters,
                         passed: Bytes, credited: Bytes, fileMark: Bytes, pendingMark: Bytes)

  ghost predicate Fresh(policy: Policy, w: World) {
    && w.rule > 0 && w.store == Store(None, None) && w.pending == None && w.phase == Idle && Fitting(policy, w.counters)
    && w.channel == Channel({}, {}, {}) && w.credited == ZERO && w.fileMark == ZERO && w.pendingMark == ZERO
  }

  datatype Step =
    | Pass(amount: Bytes, counters: Counters)
    | Restart(source: string, counter: Counter)
    | Collect(source: string, view: View, conns: nat, connSource: string, connDelta: nat, disk: Disk, save: Option<string>)
    | Skip(save: Option<string>)
    | Post
    | Receive(report: Report<Option<Entry>>)
    | Fail
    | Reply
    | Commit(written: bool)
    | Remove
    | Crash

  /** What passes is counted in one column of each chain, or missed. */
  ghost predicate CountersGrow(before: Counters, after: Counters, amount: Bytes) {
    && before.Keys == after.Keys
    && forall s :: s in before ==>
         && Grows(before[s].ins, after[s].ins, amount.bytesIn) && Grows(before[s].outs, after[s].outs, amount.bytesOut)
         && after[s].epoch == before[s].epoch
  }

  /** All counters of a source start again, with any epoch, or some of them where that can happen. */
  ghost predicate CounterRestarts(f: Family, before: Counter, after: Counter) {
    && Sized(after, f.chains, f.columns)
    && if f.separate then Restarted(before.ins, after.ins) && Restarted(before.outs, after.outs) && (after.epoch == before.epoch || CounterCleared(after))
       else CounterCleared(after)
  }

  ghost predicate CounterCleared(c: Counter) {
    Cleared(c.ins) && Cleared(c.outs)
  }

  ghost predicate Sampleable(policy: Policy, counters: Counters, source: string, view: View) {
    source in policy && source in counters && view in policy[source].views && Sized(counters[source], |counters[source].ins|, |view|)
  }

  ghost function Sampled(w: World, source: string, view: View, conns: nat, connSource: string): Baseline
    requires source in w.counters && Sized(w.counters[source], |w.counters[source].ins|, |view|)
  {
    Baseline(w.rule, Read(w.counters[source], view), conns, connSource, source, w.counters[source].epoch)
  }

  ghost predicate MaySave(w: World, save: Option<string>) {
    w.pending.None? && w.phase.Idle? && (save.Some? ==> save.value !in w.channel.used)
  }

  ghost predicate Enabled(policy: Policy, w: World, s: Step) {
    match s
    case Pass(amount, counters) => CountersGrow(w.counters, counters, amount)
    case Restart(source, counter) => source in policy && source in w.counters && CounterRestarts(policy[source], w.counters[source], counter)
    case Collect(source, view, _, _, _, _, save) => Sampleable(policy, w.counters, source, view) && MaySave(w, save)
    case Skip(save) => MaySave(w, save)
    case Post => w.pending.Some? && w.phase.Idle?
    case Receive(report) => report in w.channel.sent
    case Fail => w.phase != Idle
    case Reply => w.phase.Posting? && InDoubt(w.pending, w.channel)
    case Commit(written) => w.phase.Confirmed?
    case Remove => w.phase.Committed?
    case Crash => true
  }

  ghost function BytesOf(e: Option<Entry>): Bytes {
    if e.Some? then e.value.bytes else ZERO
  }

  /** The report of a run of the collection, when one is saved; a skipped port has no line in it. */
  ghost function Saved(w: World, entry: Option<Entry>, save: Option<string>): World {
    if save.None? then w
    else w.(pending := Some(Report(save.value, entry)), channel := Draw(w.channel, save.value), pendingMark := w.passed)
  }

  /** One run of the collection: a sample of the port and, when one is saved, the report that holds its line. */
  ghost function Collected(w: World, next: Baseline, connDelta: nat, disk: Disk, save: Option<string>): World {
    var store := SampledStore(w.store, next, connDelta, disk);
    var w' := w.(store := store, fileMark := if store.file != w.store.file then w.passed else w.fileMark);
    Saved(w', SampledEntry(w.store, next, connDelta, disk), save)
  }

  ghost function CommitStore(w: World, written: bool): World {
    if w.pending.None? || !written then w.(phase := Idle)
    else if w.pending.value.body.None? then w.(phase := Committed)
    else w.(phase := Committed, store := AfterWrite(w.store, w.pending.value.body.value.baseline, true), fileMark := w.pendingMark)
  }

  ghost function Next(w: World, s: Step): World {
    match s
    case Pass(amount, counters) => w.(counters := counters, passed := Plus(w.passed, amount))
    case Restart(source, counter) => w.(counters := w.counters[source := counter])
    case Collect(source, view, conns, connSource, connDelta, disk, save) =>
      if source in w.counters && Sized(w.counters[source], |w.counters[source].ins|, |view|)
      then Collected(w, Sampled(w, source, view, conns, connSource), connDelta, disk, save) else w
    case Skip(save) => Saved(w, None, save)
    case Post => if w.pending.Some? then w.(phase := Posting, channel := Send(w.channel, w.pending.value)) else w
    case Receive(report) =>
      if report.id in w.channel.seen then w
      else w.(channel := Count(w.channel, report), credited := Plus(w.credited, BytesOf(report.body)))
    case Fail => w.(phase := Idle)
    case Reply => w.(phase := Confirmed)
    case Commit(written) => CommitStore(w, written)
    case Remove => w.(pending := None, phase := Idle)
    case Crash => w.(store := Store(None, w.store.file), phase := Idle)
  }

  ghost predicate Legal(policy: Policy, w: World, steps: seq<Step>)
    decreases steps
  {
    steps == [] || (Enabled(policy, w, steps[0]) && Legal(policy, Next(w, steps[0]), steps[1..]))
  }

  ghost function Run(w: World, steps: seq<Step>): World
    decreases steps
  {
    if steps == [] then w else Run(Next(w, steps[0]), steps[1..])
  }

  // ---------- The books, under any policy ----------

  ghost predicate OwnBaseline(b: Baseline, rule: int) {
    b.ruleID == rule && b.source != ""
  }

  ghost predicate PhaseSound(w: World) {
    && Known(w.pending, w.channel)
    && (w.phase != Idle ==> w.pending.Some?)
    && (w.phase.Confirmed? || w.phase.Committed? ==> InDoubt(w.pending, w.channel))
    && (w.phase.Committed? && w.pending.Some? && w.pending.value.body.Some? ==> w.fileMark == w.pendingMark)
  }

  ghost predicate Books(policy: Policy, w: World) {
    && w.rule > 0 && Fitting(policy, w.counters) && PhaseSound(w)
    && (w.store.cache == None || w.store.cache == w.store.file || w.store.cache == Some(EMPTY))
    && (w.store.file.Some? ==> OwnBaseline(w.store.file.value, w.rule))
    && (w.pending.Some? && w.pending.value.body.Some? ==> OwnBaseline(w.pending.value.body.value.baseline, w.rule))
    && AtMost(w.fileMark, w.passed) && AtMost(w.pendingMark, w.passed)
  }

  lemma SaveKeepsBooks(policy: Policy, w: World, entry: Option<Entry>, save: Option<string>)
    requires Books(policy, w) && MaySave(w, save) && (entry.Some? ==> OwnBaseline(entry.value.baseline, w.rule))
    ensures Books(policy, Saved(w, entry, save)) && (save.Some? ==> !InDoubt(Saved(w, entry, save).pending, Saved(w, entry, save).channel))
  {
    if save.Some? {
      NewReport(w.channel, Report(save.value, entry));
    }
  }

  lemma PassKeepsFitting(policy: Policy, w: World, amount: Bytes, counters: Counters)
    requires Fitting(policy, w.counters) && CountersGrow(w.counters, counters, amount)
    ensures Fitting(policy, counters)
  {
    forall s | s in policy ensures Sized(counters[s], policy[s].chains, policy[s].columns) {
      assert Sized(w.counters[s], policy[s].chains, policy[s].columns);
      assert forall k :: 0 <= k < |counters[s].ins| ==> RowGrows(w.counters[s].ins[k], counters[s].ins[k], amount.bytesIn);
      assert forall k :: 0 <= k < |counters[s].outs| ==> RowGrows(w.counters[s].outs[k], counters[s].outs[k], amount.bytesOut);
    }
  }

  lemma CollectKeepsBooks(policy: Policy, w: World, s: Step)
    requires ValidPolicy(policy) && Books(policy, w) && Enabled(policy, w, s) && s.Collect?
    ensures Books(policy, Next(w, s))
  {
    var next := Sampled(w, s.source, s.view, s.conns, s.connSource);
    var store := SampledStore(w.store, next, s.connDelta, s.disk);
    SaveKeepsBooks(policy, w.(store := store, fileMark := if store.file != w.store.file then w.passed else w.fileMark),
                   SampledEntry(w.store, next, s.connDelta, s.disk), s.save);
  }

  lemma BooksKept(policy: Policy, w: World, s: Step)
    requires ValidPolicy(policy) && Books(policy, w) && Enabled(policy, w, s)
    ensures Books(policy, Next(w, s))
  {
    match s
    case Pass(amount, counters) => PassKeepsFitting(policy, w, amount, counters);
    case Collect(_, _, _, _, _, _, _) => CollectKeepsBooks(policy, w, s);
    case Skip(save) => SaveKeepsBooks(policy, w, None, save);
    case Post => SendPending(w.channel, w.pending.value);
    case Receive(report) => if report.id !in w.channel.seen { FirstArrival(w.pending, w.channel, report); }
    case Remove => Finished(w.pending, w.channel);
    case _ =>
  }

  // ---------- Never more than passed ----------

  /** What a sample of this direction would count is no more than has passed since the mark. */
  predicate Within(cur: nat, prev: nat, native: bool, mark: nat, passed: nat) {
    (cur >= prev ==> mark + (cur - prev) <= passed) && (cur < prev && !native ==> mark + cur <= passed)
  }

  ghost predicate BytesWithin(cur: Bytes, b: Baseline, mark: Bytes, passed: Bytes) {
    && Within(cur.bytesIn, b.bytes.bytesIn, IsNative(b.source), mark.bytesIn, passed.bytesIn)
    && Within(cur.bytesOut, b.bytes.bytesOut, IsNative(b.source), mark.bytesOut, passed.bytesOut)
  }

  /** Whichever view it is taken with, a sample against this baseline counts no more than has passed since the mark. */
  ghost predicate Sound(policy: Policy, b: Baseline, counters: Counters, mark: Bytes, passed: Bytes) {
    forall view :: Sampleable(policy, counters, b.source, view) ==> BytesWithin(Read(counters[b.source], view), b, mark, passed)
  }

  /** Everything the panel can have counted by the time the pending report is gone. */
  ghost function Ceiling(w: World): Bytes {
    if w.pending.Some? && w.pending.value.body.Some? then w.pendingMark else w.fileMark
  }

  /** What the panel has counted, with the pending report. */
  ghost function Owed(w: World): Bytes {
    if w.pending.Some? && !InDoubt(w.pending, w.channel) then Plus(w.credited, BytesOf(w.pending.value.body)) else w.credited
  }

  ghost predicate Solvent(policy: Policy, w: World) {
    && (w.store.file.Some? ==> Sound(policy, w.store.file.value, w.counters, w.fileMark, w.passed))
    && (w.pending.Some? && w.pending.value.body.Some? ==>
          Sound(policy, w.pending.value.body.value.baseline, w.counters, w.pendingMark, w.passed))
    && AtMost(Owed(w), Ceiling(w))
  }

  lemma WithinGrows(cur: nat, later: nat, prev: nat, native: bool, mark: nat, passed: nat, amount: nat)
    requires Within(cur, prev, native, mark, passed) && mark <= passed && cur <= later <= cur + amount
    ensures Within(later, prev, native, mark, passed + amount)
  {}

  lemma PassKeepsSound(policy: Policy, b: Baseline, before: Counters, after: Counters, mark: Bytes, passed: Bytes, amount: Bytes)
    requires Sound(policy, b, before, mark, passed) && CountersGrow(before, after, amount)
    requires Fitting(policy, before) && Fitting(policy, after) && AtMost(mark, passed)
    ensures Sound(policy, b, after, mark, Plus(passed, amount))
  {
    forall view | Sampleable(policy, after, b.source, view)
      ensures BytesWithin(Read(after[b.source], view), b, mark, Plus(passed, amount))
    {
      var c, d := before[b.source], after[b.source];
      assert Sampleable(policy, before, b.source, view);
      ReadingGrows(c.ins, d.ins, view, amount.bytesIn);
      ReadingGrows(c.outs, d.outs, view, amount.bytesOut);
      WithinGrows(Reading(c.ins, view), Reading(d.ins, view), b.bytes.bytesIn, IsNative(b.source), mark.bytesIn, passed.bytesIn, amount.bytesIn);
      WithinGrows(Reading(c.outs, view), Reading(d.outs, view), b.bytes.bytesOut, IsNative(b.source), mark.bytesOut, passed.bytesOut, amount.bytesOut);
    }
  }

  /** A table of a guarded source that starts again reads as before or as zero; that of a native one reads no more. */
  lemma RestartReading(f: Family, t: Table, u: Table, view: View, native: bool)
    requires Shaped(t, |t|, |view|) && Shaped(u, |u|, |view|) && |t| == f.chains && view in f.views
    requires Cleared(u) || (f.separate && Restarted(t, u))
    requires f.separate && !native ==> ReadsOneCell(f)
    ensures Reading(u, view) == 0 || Reading(u, view) == Reading(t, view) || (native && Reading(u, view) <= Reading(t, view))
  {
    if Cleared(u) {
      ReadingZero(u, view);
    } else {
      ReadingFalls(t, u, view);
      if !native { OneCellRestarts(t, u, view); }
    }
  }

  lemma RestartKeepsSound(policy: Policy, b: Baseline, before: Counters, source: string, counter: Counter, mark: Bytes, passed: Bytes)
    requires ValidPolicy(policy) && Guarded(policy) && Sound(policy, b, before, mark, passed) && AtMost(mark, passed) && Fitting(policy, before)
    requires source in policy && CounterRestarts(policy[source], before[source], counter)
    ensures Sound(policy, b, before[source := counter], mark, passed)
  {
    var after := before[source := counter];
    forall view | Sampleable(policy, after, b.source, view) ensures BytesWithin(Read(after[b.source], view), b, mark, passed) {
      assert |view| == policy[b.source].columns;
      assert Sized(before[b.source], policy[b.source].chains, policy[b.source].columns);
      assert Sampleable(policy, before, b.source, view);
      if b.source == source {
        RestartReading(policy[source], before[source].ins, counter.ins, view, IsNative(source));
        RestartReading(policy[source], before[source].outs, counter.outs, view, IsNative(source));
      }
    }
  }

  lemma NewBaselineSound(policy: Policy, w: World, source: string, view: View, conns: nat, connSource: string)
    requires Guarded(policy) && Sampleable(policy, w.counters, source, view)
    ensures Sound(policy, Sampled(w, source, view, conns, connSource), w.counters, w.passed, w.passed)
  {
    assert SameViews(policy[source]);
  }

  /** What a sample counts fits between the mark of the baseline on file and now. */
  lemma SampleFits(policy: Policy, w: World, s: Step)
    requires Books(policy, w) && Solvent(policy, w) && Enabled(policy, w, s) && s.Collect?
    ensures AtMost(Plus(w.fileMark, BytesOf(SampledEntry(w.store, Sampled(w, s.source, s.view, s.conns, s.connSource), s.connDelta, s.disk))), w.passed)
  {
    var next := Sampled(w, s.source, s.view, s.conns, s.connSource);
    var previous := Previous(w.store, s.disk.readable);
    if !Restarts(previous, next) {
      assert previous != EMPTY;
      assert w.store.file == Some(previous);
      assert BytesWithin(next.bytes, previous, w.fileMark, w.passed);
    }
  }

  lemma CollectSolvent(policy: Policy, w: World, s: Step)
    requires Guarded(policy) && Books(policy, w) && Solvent(policy, w) && Enabled(policy, w, s) && s.Collect?
    ensures Solvent(policy, Next(w, s))
  {
    var next := Sampled(w, s.source, s.view, s.conns, s.connSource);
    NewBaselineSound(policy, w, s.source, s.view, s.conns, s.connSource);
    SampleFits(policy, w, s);
    if s.save.Some? {
      NewReport(w.channel, Report(s.save.value, SampledEntry(w.store, next, s.connDelta, s.disk)));
    }
  }

  lemma PassSolvent(policy: Policy, w: World, amount: Bytes, counters: Counters)
    requires Books(policy, w) && Solvent(policy, w) && CountersGrow(w.counters, counters, amount)
    ensures Solvent(policy, Next(w, Pass(amount, counters)))
  {
    PassKeepsFitting(policy, w, amount, counters);
    if w.store.file.Some? {
      PassKeepsSound(policy, w.store.file.value, w.counters, counters, w.fileMark, w.passed, amount);
    }
    if w.pending.Some? && w.pending.value.body.Some? {
      PassKeepsSound(policy, w.pending.value.body.value.baseline, w.counters, counters, w.pendingMark, w.passed, amount);
    }
  }

  lemma RestartSolvent(policy: Policy, w: World, source: string, counter: Counter)
    requires ValidPolicy(policy) && Guarded(policy) && Books(policy, w) && Solvent(policy, w) && Enabled(policy, w, Restart(source, counter))
    ensures Solvent(policy, Next(w, Restart(source, counter)))
  {
    if w.store.file.Some? {
      RestartKeepsSound(policy, w.store.file.value, w.counters, source, counter, w.fileMark, w.passed);
    }
    if w.pending.Some? && w.pending.value.body.Some? {
      RestartKeepsSound(policy, w.pending.value.body.value.baseline, w.counters, source, counter, w.pendingMark, w.passed);
    }
  }

  lemma StepSolvent(policy: Policy, w: World, s: Step)
    requires ValidPolicy(policy) && Guarded(policy) && Books(policy, w) && Solvent(policy, w) && Enabled(policy, w, s)
    ensures Solvent(policy, Next(w, s))
  {
    match s
    case Pass(amount, counters) => PassSolvent(policy, w, amount, counters);
    case Restart(source, counter) => RestartSolvent(policy, w, source, counter);
    case Collect(_, _, _, _, _, _, _) => CollectSolvent(policy, w, s);
    case Skip(save) => if save.Some? { NewReport(w.channel, Report(save.value, None)); }
    case Post => SendPending(w.channel, w.pending.value);
    case Receive(report) => if report.id !in w.channel.seen { FirstArrival(w.pending, w.channel, report); }
    case Remove => Finished(w.pending, w.channel);
    case _ =>
  }

  lemma {:induction false} RunSolvent(policy: Policy, w: World, steps: seq<Step>)
    requires ValidPolicy(policy) && Guarded(policy) && Books(policy, w) && Solvent(policy, w) && Legal(policy, w, steps)
    ensures Books(policy, Run(w, steps)) && Solvent(policy, Run(w, steps))
    decreases steps
  {
    if steps != [] {
      BooksKept(policy, w, steps[0]);
      StepSolvent(policy, w, steps[0]);
      RunSolvent(policy, Next(w, steps[0]), steps[1..]);
    }
  }

  /** In no run does the panel count more than has passed. */
  ghost predicate NeverOvercredits(policy: Policy) {
    forall w: World, steps: seq<Step> ::
      Fresh(policy, w) && Legal(policy, w, steps) ==> AtMost(Run(w, steps).credited, Run(w, steps).passed)
  }

  lemma NeverOvercredited(policy: Policy)
    requires ValidPolicy(policy) && Guarded(policy)
    ensures NeverOvercredits(policy)
  {
    forall w: World, steps: seq<Step> | Fresh(policy, w) && Legal(policy, w, steps)
      ensures AtMost(Run(w, steps).credited, Run(w, steps).passed)
    {
      RunSolvent(policy, w, steps);
    }
  }

  // ---------- Listed or skipped ----------

  function Full(columns: nat): View {
    seq(columns, _ => true)
  }

  /** The same sources, read only when everything is listed, and starting again only as a whole. */
  ghost function Whole(policy: Policy): Policy {
    map s | s in policy :: policy[s].(views := {Full(policy[s].columns)}, separate := false)
  }

  /** Every sample has all columns listed, and what starts again is a whole source. */
  ghost predicate WholeStep(policy: Policy, s: Step) {
    && (s.Collect? && s.source in policy ==> s.view == Full(policy[s.source].columns))
    && (s.Restart? ==> CounterCleared(s.counter))
  }

  lemma {:induction false} WholeLegal(policy: Policy, w: World, steps: seq<Step>)
    requires Legal(policy, w, steps) && forall i :: 0 <= i < |steps| ==> WholeStep(policy, steps[i])
    ensures Legal(Whole(policy), w, steps)
    decreases steps
  {
    if steps != [] {
      assert WholeStep(policy, steps[0]);
      assert Enabled(Whole(policy), w, steps[0]);
      WholeLegal(policy, Next(w, steps[0]), steps[1..]);
    }
  }

  lemma WholeGuarded(policy: Policy)
    requires ValidPolicy(policy)
    ensures ValidPolicy(Whole(policy)) && Guarded(Whole(policy))
  {}

  /**
   Under any policy, a run in which every listing worked whenever the port was
   not skipped, and sources start again as a whole, counts no more than has
   passed.
   */
  lemma ListedOrSkipped(policy: Policy, w: World, steps: seq<Step>)
    requires ValidPolicy(policy) && Fresh(policy, w) && Legal(policy, w, steps)
    requires forall i :: 0 <= i < |steps| ==> WholeStep(policy, steps[i])
    ensures AtMost(Run(w, steps).credited, Run(w, steps).passed)
  {
    WholeLegal(policy, w, steps);
    WholeGuarded(policy);
    RunSolvent(Whole(policy), w, steps);
  }

  // ---------- Runs that count too much ----------

  ghost function Sampling(source: string, view: View, save: Option<string>): Step {
    Collect(source, view, 0, "", 0, Disk(true, true), save)
  }

  /** The counters after nothing passes, or after some of them start again. */
  ghost function Changed(counters: Counters, change: Option<(string, Counter)>): Counters {
    match change
    case None => counters
    case Some((source, counter)) => counters[source := counter]
  }

  ghost function ChangeStep(counters: Counters, change: Option<(string, Counter)>): Step {
    match change
    case None => Pass(ZERO, counters)
    case Some((source, counter)) => Restart(source, counter)
  }

  /** Between two samples nothing passes, and the second shows more than the first, or less and not nothing. */
  ghost predicate CountsAgain(policy: Policy, counters: Counters, source: string, view: View, change: Option<(string, Counter)>, view': View) {
    var later := Changed(counters, change);
    && (change.Some? ==> var (s, c) := change.value; s in policy && s in counters && CounterRestarts(policy[s], counters[s], c))
    && Sampleable(policy, counters, source, view) && Sampleable(policy, later, source, view')
    && Growth(Read(later[source], view'), Read(counters[source], view)).bytesIn > 0
    && (IsNative(source) ==> later[source].epoch == counters[source].epoch && AtMost(Read(counters[source], view), Read(later[source], view')))
  }

  lemma ChangeEnabled(policy: Policy, w: World, change: Option<(string, Counter)>)
    requires change.Some? ==> var (s, c) := change.value; s in policy && s in w.counters && CounterRestarts(policy[s], w.counters[s], c)
    ensures Enabled(policy, w, ChangeStep(w.counters, change))
    ensures Next(w, ChangeStep(w.counters, change)) == w.(counters := Changed(w.counters, change))
  {}

  lemma StepAhead(policy: Policy, w: World, s: Step, rest: seq<Step>)
    requires Enabled(policy, w, s) && Legal(policy, Next(w, s), rest)
    ensures Legal(policy, w, [s] + rest) && Run(w, [s] + rest) == Run(Next(w, s), rest)
  {
    assert ([s] + rest)[1..] == rest;
  }

  /** A sample that counts something is saved, posted and counted. */
  lemma SampleArrives(policy: Policy, w: World, source: string, view: View) returns (steps: seq<Step>)
    requires Sampleable(policy, w.counters, source, view) && w.pending == None && w.phase == Idle && w.channel == Channel({}, {}, {})
    requires SampledEntry(w.store, Sampled(w, source, view, 0, ""), 0, Disk(true, true)).Some?
    ensures Legal(policy, w, steps) && Run(w, steps).passed == w.passed
    ensures Run(w, steps).credited == Plus(w.credited, ByteDeltas(Previous(w.store, true), Sampled(w, source, view, 0, "")))
  {
    var sample := Sampling(source, view, Some("report"));
    var report := Report("report", SampledEntry(w.store, Sampled(w, source, view, 0, ""), 0, Disk(true, true)));
    var w1 := Next(w, sample);
    assert w1.pending == Some(report);
    var w2 := Next(w1, Post);
    assert Legal(policy, Next(w2, Receive(report)), []);
    StepAhead(policy, w2, Receive(report), []);
    StepAhead(policy, w1, Post, [Receive(report)] + []);
    StepAhead(policy, w, sample, [Post] + ([Receive(report)] + []));
    steps := [sample] + ([Post] + ([Receive(report)] + []));
  }

  /** The first sample of a port only makes its baseline. */
  lemma FirstSample(policy: Policy, w: World, source: string, view: View)
    requires ValidPolicy(policy) && Fresh(policy, w) && Sampleable(policy, w.counters, source, view)
    ensures var next := Sampled(w, source, view, 0, "");
      Enabled(policy, w, Sampling(source, view, None)) &&
      Next(w, Sampling(source, view, None)) == w.(store := Store(Some(next), Some(next)), fileMark := w.passed)
  {}

  /** A second sample over the baseline of a first one. */
  lemma SecondSample(prev: Baseline, next: Baseline)
    requires prev.ruleID == next.ruleID > 0 && prev.source == next.source && Growth(next.bytes, prev.bytes).bytesIn > 0
    requires IsNative(next.source) ==> prev.epoch == next.epoch && AtMost(prev.bytes, next.bytes)
    ensures SampledEntry(Store(Some(prev), Some(prev)), next, 0, Disk(true, true)).Some?
    ensures ByteDeltas(Previous(Store(Some(prev), Some(prev)), true), next).bytesIn > 0
  {}

  lemma AgainstBaseline(policy: Policy, w: World, prev: Baseline, source: string, view: View, change: Option<(string, Counter)>, view': View)
      returns (steps: seq<Step>)
    requires CountsAgain(policy, w.counters, source, view, change, view') && w.rule > 0 && prev == Sampled(w, source, view, 0, "")
    requires w.store == Store(Some(prev), Some(prev)) && w.pending == None && w.phase == Idle && w.channel == Channel({}, {}, {})
    ensures Legal(policy, w, steps) && Run(w, steps).passed == w.passed && Run(w, steps).credited.bytesIn > w.credited.bytesIn
  {
    ChangeEnabled(policy, w, change);
    var w' := w.(counters := Changed(w.counters, change));
    SecondSample(prev, Sampled(w', source, view', 0, ""));
    var rest := SampleArrives(policy, w', source, view');
    StepAhead(policy, w, ChangeStep(w.counters, change), rest);
    steps := [ChangeStep(w.counters, change)] + rest;
  }

  lemma CountedAgain(policy: Policy, w: World, source: string, view: View, change: Option<(string, Counter)>, view': View)
    requires ValidPolicy(policy) && Fresh(policy, w) && w.passed == ZERO && CountsAgain(policy, w.counters, source, view, change, view')
    ensures !NeverOvercredits(policy)
  {
    var first := Sampling(source, view, None);
    FirstSample(policy, w, source, view);
    var rest := AgainstBaseline(policy, Next(w, first), Sampled(w, source, view, 0, ""), source, view, change, view');
    StepAhead(policy, w, first, rest);
    Overcredited(policy, w, [first] + rest);
  }

  lemma Overcredited(policy: Policy, w: World, steps: seq<Step>)
    requires Fresh(policy, w) && Legal(policy, w, steps) && !AtMost(Run(w, steps).credited, Run(w, steps).passed)
    ensures !NeverOvercredits(policy)
  {}

  ghost function MarkedTable(chains: nat, columns: nat, k: int, i: int, l: int, j: int, amount: nat): (t: Table)
    ensures Shaped(t, chains, columns)
    ensures forall r, c :: 0 <= r < chains && 0 <= c < columns ==>
              t[r][c] == if r == k && c == i then 1 else if r == l && c == j then amount else 0
  {
    seq(chains, r => seq(columns, c => if r == k && c == i then 1 else if r == l && c == j then amount else 0))
  }

  ghost function BlankCounter(f: Family): Counter {
    Counter(MarkedTable(f.chains, f.columns, -1, -1, -1, -1, 0), MarkedTable(f.chains, f.columns, -1, -1, -1, -1, 0), "")
  }

  ghost function MarkedCounter(f: Family, k: int, i: int, l: int, j: int, amount: nat): Counter {
    BlankCounter(f).(ins := MarkedTable(f.chains, f.columns, k, i, l, j, amount))
  }

  ghost function FreshWorld(policy: Policy, source: string, counter: Counter): World {
    World(1, Store(None, None), None, Idle, Channel({}, {}, {}),
          map s | s in policy :: if s == source then counter else BlankCounter(policy[s]), ZERO, ZERO, ZERO, ZERO)
  }

  lemma FreshWorldFresh(policy: Policy, source: string, counter: Counter)
    requires ValidPolicy(policy) && source in policy && Sized(counter, policy[source].chains, policy[source].columns)
    ensures var w := FreshWorld(policy, source, counter); Fresh(policy, w) && w.counters[source] == counter
  {}

  lemma MarkedUnlisted(f: Family, view: View, i: nat)
    requires |view| == f.columns && i < f.columns && !view[i] && f.chains > 0
    ensures Read(MarkedCounter(f, 0, i, 0, i, 0), view) == ZERO
  {
    ReadingZero(MarkedCounter(f, 0, i, 0, i, 0).ins, view);
    ReadingZero(MarkedCounter(f, 0, i, 0, i, 0).outs, view);
  }

  lemma MarkedAlone(f: Family, view: View, k: nat, i: nat, l: nat, j: nat, amount: nat)
    requires |view| == f.columns && k < f.chains && i < f.columns && view[i] && amount == 0
    ensures Read(MarkedCounter(f, k, i, l, j, amount), view) == Bytes(1, 0)
  {
    ReadingLone(MarkedCounter(f, k, i, l, j, amount).ins, view, k, i);
    ReadingZero(MarkedCounter(f, k, i, l, j, amount).outs, view);
  }

  /** A column that some samples list and others do not is counted whole each time it comes back. */
  lemma ReturningColumn(policy: Policy, source: string, view: View, view': View, i: nat)
    requires ValidPolicy(policy) && source in policy && view in policy[source].views && view' in policy[source].views
    requires i < policy[source].columns && !view[i] && view'[i]
    ensures !NeverOvercredits(policy)
  {
    var counter := MarkedCounter(policy[source], 0, i, 0, i, 0);
    var w := FreshWorld(policy, source, counter);
    FreshWorldFresh(policy, source, counter);
    MarkedUnlisted(policy[source], view, i);
    MarkedAlone(policy[source], view', 0, i, 0, i, 0);
    CountedAgain(policy, w, source, view, None, view');
  }

  lemma MarkedRestarts(f: Family, k: nat, i: nat, l: nat, j: nat)
    requires f.separate && (k != l || i != j)
    ensures CounterRestarts(f, MarkedCounter(f, k, i, l, j, 2), MarkedCounter(f, k, i, l, j, 0))
  {}

  lemma MarkedPair(f: Family, view: View, k: nat, i: nat, l: nat, j: nat)
    requires |view| == f.columns && Cell(f.chains, view, k, i) && Cell(f.chains, view, l, j) && (k != l || i != j)
    ensures Growth(Read(MarkedCounter(f, k, i, l, j, 0), view), Read(MarkedCounter(f, k, i, l, j, 2), view)).bytesIn == 1
  {
    ReadingAtLeast(MarkedCounter(f, k, i, l, j, 2).ins, view, l, j);
    MarkedAlone(f, view, k, i, l, j, 0);
  }

  /** When one of two counters that are read together starts again alone, the other is counted again. */
  lemma SeparateRestart(policy: Policy, source: string, view: View, k: nat, i: nat, l: nat, j: nat)
    requires ValidPolicy(policy) && source in policy && !IsNative(source) && policy[source].separate && view in policy[source].views
    requires Cell(policy[source].chains, view, k, i) && Cell(policy[source].chains, view, l, j) && (k != l || i != j)
    ensures !NeverOvercredits(policy)
  {
    var before, after := MarkedCounter(policy[source], k, i, l, j, 2), MarkedCounter(policy[source], k, i, l, j, 0);
    var w := FreshWorld(policy, source, before);
    FreshWorldFresh(policy, source, before);
    MarkedRestarts(policy[source], k, i, l, j);
    MarkedPair(policy[source], view, k, i, l, j);
    CountedAgain(policy, w, source, view, Some((source, after)), view);
  }

  lemma UnequalViews(policy: Policy, s: string)
    requires ValidPolicy(policy) && s in policy && !SameViews(policy[s])
    ensures !NeverOvercredits(policy)
  {
    var u, v :| u in policy[s].views && v in policy[s].views && u != v;
    var i :| 0 <= i < policy[s].columns && u[i] != v[i];
    if v[i] { ReturningColumn(policy, s, u, v, i); } else { ReturningColumn(policy, s, v, u, i); }
  }

  lemma SeveralCells(policy: Policy, s: string)
    requires ValidPolicy(policy) && s in policy && !IsNative(s) && policy[s].separate && !ReadsOneCell(policy[s])
    ensures !NeverOvercredits(policy)
  {
    var v :| v in policy[s].views && !OneCell(policy[s].chains, v);
    var k, i, l, j :| Cell(policy[s].chains, v, k, i) && Cell(policy[s].chains, v, l, j) && !(k == l && i == j);
    SeparateRestart(policy, s, v, k, i, l, j);
  }

  /**
   Over every run of traffic, failed listings, restarts, source and epoch
   changes, failed writes and posts, lost, late and repeated reports and
   crashes the panel counts no more than has passed, exactly when the policy is
   guarded.
   */
  lemma NeverOvercreditedIff(policy: Policy)
    requires ValidPolicy(policy)
    ensures NeverOvercredits(policy) <==> Guarded(policy)
  {
    if Guarded(policy) {
      NeverOvercredited(policy);
    } else {
      var s :| s in policy && !(SameViews(policy[s]) && (policy[s].separate && !IsNative(s) ==> ReadsOneCell(policy[s])));
      if SameViews(policy[s]) { SeveralCells(policy, s); } else { UnequalViews(policy, s); }
    }
  }

  // ---------- Exactly what has passed, from steady readings ----------

  /**
   All samples are of this source with this view, find the baseline file
   readable, and show all that passes; none of its counters starts again.
   */
  ghost predicate SteadyStep(policy: Policy, w: World, s: Step, source: string, view: View) {
    match s
    case Pass(amount, counters) =>
      && Sampleable(policy, w.counters, source, view) && Sampleable(policy, counters, source, view)
      && Read(counters[source], view) == Plus(Read(w.counters[source], view), amount)
    case Restart(other, _) => other != source
    case Collect(sampled, used, _, _, _, disk, _) => sampled == source && used == view && disk.readable
    case _ => true
  }

  ghost predicate SteadyRun(policy: Policy, w: World, steps: seq<Step>, source: string, view: View)
    decreases steps
  {
    steps == [] || (Enabled(policy, w, steps[0]) && SteadyStep(policy, w, steps[0], source, view)
                    && SteadyRun(policy, Next(w, steps[0]), steps[1..], source, view))
  }

  /** A baseline of this source in its present epoch; what has passed since its mark is what the reading has grown. */
  ghost predicate Level(b: Baseline, w: World, source: string, view: View, mark: Bytes)
    requires source in w.counters && Sized(w.counters[source], |w.counters[source].ins|, |view|)
  {
    var now := Read(w.counters[source], view);
    && b.source == source && b.epoch == w.counters[source].epoch && AtMost(b.bytes, now)
    && Plus(b.bytes, w.passed) == Plus(now, mark)
  }

  ghost predicate Steady(policy: Policy, w: World, source: string, view: View) {
    && Sampleable(policy, w.counters, source, view) && w.store.file.Some?
    && Level(w.store.file.value, w, source, view, w.fileMark)
    && (w.store.cache == None || w.store.cache == w.store.file)
    && (w.pending.Some? && w.pending.value.body.Some? ==>
          var e := w.pending.value.body.value;
          && Level(e.baseline, w, source, view, w.pendingMark)
          && (InDoubt(w.pending, w.channel) || Plus(w.fileMark, e.bytes) == w.pendingMark)
          && (w.phase.Committed? ==> w.store.file == Some(e.baseline)))
  }

  /** The mark of the baseline up to which everything has been credited: that on file, or that of the pending report once it is applied. */
  ghost function AppliedMark(w: World): Bytes {
    if InDoubt(w.pending, w.channel) && w.pending.value.body.Some? then w.pendingMark else w.fileMark
  }

  /** What has been credited since is what has passed from the first mark to the applied one. */
  ghost predicate Exact(policy: Policy, w: World, source: string, view: View, first: Bytes, start: Bytes) {
    Steady(policy, w, source, view) && Plus(w.credited, first) == Plus(start, AppliedMark(w))
  }

  lemma GrowthExact(cur: Bytes, prev: Bytes, passed: Bytes, mark: Bytes)
    requires AtMost(prev, cur) && Plus(prev, passed) == Plus(cur, mark)
    ensures Plus(mark, Growth(cur, prev)) == passed
    ensures Growth(cur, prev) == ZERO ==> cur == prev && mark == passed
  {}

  lemma CreditShift(credited: Bytes, first: Bytes, start: Bytes, applied: Bytes, bytes: Bytes)
    requires Plus(credited, first) == Plus(start, applied)
    ensures Plus(Plus(credited, bytes), first) == Plus(start, Plus(applied, bytes))
  {}

  lemma PlusZero(v: Bytes)
    ensures Plus(v, ZERO) == v
  {}

  lemma CollectExact(policy: Policy, w: World, s: Step, source: string, view: View, first: Bytes, start: Bytes)
    requires Books(policy, w) && Exact(policy, w, source, view, first, start)
    requires Enabled(policy, w, s) && SteadyStep(policy, w, s, source, view) && s.Collect?
    ensures Exact(policy, Next(w, s), source, view, first, start)
  {
    var next := Sampled(w, source, view, s.conns, s.connSource);
    var previous := w.store.file.value;
    assert Previous(w.store, s.disk.readable) == previous;
    GrowthExact(next.bytes, previous.bytes, w.passed, w.fileMark);
    assert !Restarts(previous, next);
    var w' := Next(w, s);
    assert !InDoubt(w'.pending, w'.channel);
  }

  lemma ReceiveExact(policy: Policy, w: World, s: Step, source: string, view: View, first: Bytes, start: Bytes)
    requires Books(policy, w) && Exact(policy, w, source, view, first, start) && Enabled(policy, w, s) && s.Receive?
    ensures Exact(policy, Next(w, s), source, view, first, start)
  {
    if s.report.id !in w.channel.seen {
      FirstArrival(w.pending, w.channel, s.report);
      CreditShift(w.credited, first, start, AppliedMark(w), BytesOf(s.report.body));
      PlusZero(AppliedMark(w));
    }
  }

  lemma LevelKept(b: Baseline, w: World, amount: Bytes, counters: Counters, source: string, view: View, mark: Bytes)
    requires source in w.counters && Sized(w.counters[source], |w.counters[source].ins|, |view|) && Level(b, w, source, view, mark)
    requires source in counters && Sized(counters[source], |counters[source].ins|, |view|)
    requires counters[source].epoch == w.counters[source].epoch
    requires Read(counters[source], view) == Plus(Read(w.counters[source], view), amount)
    ensures Level(b, Next(w, Pass(amount, counters)), source, view, mark)
  {}

  lemma PassExact(policy: Policy, w: World, s: Step, source: string, view: View, first: Bytes, start: Bytes)
    requires Exact(policy, w, source, view, first, start) && s.Pass?
    requires Enabled(policy, w, s) && SteadyStep(policy, w, s, source, view)
    ensures Exact(policy, Next(w, s), source, view, first, start)
  {
    LevelKept(w.store.file.value, w, s.amount, s.counters, source, view, w.fileMark);
    if w.pending.Some? && w.pending.value.body.Some? {
      LevelKept(w.pending.value.body.value.baseline, w, s.amount, s.counters, source, view, w.pendingMark);
    }
  }

  lemma CommitExact(policy: Policy, w: World, s: Step, source: string, view: View, first: Bytes, start: Bytes)
    requires Books(policy, w) && Exact(policy, w, source, view, first, start) && Enabled(policy, w, s) && (s.Commit? || s.Remove?)
    ensures Exact(policy, Next(w, s), source, view, first, start)
  {}

  lemma StepExact(policy: Policy, w: World, s: Step, source: string, view: View, first: Bytes, start: Bytes)
    requires Books(policy, w) && Exact(policy, w, source, view, first, start)
    requires Enabled(policy, w, s) && SteadyStep(policy, w, s, source, view)
    ensures Exact(policy, Next(w, s), source, view, first, start)
  {
    match s
    case Pass(_, _) => PassExact(policy, w, s, source, view, first, start);
    case Collect(_, _, _, _, _, _, _) => CollectExact(policy, w, s, source, view, first, start);
    case Receive(_) => ReceiveExact(policy, w, s, source, view, first, start);
    case Commit(_) => CommitExact(policy, w, s, source, view, first, start);
    case Remove => CommitExact(policy, w, s, source, view, first, start);
    case _ =>
  }

  lemma {:induction false} RunExact(policy: Policy, w: World, steps: seq<Step>, source: string, view: View, first: Bytes, start: Bytes)
    requires ValidPolicy(policy) && Books(policy, w) && Exact(policy, w, source, view, first, start) && SteadyRun(policy, w, steps, source, view)
    ensures Exact(policy, Run(w, steps), source, view, first, start)
    decreases steps
  {
    if steps != [] {
      BooksKept(policy, w, steps[0]);
      StepExact(policy, w, steps[0], source, view, first, start);
      RunExact(policy, Next(w, steps[0]), steps[1..], source, view, first, start);
    }
  }

  /**
   Under any policy, as long as the samples are steady, the panel counts
   exactly what has passed between the first baseline and the applied one,
   whatever is lost, repeated or cut off by a crash.
   */
  lemma CreditedExactly(policy: Policy, w: World, steps: seq<Step>, source: string, view: View)
    requires ValidPolicy(policy) && Books(policy, w) && w.pending == None
    requires Steady(policy, w, source, view) && SteadyRun(policy, w, steps, source, view)
    ensures Plus(Run(w, steps).credited, w.fileMark) == Plus(w.credited, AppliedMark(Run(w, steps)))
  {
    RunExact(policy, w, steps, source, view, w.fileMark, w.credited);
  }
}
