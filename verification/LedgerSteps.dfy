/**
 The ledger's methods are the steps of the conservation model: for one port
 with a fixed rule, what they do to the ledger is what a legal run of steps
 does to the model's world.
 */
module LedgerSteps {
  import opened Options
  import opened Reports
  import opened AgentLedger
  import opened CounterReadings
  import opened AgentConservation

  /** A pending report, as far as one port is concerned. */
  ghost function PortReport(pending: Option<Report<Lines>>, port: string): Option<Report<Option<Entry>>> {
    match pending
    case None => None
    case Some(report) => Some(Report(report.id, LineOf(report.body, port)))
  }

  /** The world has the port's store and its part of the pending report. */
  ghost predicate Matches(l: Ledger, port: string, w: World)
    reads l
  {
    w.store == l.View(port) && w.pending == PortReport(l.pending, port)
  }

  /** The port is skipped, or sampled with what its counters read now. */
  ghost predicate ReadFrom(w: World, policy: Policy, samples: seq<Sample>, port: string, source: string, view: View) {
    && Sampleable(policy, w.counters, source, view)
    && forall i :: 0 <= i < |samples| && samples[i].port == port ==>
         samples[i].next == AgentConservation.Sampled(w, source, view, samples[i].next.conns, samples[i].next.connSource)
  }

  /** The step that a run of the collection is for one port. */
  ghost function CollectStep(samples: seq<Sample>, port: string, source: string, view: View, save: Option<string>): (step: Step)
    ensures step.Collect? || step.Skip?
  {
    if i :| 0 <= i < |samples| && samples[i].port == port then
      Collect(source, view, samples[i].next.conns, samples[i].next.connSource, samples[i].conns, samples[i].disk, save)
    else Skip(save)
  }

  /**
   A run of the collection: every port is sampled once, and the report saved.
   When that fails there is no report.
   */
  method CollectRun(l: Ledger, samples: seq<Sample>, id: string, writable: bool,
                    ghost port: string, ghost policy: Policy, ghost w: World, ghost source: string, ghost view: View)
    returns (saved: bool, ghost steps: seq<Step>)
    requires DistinctPorts(samples) && Matches(l, port, w) && ReadFrom(w, policy, samples, port, source, view)
    requires l.pending.None? && w.phase.Idle? && id !in w.channel.used
    modifies l
    ensures saved == writable
    ensures Legal(policy, w, steps) && Matches(l, port, Run(w, steps))
    ensures steps == [CollectStep(samples, port, source, view, if saved then Some(id) else None)]
  {
    var lines := l.SampleAll(samples);
    saved := l.SavePending(id, lines, writable);
    ghost var step := CollectStep(samples, port, source, view, if saved then Some(id) else None);
    steps := [step];
    OneStep(policy, w, step);
    if AgentLedger.Sampled(samples, port) {
      ghost var i :| 0 <= i < |samples| && samples[i].port == port;
      assert SampledAs(samples[i], old(l.View(port)), l.View(port), lines);
    }
  }

  lemma OneStep(policy: Policy, w: World, step: Step)
    ensures Legal(policy, w, [step]) <==> Enabled(policy, w, step)
    ensures Run(w, [step]) == Next(w, step)
  {
    assert [step][1..] == [];
    assert Legal(policy, Next(w, step), []);
  }

  lemma TwoSteps(policy: Policy, w: World, first: Step, second: Step)
    ensures Legal(policy, w, [first, second]) <==> Enabled(policy, w, first) && Enabled(policy, Next(w, first), second)
    ensures Run(w, [first, second]) == Next(Next(w, first), second)
  {
    assert [first, second][1..] == [second];
    OneStep(policy, Next(w, first), second);
  }

  /**
   The panel has answered: the baselines are committed and the report is
   removed. When that is not done, the port's baseline may have been written.
   */
  method CompleteRun(l: Ledger, rules: map<string, RuleFile>, writable: map<string, bool>, removable: bool,
                     ghost port: string, ghost policy: Policy, ghost w: World)
    returns (ok: bool, ghost steps: seq<Step>)
    requires Matches(l, port, w) && Books(policy, w) && w.phase.Confirmed?
    requires port in rules && rules[port] == RuleFile(w.rule)
    modifies l
    ensures Legal(policy, w, steps) && Matches(l, port, Run(w, steps))
    ensures if ok then steps == [Commit(true), Remove] else steps == [Commit(true), Fail] || steps == [Commit(false)]
  {
    ghost var line := LineOf(l.pending.value.body, port);
    ok := l.CompletePending(rules, writable, removable);
    TwoSteps(policy, w, Commit(true), Remove);
    TwoSteps(policy, w, Commit(true), Fail);
    OneStep(policy, w, Commit(false));
    if ok {
      steps := [Commit(true), Remove];
    } else if l.View(port) == old(l.View(port)) {
      steps := [Commit(false)];
    } else {
      steps := [Commit(true), Fail];
    }
  }

  /** The agent starts again. */
  method RestartRun(l: Ledger, ghost port: string, ghost policy: Policy, ghost w: World) returns (ghost steps: seq<Step>)
    requires Matches(l, port, w)
    modifies l
    ensures Legal(policy, w, steps) && Matches(l, port, Run(w, steps)) && steps == [Crash]
  {
    l.Restart();
    steps := [Crash];
    OneStep(policy, w, Crash);
  }
}
