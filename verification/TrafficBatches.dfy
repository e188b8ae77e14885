/**
 The traffic ledger of a forwarder process: byte and connection counts wait in
 batches, one for each panel account, and a batch is reported under a stable
 report id until the panel acknowledges it.
 */
module TrafficBatches {
  import opened Options
  import opened Reports
  import Words

  datatype Key = Key(installationID: string, panelURL: string, token: string, producerID: string)

  datatype Value = Value(bytesIn: nat, bytesOut: nat, connections: nat)

  const ZERO: Value := Value(0, 0, 0)

  predicate IsZero(v: Value) {
    v.bytesIn == 0 && v.bytesOut == 0 && v.connections == 0
  }

  type RuleID = Words.int64

  type Batch = map<RuleID, Value>

  type Pending = Report<Batch>

  // ---------- Arithmetic on counts ----------

  function Plus(a: Value, b: Value): Value {
    Value(a.bytesIn + b.bytesIn, a.bytesOut + b.bytesOut, a.connections + b.connections)
  }

  function Saturating(a: nat, b: nat): nat {
    if a >= b then a - b else 0
  }

  function Minus(a: Value, b: Value): Value {
    Value(Saturating(a.bytesIn, b.bytesIn), Saturating(a.bytesOut, b.bytesOut), Saturating(a.connections, b.connections))
  }

  predicate AtMost(a: Value, b: Value) {
    a.bytesIn <= b.bytesIn && a.bytesOut <= b.bytesOut && a.connections <= b.connections
  }

  function At(b: Batch, rule: RuleID): Value {
    if rule in b then b[rule] else ZERO
  }

  lemma PlusZero(v: Value)
    ensures Plus(v, ZERO) == v
  {}

  lemma Earn(enqueued: Value, doubt: Value, credited: Value, batch: Value, v: Value)
    requires Plus(enqueued, doubt) == Plus(credited, batch)
    ensures Plus(Plus(enqueued, v), doubt) == Plus(credited, Plus(batch, v))
  {}

  lemma Doubt(enqueued: Value, credited: Value, batch: Value, v: Value)
    requires Plus(enqueued, ZERO) == Plus(credited, batch)
    ensures Plus(enqueued, v) == Plus(Plus(credited, v), batch)
  {}

  lemma Settle(enqueued: Value, credited: Value, batch: Value, v: Value)
    requires Plus(enqueued, v) == Plus(credited, batch) && AtMost(v, batch)
    ensures Plus(enqueued, ZERO) == Plus(credited, Minus(batch, v))
  {}

  // ---------- One account ----------

  /** What is outstanding for one key, and the report made of it that waits for its acknowledgement. */
  datatype Account = Account(batch: Batch, pending: Option<Pending>)

  function Added(b: Batch, rule: RuleID, v: Value): Batch {
    b[rule := Plus(At(b, rule), v)]
  }

  lemma AtAdded(b: Batch, rule: RuleID, v: Value, r: RuleID)
    ensures At(Added(b, rule, v), r) == if r == rule then Plus(At(b, r), v) else At(b, r)
  {}

  function NonZero(b: Batch): Batch {
    map rule | rule in b && !IsZero(b[rule]) :: b[rule]
  }

  /** What a flush posts for an account: the report that is still pending, else a new one. */
  function Due(a: Account, drawn: string): Option<Pending> {
    if a.pending.Some? && a.pending.value.body != map[] then a.pending
    else if NonZero(a.batch) == map[] then None
    else Some(Report(drawn, NonZero(a.batch)))
  }

  /** Nothing is posted only when there is nothing; a new report holds all that is outstanding, rule by rule. */
  lemma DueMeaning(a: Account, drawn: string)
    ensures Due(a, drawn).None? <==> (a.pending.Some? ==> a.pending.value.body == map[]) && forall rule :: At(a.batch, rule) == Value(0, 0, 0)
    ensures a.pending.Some? && a.pending.value.body != map[] ==> Due(a, drawn) == a.pending
    ensures Due(a, drawn).Some? && Due(a, drawn) != a.pending ==>
      Due(a, drawn).value.id == drawn && forall rule :: At(Due(a, drawn).value.body, rule) == At(a.batch, rule)
  {
    forall rule
      ensures At(NonZero(a.batch), rule) == At(a.batch, rule) && (rule in NonZero(a.batch) <==> At(a.batch, rule) != Value(0, 0, 0))
    {}
    if NonZero(a.batch) != map[] {
      var rule :| rule in NonZero(a.batch);
      assert At(a.batch, rule) != Value(0, 0, 0);
    }
  }

  function Snapshotted(a: Account, drawn: string): Account {
    if Due(a, drawn).Some? then a.(pending := Due(a, drawn)) else a
  }

  /** What is left of a batch after the counts sent for some of its rules are taken off. */
  ghost function Remaining(b: Batch, sent: Batch): Batch {
    map rule | rule in b && (rule in sent ==> !IsZero(Minus(b[rule], sent[rule]))) ::
      if rule in sent then Minus(b[rule], sent[rule]) else b[rule]
  }

  ghost function Acknowledged(a: Account, sent: Batch): Account {
    Account(Remaining(a.batch, sent), None)
  }

  /** The configuration can report for this rule. */
  predicate Complete(key: Key, ruleID: RuleID) {
    key.panelURL != "" && key.token != "" && ruleID > 0
  }

  // ---------- The ledger in memory ----------

  class Ledger {
    var batches: map<Key, Batch>
    var pendings: map<Key, Pending>

    constructor ()
      ensures forall key :: View(key) == Account(map[], None)
    {
      batches, pendings := map[], map[];
    }

    ghost function View(key: Key): Account
      reads this
    {
      Account(if key in batches then batches[key] else map[], if key in pendings then Some(pendings[key]) else None)
    }

    /** Adds counts; nothing to add, or an incomplete configuration, changes nothing. */
    method Enqueue(key: Key, ruleID: RuleID, v: Value) returns (accepted: bool)
      modifies this`batches
      ensures accepted <==> v != Value(0, 0, 0) && key.panelURL != "" && key.token != "" && ruleID > 0
      ensures !accepted ==> batches == old(batches)
      ensures accepted ==> View(key) == old(View(key)).(batch := Added(old(View(key)).batch, ruleID, v))
      ensures accepted ==> forall rule :: rule != ruleID ==> At(View(key).batch, rule) == old(At(View(key).batch, rule))
      ensures accepted ==>
        var before, after := old(At(View(key).batch, ruleID)), At(View(key).batch, ruleID);
        after == Value(before.bytesIn + v.bytesIn, before.bytesOut + v.bytesOut, before.connections + v.connections)
      ensures forall other :: other != key ==> View(other) == old(View(other))
    {
      if IsZero(v) {
        return false;
      }
      if key.panelURL == "" || key.token == "" || ruleID <= 0 {
        return false;
      }
      var byRule := if key in batches then batches[key] else map[];
      batches := batches[key := byRule[ruleID := Plus(At(byRule, ruleID), v)]];
      return true;
    }

    /** The reports to post now; a report that is still pending is posted again under its own id. */
    method PendingSnapshot(drawn: Key -> string) returns (out: map<Key, Pending>)
      modifies this`pendings
      ensures forall key :: View(key) == Snapshotted(old(View(key)), drawn(key))
      ensures forall key :: Entry(out, key) == Due(old(View(key)), drawn(key))
    {
      var todo := batches.Keys + pendings.Keys;
      out := map[];
      while todo != {}
        invariant forall key :: key !in todo ==> View(key) == Snapshotted(old(View(key)), drawn(key))
        invariant forall key :: key !in todo ==> Entry(out, key) == Due(old(View(key)), drawn(key))
        invariant forall key :: key in todo ==> View(key) == old(View(key)) && key !in out
        decreases todo
      {
        var key :| key in todo;
        todo := todo - {key};
        var due := MakeDue(key, drawn(key));
        if due.Some? {
          out := out[key := due.value];
        }
      }
    }

    method MakeDue(key: Key, drawn: string) returns (due: Option<Pending>)
      modifies this`pendings
      ensures View(key) == Snapshotted(old(View(key)), drawn) && due == Due(old(View(key)), drawn)
      ensures forall other :: other != key ==> View(other) == old(View(other))
    {
      if key in pendings && pendings[key].body != map[] {
        return Some(pendings[key]);
      }
      if key !in batches {
        return None;
      }
      var copied := NonZero(batches[key]);
      if copied == map[] {
        return None;
      }
      var pending := Report(drawn, copied);
      pendings := pendings[key := pending];
      return Some(pending);
    }

    /** Takes what the panel has acknowledged off the batch. */
    method Acknowledge(key: Key, sent: Batch)
      modifies this
      ensures View(key) == Acknowledged(old(View(key)), sent)
      ensures forall other :: other != key ==> View(other) == old(View(other))
    {
      pendings := pendings - {key};
      var byRule := if key in batches then batches[key] else map[];
      byRule := TakeOff(byRule, sent);
      if byRule == map[] {
        batches := batches - {key};
      } else {
        batches := batches[key := byRule];
      }
    }
  }

  function Entry(out: map<Key, Pending>, key: Key): Option<Pending> {
    if key in out then Some(out[key]) else None
  }

  method TakeOff(batch: Batch, sent: Batch) returns (byRule: Batch)
    ensures byRule == Remaining(batch, sent)
  {
    byRule := batch;
    var todo := sent.Keys;
    assert sent - todo == map[];
    while todo != {}
      invariant todo <= sent.Keys
      invariant byRule == Remaining(batch, sent - todo)
      decreases todo
    {
      todo, byRule := TakeOffOne(batch, sent, todo, byRule);
    }
    assert sent - todo == sent;
  }

  method TakeOffOne(ghost batch: Batch, sent: Batch, todo: set<RuleID>, byRule: Batch) returns (todo': set<RuleID>, byRule': Batch)
    requires todo != {} && todo <= sent.Keys && byRule == Remaining(batch, sent - todo)
    ensures todo' < todo && byRule' == Remaining(batch, sent - todo')
  {
    var ruleID :| ruleID in todo;
    TakeOffNext(batch, sent, todo, ruleID);
    todo', byRule' := todo - {ruleID}, byRule;
    if ruleID in byRule {
      var current := Minus(byRule[ruleID], sent[ruleID]);
      byRule' := if IsZero(current) then byRule - {ruleID} else byRule[ruleID := current];
    }
  }

  lemma TakeOffNext(batch: Batch, sent: Batch, todo: set<RuleID>, rule: RuleID)
    requires rule in todo && todo <= sent.Keys
    ensures var before, after := Remaining(batch, sent - todo), Remaining(batch, sent - (todo - {rule}));
      if rule !in before then after == before
      else if IsZero(Minus(before[rule], sent[rule])) then after == before - {rule}
      else after == before[rule := Minus(before[rule], sent[rule])]
  {}

  // ---------- One account, its flush worker, the network and the panel ----------

  datatype Flight = Idle | Posting(report: Pending) | Confirmed(report: Pending)

  /** Everything that happens to one account: its flush worker, the reports under way, what the panel has credited. */
  datatype World = World(account: Account, flight: Flight, channel: Channel<Batch>, enqueued: Batch, credited: Batch)

  const START: World := World(Account(map[], None), Idle, Channel({}, {}, {}), map[], map[])

  datatype Step =
    | Enqueue(rule: RuleID, value: Value)
    | Flush(drawn: string)
    | Receive(report: Pending)
    | Fail
    | Reply
    | Acknowledge

  ghost predicate Enabled(w: World, s: Step) {
    match s
    case Enqueue(rule, value) => rule > 0 && !IsZero(value)
    case Flush(drawn) => w.flight.Idle? && drawn !in w.channel.used
    case Receive(report) => report in w.channel.sent
    case Fail => w.flight.Posting?
    case Reply => w.flight.Posting? && w.flight.report.id in w.channel.seen
    case Acknowledge => w.flight.Confirmed?
  }

  ghost function Credit(credited: Batch, byRule: Batch): Batch {
    map rule | rule in credited.Keys + byRule.Keys :: Plus(At(credited, rule), At(byRule, rule))
  }

  ghost function Next(w: World, s: Step): World {
    match s
    case Enqueue(rule, value) =>
      w.(account := w.account.(batch := Added(w.account.batch, rule, value)), enqueued := Added(w.enqueued, rule, value))
    case Flush(drawn) =>
      var due := Due(w.account, drawn);
      if due.None? then w
      else w.(account := Snapshotted(w.account, drawn), flight := Posting(due.value), channel := Send(Draw(w.channel, drawn), due.value))
    case Receive(report) =>
      if report.id in w.channel.seen then w
      else w.(channel := Count(w.channel, report), credited := Credit(w.credited, report.body))
    case Fail => w.(flight := Idle)
    case Reply => if w.flight.Posting? then w.(flight := Confirmed(w.flight.report)) else w
    case Acknowledge =>
      if w.flight.Confirmed? then w.(account := Acknowledged(w.account, w.flight.report.body), flight := Idle) else w
  }

  ghost predicate Legal(w: World, steps: seq<Step>)
    decreases steps
  {
    steps == [] || (Enabled(w, steps[0]) && Legal(Next(w, steps[0]), steps[1..]))
  }

  ghost function Run(w: World, steps: seq<Step>): World
    decreases steps
  {
    if steps == [] then w else Run(Next(w, steps[0]), steps[1..])
  }

  /** The part of the outstanding counts that the panel has already credited. */
  ghost function Doubtful(w: World, rule: RuleID): Value {
    if InDoubt(w.account.pending, w.channel) then At(w.account.pending.value.body, rule) else ZERO
  }

  /** Enqueued counts are credited or outstanding; only the pending report can be both. */
  ghost predicate BalancedAt(w: World, rule: RuleID) {
    Plus(At(w.enqueued, rule), Doubtful(w, rule)) == Plus(At(w.credited, rule), At(w.account.batch, rule))
  }

  /** The pending report never exceeds what is outstanding, so taking it off never saturates. */
  ghost predicate CoveredAt(a: Account, rule: RuleID) {
    a.pending.Some? ==> AtMost(At(a.pending.value.body, rule), At(a.batch, rule))
  }

  ghost predicate Accounted(w: World) {
    && Known(w.account.pending, w.channel)
    && (w.account.pending.Some? ==> w.account.pending.value.body != map[])
    && (w.flight.Posting? ==> w.account.pending == Some(w.flight.report))
    && (w.flight.Confirmed? ==> w.account.pending == Some(w.flight.report) && InDoubt(w.account.pending, w.channel))
  }

  ghost predicate Inv(w: World) {
    && (forall rule :: BalancedAt(w, rule))
    && (forall rule :: CoveredAt(w.account, rule))
    && Accounted(w)
  }

  lemma EnqueueBalances(w: World, added: RuleID, value: Value, rule: RuleID)
    requires BalancedAt(w, rule) && CoveredAt(w.account, rule)
    ensures BalancedAt(Next(w, Enqueue(added, value)), rule) && CoveredAt(Next(w, Enqueue(added, value)).account, rule)
  {
    AtAdded(w.account.batch, added, value, rule);
    AtAdded(w.enqueued, added, value, rule);
    if rule == added {
      Earn(At(w.enqueued, rule), Doubtful(w, rule), At(w.credited, rule), At(w.account.batch, rule), value);
    }
  }

  lemma FlushBalances(w: World, drawn: string, rule: RuleID)
    requires BalancedAt(w, rule) && CoveredAt(w.account, rule) && Accounted(w) && Enabled(w, Flush(drawn))
    ensures BalancedAt(Next(w, Flush(drawn)), rule) && CoveredAt(Next(w, Flush(drawn)).account, rule)
  {
    assert At(NonZero(w.account.batch), rule) == At(w.account.batch, rule);
  }

  lemma FlushAccounts(w: World, drawn: string)
    requires Accounted(w) && Enabled(w, Flush(drawn))
    ensures Accounted(Next(w, Flush(drawn)))
  {
    var due := Due(w.account, drawn);
    if due.Some? {
      if w.account.pending.None? {
        NewReport(w.channel, due.value);
      }
      SendPending(Draw(w.channel, drawn), due.value);
    }
  }

  lemma AtCredit(credited: Batch, byRule: Batch, rule: RuleID)
    ensures At(Credit(credited, byRule), rule) == Plus(At(credited, rule), At(byRule, rule))
  {
    if rule in credited || rule in byRule {
      assert rule in Credit(credited, byRule);
    } else {
      assert rule !in Credit(credited, byRule);
      PlusZero(ZERO);
    }
  }

  lemma ReceiveBalances(w: World, report: Pending, rule: RuleID)
    requires BalancedAt(w, rule) && Accounted(w) && Enabled(w, Receive(report))
    ensures BalancedAt(Next(w, Receive(report)), rule)
  {
    if report.id !in w.channel.seen {
      FirstArrival(w.account.pending, w.channel, report);
      AtCredit(w.credited, report.body, rule);
      Doubt(At(w.enqueued, rule), At(w.credited, rule), At(w.account.batch, rule), At(report.body, rule));
    }
  }

  lemma AtRemaining(b: Batch, sent: Batch, rule: RuleID)
    ensures At(Remaining(b, sent), rule) == Minus(At(b, rule), At(sent, rule))
  {
    var left := Remaining(b, sent);
    if rule in b {
      if rule in sent {
        if !IsZero(Minus(b[rule], sent[rule])) {
          assert left[rule] == Minus(b[rule], sent[rule]);
        }
      } else {
        assert left[rule] == b[rule];
        MinusZero(b[rule]);
      }
    } else {
      assert rule !in left;
    }
  }

  lemma MinusZero(v: Value)
    ensures Minus(v, ZERO) == v
  {}

  lemma AcknowledgeBalances(w: World, rule: RuleID)
    requires BalancedAt(w, rule) && CoveredAt(w.account, rule) && Accounted(w) && Enabled(w, Acknowledge)
    ensures BalancedAt(Next(w, Acknowledge), rule)
  {
    var w' := Next(w, Acknowledge);
    var sent := w.flight.report.body;
    assert Doubtful(w, rule) == At(sent, rule) && Doubtful(w', rule) == ZERO;
    AtRemaining(w.account.batch, sent, rule);
    Settle(At(w.enqueued, rule), At(w.credited, rule), At(w.account.batch, rule), At(sent, rule));
  }

  lemma StillBalances(w: World, w': World, rule: RuleID)
    requires BalancedAt(w, rule) && w' == w.(flight := w'.flight)
    ensures BalancedAt(w', rule)
  {
    assert Doubtful(w', rule) == Doubtful(w, rule);
  }

  lemma StepBalances(w: World, s: Step, rule: RuleID)
    requires BalancedAt(w, rule) && CoveredAt(w.account, rule) && Accounted(w) && Enabled(w, s)
    ensures BalancedAt(Next(w, s), rule) && CoveredAt(Next(w, s).account, rule)
  {
    match s
    case Enqueue(added, value) => EnqueueBalances(w, added, value, rule);
    case Flush(drawn) => FlushBalances(w, drawn, rule);
    case Receive(report) => ReceiveBalances(w, report, rule);
    case Acknowledge => AcknowledgeBalances(w, rule);
    case Fail => StillBalances(w, Next(w, s), rule);
    case Reply => StillBalances(w, Next(w, s), rule);
  }

  lemma StepAccounts(w: World, s: Step)
    requires Accounted(w) && Enabled(w, s)
    ensures Accounted(Next(w, s))
  {
    match s
    case Flush(drawn) => FlushAccounts(w, drawn);
    case Receive(report) => if report.id !in w.channel.seen { FirstArrival(w.account.pending, w.channel, report); }
    case Acknowledge => Finished(w.account.pending, w.channel);
    case _ =>
  }

  lemma StepKeeps(w: World, s: Step)
    requires Inv(w) && Enabled(w, s)
    ensures Inv(Next(w, s))
  {
    forall rule
      ensures BalancedAt(Next(w, s), rule) && CoveredAt(Next(w, s).account, rule)
    {
      assert BalancedAt(w, rule) && CoveredAt(w.account, rule);
      StepBalances(w, s, rule);
    }
    StepAccounts(w, s);
  }

  lemma {:induction false} RunKeeps(w: World, steps: seq<Step>)
    requires Inv(w) && Legal(w, steps)
    ensures Inv(Run(w, steps))
    decreases steps
  {
    if steps != [] {
      StepKeeps(w, steps[0]);
      RunKeeps(Next(w, steps[0]), steps[1..]);
    }
  }

  /**
   Over every run, with any reports lost, delayed or repeated on the way:
   enqueued counts are credited exactly once or still outstanding, and what an
   acknowledgement takes off is outstanding.
   */
  lemma AlwaysBalanced(steps: seq<Step>, rule: RuleID)
    requires Legal(START, steps)
    ensures var w := Run(START, steps);
      && Plus(At(w.enqueued, rule), Doubtful(w, rule)) == Plus(At(w.credited, rule), At(w.account.batch, rule))
      && (w.account.pending.Some? ==> AtMost(At(w.account.pending.value.body, rule), At(w.account.batch, rule)))
      && (w.flight.Confirmed? ==> w.account.pending == Some(w.flight.report))
  {
    RunKeeps(START, steps);
    var w := Run(START, steps);
    assert BalancedAt(w, rule) && CoveredAt(w.account, rule);
  }

  /** Never more is credited than was enqueued; once nothing is outstanding, exactly what was enqueued. */
  lemma CreditedOnce(steps: seq<Step>, rule: RuleID)
    requires Legal(START, steps)
    ensures var w := Run(START, steps);
      && AtMost(At(w.credited, rule), At(w.enqueued, rule))
      && (At(w.account.batch, rule) == ZERO ==> At(w.credited, rule) == At(w.enqueued, rule))
  {
    var w := Run(START, steps);
    AlwaysBalanced(steps, rule);
    OwnShare(At(w.enqueued, rule), Doubtful(w, rule), At(w.credited, rule), At(w.account.batch, rule));
  }

  lemma OwnShare(enqueued: Value, doubt: Value, credited: Value, batch: Value)
    requires Plus(enqueued, doubt) == Plus(credited, batch) && AtMost(doubt, batch)
    ensures AtMost(credited, enqueued) && (batch == ZERO ==> credited == enqueued)
  {}

  // ---------- Everything can be credited ----------

  lemma StepAhead(w: World, s: Step, rest: seq<Step>)
    requires Enabled(w, s) && Legal(Next(w, s), rest)
    ensures Legal(w, [s] + rest) && Run(w, [s] + rest) == Run(Next(w, s), rest)
  {
    assert ([s] + rest)[1..] == rest;
  }

  lemma {:induction false} RunsJoin(w: World, first: seq<Step>, second: seq<Step>)
    requires Legal(w, first) && Legal(Run(w, first), second)
    ensures Legal(w, first + second) && Run(w, first + second) == Run(Run(w, first), second)
    decreases first
  {
    if first == [] {
      assert first + second == second;
    } else {
      assert (first + second)[1..] == first[1..] + second;
      RunsJoin(Next(w, first[0]), first[1..], second);
    }
  }

  /** A report is posted, counted, answered and acknowledged. */
  ghost function Delivery(drawn: string, r: Pending): seq<Step> {
    [Flush(drawn), Receive(r), Reply, Acknowledge]
  }

  lemma Delivered(w: World, drawn: string, r: Pending)
    requires Inv(w) && w.flight.Idle? && drawn !in w.channel.used && Due(w.account, drawn) == Some(r)
    ensures Legal(w, Delivery(drawn, r))
    ensures var w' := Run(w, Delivery(drawn, r));
      && Inv(w') && w'.flight.Idle? && w'.account == Account(Remaining(w.account.batch, r.body), None)
      && w'.enqueued == w.enqueued && w'.channel.used == w.channel.used + {drawn}
  {
    var w1 := Next(w, Flush(drawn));
    var w2 := Next(w1, Receive(r));
    var w3 := Next(w2, Reply);
    assert Legal(Next(w3, Acknowledge), []);
    StepAhead(w3, Acknowledge, []);
    StepAhead(w2, Reply, [Acknowledge]);
    StepAhead(w1, Receive(r), [Reply, Acknowledge]);
    StepAhead(w, Flush(drawn), [Receive(r), Reply, Acknowledge]);
    RunKeeps(w, Delivery(drawn, r));
  }

  /** With no report pending, one delivery leaves nothing outstanding. */
  lemma NothingLeft(w: World, drawn: string) returns (more: seq<Step>)
    requires Inv(w) && w.flight.Idle? && drawn !in w.channel.used && w.account.pending.None?
    ensures Legal(w, more) && Run(w, more).enqueued == w.enqueued && forall rule :: At(Run(w, more).account.batch, rule) == ZERO
  {
    DueMeaning(w.account, drawn);
    var due := Due(w.account, drawn);
    if due.None? {
      more := [];
    } else {
      more := Delivery(drawn, due.value);
      Delivered(w, drawn, due.value);
      forall rule ensures At(Run(w, more).account.batch, rule) == ZERO {
        AtRemaining(w.account.batch, due.value.body, rule);
      }
    }
  }

  /** The flush worker can always come to rest, and with nothing pending. */
  lemma ComesToRest(w: World) returns (more: seq<Step>)
    requires Inv(w)
    ensures Legal(w, more) && Inv(Run(w, more)) && Run(w, more).flight.Idle?
    ensures Run(w, more).enqueued == w.enqueued && Run(w, more).channel.used == w.channel.used
  {
    if w.flight.Idle? {
      more := [];
    } else {
      var s := if w.flight.Posting? then Fail else Acknowledge;
      assert Legal(Next(w, s), []);
      StepAhead(w, s, []);
      more := [s];
      RunKeeps(w, more);
    }
  }

  lemma NonePending(w: World, drawn: string) returns (more: seq<Step>)
    requires Inv(w) && w.flight.Idle? && drawn !in w.channel.used
    ensures Legal(w, more) && Inv(Run(w, more)) && Run(w, more).flight.Idle? && Run(w, more).account.pending.None?
    ensures Run(w, more).enqueued == w.enqueued && Run(w, more).channel.used <= w.channel.used + {drawn}
  {
    more := [];
    if w.account.pending.Some? {
      DueMeaning(w.account, drawn);
      more := Delivery(drawn, w.account.pending.value);
      Delivered(w, drawn, w.account.pending.value);
    }
  }

  /**
   From wherever a run has got to, with reports lost and repeated on the way,
   posts that succeed credit exactly what was enqueued.
   */
  lemma CreditedInTheEnd(steps: seq<Step>, first: string, second: string) returns (more: seq<Step>)
    requires Legal(START, steps) && first != second && first !in Run(START, steps).channel.used && second !in Run(START, steps).channel.used
    ensures Legal(START, steps + more) && Run(START, steps + more).enqueued == Run(START, steps).enqueued
    ensures forall rule :: At(Run(START, steps + more).credited, rule) == At(Run(START, steps).enqueued, rule)
  {
    RunKeeps(START, steps);
    var w := Run(START, steps);
    var rest := ComesToRest(w);
    var w1 := Run(w, rest);
    var settle := NonePending(w1, first);
    var w2 := Run(w1, settle);
    var flush := NothingLeft(w2, second);
    RunsJoin(w1, settle, flush);
    RunsJoin(w, rest, settle + flush);
    more := rest + (settle + flush);
    RunsJoin(START, steps, more);
    forall rule ensures At(Run(START, steps + more).credited, rule) == At(w.enqueued, rule) {
      CreditedOnce(steps + more, rule);
    }
  }

  // ---------- The reporter ----------

  function Difference(current: Value, last: Value): Value
    requires AtMost(last, current)
  {
    Value(current.bytesIn - last.bytesIn, current.bytesOut - last.bytesOut, current.connections - last.connections)
  }

  /** Feeds the growth of a set of counters to the ledger. */
  class Reporter {
    const key: Key
    const ruleID: RuleID
    var last: Value

    constructor (key: Key, ruleID: RuleID)
      ensures this.key == key && this.ruleID == ruleID && last == ZERO
    {
      this.key, this.ruleID, last := key, ruleID, ZERO;
    }

    /** The growth since the last report reaches the ledger, unless the configuration is incomplete; then it is dropped. */
    method ReportDelta(current: Value, ledger: Ledger)
      requires AtMost(last, current)
      modifies this, ledger`batches
      ensures last == current
      ensures ledger.View(key) == Fed(old(ledger.View(key)), key, ruleID, Difference(current, old(last)))
    {
      var delta := Difference(current, last);
      if !IsZero(delta) {
        var accepted := ledger.Enqueue(key, ruleID, delta);
        last := current;
      } else {
        SameValue(current, last);
      }
    }
  }

  lemma SameValue(current: Value, last: Value)
    requires AtMost(last, current) && IsZero(Difference(current, last))
    ensures current == last
  {}

  /** The account after growth of its counters is reported to it. */
  ghost function Fed(a: Account, key: Key, ruleID: RuleID, growth: Value): Account {
    if IsZero(growth) || !Complete(key, ruleID) then a else a.(batch := Added(a.batch, ruleID, growth))
  }

  ghost predicate Growing(last: Value, readings: seq<Value>)
    decreases readings
  {
    readings == [] || (AtMost(last, readings[0]) && Growing(readings[0], readings[1..]))
  }

  ghost function Reported(last: Value, readings: seq<Value>): Value
    requires Growing(last, readings)
    decreases readings
  {
    if readings == [] then ZERO else Plus(Difference(readings[0], last), Reported(readings[0], readings[1..]))
  }

  /** Whatever the readings in between, what is reported adds up to the last one. */
  lemma {:induction false} ReportedAddsUp(last: Value, readings: seq<Value>)
    requires Growing(last, readings)
    decreases readings
    ensures Plus(last, Reported(last, readings)) == if readings == [] then last else readings[|readings| - 1]
  {
    if readings != [] {
      ReportedAddsUp(readings[0], readings[1..]);
    }
  }
}
