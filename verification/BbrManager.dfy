/**
 Applying and restoring kernel parameters through the undo journal.
 */
module BbrManager {
  import opened Options
  import opened BbrJournal

  lemma TraceGrows(trace: seq<World>, w: World, orig: World)
    requires AllRecoverable(trace, orig) && Recoverable(w, orig)
    ensures AllRecoverable(trace + [w], orig)
  {}

  lemma StaysRecoverable(w: World, kernel: map<string, string>, orig: World)
    requires Recoverable(w, orig) && w.record.Some? && DifferIn(kernel, w.kernel, w.record.value.managed)
    ensures Recoverable(w.(kernel := kernel), orig)
  {}

  /** Every state so far, and this one, can be undone. */
  ghost predicate Safe(host: Host, orig: World)
    reads host
  {
    Recoverable(host.Now(), orig) && AllRecoverable(host.trace, orig)
  }

  ghost predicate Managing(host: Host, keys: seq<string>)
    reads host
  {
    host.record.Some? && forall k :: k in keys ==> k in host.record.value.managed
  }

  /** Writes a managed parameter. */
  method WriteManaged(host: Host, key: string, value: string, ghost orig: World) returns (ok: bool)
    requires Safe(host, orig) && Managing(host, [key])
    modifies host`kernel, host`clock, host`trace
    ensures host.clock >= old(host.clock)
    ensures Safe(host, orig) && DifferIn(host.kernel, old(host.kernel), [key])
    ensures host.Fine(old(host.clock), host.clock) && key in old(host.kernel) && Acceptable(key, value) ==> ok && host.kernel == old(host.kernel)[key := value]
  {
    ghost var w, trace := host.Now(), host.trace;
    ok := host.Write(key, value);
    assert key in w.record.value.managed;
    StaysRecoverable(w, host.kernel, orig);
    TraceGrows(trace, host.Now(), orig);
  }

  method Check(host: Host, key: string, value: string) returns (ok: bool)
    modifies host`clock
    ensures host.clock >= old(host.clock)
    ensures ok ==> key in host.kernel && host.kernel[key] == value
    ensures host.Fine(old(host.clock), host.clock) && key in host.kernel && host.kernel[key] == value ==> ok
  {
    var actual := host.Read(key);
    return actual == Some(value);
  }

  /** The host has the parameter, and its writer takes the value. */
  ghost predicate Settable(kernel: map<string, string>, target: Entry) {
    target.key in kernel && Acceptable(target.key, target.value)
  }

  ghost predicate AllSettable(kernel: map<string, string>, targets: seq<Entry>) {
    forall i :: 0 <= i < |targets| ==> Settable(kernel, targets[i])
  }

  /** No two targets ask for different values of one parameter. */
  ghost predicate Consistent(targets: seq<Entry>) {
    forall i, j :: 0 <= i < |targets| && 0 <= j < |targets| && targets[i].key == targets[j].key ==> targets[i].value == targets[j].value
  }

  /** Sets one parameter, unless it has the value already, and checks it. */
  method SetTarget(host: Host, target: Entry, before: string, ghost orig: World) returns (ok: bool, wrote: bool)
    requires Safe(host, orig) && Managing(host, [target.key])
    modifies host`kernel, host`clock, host`trace
    ensures host.clock >= old(host.clock)
    ensures Safe(host, orig) && DifferIn(host.kernel, old(host.kernel), [target.key])
    ensures !wrote ==> host.kernel == old(host.kernel)
    ensures ok ==> target.key in host.kernel && host.kernel == old(host.kernel)[target.key := target.value]
    ensures host.Fine(old(host.clock), host.clock) && Settable(old(host.kernel), target) && (before == target.value ==> old(host.kernel)[target.key] == before) ==> ok
  {
    wrote := before != target.value;
    if wrote {
      var written := WriteManaged(host, target.key, target.value, orig);
      if !written {
        return false, true;
      }
    }
    ok := Check(host, target.key, target.value);
  }

  ghost predicate Holds(targets: seq<Entry>, before: map<string, string>, kernel: map<string, string>) {
    forall i :: 0 <= i < |targets| ==>
      targets[i].key in before && targets[i].key in kernel && before[targets[i].key] == kernel[targets[i].key]
  }

  method ReadAll(host: Host, targets: seq<Entry>) returns (before: Option<map<string, string>>)
    modifies host`clock
    ensures host.clock >= old(host.clock)
    ensures before.Some? ==> Holds(targets, before.value, host.kernel)
    ensures host.Fine(old(host.clock), host.clock) && (forall i :: 0 <= i < |targets| ==> targets[i].key in host.kernel) ==> before.Some?
  {
    var values: map<string, string> := map[];
    for i := 0 to |targets|
      invariant Holds(targets[..i], values, host.kernel) && host.clock >= old(host.clock)
    {
      var value := host.Read(targets[i].key);
      if value.None? {
        return None;
      }
      values := values[targets[i].key := value.value];
      assert targets[..i + 1] == targets[..i] + [targets[i]];
    }
    assert targets[..|targets|] == targets;
    return Some(values);
  }

  lemma DifferGrows(kernel: map<string, string>, middle: map<string, string>, base: map<string, string>, keys: seq<string>, key: string)
    requires DifferIn(middle, base, keys) && DifferIn(kernel, middle, [key])
    ensures DifferIn(kernel, base, keys + [key])
  {}

  /** When no two targets disagree, the next one can be set, and a parameter read with its value still has it. */
  lemma StillSettable(base: map<string, string>, before: map<string, string>, targets: seq<Entry>, i: nat)
    requires i < |targets| && Holds(targets, before, base) && AllSettable(base, targets) && Consistent(targets)
    ensures Settable(Override(base, targets[..i]), targets[i])
    ensures before[targets[i].key] == targets[i].value ==> Override(base, targets[..i])[targets[i].key] == targets[i].value
  {
    var target := targets[i];
    OverrideKeys(base, targets[..i]);
    assert Settable(base, target);
    if before[target.key] == target.value {
      OverrideAt(base, targets[..i], target.key, target.value);
    }
  }

  /** Sets the parameters in order, up to the first failure, and says which were attempted. */
  method SetTargets(host: Host, targets: seq<Entry>, before: map<string, string>, ghost orig: World)
    returns (ok: bool, attempted: seq<string>)
    requires Safe(host, orig) && Managing(host, KeysOf(targets)) && Holds(targets, before, host.kernel)
    modifies host`kernel, host`clock, host`trace
    ensures host.clock >= old(host.clock)
    ensures Safe(host, orig) && DifferIn(host.kernel, old(host.kernel), attempted)
    ensures forall k :: k in attempted ==> k in KeysOf(targets)
    ensures ok ==> host.kernel == Override(old(host.kernel), targets)
    ensures host.Fine(old(host.clock), host.clock) && AllSettable(old(host.kernel), targets) && Consistent(targets) ==> ok
  {
    attempted := [];
    ghost var base := host.kernel;
    for i := 0 to |targets|
      invariant Safe(host, orig) && DifferIn(host.kernel, base, attempted)
      invariant forall k :: k in attempted ==> k in KeysOf(targets)
      invariant host.kernel == Override(base, targets[..i]) && host.clock >= old(host.clock)
    {
      var target := targets[i];
      ghost var middle := host.kernel;
      assert KeysOf(targets)[i] == target.key;
      assert targets[..i + 1][..i] == targets[..i];
      if AllSettable(base, targets) && Consistent(targets) {
        StillSettable(base, before, targets, i);
      }
      var wrote: bool;
      ok, wrote := SetTarget(host, target, before[target.key], orig);
      if wrote {
        DifferGrows(host.kernel, middle, base, attempted, target.key);
        attempted := attempted + [target.key];
      }
      if !ok {
        return false, attempted;
      }
    }
    assert targets[..|targets|] == targets;
    ok := true;
  }

  lemma DifferShrinks(kernel: map<string, string>, middle: map<string, string>, base: map<string, string>, keys: seq<string>, key: string)
    requires DifferIn(middle, base, keys + [key]) && DifferIn(kernel, middle, [key])
    requires key in base && key in kernel && kernel[key] == base[key]
    ensures DifferIn(kernel, base, keys)
  {}

  /** Puts one parameter back and checks it. */
  method PutOneBack(host: Host, key: string, value: string, ghost orig: World) returns (ok: bool)
    requires Safe(host, orig) && Managing(host, [key])
    modifies host`kernel, host`clock, host`trace
    ensures host.clock >= old(host.clock)
    ensures Safe(host, orig) && DifferIn(host.kernel, old(host.kernel), [key])
    ensures ok ==> key in host.kernel && host.kernel[key] == value
    ensures host.Fine(old(host.clock), host.clock) && key in old(host.kernel) && Acceptable(key, value) ==> ok
  {
    ok := WriteManaged(host, key, value, orig);
    if ok {
      ok := Check(host, key, value);
    }
  }

  /** Puts the attempted parameters back, last first, and goes on past failures. */
  method RollBack(host: Host, attempted: seq<string>, before: map<string, string>, ghost base: map<string, string>, ghost orig: World)
    returns (clean: bool)
    requires Safe(host, orig) && Managing(host, attempted) && DifferIn(host.kernel, base, attempted)
    requires forall k :: k in attempted ==> k in before && k in base && before[k] == base[k]
    modifies host`kernel, host`clock, host`trace
    ensures host.clock >= old(host.clock)
    ensures Safe(host, orig)
    ensures clean ==> host.kernel == base
    ensures host.Fine(old(host.clock), host.clock) && (forall k :: k in attempted ==> Acceptable(k, base[k])) ==> clean
  {
    clean := true;
    var i := |attempted|;
    assert attempted[..i] == attempted;
    while i > 0
      invariant 0 <= i <= |attempted| && Safe(host, orig) && host.clock >= old(host.clock) && host.kernel.Keys == base.Keys
      invariant clean ==> DifferIn(host.kernel, base, attempted[..i])
      invariant host.Fine(old(host.clock), host.clock) && (forall k :: k in attempted ==> Acceptable(k, base[k])) ==> clean
    {
      i := i - 1;
      var key := attempted[i];
      assert key in attempted;
      ghost var middle := host.kernel;
      assert attempted[..i + 1] == attempted[..i] + [key];
      var undone := PutOneBack(host, key, before[key], orig);
      if !undone {
        clean := false;
      } else if clean {
        DifferShrinks(host.kernel, middle, base, attempted[..i], key);
      }
    }
  }

  datatype Outcome = Done | Refused | RolledBack | Stuck

  /** The plan of a transaction: its journal covers every step, and its result can be undone. */
  ghost predicate Planned(w: World, targets: seq<Entry>, config: Option<string>, journal: Record, final: Option<Record>, orig: World) {
    && Recoverable(w.(record := Some(journal)), orig)
    && (forall k :: k in KeysOf(targets) ==> k in journal.managed)
    && Recoverable(World(Override(w.kernel, targets), config, final), orig)
  }

  method Finish(host: Host, config: Option<string>, final: Option<Record>, ghost orig: World) returns (ok: bool)
    requires Safe(host, orig) && host.record.Some? && Recoverable(World(host.kernel, config, final), orig)
    modifies host`conf, host`record, host`clock, host`trace
    ensures host.clock >= old(host.clock)
    ensures Safe(host, orig)
    ensures ok ==> host.Now() == World(old(host.kernel), config, final)
    ensures !ok ==> host.record == old(host.record)
    ensures host.Fine(old(host.clock), host.clock) ==> ok
  {
    ghost var trace := host.trace;
    ok := host.ReplaceConf(config);
    TraceGrows(trace, host.Now(), orig);
    if ok {
      trace := host.trace;
      ok := host.ReplaceRecord(final);
      TraceGrows(trace, host.Now(), orig);
    }
  }

  method Undo(host: Host, attempted: seq<string>, before: map<string, string>, ghost base: World, oldConf: Option<string>, oldRecord: Option<Record>, ghost orig: World)
    returns (outcome: Outcome)
    requires Safe(host, orig) && Managing(host, attempted) && DifferIn(host.kernel, base.kernel, attempted)
    requires forall k :: k in attempted ==> k in before && k in base.kernel && before[k] == base.kernel[k]
    requires base.conf == oldConf && base.record == oldRecord && Recoverable(base, orig)
    modifies host`kernel, host`conf, host`record, host`clock, host`trace
    ensures host.clock >= old(host.clock)
    ensures Safe(host, orig) && (outcome.RolledBack? || outcome.Stuck?)
    ensures outcome.RolledBack? ==> host.Now() == base
    ensures host.Fine(old(host.clock), host.clock) && (forall k :: k in attempted ==> Acceptable(k, base.kernel[k])) ==> outcome.RolledBack?
  {
    var clean := RollBack(host, attempted, before, base.kernel, orig);
    ghost var trace := host.trace;
    var restored := host.ReplaceConf(oldConf);
    TraceGrows(trace, host.Now(), orig);
    if !clean || !restored {
      return Stuck;
    }
    trace := host.trace;
    var dropped := host.ReplaceRecord(oldRecord);
    TraceGrows(trace, host.Now(), orig);
    return if dropped then RolledBack else Stuck;
  }

  /** Sets the targets, then the config file and the record; what was attempted is all that may differ when it fails. */
  method Attempt(host: Host, targets: seq<Entry>, before: map<string, string>, config: Option<string>, final: Option<Record>, ghost orig: World)
    returns (done: bool, attempted: seq<string>)
    requires Safe(host, orig) && Managing(host, KeysOf(targets)) && Holds(targets, before, host.kernel)
    requires Recoverable(World(Override(host.kernel, targets), config, final), orig)
    modifies host`kernel, host`conf, host`record, host`clock, host`trace
    ensures host.clock >= old(host.clock)
    ensures Safe(host, orig) && DifferIn(host.kernel, old(host.kernel), attempted) && forall k :: k in attempted ==> k in KeysOf(targets)
    ensures if done then host.Now() == World(Override(old(host.kernel), targets), config, final) else host.record == old(host.record)
    ensures host.Fine(old(host.clock), host.clock) && AllSettable(old(host.kernel), targets) && Consistent(targets) ==> done
  {
    done, attempted := SetTargets(host, targets, before, orig);
    if done {
      done := Finish(host, config, final, orig);
    }
  }

  /** All that may have to be written can be: the new values, and the present ones. */
  ghost predicate Writable(kernel: map<string, string>, targets: seq<Entry>) {
    forall i :: 0 <= i < |targets| ==>
      && Acceptable(targets[i].key, targets[i].value)
      && (targets[i].key in kernel ==> Acceptable(targets[i].key, kernel[targets[i].key]))
  }

  /** The journal is saved: all is attempted, and undone when that fails. */
  method AttemptOrUndo(host: Host, targets: seq<Entry>, before: map<string, string>, config: Option<string>, final: Option<Record>,
                       ghost base: World, oldConf: Option<string>, oldRecord: Option<Record>, ghost orig: World)
    returns (outcome: Outcome)
    requires Safe(host, orig) && Managing(host, KeysOf(targets)) && Holds(targets, before, host.kernel)
    requires Recoverable(World(Override(host.kernel, targets), config, final), orig)
    requires base == World(host.kernel, oldConf, oldRecord) && Recoverable(base, orig)
    modifies host`kernel, host`conf, host`record, host`clock, host`trace
    ensures host.clock >= old(host.clock)
    ensures Safe(host, orig) && !outcome.Refused?
    ensures outcome.Done? ==> host.Now() == World(Override(base.kernel, targets), config, final)
    ensures outcome.RolledBack? ==> host.Now() == base
    ensures host.Fine(old(host.clock), host.clock) && AllSettable(base.kernel, targets) && Consistent(targets) ==> outcome.Done?
    ensures host.AtMostOneFault(old(host.clock), host.clock) && Writable(base.kernel, targets) && Consistent(targets) ==> !outcome.Stuck?
  {
    ghost var begun := host.clock;
    TargetsHeld(targets, before, host.kernel);
    var done, attempted := Attempt(host, targets, before, config, final, orig);
    if done {
      return Done;
    }
    ghost var failed := host.clock;
    outcome := Undo(host, attempted, before, base, oldConf, oldRecord, orig);
    if host.AtMostOneFault(begun, host.clock) && Writable(base.kernel, targets) && Consistent(targets) {
      assert AllSettable(base.kernel, targets);
      host.FineAfterFault(begun, failed, host.clock);
      AttemptedWritable(base.kernel, targets, attempted);
    }
  }

  lemma TargetsHeld(targets: seq<Entry>, before: map<string, string>, kernel: map<string, string>)
    requires Holds(targets, before, kernel)
    ensures forall k :: k in KeysOf(targets) ==> k in before && k in kernel && before[k] == kernel[k]
  {}

  /**
   Changes parameters, config and record together. It is done completely, or
   refused before anything changed, or rolled back to where it started, or
   stuck with its journal saved; every state on the way can be undone. When a
   single operation goes wrong it is never stuck.
   */
  method Transaction(host: Host, targets: seq<Entry>, config: Option<string>, journal: Record, final: Option<Record>, ghost orig: World)
    returns (outcome: Outcome)
    requires Safe(host, orig) && Planned(host.Now(), targets, config, journal, final, orig)
    modifies host`kernel, host`conf, host`record, host`clock, host`trace
    ensures host.clock >= old(host.clock)
    ensures Safe(host, orig)
    ensures outcome.Done? ==> host.Now() == World(Override(old(host.kernel), targets), config, final)
    ensures outcome.Refused? || outcome.RolledBack? ==> host.Now() == old(host.Now())
    ensures host.Fine(old(host.clock), host.clock) && AllSettable(old(host.kernel), targets) && Consistent(targets) ==> outcome.Done?
    ensures host.AtMostOneFault(old(host.clock), host.clock) && Writable(old(host.kernel), targets) && Consistent(targets) ==> !outcome.Stuck?
  {
    ghost var base := host.Now();
    var before := ReadAll(host, targets);
    if before.None? {
      return Refused;
    }
    var unreadable := host.Fails();
    if unreadable {
      return Refused;
    }
    var oldConf, oldRecord := host.conf, host.record;
    ghost var trace := host.trace;
    var saved := host.ReplaceRecord(Some(journal));
    TraceGrows(trace, host.Now(), orig);
    if !saved {
      return Refused;
    }
    outcome := AttemptOrUndo(host, targets, before.value, config, final, base, oldConf, oldRecord, orig);
  }

  lemma AttemptedWritable(kernel: map<string, string>, targets: seq<Entry>, attempted: seq<string>)
    requires Writable(kernel, targets) && forall k :: k in attempted ==> k in KeysOf(targets) && k in kernel
    ensures forall k :: k in attempted ==> Acceptable(k, kernel[k])
  {
    forall k | k in attempted ensures Acceptable(k, kernel[k]) {
      var i :| 0 <= i < |targets| && KeysOf(targets)[i] == k;
      assert targets[i].key == k;
    }
  }

  // ---------- Keys of entries ----------

  lemma KeysOfAppend(a: seq<Entry>, b: seq<Entry>)
    ensures KeysOf(a + b) == KeysOf(a) + KeysOf(b)
  {}

  lemma KeysOfNext(entries: seq<Entry>, i: nat)
    requires i < |entries|
    ensures entries[..i + 1] == entries[..i] + [entries[i]]
    ensures KeysOf(entries[..i + 1]) == KeysOf(entries[..i]) + [entries[i].key]
    ensures DistinctStrings(KeysOf(entries)) ==> entries[i].key !in KeysOf(entries[..i])
  {
    assert forall j :: 0 <= j <= i ==> KeysOf(entries[..i + 1])[j] == KeysOf(entries)[j];
    assert forall j :: 0 <= j < i ==> KeysOf(entries[..i])[j] == KeysOf(entries)[j];
    assert KeysOf(entries)[i] == entries[i].key;
  }

  /** The key of an entry belongs to it alone. */
  lemma KeyAt(entries: seq<Entry>, k: string) returns (i: nat)
    requires k in KeysOf(entries) && DistinctStrings(KeysOf(entries))
    ensures i < |entries| && entries[i].key == k && forall j :: 0 <= j < |entries| && entries[j].key == k ==> j == i
  {
    i :| 0 <= i < |entries| && KeysOf(entries)[i] == k;
    forall j | 0 <= j < |entries| && entries[j].key == k ensures j == i {
      assert KeysOf(entries)[j] == k;
    }
  }

  lemma NoKey(entries: seq<Entry>, k: string)
    requires k !in KeysOf(entries)
    ensures forall j :: 0 <= j < |entries| ==> entries[j].key != k
  {
    forall j | 0 <= j < |entries| ensures entries[j].key != k {
      assert KeysOf(entries)[j] == entries[j].key;
    }
  }

  // ---------- Apply and restore ----------

  /** The saved record is usable: its values are acceptable and its managed keys, each once, have one. */
  predicate Loads(r: Record) {
    && (forall k :: k in r.values ==> Acceptable(k, r.values[k]))
    && (forall i :: 0 <= i < |r.managed| ==> r.managed[i] in r.values && r.managed[i] !in r.managed[..i])
  }

  /** There is no record, or one that loads. */
  predicate Usable(record: Option<Record>) {
    record.Some? ==> Loads(record.value)
  }

  /** A record the plugin saved fails to load only over a value that its own parser does not accept. */
  lemma SavedRecordLoads(r: Record, orig: World)
    requires GoodRecord(r, orig)
    ensures Loads(r) <==> forall k :: k in r.values ==> Acceptable(k, orig.kernel[k])
  {
    forall i | 0 <= i < |r.managed|
      ensures r.managed[i] in r.values && r.managed[i] !in r.managed[..i]
    {
      assert forall j :: 0 <= j < i ==> r.managed[..i][j] == r.managed[j] && r.managed[j] != r.managed[i];
    }
  }

  method LoadState(host: Host) returns (state: Result<Option<Record>, string>)
    modifies host`clock
    ensures host.clock >= old(host.clock)
    ensures state.Ok? ==> state.value == host.record
    ensures state == Ok(host.record) || state.Err?
    ensures host.record.Some? && !Loads(host.record.value) ==> state.Err?
    ensures host.Fine(old(host.clock), host.clock) && Usable(host.record) ==> state.Ok?
  {
    var unreadable := host.Fails();
    if unreadable {
      return Err("unreadable");
    }
    if host.record.Some? && !Loads(host.record.value) {
      return Err("damaged");
    }
    return Ok(host.record);
  }

  /** The record an apply starts from: the saved one, or a new one that keeps the config file of now. */
  ghost function Basis(w: World): Record {
    match w.record
    case Some(r) => r
    case None => Record(map[], [], w.conf)
  }

  lemma BasisGood(w: World, orig: World)
    requires Recoverable(w, orig)
    ensures GoodRecord(Basis(w), orig)
    ensures forall k :: k in w.kernel && w.kernel[k] != orig.kernel[k] ==> k in Basis(w).managed
  {}

  /** The values of the basis, with the present ones of the given keys that it does not have. */
  ghost predicate ValuesRecorded(values: map<string, string>, basis: map<string, string>, kernel: map<string, string>, entries: seq<Entry>) {
    && (forall k :: k in basis ==> k in values && values[k] == basis[k])
    && (forall k :: k in values && k !in basis ==> k in kernel && values[k] == kernel[k] && k in KeysOf(entries))
    && (forall i :: 0 <= i < |entries| ==> entries[i].key in values)
  }

  method RecordValues(host: Host, basis: map<string, string>, entries: seq<Entry>) returns (values: Option<map<string, string>>)
    modifies host`clock
    ensures host.clock >= old(host.clock)
    ensures values.Some? ==> ValuesRecorded(values.value, basis, host.kernel, entries)
    ensures host.Fine(old(host.clock), host.clock) && (forall i :: 0 <= i < |entries| ==> entries[i].key in host.kernel) ==> values.Some?
  {
    var recorded := basis;
    for i := 0 to |entries|
      invariant ValuesRecorded(recorded, basis, host.kernel, entries[..i]) && host.clock >= old(host.clock)
    {
      KeysOfNext(entries, i);
      if entries[i].key !in recorded {
        var value := host.Read(entries[i].key);
        if value.None? {
          return None;
        }
        recorded := recorded[entries[i].key := value.value];
      }
    }
    assert entries[..|entries|] == entries;
    return Some(recorded);
  }

  lemma RecordedKeys(values: map<string, string>, basis: map<string, string>, kernel: map<string, string>, entries: seq<Entry>)
    requires ValuesRecorded(values, basis, kernel, entries)
    ensures values.Keys == basis.Keys + Selected(entries)
  {
    forall k ensures k in KeysOf(entries) <==> k in Selected(entries) {
      if k in KeysOf(entries) {
        var i :| 0 <= i < |entries| && KeysOf(entries)[i] == k;
        assert entries[i].key in Selected(entries);
      }
      if k in Selected(entries) {
        var i :| 0 <= i < |entries| && entries[i].key == k;
        assert KeysOf(entries)[i] == k;
      }
    }
  }

  /** These targets put every managed key outside the selection back to its recorded value, and touch no other. */
  ghost predicate PutsBack(targets: seq<Entry>, managed: seq<string>, selected: set<string>, values: map<string, string>) {
    && (forall i :: 0 <= i < |targets| ==> targets[i].key in managed && targets[i].key !in selected)
    && (forall i :: 0 <= i < |targets| ==> targets[i].key in values && targets[i].value == values[targets[i].key])
    && (forall k :: k in managed && k !in selected ==> k in KeysOf(targets))
  }


  method PutBack(managed: seq<string>, selected: set<string>, values: map<string, string>) returns (targets: seq<Entry>)
    requires forall k :: k in managed ==> k in values
    ensures PutsBack(targets, managed, selected, values)
  {
    targets := [];
    for i := 0 to |managed|
      invariant PutsBack(targets, managed[..i], selected, values)
    {
      assert managed[..i + 1] == managed[..i] + [managed[i]];
      if managed[i] !in selected {
        var target := Entry(managed[i], values[managed[i]]);
        KeysOfNext(targets + [target], |targets|);
        assert (targets + [target])[..|targets|] == targets;
        targets := targets + [target];
      }
    }
    assert managed[..|managed|] == managed;
  }

  /** The managed keys with the new ones of the selection behind them. */
  ghost predicate Extends(extended: seq<string>, managed: seq<string>, keys: seq<string>) {
    && DistinctStrings(extended)
    && (forall k :: k in extended <==> k in managed || k in keys)
  }

  method ExtendManaged(managed: seq<string>, entries: seq<Entry>) returns (extended: seq<string>)
    requires DistinctStrings(managed) && DistinctStrings(KeysOf(entries))
    ensures Extends(extended, managed, KeysOf(entries))
  {
    extended := managed;
    for i := 0 to |entries|
      invariant Extends(extended, managed, KeysOf(entries[..i]))
    {
      KeysOfNext(entries, i);
      if entries[i].key !in managed {
        extended := extended + [entries[i].key];
      }
    }
    assert entries[..|entries|] == entries;
  }

  lemma {:induction false} OverrideAt(kernel: map<string, string>, entries: seq<Entry>, k: string, v: string)
    requires forall i :: 0 <= i < |entries| && entries[i].key == k ==> entries[i].value == v
    requires k in KeysOf(entries) || (k in kernel && kernel[k] == v)
    ensures k in Override(kernel, entries) && Override(kernel, entries)[k] == v
  {
    if entries != [] {
      var n := |entries| - 1;
      KeysOfNext(entries, n);
      assert entries[..n + 1] == entries;
      if entries[n].key != k {
        OverrideAt(kernel, entries[..n], k, v);
      }
    }
  }

  lemma {:induction false} OverrideKeys(kernel: map<string, string>, entries: seq<Entry>)
    requires forall k :: k in KeysOf(entries) ==> k in kernel
    ensures Override(kernel, entries).Keys == kernel.Keys
  {
    if entries != [] {
      var n := |entries| - 1;
      KeysOfNext(entries, n);
      assert entries[..n + 1] == entries;
      OverrideKeys(kernel, entries[..n]);
    }
  }

  /** What an apply has prepared when its transaction starts. */
  ghost predicate Prepared(w: World, entries: seq<Entry>, back: seq<Entry>, journal: Record) {
    var basis := Basis(w);
    && ValuesRecorded(journal.values, basis.values, w.kernel, entries)
    && Extends(journal.managed, basis.managed, KeysOf(entries))
    && journal.original == basis.original
    && PutsBack(back, basis.managed, Selected(entries), journal.values)
  }

  ghost function Selected(entries: seq<Entry>): set<string> {
    set i | 0 <= i < |entries| :: entries[i].key
  }

  lemma JournalGood(w: World, entries: seq<Entry>, back: seq<Entry>, journal: Record, orig: World)
    requires Recoverable(w, orig) && Prepared(w, entries, back, journal)
    ensures GoodRecord(journal, orig) && Recoverable(w.(record := Some(journal)), orig)
    ensures forall k :: k in KeysOf(back + entries) ==> k in journal.managed
    ensures forall k :: k in KeysOf(entries) ==> k in journal.managed
  {
    BasisGood(w, orig);
    KeysOfAppend(back, entries);
  }

  lemma TargetsKnown(w: World, entries: seq<Entry>, back: seq<Entry>, journal: Record, orig: World)
    requires Recoverable(w, orig) && Prepared(w, entries, back, journal) && GoodRecord(journal, orig)
    ensures Override(w.kernel, back + entries).Keys == Override(orig.kernel, entries).Keys == w.kernel.Keys
  {
    JournalGood(w, entries, back, journal, orig);
    OverrideKeys(w.kernel, back + entries);
    OverrideKeys(orig.kernel, entries);
  }

  /** The outcome, parameter by parameter: the selection is set, everything else has its original value. */
  lemma AppliedValues(w: World, entries: seq<Entry>, back: seq<Entry>, journal: Record, orig: World)
    requires Recoverable(w, orig) && Prepared(w, entries, back, journal) && DistinctStrings(KeysOf(entries))
    ensures Override(w.kernel, back + entries) == Override(orig.kernel, entries)
  {
    JournalGood(w, entries, back, journal, orig);
    TargetsKnown(w, entries, back, journal, orig);
    forall k | k in w.kernel
      ensures Override(w.kernel, back + entries)[k] == Override(orig.kernel, entries)[k]
    {
      AppliedValue(w, entries, back, journal, orig, k);
    }
  }

  lemma AppliedValue(w: World, entries: seq<Entry>, back: seq<Entry>, journal: Record, orig: World, k: string)
    requires Recoverable(w, orig) && Prepared(w, entries, back, journal) && DistinctStrings(KeysOf(entries))
    requires k in w.kernel && GoodRecord(journal, orig)
    ensures k in Override(w.kernel, back + entries) && k in Override(orig.kernel, entries)
    ensures Override(w.kernel, back + entries)[k] == Override(orig.kernel, entries)[k]
  {
    KeysOfAppend(back, entries);
    if k in KeysOf(entries) {
      var i := KeyAt(entries, k);
      assert k in Selected(entries);
      OverrideAt(w.kernel, back + entries, k, entries[i].value);
      OverrideAt(orig.kernel, entries, k, entries[i].value);
    } else {
      NoKey(entries, k);
      assert k !in Selected(entries);
      BasisGood(w, orig);
      OverrideAt(w.kernel, back + entries, k, orig.kernel[k]);
      OverrideAt(orig.kernel, entries, k, orig.kernel[k]);
    }
  }

  lemma ApplyPlanned(w: World, entries: seq<Entry>, back: seq<Entry>, journal: Record, config: string, orig: World)
    requires Recoverable(w, orig) && Prepared(w, entries, back, journal) && DistinctStrings(KeysOf(entries))
    ensures Planned(w, back + entries, Some(config), journal, Some(journal.(managed := KeysOf(entries))), orig)
  {
    JournalGood(w, entries, back, journal, orig);
    AppliedValues(w, entries, back, journal, orig);
    FinalGood(entries, journal, orig);
    OthersOriginal(entries, journal, orig);
  }

  lemma FinalGood(entries: seq<Entry>, journal: Record, orig: World)
    requires GoodRecord(journal, orig) && DistinctStrings(KeysOf(entries))
    requires forall k :: k in KeysOf(entries) ==> k in journal.managed
    ensures GoodRecord(journal.(managed := KeysOf(entries)), orig)
  {}

  lemma OthersOriginal(entries: seq<Entry>, journal: Record, orig: World)
    requires GoodRecord(journal, orig) && forall k :: k in KeysOf(entries) ==> k in journal.managed
    ensures Override(orig.kernel, entries).Keys == orig.kernel.Keys
    ensures forall k :: k in orig.kernel && Override(orig.kernel, entries)[k] != orig.kernel[k] ==> k in KeysOf(entries)
  {
    OverrideKeys(orig.kernel, entries);
    forall k | k in orig.kernel && k !in KeysOf(entries)
      ensures Override(orig.kernel, entries)[k] == orig.kernel[k]
    {
      NoKey(entries, k);
      OverrideAt(orig.kernel, entries, k, orig.kernel[k]);
    }
  }

  method SelectedKeys(entries: seq<Entry>) returns (selected: set<string>, keys: seq<string>)
    ensures selected == Selected(entries) && keys == KeysOf(entries)
  {
    selected, keys := {}, [];
    for i := 0 to |entries|
      invariant selected == Selected(entries[..i]) && keys == KeysOf(entries[..i])
    {
      KeysOfNext(entries, i);
      assert Selected(entries[..i + 1]) == Selected(entries[..i]) + {entries[i].key} by {
        assert entries[..i + 1][i] == entries[i];
        forall k | k in Selected(entries[..i]) ensures k in Selected(entries[..i + 1]) {
          var j :| 0 <= j < i && entries[..i][j].key == k;
          assert entries[..i + 1][j].key == k;
        }
      }
      selected, keys := selected + {entries[i].key}, keys + [entries[i].key];
    }
    assert entries[..|entries|] == entries;
  }

  /** The targets of an apply ask for acceptable values when the record is usable, and never for two values of one parameter. */
  lemma TargetsAcceptable(w: World, entries: seq<Entry>, back: seq<Entry>, journal: Record, orig: World)
    requires Recoverable(w, orig) && Prepared(w, entries, back, journal) && Parsed(entries) && Usable(w.record)
    ensures forall i :: 0 <= i < |back + entries| ==> Acceptable((back + entries)[i].key, (back + entries)[i].value)
    ensures Consistent(back + entries)
  {
    BasisGood(w, orig);
    JournalGood(w, entries, back, journal, orig);
    var targets := back + entries;
    forall i | 0 <= i < |targets| ensures Acceptable(targets[i].key, targets[i].value) {
      if i < |back| {
        assert targets[i] == back[i] && back[i].key in Basis(w).managed;
      } else {
        assert targets[i] == entries[i - |back|];
      }
    }
    forall i, j | 0 <= i < |targets| && 0 <= j < |targets| && targets[i].key == targets[j].key
      ensures targets[i].value == targets[j].value
    {
      TargetValue(w, entries, back, journal, i);
      TargetValue(w, entries, back, journal, j);
    }
  }

  /** Every target of an apply is managed already or named now. */
  lemma TargetNamed(w: World, entries: seq<Entry>, back: seq<Entry>, journal: Record, i: nat)
    requires Prepared(w, entries, back, journal) && i < |back + entries|
    ensures (back + entries)[i].key in Basis(w).managed || (back + entries)[i].key in Selected(entries)
  {
    if i < |back| {
      assert (back + entries)[i] == back[i];
    } else {
      assert (back + entries)[i] == entries[i - |back|];
    }
  }

  /** The present values of the parameters that an apply may touch are acceptable. */
  ghost predicate Rewritable(w: World, entries: seq<Entry>) {
    forall k :: (k in Basis(w).managed || k in Selected(entries)) && k in w.kernel ==> Acceptable(k, w.kernel[k])
  }

  /** The host has all the named parameters. */
  ghost predicate HasAll(kernel: map<string, string>, entries: seq<Entry>) {
    forall i :: 0 <= i < |entries| ==> entries[i].key in kernel
  }

  /** What an apply needs of its transaction. */
  lemma ApplyReady(w: World, entries: seq<Entry>, back: seq<Entry>, journal: Record, text: string, orig: World)
    requires Recoverable(w, orig) && Prepared(w, entries, back, journal) && Parsed(entries)
    ensures Planned(w, back + entries, Some(text), journal, Some(journal.(managed := KeysOf(entries))), orig)
    ensures Override(w.kernel, back + entries) == Override(orig.kernel, entries)
    ensures Usable(w.record) ==> Consistent(back + entries)
    ensures Usable(w.record) && HasAll(w.kernel, entries) ==> AllSettable(w.kernel, back + entries)
    ensures Usable(w.record) && Rewritable(w, entries) ==> Writable(w.kernel, back + entries)
  {
    ApplyPlanned(w, entries, back, journal, text, orig);
    AppliedValues(w, entries, back, journal, orig);
    BasisGood(w, orig);
    if Usable(w.record) {
      TargetsAcceptable(w, entries, back, journal, orig);
    }
    forall i | 0 <= i < |back + entries|
      ensures (back + entries)[i].key in Basis(w).managed || (back + entries)[i].key in Selected(entries)
    {
      TargetNamed(w, entries, back, journal, i);
    }
  }

  /** A target asks for the selected value of its parameter, or else for the recorded one. */
  lemma TargetValue(w: World, entries: seq<Entry>, back: seq<Entry>, journal: Record, i: nat)
    requires Prepared(w, entries, back, journal) && DistinctStrings(KeysOf(entries)) && i < |back + entries|
    ensures var t := (back + entries)[i];
      if t.key in Selected(entries) then forall j :: 0 <= j < |entries| && entries[j].key == t.key ==> entries[j].value == t.value
      else t.key in journal.values && t.value == journal.values[t.key]
    ensures (back + entries)[i].key in Selected(entries) ==> exists j :: 0 <= j < |entries| && entries[j].key == (back + entries)[i].key
  {
    if i >= |back| {
      var t := entries[i - |back|];
      assert KeysOf(entries)[i - |back|] == t.key;
      assert t.key in Selected(entries);
      var k := KeyAt(entries, t.key);
    }
  }

  /** A transaction, after a look whether all its targets can be read. */
  method ReadAndTransact(host: Host, targets: seq<Entry>, config: Option<string>, journal: Record, final: Option<Record>, ghost orig: World)
    returns (outcome: Outcome)
    requires Safe(host, orig) && Planned(host.Now(), targets, config, journal, final, orig)
    modifies host`kernel, host`conf, host`record, host`clock, host`trace
    ensures host.clock >= old(host.clock)
    ensures Safe(host, orig)
    ensures outcome.Done? ==> host.Now() == World(Override(old(host.kernel), targets), config, final)
    ensures outcome.Refused? || outcome.RolledBack? ==> host.Now() == old(host.Now())
    ensures host.Fine(old(host.clock), host.clock) && AllSettable(old(host.kernel), targets) && Consistent(targets) ==> outcome.Done?
    ensures host.AtMostOneFault(old(host.clock), host.clock) && Writable(old(host.kernel), targets) && Consistent(targets) ==> !outcome.Stuck?
  {
    var readable := ReadAll(host, targets);
    var unprepared := host.Fails();
    if readable.None? || unprepared {
      return Refused;
    }
    outcome := Transaction(host, targets, config, journal, final, orig);
  }

  /**
   Applies a parsed configuration. When it is done, the parameters it names
   have their new values and all others their original ones.
   */
  method Apply(host: Host, entries: seq<Entry>, text: string, ghost orig: World) returns (outcome: Outcome)
    requires Safe(host, orig) && Parsed(entries)
    modifies host`kernel, host`conf, host`record, host`clock, host`trace
    ensures host.clock >= old(host.clock)
    ensures Safe(host, orig)
    ensures outcome.Done? ==>
      && host.kernel == Override(orig.kernel, entries) && host.conf == Some(text)
      && host.record.Some? && host.record.value.managed == KeysOf(entries)
      && host.record.value.values.Keys == Basis(old(host.Now())).values.Keys + Selected(entries)
    ensures outcome.Refused? || outcome.RolledBack? ==> host.Now() == old(host.Now())
    ensures !Usable(old(host.record)) ==> outcome.Refused? && host.trace == old(host.trace)
    ensures host.Fine(old(host.clock), host.clock) && Usable(old(host.record)) && HasAll(old(host.kernel), entries) ==> outcome.Done?
    ensures host.AtMostOneFault(old(host.clock), host.clock) && Usable(old(host.record)) && Rewritable(old(host.Now()), entries) ==> !outcome.Stuck?
  {
    ghost var w := host.Now();
    BasisGood(w, orig);
    var state := LoadState(host);
    if state.Err? {
      return Refused;
    }
    var unreadable := host.Fails();
    if state.value.None? && unreadable {
      return Refused;
    }
    var basis := if state.value.Some? then state.value.value else Record(map[], [], host.conf);
    assert basis == Basis(w);
    var values := RecordValues(host, basis.values, entries);
    if values.None? {
      return Refused;
    }
    var selected, keys := SelectedKeys(entries);
    var back := PutBack(basis.managed, selected, values.value);
    var managed := ExtendManaged(basis.managed, entries);
    RecordedKeys(values.value, basis.values, host.kernel, entries);
    outcome := ApplyPrepared(host, entries, text, back, Record(values.value, managed, basis.original), keys, orig);
  }

  method ApplyPrepared(host: Host, entries: seq<Entry>, text: string, back: seq<Entry>, journal: Record, keys: seq<string>, ghost orig: World)
    returns (outcome: Outcome)
    requires Safe(host, orig) && Parsed(entries) && Prepared(host.Now(), entries, back, journal) && keys == KeysOf(entries)
    modifies host`kernel, host`conf, host`record, host`clock, host`trace
    ensures host.clock >= old(host.clock)
    ensures Safe(host, orig)
    ensures outcome.Done? ==>
      && host.kernel == Override(orig.kernel, entries) && host.conf == Some(text)
      && host.record == Some(journal.(managed := keys))
    ensures outcome.Refused? || outcome.RolledBack? ==> host.Now() == old(host.Now())
    ensures host.Fine(old(host.clock), host.clock) && Usable(old(host.record)) && HasAll(old(host.kernel), entries) ==> outcome.Done?
    ensures host.AtMostOneFault(old(host.clock), host.clock) && Usable(old(host.record)) && Rewritable(old(host.Now()), entries) ==> !outcome.Stuck?
  {
    ApplyReady(host.Now(), entries, back, journal, text, orig);
    outcome := ReadAndTransact(host, back + entries, Some(text), journal, Some(journal.(managed := keys)), orig);
  }

  lemma RestorePlanned(w: World, r: Record, back: seq<Entry>, orig: World)
    requires Recoverable(w, orig) && w.record == Some(r) && PutsBack(back, r.managed, {}, r.values)
    ensures Override(w.kernel, back) == orig.kernel
    ensures Planned(w, back, r.original, r, None, orig)
    ensures Loads(r) ==> AllSettable(w.kernel, back) && Consistent(back)
    ensures Loads(r) && Rewritable(w, []) ==> Writable(w.kernel, back)
  {
    forall k | k in KeysOf(back) ensures k in r.managed && k in w.kernel {
      var i :| 0 <= i < |back| && KeysOf(back)[i] == k;
    }
    OverrideKeys(w.kernel, back);
    forall k | k in w.kernel ensures Override(w.kernel, back)[k] == orig.kernel[k] {
      OverrideAt(w.kernel, back, k, orig.kernel[k]);
    }
    assert w.(record := Some(r)) == w;
  }

  /** Undoes the plugin: when it is done, every parameter and the config file are as they were before it. */
  method Restore(host: Host, ghost orig: World) returns (outcome: Outcome)
    requires Safe(host, orig)
    modifies host`kernel, host`conf, host`record, host`clock, host`trace
    ensures host.clock >= old(host.clock)
    ensures Safe(host, orig)
    ensures outcome.Done? ==> host.Now() == World(orig.kernel, orig.conf, None)
    ensures outcome.Refused? || outcome.RolledBack? ==> host.Now() == old(host.Now())
    ensures old(host.record).None? || !Usable(old(host.record)) ==> outcome.Refused? && host.trace == old(host.trace)
    ensures host.Fine(old(host.clock), host.clock) && old(host.record).Some? && Usable(old(host.record)) ==> outcome.Done?
    ensures host.AtMostOneFault(old(host.clock), host.clock) && Usable(old(host.record)) && Rewritable(old(host.Now()), []) ==> !outcome.Stuck?
  {
    var state := LoadState(host);
    if state.Err? || state.value.None? {
      return Refused;
    }
    var r := state.value.value;
    var back := PutBack(r.managed, {}, r.values);
    var unprepared := host.Fails();
    if unprepared {
      return Refused;
    }
    RestorePlanned(host.Now(), r, back, orig);
    outcome := Transaction(host, back, r.original, r, None, orig);
  }

  // ---------- The life of a host ----------

  datatype Command = ApplyEntries(entries: seq<Entry>, text: string) | RestoreOriginal

  /** A run of the plugin, with what goes wrong in it, and the state it is killed in, if it is. */
  datatype Deed = Deed(command: Command, faults: nat -> Fault, crash: Option<nat>)

  method Perform(host: Host, command: Command, ghost orig: World) returns (outcome: Outcome)
    requires Safe(host, orig) && (command.ApplyEntries? ==> Parsed(command.entries))
    modifies host`kernel, host`conf, host`record, host`clock, host`trace
    ensures host.clock >= old(host.clock)
    ensures Safe(host, orig)
    ensures outcome.Done? && command.RestoreOriginal? ==> host.Now() == World(orig.kernel, orig.conf, None)
    ensures !Usable(old(host.record)) ==> outcome.Refused? && host.Now() == old(host.Now()) && host.trace == old(host.trace)
  {
    match command
    case ApplyEntries(entries, text) => outcome := Apply(host, entries, text, orig);
    case RestoreOriginal => outcome := Restore(host, orig);
  }

  /**
   Any number of applies and restores, with any faults and killed anywhere:
   the host can still be undone, and a restore that is done brings back
   exactly the state from before the first of them.
   */
  method Live(start: World, deeds: seq<Deed>) returns (end: World, outcome: Option<Outcome>)
    requires start.record == None
    requires forall i :: 0 <= i < |deeds| && deeds[i].command.ApplyEntries? ==> Parsed(deeds[i].command.entries)
    ensures Recoverable(end, start)
    ensures deeds != [] && deeds[|deeds| - 1].command.RestoreOriginal? && outcome == Some(Done) ==> end == start
  {
    end, outcome := start, None;
    for i := 0 to |deeds|
      invariant Recoverable(end, start)
      invariant i > 0 && deeds[i - 1].command.RestoreOriginal? && outcome == Some(Done) ==> end == start
    {
      var host := new Host(end.kernel, end.conf, end.record, deeds[i].faults);
      var result := Perform(host, deeds[i].command, start);
      end, outcome := host.Now(), Some(result);
      if deeds[i].crash.Some? && deeds[i].crash.value < |host.trace| {
        end, outcome := host.trace[deeds[i].crash.value], None;
      }
    }
  }

  // ---------- Apply and then restore ----------

  ghost predicate Flawless(faults: nat -> Fault) {
    forall n :: !faults(n).fails && faults(n).effect.None?
  }

  /** The parser accepts what the named parameters hold. */
  ghost predicate Restorable(kernel: map<string, string>, entries: seq<Entry>) {
    forall i :: 0 <= i < |entries| ==> entries[i].key in kernel && Acceptable(entries[i].key, kernel[entries[i].key])
  }

  /** The record of a first apply loads exactly when the original values are acceptable. */
  lemma FirstRecordLoads(r: Record, orig: World, entries: seq<Entry>)
    requires GoodRecord(r, orig) && r.values.Keys == Selected(entries)
    ensures Loads(r) <==> Restorable(orig.kernel, entries)
  {
    SavedRecordLoads(r, orig);
    forall i | 0 <= i < |entries| ensures entries[i].key in r.values {
      assert entries[i].key in Selected(entries);
    }
  }

  /** Such an original value: a list with a comma, which can be replaced but never put back. */
  lemma CommaStays()
    ensures var entries := [Entry("net.ipv4.tcp_a", "1")];
      Parsed(entries) && HasAll(map["net.ipv4.tcp_a" := "1,2"], entries) && !Restorable(map["net.ipv4.tcp_a" := "1,2"], entries)
  {
    var entries, key, value := [Entry("net.ipv4.tcp_a", "1")], "net.ipv4.tcp_a", "1,2";
    assert key[..13] == TCP_PREFIX && |key| == 14;
    assert entries[0].key == key && value[1] == ',';
    assert !ValueChar(value[1]);
  }

  /**
   A first apply, and a restore after it. An apply that is done can be undone
   exactly when the parser accepts all original values of its parameters.
   Otherwise the restore is refused, whatever happens, and the apply stays.
   */
  method ApplyThenRestore(start: World, entries: seq<Entry>, text: string, faults: nat -> Fault, later: nat -> Fault)
    returns (applied: Outcome, restored: Outcome, end: World)
    requires start.record == None && Parsed(entries)
    ensures Flawless(faults) && HasAll(start.kernel, entries) ==> applied.Done?
    ensures applied.Done? && Flawless(later) ==> (restored.Done? <==> Restorable(start.kernel, entries))
    ensures restored.Done? ==> end == start
    ensures applied.Done? && !Restorable(start.kernel, entries) ==>
      && restored.Refused?
      && end.kernel == Override(start.kernel, entries) && end.conf == Some(text) && end.record.Some? && !Loads(end.record.value)
  {
    var host := new Host(start.kernel, start.conf, start.record, faults);
    applied := Apply(host, entries, text, start);
    if applied.Done? {
      FirstRecordLoads(host.record.value, start, entries);
    }
    var again := new Host(host.kernel, host.conf, host.record, later);
    restored := Restore(again, start);
    end := again.Now();
  }

  /** Behind a record that does not load nothing is changed any more, by any command, with any faults, killed anywhere. */
  method StaysRefused(start: World, deeds: seq<Deed>, ghost orig: World) returns (end: World)
    requires Recoverable(start, orig) && start.record.Some? && !Loads(start.record.value)
    requires forall i :: 0 <= i < |deeds| && deeds[i].command.ApplyEntries? ==> Parsed(deeds[i].command.entries)
    ensures end == start
  {
    end := start;
    for i := 0 to |deeds|
      invariant end == start
    {
      var host := new Host(end.kernel, end.conf, end.record, deeds[i].faults);
      var result := Perform(host, deeds[i].command, orig);
      assert result.Refused?;
      end := host.Now();
      if deeds[i].crash.Some? && deeds[i].crash.value < |host.trace| {
        end := host.trace[deeds[i].crash.value];
      }
    }
  }
}
