/**
 The traffic ledger of an agent. Each port has a baseline of its byte counters
 on file and in a cache. A sample reports the growth over the baseline; the
 report and the new baselines are first written to a pending file, and no port
 is sampled again until the panel has answered, the baselines are committed and
 the file is gone. A crash loses the cache and whatever was under way.
 */
module AgentLedger {
  import opened Options
  import opened Reports

  datatype Bytes = Bytes(bytesIn: nat, bytesOut: nat)

  const ZERO: Bytes := Bytes(0, 0)

  const GOST_NATIVE := "gost-native-v1"
  const GUARD_NATIVE := "guard-native-v1"

  predicate IsNative(source: string) {
    source == GOST_NATIVE || source == GUARD_NATIVE
  }

  datatype Baseline = Baseline(ruleID: int, bytes: Bytes, conns: nat, connSource: string, source: string, epoch: string)

  const EMPTY: Baseline := Baseline(0, ZERO, 0, "", "", "")

  function Delta(cur: nat, prev: nat): nat {
    if cur >= prev then cur - prev else cur
  }

  function Growth(cur: Bytes, prev: Bytes): Bytes {
    Bytes(Delta(cur.bytesIn, prev.bytesIn), Delta(cur.bytesOut, prev.bytesOut))
  }

  function Plus(a: Bytes, b: Bytes): Bytes {
    Bytes(a.bytesIn + b.bytesIn, a.bytesOut + b.bytesOut)
  }

  predicate AtMost(a: Bytes, b: Bytes) {
    a.bytesIn <= b.bytesIn && a.bytesOut <= b.bytesOut
  }

  /** The reading cannot be compared with the baseline: it becomes a new one and counts nothing. */
  predicate Restarts(previous: Baseline, next: Baseline) {
    || previous.ruleID <= 0 || previous.ruleID != next.ruleID
    || (previous.source != next.source && (previous.source != "" || IsNative(next.source)))
    || (IsNative(next.source) && (previous.epoch != next.epoch || next.bytes.bytesIn < previous.bytes.bytesIn || next.bytes.bytesOut < previous.bytes.bytesOut))
  }

  function ByteDeltas(previous: Baseline, next: Baseline): Bytes {
    if Restarts(previous, next) then ZERO else Growth(next.bytes, previous.bytes)
  }

  // ---------- The baseline of one port ----------

  datatype Store = Store(cache: Option<Baseline>, file: Option<Baseline>)

  function Previous(s: Store, readable: bool): Baseline {
    if s.cache.Some? then s.cache.value
    else if readable && s.file.Some? then s.file.value
    else EMPTY
  }

  function AfterRead(s: Store, readable: bool): Store {
    s.(cache := Some(Previous(s, readable)))
  }

  /** A baseline that the cache has already is not written again. */
  function AfterWrite(s: Store, next: Baseline, writable: bool): (r: Store)
    ensures writable ==> r.cache == Some(next) && (r.file == Some(next) || s.cache == Some(next))
    ensures s.cache == Some(next) || !writable ==> r == s
  {
    if s.cache == Some(next) then s
    else if writable then Store(Some(next), Some(next))
    else s
  }

  predicate Written(s: Store, next: Baseline, writable: bool) {
    s.cache == Some(next) || writable
  }

  /** What a port contributes to a report, and the baseline to commit once the panel has it. */
  datatype Entry = Entry(bytes: Bytes, conns: nat, baseline: Baseline)

  /** What happens to the files during a sample: whether they can be read and written. */
  datatype Disk = Disk(readable: bool, writable: bool)

  /** The entry of a sampled port; a port without growth has none. */
  function SampledEntry(s: Store, next: Baseline, conns: nat, disk: Disk): Option<Entry> {
    var growth := ByteDeltas(Previous(s, disk.readable), next);
    if growth.bytesIn > 0 || growth.bytesOut > 0 || conns > 0 then Some(Entry(growth, conns, next)) else None
  }

  /** The store of a sampled port: without growth its baseline is written at once. */
  function SampledStore(s: Store, next: Baseline, conns: nat, disk: Disk): Store {
    var s' := AfterRead(s, disk.readable);
    if SampledEntry(s, next, conns, disk).Some? then s' else AfterWrite(s', next, disk.writable)
  }

  // ---------- The ledger ----------

  /** The lines of a report, by port. */
  type Lines = map<string, Entry>

  datatype Sample = Sample(port: string, next: Baseline, conns: nat, disk: Disk)

  ghost predicate DistinctPorts(samples: seq<Sample>) {
    forall i, j :: 0 <= i < j < |samples| ==> samples[i].port != samples[j].port
  }

  ghost predicate Sampled(samples: seq<Sample>, port: string) {
    exists i :: 0 <= i < |samples| && samples[i].port == port
  }

  function LineOf(lines: Lines, port: string): Option<Entry> {
    if port in lines then Some(lines[port]) else None
  }

  ghost predicate SampledAs(s: Sample, before: Store, after: Store, lines: Lines) {
    && LineOf(lines, s.port) == SampledEntry(before, s.next, s.conns, s.disk)
    && after == SampledStore(before, s.next, s.conns, s.disk)
  }

  /** A port's store after a commit: the line's baseline, or unchanged when there is none or the commit stopped early. */
  ghost predicate CommittedAs(line: Option<Entry>, before: Store, after: Store, complete: bool) {
    match line
    case None => after == before
    case Some(entry) => after == AfterWrite(before, entry.baseline, true) || (!complete && after == before)
  }

  /** What the rule file of a port holds, where there is one. */
  datatype RuleFile = Unreadable | RuleFile(id: int)

  predicate Unusable(rules: map<string, RuleFile>, port: string) {
    port in rules && (rules[port].Unreadable? || rules[port].id <= 0)
  }

  ghost predicate AllUsable(rules: map<string, RuleFile>, lines: Lines) {
    forall port :: port in lines ==> !Unusable(rules, port)
  }

  predicate HoldsPort(rules: map<string, RuleFile>, port: string, line: Entry) {
    port in rules && rules[port].RuleFile? && rules[port].id == line.baseline.ruleID
  }

  function CurrentLines(lines: Lines, rules: map<string, RuleFile>): Lines {
    map port | port in lines && HoldsPort(rules, port, lines[port]) :: lines[port]
  }

  class Ledger {
    var cache: map<string, Baseline>
    var files: map<string, Baseline>
    var pending: Option<Report<Lines>>

    constructor ()
      ensures cache == map[] && files == map[] && pending == None
    {
      cache, files, pending := map[], map[], None;
    }

    ghost function View(port: string): Store
      reads this
    {
      Store(if port in cache then Some(cache[port]) else None, if port in files then Some(files[port]) else None)
    }

    method ReadPrevState(port: string, readable: bool) returns (previous: Baseline)
      modifies this`cache
      ensures previous == Previous(old(View(port)), readable) && View(port) == AfterRead(old(View(port)), readable)
      ensures port in old(cache) ==> previous == old(cache)[port]
      ensures port !in old(cache) ==> previous == if readable && port in files then files[port] else Baseline(0, Bytes(0, 0), 0, "", "", "")
      ensures forall other :: other != port ==> View(other) == old(View(other))
    {
      if port in cache {
        return cache[port];
      }
      previous := if readable && port in files then files[port] else EMPTY;
      cache := cache[port := previous];
    }

    method WritePrevState(port: string, next: Baseline, writable: bool) returns (ok: bool)
      modifies this`cache, this`files
      ensures ok == Written(old(View(port)), next, writable) && View(port) == AfterWrite(old(View(port)), next, writable)
      ensures forall other :: other != port ==> View(other) == old(View(other))
    {
      if port in cache && cache[port] == next {
        return true;
      }
      if !writable {
        return false;
      }
      files := files[port := next];
      cache := cache[port := next];
      return true;
    }

    method SamplePort(s: Sample) returns (entry: Option<Entry>)
      modifies this`cache, this`files
      ensures entry == SampledEntry(old(View(s.port)), s.next, s.conns, s.disk)
      ensures View(s.port) == SampledStore(old(View(s.port)), s.next, s.conns, s.disk)
      ensures forall other :: other != s.port ==> View(other) == old(View(other))
    {
      var previous := ReadPrevState(s.port, s.disk.readable);
      var growth := ByteDeltas(previous, s.next);
      if growth.bytesIn > 0 || growth.bytesOut > 0 || s.conns > 0 {
        return Some(Entry(growth, s.conns, s.next));
      }
      var written := WritePrevState(s.port, s.next, s.disk.writable);
      return None;
    }

    /** Samples every port once; the lines of the report are those of the ports that grew. */
    method SampleAll(samples: seq<Sample>) returns (lines: Lines)
      requires DistinctPorts(samples)
      modifies this`cache, this`files
      ensures forall i :: 0 <= i < |samples| ==> SampledAs(samples[i], old(View(samples[i].port)), View(samples[i].port), lines)
      ensures forall port :: !Sampled(samples, port) ==> View(port) == old(View(port)) && port !in lines
    {
      lines := map[];
      for n := 0 to |samples|
        invariant forall i :: 0 <= i < n ==> SampledAs(samples[i], old(View(samples[i].port)), View(samples[i].port), lines)
        invariant forall i :: n <= i < |samples| ==> View(samples[i].port) == old(View(samples[i].port)) && samples[i].port !in lines
        invariant forall port :: !Sampled(samples, port) ==> View(port) == old(View(port)) && port !in lines
      {
        var entry := SamplePort(samples[n]);
        if entry.Some? {
          lines := lines[samples[n].port := entry.value];
        }
      }
    }

    /**
     Persists a report before it is posted; when that fails there is no report,
     and the baselines stay as they were.
     */
    method SavePending(id: string, lines: Lines, writable: bool) returns (ok: bool)
      modifies this`pending
      ensures ok == writable && pending == if writable then Some(Report(id, lines)) else old(pending)
    {
      if !writable {
        return false;
      }
      pending := Some(Report(id, lines));
      return true;
    }

    /** Writes the baselines of a report, port by port, up to the first failure. */
    method CommitBaselines(lines: Lines, writable: map<string, bool>) returns (ok: bool)
      modifies this`cache, this`files
      ensures forall port :: CommittedAs(LineOf(lines, port), old(View(port)), View(port), ok)
      ensures (forall port :: port in lines ==> port in writable && writable[port]) ==> ok
    {
      var todo := lines.Keys;
      while todo != {}
        invariant todo <= lines.Keys
        invariant forall port :: CommittedAs(LineOf(lines, port), old(View(port)), View(port), port !in todo)
        invariant forall port :: port in todo ==> View(port) == old(View(port))
        decreases todo
      {
        var port :| port in todo;
        var written := WritePrevState(port, lines[port].baseline, port in writable && writable[port]);
        if !written {
          return false;
        }
        todo := todo - {port};
      }
      return true;
    }

    /** The lines of a report whose rules still hold their ports; a rule file that cannot be read stops the completion. */
    method KeepCurrent(lines: Lines, rules: map<string, RuleFile>) returns (ok: bool, current: Lines)
      ensures ok <==> AllUsable(rules, lines)
      ensures ok ==> current == CurrentLines(lines, rules)
    {
      current := map[];
      var todo := lines.Keys;
      while todo != {}
        invariant todo <= lines.Keys
        invariant forall port :: port in lines && port !in todo ==> !Unusable(rules, port)
        invariant current == map port | port in lines && port !in todo && HoldsPort(rules, port, lines[port]) :: lines[port]
        decreases todo
      {
        var port :| port in todo;
        if Unusable(rules, port) {
          return false, map[];
        }
        if HoldsPort(rules, port, lines[port]) {
          current := current[port := lines[port]];
        }
        todo := todo - {port};
      }
      return true, current;
    }

    /**
     Commits the baselines of an answered report, those of the ports whose rule
     file names the rule they were sampled for, then removes the report.
     When it is done each of these baselines is the port's new one, in the cache
     and, unless it was in the cache before, on file; nothing else has changed.
     */
    method CompletePending(rules: map<string, RuleFile>, writable: map<string, bool>, removable: bool) returns (ok: bool)
      requires pending.Some?
      modifies this
      ensures pending == if ok then None else old(pending)
      ensures ok ==> removable && forall port :: port in old(pending).value.body && port in rules ==> rules[port].RuleFile? && rules[port].id > 0
      ensures removable && (forall port :: port in old(pending).value.body ==> port in writable && writable[port]) ==>
        (forall port :: port in old(pending).value.body && port in rules ==> rules[port].RuleFile? && rules[port].id > 0) ==> ok
      ensures forall port :: port in old(pending).value.body && port in rules && rules[port] == RuleFile(old(pending).value.body[port].baseline.ruleID) ==>
        View(port) == AfterWrite(old(View(port)), old(pending).value.body[port].baseline, true) || (!ok && View(port) == old(View(port)))
      ensures forall port :: !(port in old(pending).value.body && port in rules && rules[port] == RuleFile(old(pending).value.body[port].baseline.ruleID)) ==>
        View(port) == old(View(port))
      ensures !AllUsable(rules, old(pending).value.body) ==> forall port :: View(port) == old(View(port))
    {
      var usable, current := KeepCurrent(pending.value.body, rules);
      if !usable {
        return false;
      }
      var committed := CommitBaselines(current, writable);
      forall port ensures CommittedAs(LineOf(current, port), old(View(port)), View(port), committed) {}
      if !committed || !removable {
        return false;
      }
      pending := None;
      return true;
    }

    /** A crash, or a restart, loses the cache only. */
    method Restart()
      modifies this`cache
      ensures forall port :: View(port) == Store(None, old(View(port)).file)
    {
      cache := map[];
    }
  }
}
