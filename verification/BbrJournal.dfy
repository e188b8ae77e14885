/**
 The undo journal of the kernel parameter plugin: parameters and a config file
 are changed together, a record of their original values is saved first, and a
 failure is rolled back. Any write can fail, and the process can die anywhere.
 */
module BbrJournal {
  import opened Options

  datatype Entry = Entry(key: string, value: string)

  /** The saved record: original values, the keys the plugin manages now, and the original config file. */
  datatype Record = Record(values: map<string, string>, managed: seq<string>, original: Option<string>)

  datatype World = World(kernel: map<string, string>, conf: Option<string>, record: Option<Record>)

  // ---------- Which parameters and values are supported ----------

  const CORE_NAMES: set<string> := {
    "default_qdisc", "somaxconn", "rmem_max", "wmem_max", "rmem_default", "wmem_default",
    "optmem_max", "netdev_max_backlog", "netdev_budget", "netdev_budget_usecs"
  }

  const TCP_PREFIX := "net.ipv4.tcp_"
  const CORE_PREFIX := "net.core."
  const MAX_CONFIG := 12000

  predicate SupportedKey(key: string) {
    || (TCP_PREFIX < key && forall i :: |TCP_PREFIX| <= i < |key| ==> 'a' <= key[i] <= 'z' || '0' <= key[i] <= '9' || key[i] == '_')
    || (CORE_PREFIX <= key && key[|CORE_PREFIX|..] in CORE_NAMES)
  }

  predicate ValueChar(c: char) {
    'a' <= c <= 'z' || 'A' <= c <= 'Z' || '0' <= c <= '9' || c in "_.:/+- "
  }

  /** One line of configuration, with its blanks already normalised. */
  predicate Acceptable(key: string, value: string) {
    && SupportedKey(key) && |key| + 1 + |value| <= MAX_CONFIG
    && value != "" && value[0] != ' ' && value[|value| - 1] != ' '
    && (forall i :: 0 <= i < |value| ==> ValueChar(value[i]))
    && (forall i :: 0 < i < |value| ==> !(value[i - 1] == ' ' && value[i] == ' '))
  }

  /** A TCP parameter has a name of small letters, digits and underscores. */
  lemma SupportedTcpKeys(name: string)
    ensures SupportedKey("net.ipv4.tcp_" + name) <==>
      name != "" && forall i :: 0 <= i < |name| ==> 'a' <= name[i] <= 'z' || '0' <= name[i] <= '9' || name[i] == '_'
  {
    var tcp := "net.ipv4.tcp_" + name;
    assert TCP_PREFIX <= tcp && |TCP_PREFIX| == 13 && |tcp| == 13 + |name|;
    assert forall i :: 0 <= i < |name| ==> tcp[13 + i] == name[i];
    assert forall i :: 13 <= i < |tcp| ==> tcp[i] == name[i - 13];
    assert tcp[4] == 'i' && CORE_PREFIX[4] == 'c';
  }

  /** Ten core parameters are supported. */
  lemma SupportedCoreKeys(name: string)
    ensures SupportedKey("net.core." + name) <==> name in {
      "default_qdisc", "somaxconn", "rmem_max", "wmem_max", "rmem_default", "wmem_default",
      "optmem_max", "netdev_max_backlog", "netdev_budget", "netdev_budget_usecs"}
  {
    var core := "net.core." + name;
    assert core[4] == 'c' && TCP_PREFIX[4] == 'i';
    assert CORE_PREFIX <= core && core[|CORE_PREFIX|..] == name;
  }

  lemma NumbersAccepted(key: string, value: string)
    requires SupportedKey(key) && |key| + 1 + |value| <= 12000
    requires value != "" && forall i :: 0 <= i < |value| ==> '0' <= value[i] <= '9'
    ensures Acceptable(key, value)
  {}

  /** Accepted values may be joined by one blank. */
  lemma ListsAccepted(key: string, a: string, b: string)
    requires Acceptable(key, a) && Acceptable(key, b) && |key| + 2 + |a| + |b| <= 12000
    ensures Acceptable(key, a + " " + b)
  {
    var value := a + " " + b;
    assert value[|a|] == ' ';
    forall i | 0 <= i < |value| ensures ValueChar(value[i]) && (i > 0 ==> !(value[i - 1] == ' ' && value[i] == ' ')) {
      if i < |a| {
        assert value[i] == a[i];
      } else if i > |a| {
        assert value[i] == b[i - |a| - 1];
      }
    }
  }

  ghost predicate DistinctStrings(keys: seq<string>) {
    forall i, j :: 0 <= i < j < |keys| ==> keys[i] != keys[j]
  }

  ghost function KeysOf(entries: seq<Entry>): seq<string> {
    seq(|entries|, i requires 0 <= i < |entries| => entries[i].key)
  }

  /** What the parser returns: at least one parameter, none twice, all acceptable. */
  ghost predicate Parsed(entries: seq<Entry>) {
    && entries != [] && DistinctStrings(KeysOf(entries))
    && forall i :: 0 <= i < |entries| ==> Acceptable(entries[i].key, entries[i].value)
  }

  // ---------- What can always be undone ----------

  /** The record keeps original values only, and its managed keys, each once, are among them. */
  ghost predicate GoodRecord(r: Record, orig: World) {
    && (forall k :: k in r.values ==> k in orig.kernel && r.values[k] == orig.kernel[k])
    && (forall k :: k in r.managed ==> k in r.values)
    && DistinctStrings(r.managed)
    && r.original == orig.conf
  }

  /**
   Every parameter that differs from its original value is managed, with that
   value, in the saved record; without a record nothing differs.
   */
  ghost predicate Recoverable(w: World, orig: World) {
    && w.kernel.Keys == orig.kernel.Keys
    && match w.record
       case None => w.kernel == orig.kernel && w.conf == orig.conf
       case Some(r) => GoodRecord(r, orig) && forall k :: k in w.kernel && w.kernel[k] != orig.kernel[k] ==> k in r.managed
  }

  ghost predicate AllRecoverable(trace: seq<World>, orig: World) {
    forall i :: 0 <= i < |trace| ==> Recoverable(trace[i], orig)
  }

  /** The parameters with these entries set. */
  ghost function Override(kernel: map<string, string>, entries: seq<Entry>): map<string, string> {
    if entries == [] then kernel
    else Override(kernel, entries[..|entries| - 1])[entries[|entries| - 1].key := entries[|entries| - 1].value]
  }

  /** The parameters differ at most in these keys. */
  ghost predicate DifferIn(kernel: map<string, string>, base: map<string, string>, keys: seq<string>) {
    kernel.Keys == base.Keys && forall k :: k in base && kernel[k] != base[k] ==> k in keys
  }

  // ---------- The host ----------

  /** What goes wrong in one operation: it fails, and a write leaves something else behind than it should. */
  datatype Fault = Fault(fails: bool, effect: Option<string>)

  predicate Wrong(f: Fault) {
    f.fails || f.effect.Some?
  }

  class Host {
    var kernel: map<string, string>
    var conf: Option<string>
    var record: Option<Record>
    const faults: nat -> Fault
    var clock: nat
    /** Every state the host has been in; a crash leaves one of them behind. */
    var trace: seq<World>

    constructor (kernel: map<string, string>, conf: Option<string>, record: Option<Record>, faults: nat -> Fault)
      ensures Now() == World(kernel, conf, record) && trace == [Now()] && this.faults == faults
    {
      this.kernel, this.conf, this.record, this.faults, clock := kernel, conf, record, faults, 0;
      trace := [World(kernel, conf, record)];
    }

    function Now(): World
      reads this
    {
      World(kernel, conf, record)
    }

    /** Nothing goes wrong in the operations from this time on and before that. */
    ghost predicate Fine(from: nat, to: nat) {
      forall n :: from <= n < to ==> !Wrong(faults(n))
    }

    /** At most one operation goes wrong between these times. */
    ghost predicate AtMostOneFault(from: nat, to: nat) {
      forall m, n :: from <= m < to && from <= n < to && Wrong(faults(m)) && Wrong(faults(n)) ==> m == n
    }

    /** When the one fault is past, the rest is fine. */
    lemma FineAfterFault(from: nat, middle: nat, to: nat)
      requires from <= middle <= to && AtMostOneFault(from, to) && !Fine(from, middle)
      ensures Fine(middle, to)
    {
      var m :| from <= m < middle && Wrong(faults(m));
      forall n | middle <= n < to ensures !Wrong(faults(n)) {
        assert Wrong(faults(m));
      }
    }

    method Fails() returns (fails: bool)
      modifies this`clock
      ensures clock == old(clock) + 1 && (Fine(old(clock), clock) ==> !fails)
    {
      assert !Wrong(faults(clock)) ==> !faults(clock).fails;
      fails := faults(clock).fails;
      clock := clock + 1;
    }

    method Read(key: string) returns (value: Option<string>)
      modifies this`clock
      ensures value.Some? ==> key in kernel && value.value == kernel[key]
      ensures clock >= old(clock)
      ensures Fine(old(clock), clock) && key in kernel ==> value.Some?
    {
      var fails := Fails();
      return if fails || key !in kernel then None else Some(kernel[key]);
    }

    /** A write touches its own parameter only; what it leaves there is anybody's guess, whether it fails or not. */
    method Write(key: string, value: string) returns (ok: bool)
      modifies this`kernel, this`clock, this`trace
      ensures kernel.Keys == old(kernel).Keys && DifferIn(kernel, old(kernel), [key])
      ensures clock >= old(clock)
      ensures Fine(old(clock), clock) && key in old(kernel) && Acceptable(key, value) ==> ok && kernel == old(kernel)[key := value]
      ensures trace == old(trace) + [Now()]
    {
      if key !in kernel || !Acceptable(key, value) {
        trace := trace + [Now()];
        return false;
      }
      var effect := faults(clock).effect;
      kernel := kernel[key := if effect.Some? then effect.value else value];
      trace := trace + [Now()];
      var fails := Fails();
      return !fails;
    }

    /** A file is replaced or removed atomically, or not at all. */
    method ReplaceConf(data: Option<string>) returns (ok: bool)
      modifies this`conf, this`clock, this`trace
      ensures conf == if ok then data else old(conf)
      ensures clock >= old(clock)
      ensures Fine(old(clock), clock) ==> ok
      ensures trace == old(trace) + [Now()]
    {
      var fails := Fails();
      if !fails {
        conf := data;
      }
      trace := trace + [Now()];
      return !fails;
    }

    method ReplaceRecord(data: Option<Record>) returns (ok: bool)
      modifies this`record, this`clock, this`trace
      ensures record == if ok then data else old(record)
      ensures clock >= old(clock)
      ensures Fine(old(clock), clock) ==> ok
      ensures trace == old(trace) + [Now()]
    {
      var fails := Fails();
      if !fails {
        record := data;
      }
      trace := trace + [Now()];
      return !fails;
    }
  }
}
