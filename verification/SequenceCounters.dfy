/**
 Sequence numbers under concurrency. Any number of threads run the three
 compare-and-swap loops: taking the next number of a session counter, taking a
 seed for a new counter, and reporting an old counter to the seed allocator.
 Every load and every compare-and-swap is one step of the machine.
 */
module SequenceCounters {
  import opened Words
  import opened Wire

  type CounterId = nat
  type ThreadId = nat

  /** Where a thread stands inside one of the loops. */
  datatype Thread =
    | Idle
    | NextLoaded(counter: CounterId, current: uint64)
    | SeedWanted(candidate: uint64)
    | SeedLoaded(last: uint64, candidate: uint64)
    | ObserveWanted(counter: CounterId, sequence: uint64, issuedThen: nat)
    | ObserveLoaded(counter: CounterId, sequence: uint64, issuedThen: nat, last: uint64)

  /** A finished report: how much its counter had issued, and how many seeds existed at the end. */
  datatype Observation = Observation(counter: CounterId, issuedThen: nat, seedsBefore: nat)

  /** The atomics, the threads, and the history the theorems speak of. */
  datatype State = State(
    counters: map<CounterId, uint64>, last: uint64, threads: map<ThreadId, Thread>,
    initial: map<CounterId, uint64>, issued: map<CounterId, seq<uint64>>,
    seeds: seq<uint64>, observations: seq<Observation>)

  const START: State := State(map[], 0, map[], map[], map[], [], [])

  datatype Event =
    | Create(counter: CounterId, initial: uint64)
    | BeginNext(thread: ThreadId, counter: CounterId)
    | BeginSeed(thread: ThreadId, nanos: int)
    | BeginObserve(thread: ThreadId, counter: CounterId)
    | Continue(thread: ThreadId)

  function ThreadOf(s: State, t: ThreadId): Thread {
    if t in s.threads then s.threads[t] else Idle
  }

  function Goto(s: State, t: ThreadId, pc: Thread): State {
    s.(threads := s.threads[t := pc])
  }

  /** The first load of `next`: an exhausted counter is an error. */
  function LoadCounter(s: State, t: ThreadId, c: CounterId): State {
    if c !in s.counters then s
    else if s.counters[c] == MAX_UINT64 then Goto(s, t, Idle)
    else Goto(s, t, NextLoaded(c, s.counters[c]))
  }

  function CasCounter(s: State, t: ThreadId, c: CounterId, current: uint64): State {
    if c in s.counters && c in s.issued && s.counters[c] == current && current < MAX_UINT64 then
      Goto(s, t, Idle).(counters := s.counters[c := current + 1], issued := s.issued[c := s.issued[c] + [current + 1]])
    else LoadCounter(s, t, c)
  }

  function LoadLastForSeed(s: State, t: ThreadId, candidate: uint64): State {
    if candidate > s.last then Goto(s, t, SeedLoaded(s.last, candidate))
    else if s.last == MAX_UINT64 then Goto(s, t, Idle)
    else Goto(s, t, SeedLoaded(s.last, s.last + 1))
  }

  function CasSeed(s: State, t: ThreadId, last: uint64, candidate: uint64): State {
    if s.last == last then Goto(s, t, Idle).(last := candidate, seeds := s.seeds + [candidate])
    else Goto(s, t, SeedWanted(candidate))
  }

  function FinishObserve(s: State, t: ThreadId, c: CounterId, issuedThen: nat): State {
    Goto(s, t, Idle).(observations := s.observations + [Observation(c, issuedThen, |s.seeds|)])
  }

  function LoadLastForObserve(s: State, t: ThreadId, c: CounterId, sequence: uint64, issuedThen: nat): State {
    if sequence <= s.last then FinishObserve(s, t, c, issuedThen)
    else Goto(s, t, ObserveLoaded(c, sequence, issuedThen, s.last))
  }

  function CasObserve(s: State, t: ThreadId, c: CounterId, sequence: uint64, issuedThen: nat, last: uint64): State {
    if s.last == last then FinishObserve(s.(last := sequence), t, c, issuedThen)
    else Goto(s, t, ObserveWanted(c, sequence, issuedThen))
  }

  function ContinueThread(s: State, t: ThreadId): State {
    match ThreadOf(s, t)
    case Idle => s
    case NextLoaded(c, current) => CasCounter(s, t, c, current)
    case SeedWanted(candidate) => LoadLastForSeed(s, t, candidate)
    case SeedLoaded(last, candidate) => CasSeed(s, t, last, candidate)
    case ObserveWanted(c, sequence, issuedThen) => LoadLastForObserve(s, t, c, sequence, issuedThen)
    case ObserveLoaded(c, sequence, issuedThen, last) => CasObserve(s, t, c, sequence, issuedThen, last)
  }

  function Step(s: State, e: Event): State {
    match e
    case Create(c, initial) =>
      if c in s.counters then s
      else s.(counters := s.counters[c := initial], initial := s.initial[c := initial], issued := s.issued[c := []])
    case BeginNext(t, c) => if ThreadOf(s, t).Idle? then LoadCounter(s, t, c) else s
    case BeginSeed(t, nanos) =>
      if ThreadOf(s, t).Idle? && 0 < nanos < TWO_TO_THE_64 then Goto(s, t, SeedWanted(nanos)) else s
    case BeginObserve(t, c) =>
      if ThreadOf(s, t).Idle? && c in s.counters && c in s.issued && s.counters[c] != 0
      then Goto(s, t, ObserveWanted(c, s.counters[c], |s.issued[c]|)) else s
    case Continue(t) => ContinueThread(s, t)
  }

  function Run(s: State, events: seq<Event>): State {
    if events == [] then s else Step(Run(s, events[..|events| - 1]), events[|events| - 1])
  }

  ghost predicate Increasing(xs: seq<uint64>) {
    forall i, j :: 0 <= i < j < |xs| ==> xs[i] < xs[j]
  }

  ghost predicate IssuedUpTo(s: State, c: CounterId, count: nat, bound: uint64) {
    c in s.issued && count <= |s.issued[c]| && forall i :: 0 <= i < count ==> s.issued[c][i] <= bound
  }

  ghost predicate CountersInv(s: State) {
    && s.counters.Keys == s.issued.Keys == s.initial.Keys
    && forall c :: c in s.issued ==> CounterInv(s.initial[c], s.issued[c], s.counters[c])
  }

  ghost predicate CounterInv(initial: uint64, issued: seq<uint64>, current: uint64) {
    && initial <= current
    && Increasing(issued)
    && forall i :: 0 <= i < |issued| ==> initial < issued[i] <= current
  }

  ghost predicate SeedsInv(s: State) {
    && Increasing(s.seeds)
    && forall i :: 0 <= i < |s.seeds| ==> s.seeds[i] <= s.last
  }

  /** A finished report is below every seed allocated after it, and stays below the allocator. */
  ghost predicate Reported(s: State, o: Observation) {
    && IssuedUpTo(s, o.counter, o.issuedThen, s.last)
    && o.seedsBefore <= |s.seeds|
    && forall j :: o.seedsBefore <= j < |s.seeds| ==>
         forall i :: 0 <= i < o.issuedThen ==> s.issued[o.counter][i] < s.seeds[j]
  }

  ghost predicate ThreadInv(s: State, pc: Thread) {
    match pc
    case SeedLoaded(last, candidate) => last < candidate
    case ObserveWanted(c, sequence, issuedThen) => IssuedUpTo(s, c, issuedThen, sequence)
    case ObserveLoaded(c, sequence, issuedThen, last) => IssuedUpTo(s, c, issuedThen, sequence) && last < sequence
    case _ => true
  }

  ghost predicate Inv(s: State) {
    && CountersInv(s) && SeedsInv(s)
    && (forall k :: 0 <= k < |s.observations| ==> Reported(s, s.observations[k]))
    && (forall t :: t in s.threads ==> ThreadInv(s, s.threads[t]))
  }

  /** Histories only grow at the end, so what was bounded stays bounded. */
  ghost predicate Extends(s: State, s': State) {
    && s.last <= s'.last
    && forall c :: c in s.issued ==> c in s'.issued && s.issued[c] <= s'.issued[c]
  }

  lemma StillBounded(s: State, s': State, c: CounterId, count: nat, bound: uint64, bound': uint64)
    requires Extends(s, s') && bound <= bound' && IssuedUpTo(s, c, count, bound)
    ensures IssuedUpTo(s', c, count, bound')
    ensures forall i :: 0 <= i < count ==> s'.issued[c][i] == s.issued[c][i]
  {}

  /** What a step may do besides growing the histories: at most one larger seed appears. */
  ghost predicate Grows(s: State, s': State) {
    && Extends(s, s')
    && (s'.seeds == s.seeds || (s.last < s'.last && s'.seeds == s.seeds + [s'.last]))
  }

  lemma ReportKept(s: State, s': State, o: Observation)
    requires Grows(s, s') && Reported(s, o)
    ensures Reported(s', o)
  {
    StillBounded(s, s', o.counter, o.issuedThen, s.last, s'.last);
  }

  lemma ThreadKept(s: State, s': State, pc: Thread)
    requires Grows(s, s') && ThreadInv(s, pc)
    ensures ThreadInv(s', pc)
  {
    match pc
    case ObserveWanted(c, sequence, issuedThen) => StillBounded(s, s', c, issuedThen, sequence, sequence);
    case ObserveLoaded(c, sequence, issuedThen, _) => StillBounded(s, s', c, issuedThen, sequence, sequence);
    case _ =>
  }

  /** Frame: what other threads know, and all finished reports, survive a step of one thread. */
  lemma FrameInv(s: State, s': State, t: ThreadId, pc: Thread)
    requires Inv(s) && Grows(s, s') && CountersInv(s') && SeedsInv(s')
    requires s'.observations == s.observations
    requires s'.threads == s.threads[t := pc] && ThreadInv(s', pc)
    ensures Inv(s')
  {
    forall k | 0 <= k < |s'.observations|
      ensures Reported(s', s'.observations[k])
    {
      ReportKept(s, s', s.observations[k]);
    }
    forall u | u in s'.threads
      ensures ThreadInv(s', s'.threads[u])
    {
      if u != t { ThreadKept(s, s', s.threads[u]); }
    }
  }

  lemma LoadCounterKeepsInv(s: State, t: ThreadId, c: CounterId)
    requires Inv(s)
    ensures Inv(LoadCounter(s, t, c))
  {
    if c in s.counters {
      var pc := if s.counters[c] == MAX_UINT64 then Idle else NextLoaded(c, s.counters[c]);
      FrameInv(s, LoadCounter(s, t, c), t, pc);
    }
  }

  lemma NextIssued(initial: uint64, issued: seq<uint64>, current: uint64)
    requires CounterInv(initial, issued, current) && current < MAX_UINT64
    ensures CounterInv(initial, issued + [current + 1], current + 1)
  {}

  lemma CasCounterKeepsInv(s: State, t: ThreadId, c: CounterId, current: uint64)
    requires Inv(s)
    ensures Inv(CasCounter(s, t, c, current))
  {
    if c in s.counters && s.counters[c] == current && current < MAX_UINT64 {
      var s' := CasCounter(s, t, c, current);
      assert CounterInv(s.initial[c], s.issued[c], s.counters[c]);
      NextIssued(s.initial[c], s.issued[c], current);
      FrameInv(s, s', t, Idle);
    } else {
      LoadCounterKeepsInv(s, t, c);
    }
  }

  lemma LoadLastForSeedKeepsInv(s: State, t: ThreadId, candidate: uint64)
    requires Inv(s)
    ensures Inv(LoadLastForSeed(s, t, candidate))
  {
    if candidate > s.last {
      FrameInv(s, LoadLastForSeed(s, t, candidate), t, SeedLoaded(s.last, candidate));
    } else if s.last == MAX_UINT64 {
      FrameInv(s, LoadLastForSeed(s, t, candidate), t, Idle);
    } else {
      FrameInv(s, LoadLastForSeed(s, t, candidate), t, SeedLoaded(s.last, s.last + 1));
    }
  }

  lemma CasSeedKeepsInv(s: State, t: ThreadId, last: uint64, candidate: uint64)
    requires Inv(s) && last < candidate
    ensures Inv(CasSeed(s, t, last, candidate))
  {
    var s' := CasSeed(s, t, last, candidate);
    FrameInv(s, s', t, s'.threads[t]);
  }

  lemma FinishObserveKeepsInv(s: State, t: ThreadId, c: CounterId, issuedThen: nat)
    requires Inv(s) && IssuedUpTo(s, c, issuedThen, s.last)
    ensures Inv(FinishObserve(s, t, c, issuedThen))
  {
    var middle := Goto(s, t, Idle);
    FrameInv(s, middle, t, Idle);
    var s' := FinishObserve(s, t, c, issuedThen);
    forall k | 0 <= k < |s'.observations|
      ensures Reported(s', s'.observations[k])
    {
      if k < |s.observations| { ReportKept(middle, s', middle.observations[k]); }
    }
    forall u | u in s'.threads
      ensures ThreadInv(s', s'.threads[u])
    {
      ThreadKept(middle, s', middle.threads[u]);
    }
  }

  lemma ObserveKeepsInv(s: State, t: ThreadId, c: CounterId, sequence: uint64, issuedThen: nat, last: uint64)
    requires Inv(s) && IssuedUpTo(s, c, issuedThen, sequence)
    ensures Inv(LoadLastForObserve(s, t, c, sequence, issuedThen))
    ensures last < sequence ==> Inv(CasObserve(s, t, c, sequence, issuedThen, last))
  {
    if sequence <= s.last {
      FinishObserveKeepsInv(s, t, c, issuedThen);
    } else {
      FrameInv(s, LoadLastForObserve(s, t, c, sequence, issuedThen), t, ObserveLoaded(c, sequence, issuedThen, s.last));
    }
    if last < sequence {
      if s.last == last {
        var raised := Goto(s, t, Idle).(last := sequence);
        FrameInv(s, raised, t, Idle);
        FinishObserveKeepsInv(raised, t, c, issuedThen);
        assert raised.threads[t := Idle] == s.threads[t := Idle];
      } else {
        FrameInv(s, CasObserve(s, t, c, sequence, issuedThen, last), t, ObserveWanted(c, sequence, issuedThen));
      }
    }
  }

  lemma CreateKeepsInv(s: State, c: CounterId, initial: uint64)
    requires Inv(s)
    ensures Inv(Step(s, Create(c, initial)))
  {
    if c !in s.counters {
      var s' := Step(s, Create(c, initial));
      forall k | 0 <= k < |s'.observations|
        ensures Reported(s', s'.observations[k])
      {
        ReportKept(s, s', s.observations[k]);
      }
      forall u | u in s'.threads
        ensures ThreadInv(s', s'.threads[u])
      {
        ThreadKept(s, s', s.threads[u]);
      }
    }
  }

  lemma StepKeepsInv(s: State, e: Event)
    requires Inv(s)
    ensures Inv(Step(s, e))
  {
    match e
    case Create(c, initial) => CreateKeepsInv(s, c, initial);
    case BeginNext(t, c) => LoadCounterKeepsInv(s, t, c);
    case BeginSeed(t, nanos) =>
      if ThreadOf(s, t).Idle? && 0 < nanos < TWO_TO_THE_64 { FrameInv(s, Step(s, e), t, SeedWanted(nanos)); }
    case BeginObserve(t, c) =>
      if ThreadOf(s, t).Idle? && c in s.counters && s.counters[c] != 0 {
        FrameInv(s, Step(s, e), t, ObserveWanted(c, s.counters[c], |s.issued[c]|));
      }
    case Continue(t) =>
      match ThreadOf(s, t)
      case Idle =>
      case NextLoaded(c, current) => CasCounterKeepsInv(s, t, c, current);
      case SeedWanted(candidate) => LoadLastForSeedKeepsInv(s, t, candidate);
      case SeedLoaded(last, candidate) => CasSeedKeepsInv(s, t, last, candidate);
      case ObserveWanted(c, sequence, issuedThen) => ObserveKeepsInv(s, t, c, sequence, issuedThen, 0);
      case ObserveLoaded(c, sequence, issuedThen, last) => ObserveKeepsInv(s, t, c, sequence, issuedThen, last);
  }

  /** Every reachable state satisfies the invariant, whatever the interleaving. */
  lemma {:induction false} ReachableInv(events: seq<Event>)
    ensures Inv(Run(START, events))
  {
    if events != [] {
      ReachableInv(events[..|events| - 1]);
      StepKeepsInv(Run(START, events[..|events| - 1]), events[|events| - 1]);
    }
  }

  /** Each counter issues strictly increasing numbers, and seeds strictly increase. */
  lemma IssuedAndSeedsIncrease(events: seq<Event>)
    ensures var s := Run(START, events);
      Increasing(s.seeds) && forall c :: c in s.issued ==> Increasing(s.issued[c])
  {
    ReachableInv(events);
  }

  /** A seed allocated after a counter was reported exceeds every number it had issued by then. */
  lemma SeedAboveReported(events: seq<Event>, k: nat, j: nat, i: nat)
    requires var s := Run(START, events);
      && k < |s.observations| && s.observations[k].seedsBefore <= j < |s.seeds|
      && i < s.observations[k].issuedThen
    ensures var s := Run(START, events);
      && s.observations[k].counter in s.issued && i < |s.issued[s.observations[k].counter]|
      && s.issued[s.observations[k].counter][i] < s.seeds[j]
  {
    ReachableInv(events);
    assert Reported(Run(START, events), Run(START, events).observations[k]);
  }

  /** Two different frames sealed through one counter never share a nonce. */
  lemma NoNonceReuse(events: seq<Event>, c: CounterId, i: nat, f: byte, i': nat, f': byte)
    requires var s := Run(START, events); c in s.issued && i < |s.issued[c]| && i' < |s.issued[c]|
    requires (i, f) != (i', f')
    ensures var s := Run(START, events); Nonce(s.issued[c][i], f) != Nonce(s.issued[c][i'], f')
  {
    IssuedAndSeedsIncrease(events);
    var s := Run(START, events);
    assert i != i' ==> s.issued[c][i] != s.issued[c][i'];
    NonceInjective(s.issued[c][i], f, s.issued[c][i'], f');
  }

  /**
   A restarted session direction: its new counter starts from a seed taken
   after the old counter was reported for the last time. The two counters
   never produce the same nonce.
   */
  lemma NoNonceReuseAcrossRestart(events: seq<Event>, k: nat, j: nat, c: CounterId, i: nat, f: byte, i': nat, f': byte)
    requires var s := Run(START, events);
      && k < |s.observations| && s.observations[k].seedsBefore <= j < |s.seeds|
      && i < s.observations[k].issuedThen
      && c in s.issued && c in s.initial && s.initial[c] == s.seeds[j] && i' < |s.issued[c]|
    ensures var s := Run(START, events);
      && s.observations[k].counter in s.issued && i < |s.issued[s.observations[k].counter]|
      && Nonce(s.issued[s.observations[k].counter][i], f) != Nonce(s.issued[c][i'], f')
  {
    ReachableInv(events);
    SeedAboveReported(events, k, j, i);
    var s := Run(START, events);
    NonceInjective(s.issued[s.observations[k].counter][i], f, s.issued[c][i'], f');
  }

  // ---------- A loop that nothing disturbs ----------

  /** The counter gives its next number, unless it is at the top. */
  lemma NextAlone(s: State, t: ThreadId, c: CounterId)
    requires ThreadOf(s, t).Idle? && c in s.counters && c in s.issued
    ensures var s' := Step(Step(s, BeginNext(t, c)), Continue(t));
      && ThreadOf(s', t).Idle?
      && if s.counters[c] < MAX_UINT64
         then s'.issued == s.issued[c := s.issued[c] + [s.counters[c] + 1]] && s'.counters == s.counters[c := s.counters[c] + 1]
         else s'.issued == s.issued && s'.counters == s.counters
  {}

  /** The allocator gives the wanted seed, or the one after its last when that is not below it; at the top it gives none. */
  lemma SeedAlone(s: State, t: ThreadId, nanos: uint64)
    requires ThreadOf(s, t).Idle? && nanos > 0
    ensures var s' := Step(Step(Step(s, BeginSeed(t, nanos)), Continue(t)), Continue(t));
      && ThreadOf(s', t).Idle?
      && if nanos > s.last then s'.seeds == s.seeds + [nanos] && s'.last == nanos
         else if s.last < MAX_UINT64 then s'.seeds == s.seeds + [s.last + 1] && s'.last == s.last + 1
         else s'.seeds == s.seeds && s'.last == s.last
  {}

  /** A report lifts the allocator to the counter's value, if that is above it. */
  lemma ObserveAlone(s: State, t: ThreadId, c: CounterId)
    requires ThreadOf(s, t).Idle? && c in s.counters && c in s.issued && s.counters[c] != 0
    ensures var s' := Step(Step(Step(s, BeginObserve(t, c)), Continue(t)), Continue(t));
      && ThreadOf(s', t).Idle? && s'.observations == s.observations + [Observation(c, |s.issued[c]|, |s.seeds|)]
      && s'.last == if s.counters[c] > s.last then s.counters[c] else s.last
  {}
}
