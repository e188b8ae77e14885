/**
 Putting the frames of a datagram together again at the receiver, in any order
 of arrival and within a byte budget.
 */
module Reassembly {
  import opened Words
  import opened Options
  import opened MapSums
  import opened ByteBudget
  import opened Wire
  import opened Sealing
  import opened ReplayWindow

  const FRAGMENT_TIMEOUT: int := 5_000_000_000
  const MAX_PENDING_FRAGMENT_SETS: nat := 8

  // ---------- Reassembly: the specification ----------

  function Filled(chunks: seq<Option<seq<byte>>>): nat {
    if chunks == [] then 0
    else Filled(chunks[..|chunks| - 1]) + if chunks[|chunks| - 1].Some? then 1 else 0
  }

  function ChunkBytes(chunks: seq<Option<seq<byte>>>): nat {
    if chunks == [] then 0
    else ChunkBytes(chunks[..|chunks| - 1]) + match chunks[|chunks| - 1] case None => 0 case Some(c) => |c|
  }

  datatype AssemblyFields = Assembly(fragments: nat, chunks: seq<Option<seq<byte>>>, received: nat, total: nat, createdAt: int) {
    ghost predicate Consistent() {
      && fragments >= 2
      && |chunks| == fragments
      && received == Filled(chunks)
      && total == ChunkBytes(chunks)
    }
  }

  ghost const SOME_ASSEMBLY: AssemblyFields := Assembly(2, [None, None], 0, 0, 0)

  /** The counters of an assembly agree with its chunks. */
  type Assembly = a: AssemblyFields | a.Consistent() ghost witness
    (assert Filled([None, None][..1]) == 0 && ChunkBytes([None, None][..1]) == 0; SOME_ASSEMBLY)

  lemma {:induction false} FillOne(chunks: seq<Option<seq<byte>>>, i: nat, chunk: seq<byte>)
    requires i < |chunks| && chunks[i].None?
    ensures Filled(chunks[i := Some(chunk)]) == Filled(chunks) + 1
    ensures ChunkBytes(chunks[i := Some(chunk)]) == ChunkBytes(chunks) + |chunk|
    decreases |chunks|
  {
    var n := |chunks| - 1;
    if i == n {
      assert chunks[i := Some(chunk)][..n] == chunks[..n];
    } else {
      FillOne(chunks[..n], i, chunk);
      assert chunks[i := Some(chunk)][..n] == chunks[..n][i := Some(chunk)];
    }
  }

  lemma {:induction false} FilledBound(chunks: seq<Option<seq<byte>>>)
    ensures Filled(chunks) <= |chunks|
    ensures Filled(chunks) == |chunks| <==> forall i :: 0 <= i < |chunks| ==> chunks[i].Some?
  {
    if chunks != [] {
      FilledBound(chunks[..|chunks| - 1]);
    }
  }

  lemma {:induction false} PrefixBytes(chunks: seq<Option<seq<byte>>>, n: nat)
    requires n <= |chunks|
    ensures ChunkBytes(chunks[..n]) <= ChunkBytes(chunks)
    decreases |chunks|
  {
    if n == |chunks| {
      assert chunks[..n] == chunks;
    } else {
      PrefixBytes(chunks[..|chunks| - 1], n);
      assert chunks[..|chunks| - 1][..n] == chunks[..n];
    }
  }

  lemma {:induction false} EmptyChunks(n: nat)
    ensures Filled(seq(n, _ => None)) == 0 && ChunkBytes(seq(n, _ => None)) == 0
  {
    if n > 0 {
      EmptyChunks(n - 1);
      var chunks: seq<Option<seq<byte>>> := seq(n, _ => None);
      assert chunks[..n - 1] == seq(n - 1, _ => None);
    }
  }

  function NewAssembly(fragments: nat, now: int): Assembly
    requires fragments >= 2
  {
    EmptyChunks(fragments);
    Assembly(fragments, seq(fragments, _ => None), 0, 0, now)
  }

  function WithChunk(a: Assembly, i: nat, chunk: seq<byte>): Assembly
    requires i < a.fragments && a.chunks[i].None?
  {
    FillOne(a.chunks, i, chunk);
    a.(chunks := a.chunks[i := Some(chunk)], total := a.total + |chunk|, received := a.received + 1)
  }

  function Complete(a: Assembly): bool {
    a.received == a.fragments
  }

  function AllChunks(a: Assembly): (chunks: seq<seq<byte>>)
    requires Complete(a)
    ensures |chunks| == a.fragments
  {
    FilledBound(a.chunks);
    seq(a.fragments, i requires 0 <= i < a.fragments => a.chunks[i].value)
  }

  /** What the receiver of one session direction knows. */
  datatype State = State(pending: map<uint64, Assembly>, usage: Option<Usage>, accepted: set<uint64>, closed: bool)

  ghost function TotalBytes(pending: map<uint64, Assembly>): nat {
    Sum(Totals(pending))
  }

  ghost function Totals(pending: map<uint64, Assembly>): map<uint64, nat> {
    map q | q in pending :: pending[q].total
  }

  lemma SomeKey(pending: map<uint64, Assembly>)
    ensures pending == map[] || exists q :: q in pending.Keys
  {
    if pending.Keys == {} { assert pending == map[]; }
  }

  lemma TotalRemove(pending: map<uint64, Assembly>, q: uint64)
    ensures TotalBytes(pending - {q}) == if q in pending then TotalBytes(pending) - pending[q].total else TotalBytes(pending)
    ensures q in pending ==> pending[q].total <= TotalBytes(pending)
  {
    SumRemove(Totals(pending), q);
    assert Totals(pending) - {q} == Totals(pending - {q});
    if q in pending { SumAtLeast(Totals(pending), q); }
  }

  lemma TotalUpdate(pending: map<uint64, Assembly>, q: uint64, a: Assembly)
    ensures TotalBytes(pending[q := a]) == TotalBytes(pending) - (if q in pending then pending[q].total else 0) + a.total
  {
    SumUpdate(Totals(pending), q, a.total);
    assert Totals(pending)[q := a.total] == Totals(pending[q := a]);
  }

  function Dropped(s: State, q: uint64): State {
    if q in s.pending then s.(pending := s.pending - {q}, usage := BudgetReleased(s.usage, s.pending[q].total)) else s
  }

  function Overdue(a: Assembly, now: int): bool {
    now - a.createdAt >= FRAGMENT_TIMEOUT
  }

  ghost function OverdueSets(pending: map<uint64, Assembly>, now: int): map<uint64, Assembly> {
    map q | q in pending && Overdue(pending[q], now) :: pending[q]
  }

  ghost function Swept(s: State, now: int): State {
    s.(pending := map q | q in s.pending && !Overdue(s.pending[q], now) :: s.pending[q],
       usage := BudgetReleased(s.usage, TotalBytes(OverdueSets(s.pending, now))))
  }

  ghost predicate IsOldest(pending: map<uint64, Assembly>, q: uint64) {
    q in pending && forall r :: r in pending ==> pending[q].createdAt <= pending[r].createdAt
  }

  ghost predicate Evicts(pending: map<uint64, Assembly>, q: uint64) {
    q !in pending && |pending| >= MAX_PENDING_FRAGMENT_SETS
  }

  datatype Outcome = Outcome(state: State, payload: Option<seq<byte>>)

  predicate WellSized(p: Packet) {
    0 < |p.payload| <= FRAGMENT_PAYLOAD_SIZE
  }

  /** A fragment arrives; `victim` is the oldest set, evicted when a ninth one begins. */
  ghost function Accepted(s: State, p: Packet, now: int, victim: uint64): Outcome {
    if IsPart(s, p) then Placed(Swept(s, now), p, now, victim)
    else if s.closed || !ValidFragmentMetadata(p.fragment, p.fragments) then Outcome(s, None)
    else if p.fragments == 0 then
      if Admits(s.accepted, p.sequence)
      then Outcome(s.(accepted := s.accepted + {p.sequence}), Some(p.payload))
      else Outcome(s, None)
    else Outcome(s, None)
  }

  /** An acceptable fragment of a larger datagram. */
  ghost predicate IsPart(s: State, p: Packet) {
    !s.closed && ValidFragmentMetadata(p.fragment, p.fragments) && p.fragments != 0 && WellSized(p)
  }

  ghost function Placed(s: State, p: Packet, now: int, victim: uint64): Outcome
    requires ValidFragmentMetadata(p.fragment, p.fragments) && p.fragments != 0
  {
    var isNew := p.sequence !in s.pending;
    var s1 := if isNew && |s.pending| >= MAX_PENDING_FRAGMENT_SETS then Dropped(s, victim) else s;
    var a := if isNew then NewAssembly(p.fragments, now) else s.pending[p.sequence];
    if a.fragments != p.fragments then Outcome(Dropped(s1, p.sequence), None)
    else if a.chunks[p.fragment].Some? then Outcome(s1, None)
    else if a.total + |p.payload| > MAX_DATAGRAM_PAYLOAD then Outcome(Dropped(s1, p.sequence), None)
    else Stored(s1, a, p)
  }

  ghost function Stored(s: State, a: Assembly, p: Packet): Outcome
    requires p.fragment < a.fragments && a.chunks[p.fragment].None?
  {
    var (usage, granted) := BudgetReserved(s.usage, |p.payload|);
    if !granted then Outcome(Dropped(s, p.sequence), None)
    else
      var a' := WithChunk(a, p.fragment, p.payload);
      var s' := s.(pending := s.pending[p.sequence := a'], usage := usage);
      if !Complete(a') then Outcome(s', None)
      else Finished(Dropped(s', p.sequence), p.sequence, Join(AllChunks(a')))
  }

  ghost function Finished(s: State, sequence: uint64, payload: seq<byte>): Outcome {
    if Admits(s.accepted, sequence)
    then Outcome(s.(accepted := s.accepted + {sequence}), Some(payload))
    else Outcome(s, None)
  }

  // ---------- A piece, case by case ----------

  ghost predicate AllYoung(pending: map<uint64, Assembly>, now: int) {
    forall q :: q in pending ==> now - pending[q].createdAt < 5_000_000_000
  }

  lemma YoungStay(s: State, now: int)
    requires AllYoung(s.pending, now)
    ensures Swept(s, now) == s
  {
    assert OverdueSets(s.pending, now) == map[];
    assert Totals(map[]) == map[] && TotalBytes(map[]) == 0;
    assert (map q | q in s.pending && !Overdue(s.pending[q], now) :: s.pending[q]) == s.pending;
  }

  predicate Grants(usage: Option<Usage>, bytes: nat) {
    usage.Some? ==> usage.value.rule + bytes <= usage.value.ruleLimit && usage.value.process + bytes <= usage.value.processLimit
  }

  /**
   A further piece of a datagram, when no set is overdue. A piece that disagrees
   on the number of pieces, makes the datagram too large or finds no budget
   abandons the datagram; one that is there already changes nothing; the last
   one delivers, if the replay window admits the number.
   */
  lemma FurtherPiece(s: State, p: Packet, now: int, victim: uint64)
    requires !s.closed && 2 <= p.fragments <= 57 && p.fragment < p.fragments && 0 < |p.payload| <= 1152
    requires p.sequence in s.pending && AllYoung(s.pending, now)
    ensures var a, o := s.pending[p.sequence], Accepted(s, p, now, victim);
      var abandoned := a.fragments != p.fragments || (a.chunks[p.fragment].None? && (a.total + |p.payload| > 65507 || !Grants(s.usage, |p.payload|)));
      && o.state.closed == s.closed
      && (forall q :: q != p.sequence ==> (q in o.state.pending <==> q in s.pending) && (q in s.pending ==> o.state.pending[q] == s.pending[q]))
      && (abandoned ==> o.payload.None? && p.sequence !in o.state.pending && o.state.accepted == s.accepted)
      && (!abandoned && a.chunks[p.fragment].Some? ==> o == Outcome(s, None))
      && (!abandoned && a.chunks[p.fragment].None? && a.received + 1 < a.fragments ==>
            && o.payload.None? && o.state.accepted == s.accepted
            && o.state.pending == s.pending[p.sequence := WithChunk(a, p.fragment, p.payload)])
      && (!abandoned && a.chunks[p.fragment].None? && a.received + 1 == a.fragments ==>
            && p.sequence !in o.state.pending
            && o.payload == (if Admits(s.accepted, p.sequence) then Some(Join(AllChunks(WithChunk(a, p.fragment, p.payload)))) else None)
            && o.state.accepted == (if o.payload.Some? then s.accepted + {p.sequence} else s.accepted))
  {
    YoungStay(s, now);
  }

  /**
   The first piece of a datagram, when no set is overdue: it begins a set, for
   which the oldest of eight goes, unless it finds no budget.
   */
  lemma FirstPiece(s: State, p: Packet, now: int, victim: uint64)
    requires !s.closed && 2 <= p.fragments <= 57 && p.fragment < p.fragments && 0 < |p.payload| <= 1152
    requires p.sequence !in s.pending && AllYoung(s.pending, now) && (|s.pending| >= 8 ==> victim in s.pending)
    ensures var o := Accepted(s, p, now, victim);
      var kept := if |s.pending| >= 8 then s.pending - {victim} else s.pending;
      var usage := if |s.pending| >= 8 then BudgetReleased(s.usage, s.pending[victim].total) else s.usage;
      && o.payload.None? && o.state.closed == s.closed && o.state.accepted == s.accepted
      && o.state.pending == if Grants(usage, |p.payload|) then kept[p.sequence := WithChunk(NewAssembly(p.fragments, now), p.fragment, p.payload)] else kept
  {
    YoungStay(s, now);
  }

  /** A whole datagram is delivered when the replay window admits its number. */
  lemma WholeDatagram(s: State, p: Packet, now: int, victim: uint64)
    requires !s.closed && p.fragments == 0 && p.fragment == 0
    ensures Accepted(s, p, now, victim) ==
      if Admits(s.accepted, p.sequence) then Outcome(s.(accepted := s.accepted + {p.sequence}), Some(p.payload)) else Outcome(s, None)
  {
    assert !IsPart(s, p);
  }

  lemma Malformed(p: Packet)
    requires p.fragments == 1 || p.fragments > 57 || (p.fragments == 0 && p.fragment != 0) || (p.fragments > 0 && p.fragment >= p.fragments)
    ensures !ValidFragmentMetadata(p.fragment, p.fragments)
  {}

  /** What comes in after the end, or is malformed, changes nothing. */
  lemma Ignored(s: State, p: Packet, now: int, victim: uint64)
    requires s.closed || p.fragments == 1 || p.fragments > 57 || (p.fragments == 0 && p.fragment != 0) || (p.fragments > 0 && p.fragment >= p.fragments)
    ensures Accepted(s, p, now, victim) == Outcome(s, None)
  {
    if !s.closed {
      Malformed(p);
    }
    assert !IsPart(s, p);
  }

  /** A piece without content, or with too much, changes nothing. */
  lemma OddSized(s: State, p: Packet, now: int, victim: uint64)
    requires p.fragments > 0 && (|p.payload| == 0 || |p.payload| > 1152)
    ensures Accepted(s, p, now, victim) == Outcome(s, None)
  {
    assert !WellSized(p);
    assert !IsPart(s, p);
  }

  /** What the next chunk of a complete assembly adds to the buffer. */
  lemma CopyNext(a: Assembly, i: nat)
    requires Complete(a) && i < |a.chunks|
    ensures a.chunks[i].Some? && ChunkBytes(a.chunks[..i + 1]) == ChunkBytes(a.chunks[..i]) + |a.chunks[i].value| <= a.total
    ensures Join(AllChunks(a)[..i + 1]) == Join(AllChunks(a)[..i]) + a.chunks[i].value
  {
    FilledBound(a.chunks);
    PrefixBytes(a.chunks, i + 1);
    assert a.chunks[..i + 1][..i] == a.chunks[..i];
    assert AllChunks(a)[..i + 1][..i] == AllChunks(a)[..i];
  }

  /** A sweep on its way: of the sets no longer in `todo`, exactly the overdue ones are gone. */
  ghost predicate SweptSoFar(was: map<uint64, Assembly>, pending: map<uint64, Assembly>, gone: map<uint64, Assembly>, todo: set<uint64>, now: int) {
    && todo <= pending.Keys <= was.Keys
    && (forall q :: q in pending ==> pending[q] == was[q])
    && (forall q :: q in gone <==> q in was && q !in todo && Overdue(was[q], now))
    && (forall q :: q in gone ==> gone[q] == was[q])
    && (forall q :: q in was ==> (q in pending <==> q !in gone))
  }

  lemma GoneNext(was: map<uint64, Assembly>, left: set<uint64>, q: uint64)
    requires q in left && q in was
    ensures (was - left)[q := was[q]] == was - (left - {q})
  {}

  lemma SweptAll(was: map<uint64, Assembly>, pending: map<uint64, Assembly>, gone: map<uint64, Assembly>, now: int)
    requires SweptSoFar(was, pending, gone, {}, now)
    ensures gone == OverdueSets(was, now)
    ensures pending == map q | q in was && !Overdue(was[q], now) :: was[q]
  {}

  // ---------- Reassembly: the receiver ----------

  class Reassembler {
    var pending: map<uint64, Assembly>
    var budget: RuleBudget?
    var closed: bool

    function BudgetFootprint(): set<object>
      reads this
    {
      if budget == null then {} else {budget, budget.process}
    }

    function Charge(): Option<Usage>
      reads this, BudgetFootprint()
    {
      if budget == null then None else Some(budget.View())
    }

    ghost function View(replay: Window): State
      reads this, BudgetFootprint(), replay
    {
      State(pending, Charge(), replay.accepted, closed)
    }

    constructor (budget: RuleBudget?)
      ensures this.budget == budget && pending == map[] && !closed
    {
      this.budget := budget;
      pending := map[];
      closed := false;
    }

    method RemoveAssembly(q: uint64)
      modifies this`pending, BudgetFootprint()
      ensures q !in old(pending) ==> pending == old(pending) && Charge() == old(Charge())
      ensures q in old(pending) ==>
        && pending == old(pending) - {q}
        && Charge() == BudgetReleased(old(Charge()), old(pending)[q].total)
    {
      if q !in pending {
        return;
      }
      var total := pending[q].total;
      pending := pending - {q};
      if budget != null {
        budget.Release(total);
      }
    }

    /** One removal of a sweep, with the account of all removals so far. */
    method MoveOut(ghost gone: map<uint64, Assembly>, ghost charge: Option<Usage>, q: uint64)
      returns (ghost gone': map<uint64, Assembly>)
      requires q in pending && q !in gone
      requires Charge() == BudgetReleased(charge, TotalBytes(gone))
      modifies this`pending, BudgetFootprint()
      ensures pending == old(pending) - {q}
      ensures gone' == gone[q := old(pending)[q]]
      ensures Charge() == BudgetReleased(charge, TotalBytes(gone'))
    {
      gone' := gone[q := pending[q]];
      TotalUpdate(gone, q, pending[q]);
      if charge.Some? {
        ReleasedTwice(charge.value, TotalBytes(gone), pending[q].total);
      }
      RemoveAssembly(q);
    }

    /** One turn of a sweep. */
    method ExpireOne(ghost was: map<uint64, Assembly>, ghost gone: map<uint64, Assembly>, ghost charge: Option<Usage>,
                     ghost todo: set<uint64>, q: uint64, now: int)
      returns (ghost gone': map<uint64, Assembly>)
      requires SweptSoFar(was, pending, gone, todo, now) && q in todo
      requires Charge() == BudgetReleased(charge, TotalBytes(gone))
      modifies this`pending, BudgetFootprint()
      ensures SweptSoFar(was, pending, gone', todo - {q}, now)
      ensures Charge() == BudgetReleased(charge, TotalBytes(gone'))
    {
      gone' := gone;
      if Overdue(pending[q], now) {
        gone' := MoveOut(gone, charge, q);
      }
    }

    method ExpireLocked(now: int)
      modifies this`pending, BudgetFootprint()
      ensures pending == map q | q in old(pending) && !Overdue(old(pending)[q], now) :: old(pending)[q]
      ensures Charge() == BudgetReleased(old(Charge()), TotalBytes(OverdueSets(old(pending), now)))
      ensures forall q :: q in old(pending) ==> (q in pending <==> now - old(pending)[q].createdAt < 5_000_000_000)
      ensures forall q :: q in pending ==> q in old(pending) && pending[q] == old(pending)[q]
    {
      ghost var was, charge := pending, Charge();
      ghost var gone: map<uint64, Assembly> := map[];
      var todo := pending.Keys;
      while todo != {}
        invariant SweptSoFar(was, pending, gone, todo, now)
        invariant Charge() == BudgetReleased(charge, TotalBytes(gone))
        decreases todo
      {
        var q :| q in todo;
        gone := ExpireOne(was, gone, charge, todo, q, now);
        todo := todo - {q};
      }
      SweptAll(was, pending, gone, now);
    }

    /** The oldest set; of several equally old ones, any. */
    method Oldest() returns (oldest: uint64)
      requires pending != map[]
      ensures IsOldest(pending, oldest)
      ensures oldest in pending && forall q :: q in pending ==> pending[oldest].createdAt <= pending[q].createdAt
    {
      var todo := pending.Keys;
      SomeKey(pending);
      oldest :| oldest in todo;
      todo := todo - {oldest};
      while todo != {}
        invariant oldest in pending && todo <= pending.Keys
        invariant forall q :: q in pending && q !in todo ==> pending[oldest].createdAt <= pending[q].createdAt
        decreases todo
      {
        var q :| q in todo;
        todo := todo - {q};
        if pending[q].createdAt < pending[oldest].createdAt {
          oldest := q;
        }
      }
    }

    /** Copies the chunks of a complete assembly, in index order, into one buffer. */
    method CopyChunks(a: Assembly) returns (payload: seq<byte>)
      requires Complete(a)
      ensures payload == Join(AllChunks(a))
    {
      var buffer := new byte[a.total](_ => 0);
      var offset := 0;
      FilledBound(a.chunks);
      ghost var all := AllChunks(a);
      for i := 0 to |a.chunks|
        invariant offset == ChunkBytes(a.chunks[..i]) <= buffer.Length
        invariant buffer[..offset] == Join(all[..i])
      {
        CopyNext(a, i);
        var chunk := a.chunks[i].value;
        PutBytes(buffer, offset, chunk);
        offset := offset + |chunk|;
      }
      assert a.chunks[..|a.chunks|] == a.chunks && all[..|a.chunks|] == all;
      payload := buffer[..];
    }

    method Accept(p: Packet, replay: Window, now: int) returns (payload: Option<seq<byte>>, ghost victim: uint64)
      requires replay.Valid()
      modifies this`pending, BudgetFootprint(), replay
      ensures replay.Valid()
      ensures Outcome(View(replay), payload) == Accepted(old(View(replay)), p, now, victim)
      ensures IsPart(old(View(replay)), p) && Evicts(Swept(old(View(replay)), now).pending, p.sequence) ==>
        IsOldest(Swept(old(View(replay)), now).pending, victim)
    {
      victim := p.sequence;
      if closed || !ValidFragmentMetadata(p.fragment, p.fragments) {
        return None, victim;
      }
      if p.fragments == 0 {
        var isFresh := replay.Accept(p.sequence);
        if !isFresh {
          return None, victim;
        }
        return Some(p.payload), victim;
      }
      if |p.payload| == 0 || |p.payload| > FRAGMENT_PAYLOAD_SIZE {
        return None, victim;
      }
      ghost var was := View(replay);
      ExpireLocked(now);
      assert View(replay) == Swept(was, now);
      payload, victim := Place(p, replay, now);
    }

    method Place(p: Packet, replay: Window, now: int) returns (payload: Option<seq<byte>>, ghost victim: uint64)
      requires replay.Valid() && ValidFragmentMetadata(p.fragment, p.fragments) && p.fragments != 0
      modifies this`pending, BudgetFootprint(), replay
      ensures replay.Valid()
      ensures Outcome(View(replay), payload) == Placed(old(View(replay)), p, now, victim)
      ensures Evicts(old(pending), p.sequence) ==> IsOldest(old(pending), victim)
    {
      victim := p.sequence;
      var isNew := p.sequence !in pending;
      var a: Assembly;
      if isNew {
        if |pending| >= MAX_PENDING_FRAGMENT_SETS {
          var oldest := Oldest();
          victim := oldest;
          RemoveAssembly(oldest);
        }
        a := NewAssembly(p.fragments, now);
      } else {
        a := pending[p.sequence];
        if a.fragments != p.fragments {
          RemoveAssembly(p.sequence);
          return None, victim;
        }
      }
      if a.chunks[p.fragment].Some? {
        return None, victim;
      }
      if a.total + |p.payload| > MAX_DATAGRAM_PAYLOAD {
        if !isNew {
          RemoveAssembly(p.sequence);
        }
        return None, victim;
      }
      payload := Store(a, p, isNew, replay);
    }

    method Store(a: Assembly, p: Packet, isNew: bool, replay: Window) returns (payload: Option<seq<byte>>)
      requires replay.Valid() && p.fragment < a.fragments && a.chunks[p.fragment].None?
      requires isNew <==> p.sequence !in pending
      modifies this`pending, BudgetFootprint(), replay
      ensures replay.Valid()
      ensures Outcome(View(replay), payload) == Stored(old(View(replay)), a, p)
    {
      if budget != null {
        var granted := budget.Reserve(|p.payload|);
        if !granted {
          if !isNew {
            RemoveAssembly(p.sequence);
          }
          return None;
        }
      }
      var a' := WithChunk(a, p.fragment, p.payload);
      pending := pending[p.sequence := a'];
      if a'.received != a'.fragments {
        return None;
      }
      RemoveAssembly(p.sequence);
      var isFresh := replay.Accept(p.sequence);
      if !isFresh {
        return None;
      }
      var joined := CopyChunks(a');
      return Some(joined);
    }

    method Clear()
      modifies this`pending, BudgetFootprint()
      ensures pending == map[]
      ensures Charge() == BudgetReleased(old(Charge()), TotalBytes(old(pending)))
    {
      ghost var was, charge := pending, Charge();
      ghost var gone: map<uint64, Assembly> := map[];
      assert TotalBytes(gone) == 0 && gone == was - pending.Keys;
      while pending != map[]
        invariant forall q :: q in pending ==> q in was && pending[q] == was[q]
        invariant gone == was - pending.Keys
        invariant Charge() == BudgetReleased(charge, TotalBytes(gone))
        decreases pending.Keys
      {
        SomeKey(pending);
        var q :| q in pending.Keys;
        GoneNext(was, pending.Keys, q);
        gone := MoveOut(gone, charge, q);
      }
      assert gone == was;
    }

    method Expire(now: int)
      modifies this`pending, BudgetFootprint()
      ensures closed ==> pending == old(pending) && Charge() == old(Charge())
      ensures !closed ==>
        && pending == (map q | q in old(pending) && !Overdue(old(pending)[q], now) :: old(pending)[q])
        && Charge() == BudgetReleased(old(Charge()), TotalBytes(OverdueSets(old(pending), now)))
        && forall q :: q in old(pending) ==> (q in pending <==> now - old(pending)[q].createdAt < 5_000_000_000)
    {
      if closed {
        return;
      }
      ExpireLocked(now);
    }

    method Close()
      modifies this, BudgetFootprint()
      ensures closed && pending == map[] && budget == old(budget)
      ensures Charge() == BudgetReleased(old(Charge()), TotalBytes(old(pending)))
    {
      closed := true;
      Clear();
    }

    /** Changing the budget gives everything held back to the old one first. */
    method SetBudget(next: RuleBudget?)
      modifies this, BudgetFootprint()
      ensures budget == next && closed == old(closed)
      ensures next == old(budget) ==> pending == old(pending) && Charge() == old(Charge())
      ensures next != old(budget) ==> pending == map[]
      ensures next != old(budget) && old(budget) != null ==>
        Some(old(budget).View()) == BudgetReleased(old(Charge()), TotalBytes(old(pending)))
    {
      if budget == next {
        return;
      }
      Clear();
      budget := next;
    }
  }
}
