# Verified models of the forwarding agent's stateful core

This project models, in Dafny, the parts of the repository that carry state
across steps, locks, failures and restarts, and proves what they keep over
every run. Each component is a module with

* a value-level state and functions that say what each operation does to it,
* the operation itself in the form the source has it (classes whose methods
  update fields, loops with invariants), proved equal to those functions,
* theorems about whole runs, as lemmas over the same functions.

`dafny verify dfyconfig.toml` checks everything.

## The datagram transport

`Wire`, `Sealing`, `SequenceCounters`, `ReplayWindow`, `Reassembly`,
`Transport`, `QuickDelivery` and `EndToEnd` follow one direction of a session from the sealed
datagram to the delivered one. Encryption is ideal: opening succeeds exactly on
what was sealed under the same key, nonce and header, and gives back what was
sealed. The network may reorder, repeat, drop and forge. A delivered payload is
the sealed one, at most once for each sequence; and from any state that holds
nothing of a datagram, if nothing of it times out, is evicted, refused or
overrun, it is delivered exactly with its last missing frame. `QuickDelivery`
says it from what comes in alone: within five seconds, among at most eight
datagrams, with room for all bytes.

`ByteBudget`, `PacketQueue` and `BudgetConservation` cover the two-level byte
budget, the drop-oldest ring queue and the leases. The budgets balance in every
reachable state of any number of rules, queues, leases and receivers.
`ReadySignal` treats the one-slot wake-up channel with any number of producers
and consumers. `Reclamation` and `SessionTable` cover the session maps of an
entry, their hard caps and the sweep.

A finding: the frame header has room for 32 bits of the tunnel and rule ids,
and the key is derived from the same 32 bits, while an opened frame must carry
the whole ids (`forwardx-fxp/udp_direct.go:1432-1438`). A session whose ids do
not fit seals frames that it can never open: `Wire.SealRoundTrip` states that
the round trip holds if and only if both ids are below 2^32. Sessions with the
same secret and session id whose ids agree modulo 2^32 share a key, and
`Wire.OpensAcross` states that a frame opens under exactly the one of them whose
ids fit; `Wire.UnaddressableCodec` is an input. The theorems of `Transport` and
`EndToEnd` are about sessions that share their key with no other one.

## The traffic ledgers

`Reports` states what a sender with stable report ids and a receiver that
counts each id once keep together, over a network that loses, delays and
repeats. `TrafficBatches` (the forwarder, in memory) and `AgentLedger` with
`AgentConservation` (the agent, with a pending file, baselines and crashes)
build on it. `LedgerSteps` ties the agent's ledger to the conservation model,
method by method, and `LedgerCycles` says what one whole cycle credits. That the
panel counts each producer and report id once is an
assumption about the environment; the unique table of
`drizzle/schema.ts:788-794` stands for it. Report ids are assumed not to
repeat.

`CounterReadings` is what a sample reads: the kernel keeps a port's bytes in
columns (a protocol of IPv4 or IPv6) and chains, and a reading adds, for each
chain, the columns whose listing worked and takes the largest chain.
`CounterFamilies` is the choice of the counters of a rule and the test that lets
a port be skipped.

A finding: a listing that fails leaves its columns out as if they were zero,
and this reading becomes the baseline. When the listing works again, the whole
column is counted as growth (`CounterFamilies.FailedListingReplays`). The same
happens to what is left of a sum when one of its counters starts again alone.
`CounterReadings.CountsNoMoreIff` says exactly which pairs of readings are free
of this, `AgentConservation.NeverOvercreditedIff` lifts it to whole runs, and
`CounterFamilies.RuleNeverOvercreditedIff` says for which rules: rules of
iptables and of processes counted in the nft table or by iptables alone are
guarded by the test of `agent/metrics.go:401-419`, rules of nftables and
processes counted by iptables and ip6tables together are not.

## The journal and the firewall

`BbrJournal` is the host: kernel values, a config file and the saved record,
where every write may fail and leave any value behind, and files are replaced
or removed atomically or not at all. `BbrManager` is the transaction with its
rollback, apply and restore; when a single operation of a run goes wrong, it is
never stuck. Every state on the way is recorded, so a crash is
the choice of one of them. `BbrManager.Live` puts any number of runs with any
faults and crashes together.

A finding: an apply records original values that its own parser may refuse when
it loads them again, such as one with a comma. It is done all the same, and from
then on every restore and every apply is refused
(`BbrManager.ApplyThenRestore`, `BbrManager.StaysRefused`).

`PortLimits` and `PortLimitRules` normalise and compile the port limits;
`Firewall` is the command interface, where a failing command may or may not
have taken effect; `PortLimitSafety` says what a table must satisfy at every
moment, and `PortLimitReconcile` moves a live table to the wanted one with every
table in between safe. `PortLimitSafety.NoGap` says what safe means for a
connection: a port that the old and the new limits both limit is counted at
every moment, and `PortLimitReconcile.CountedThroughout` carries this over any
number of failed and killed changes. `PortLimitSafety.Enforces` is what limits
are for: a new connection is refused exactly when its source has more
connections to its user's ports than allowed. How many a counter has is the
kernel's business, and a parameter. Chain names are taken to be injective
digests.

## Concurrency structures of the agent

`ProxyTables` and `WireGuardRefs`: counted references, shared proxies and the
generation-guarded release timer. `ActionIngress`: the bounded coalescing
buffer. `ActionJobs`: the prerequisites of a batch and why they have no cycle.
`StatusQueue`: the take-and-restore queue of status reports.

Sections under a mutex are single steps; time is a parameter. `Words`,
`Options`, `MapSums` and `Subsequences` hold machine integers, optional values,
sums over maps and what is left when elements are left out. Go's 64-bit integers are the types `int64` and `uint64` where their width
matters; byte counters are natural numbers.

## Model

| member | source | states |
|---|---|---|
| ReplayWindow.Window.Accept | forwardx-fxp/udp_direct.go:58-90 | the 64-bit window answers yes exactly when the sequence is not zero, not in the set of all accepted ones, and above or within 63 of the highest; the word stays a picture of that set |
| ReplayWindow.NeverAcceptedTwice | forwardx-fxp/udp_direct.go:51-90 | in any sequence of arrivals no number is accepted twice |
| ReplayWindow.AcceptedIffAdmitted | forwardx-fxp/udp_direct.go:51-90 | a number is in the accepted set exactly when one of its arrivals was let in |
| ReplayWindow.FreshInWindowAccepted | forwardx-fxp/udp_direct.go:51-90 | every first arrival that is less than 64 below all earlier ones is accepted |
| Wire.WriteHeader | forwardx-fxp/udp_direct.go:1555-1572 | the buffer gets the header's bytes and keeps the rest, exactly when it has 32 bytes and the packet has a known type, a session, a sequence and a fragment index below a count of 2 to 57, or none; otherwise nothing changes |
| Wire.HeaderSlices | forwardx-fxp/udp_direct.go:1555-1572 | where magic, version, type, fragment fields, ids, session and sequence stand in the 32 bytes |
| Words.BigEndianDigits | forwardx-fxp/udp_direct.go:1555-1572 | numbers are written with their most significant byte first |
| Wire.HeaderRoundTrip | forwardx-fxp/udp_direct.go:1465-1572 | parsing a written header gives back every field, the ids modulo 2^32, when at least the 16 bytes of an authentication tag follow, and is refused otherwise |
| Wire.HeaderCanonical | forwardx-fxp/udp_direct.go:1465-1572 | a header that parses is byte for byte the one that would be written for its reading |
| Wire.SealsExactly | forwardx-fxp/udp_direct.go:1440-1455 | a codec seals exactly the well-formed packets of its own session with at most 65459 bytes, and adds 48 |
| Wire.SealRoundTrip | forwardx-fxp/udp_direct.go:1415-1510 | opening a sealed frame gives the packet back if and only if both ids of the session are below 2^32; otherwise it is refused as another context |
| Wire.OpenedWasSealed | forwardx-fxp/udp_direct.go:1487-1510 | whatever opens is, header and body, the frame this codec makes of the packet that comes out |
| Wire.OpensAcross | forwardx-fxp/udp_direct.go:1415-1510 | a frame opens under exactly those codecs whose ids fit the header and that agree with the sealing one in secret, type and session and, modulo 2^32, in tunnel and rule; it then carries the ids of the opening one |
| Wire.UnaddressableCodec | forwardx-fxp/udp_direct.go:1432-1438 | the codec of tunnel 2^32 seals a frame that it refuses itself and that the codec of tunnel 0 opens |
| Wire.KeyedRoundTrip | forwardx-fxp/udp_direct.go:1440-1519 | with a codec made for each packet every sealed packet opens, its ids reduced modulo 2^32, and is the same one exactly when they are below |
| Wire.NonceInjective | forwardx-fxp/udp_direct.go:1593-1605 | the 12-byte nonce determines sequence and fragment |
| Wire.FillNonce | forwardx-fxp/udp_direct.go:1599-1605 | a buffer of at least 12 bytes starts with that nonce, whatever it held, and keeps the rest; a shorter one is left alone |
| Sealing.CountBounds | forwardx-fxp/udp_fragment.go:106-118 | payloads up to 65507 bytes, and no others, have a frame count; it is between 1 and 57, all frames but the last hold 1152 bytes and the last is not empty unless the payload is |
| Sealing.ChunksJoin | forwardx-fxp/udp_fragment.go:191-227 | the chunks of a datagram joined in order are the datagram |
| Sealing.FragmentSeals | forwardx-fxp/udp_fragment.go:191-227 | every fragment of a sealable datagram seals, into at most 1200 bytes |
| Sealing.SealDatagrams | forwardx-fxp/udp_fragment.go:191-227 | succeeds exactly for an unsealed datagram of the codec's session of at most 65507 bytes while the counter is not exhausted; the frames are those of its chunks of 1152 bytes under the counter's next number, each of at most 1200 bytes, and a refusal spends no number |
| Sealing.SequenceCounter.Next | forwardx-fxp/udp_fragment.go:120-133 | gives the next number, or refuses at the top of the range without change |
| SequenceCounters.ReachableInv | forwardx-fxp/udp_fragment.go:120-178 | under every interleaving of the compare-and-swap steps of any threads, issued numbers, seeds and what each thread has read stay consistent |
| SequenceCounters.IssuedAndSeedsIncrease | forwardx-fxp/udp_fragment.go:120-168 | each counter issues strictly increasing numbers and seeds strictly increase |
| SequenceCounters.SeedAboveReported | forwardx-fxp/udp_fragment.go:135-178 | a seed allocated after a counter was observed exceeds every number it had issued by then |
| SequenceCounters.NoNonceReuse | forwardx-fxp/udp_fragment.go:120-227 | two different frames of one counter never share a nonce |
| SequenceCounters.NoNonceReuseAcrossRestart | forwardx-fxp/udp_fragment.go:135-178 | nor do frames of a counter and of a later one seeded after it was observed |
| SequenceCounters.NextAlone | forwardx-fxp/udp_fragment.go:120-133 | a loop that nothing disturbs issues the next number, unless the counter is at the top |
| SequenceCounters.SeedAlone | forwardx-fxp/udp_fragment.go:135-168 | undisturbed, the allocator gives the wanted seed when it is above the last, else the one after the last, and none at the top |
| SequenceCounters.ObserveAlone | forwardx-fxp/udp_fragment.go:170-178 | undisturbed, an observation lifts the allocator to the counter's value if that is above it |
| Reassembly.Reassembler.Accept | forwardx-fxp/udp_fragment.go:229-304 | the new receiver state, budget usage and returned payload are those of the accepted-fragment function, and an evicted set is an oldest one |
| Reassembly.FurtherPiece | forwardx-fxp/udp_fragment.go:229-304 | a further piece of a datagram that is not overdue: one that disagrees on the number of pieces, goes beyond 65507 bytes or finds no budget abandons the datagram, one that is there already changes nothing, one that is missing is stored, and the last one delivers what the pieces join to, if the number was not accepted before; other datagrams stay |
| Reassembly.FirstPiece | forwardx-fxp/udp_fragment.go:229-304 | a first piece begins a set, for which an oldest of eight goes, unless it finds no budget |
| Reassembly.WholeDatagram | forwardx-fxp/udp_fragment.go:229-238 | a datagram in one frame is delivered when the window admits its number |
| Reassembly.Ignored | forwardx-fxp/udp_fragment.go:229-232 | after the end, or with malformed fragment fields, nothing changes |
| Reassembly.OddSized | forwardx-fxp/udp_fragment.go:239-241 | a piece that is empty or has more than 1152 bytes changes nothing |
| Reassembly.Reassembler.CopyChunks | forwardx-fxp/udp_fragment.go:298-302 | the returned buffer is the chunks joined in index order |
| Reassembly.Reassembler.ExpireLocked | forwardx-fxp/udp_fragment.go:306-312 | exactly the sets begun five seconds ago or earlier go, and their bytes are given back |
| Reassembly.Reassembler.Oldest | forwardx-fxp/udp_fragment.go:314-326 | a set that none is older than |
| Reassembly.Reassembler.SetBudget | forwardx-fxp/udp_fragment.go:47-58 | changing the budget drops everything held and gives it back to the old budget; the same budget changes nothing; neither opens nor closes the receiver |
| Reassembly.Reassembler.Close | forwardx-fxp/udp_fragment.go:69-77 | closes and gives everything held back |
| Transport.OpenedIsGenuine | forwardx-fxp/udp_direct.go:1487-1510 | whatever passes the codec of a session is a fragment the sender made of a datagram it sealed |
| Transport.GenuineDeliveredOnce | forwardx-fxp/udp_fragment.go:229-304 | over every run of the receiver on packets the sender made, no sequence is delivered twice |
| Transport.DeliveriesAreSound | forwardx-fxp/udp_fragment.go:191-304 | over every run of arrivals, timeouts, clears and budget changes, what is delivered for a sequence is the payload sealed under it |
| Transport.DeliveredAtMostOnce | forwardx-fxp/udp_fragment.go:229-304 | over every such run no sequence is delivered twice |
| Transport.DeliveredWithLastFrame | forwardx-fxp/udp_fragment.go:229-304 | from any state that holds nothing of a datagram, in any run where none of it is timed out, evicted or overrun by the window, and no frame of it that needs room is refused, an event delivers it exactly when it brings the last missing frame, and delivers the sealed payload |
| QuickDelivery.PromptDelivery | forwardx-fxp/udp_fragment.go:229-326 | said of what comes in alone: a receiver that holds nothing gets packets of at most eight datagrams in pieces, all within five seconds of the first piece of this one, none numbered 64 ahead of it, with room for all their bytes; then an event delivers the datagram exactly when it brings the last missing frame |
| QuickDelivery.AtMostEight | forwardx-fxp/udp_fragment.go:229-326 | in every run at most eight datagrams are being put together |
| EndToEnd.SealedToDelivered | forwardx-fxp/udp_fragment.go:120-304 | with the payloads of a session sealed under the numbers its counter issued to any interleaving of threads, and frames that the network reorders, repeats, drops or makes up without the key: every delivery is one of those payloads under its own number, and no two deliveries are of the same one |
| EndToEnd.DeliveredWhenComplete | forwardx-fxp/udp_fragment.go:120-304 | a payload of a session whose ids fit the header is delivered, from any state that holds nothing of it and through any run that does not disturb it, exactly with the raw input that completes the frames made of it |
| EndToEnd.DeliveredPromptly | forwardx-fxp/udp_fragment.go:120-326 | the same promise from the raw inputs alone: all frames of the payload among inputs within five seconds, of at most eight sequences and with room for all bytes, deliver it with the input that completes them |
| ByteBudget.RuleBudget.Reserve | forwardx-fxp/udp_queue_budget.go:44-63 | usage of rule and process grows by the bytes exactly when both then stay within their limits; no bytes are always granted, fewer than none never |
| ByteBudget.RuleBudget.Replace | forwardx-fxp/udp_queue_budget.go:65-84 | one step gives bytes back and takes others, exactly when both have so many and both then stay within their limits, or changes nothing |
| ByteBudget.RuleBudget.Release | forwardx-fxp/udp_queue_budget.go:86-98 | gives bytes back, never below zero |
| PacketQueue.LongestSuffix | forwardx-fxp/udp_tuning.go:100-114 | the drop count keeps the longest suffix that leaves room for the new packet |
| PacketQueue.EnqueueContract | forwardx-fxp/udp_tuning.go:86-127 | enqueue leaves the queue alone (closed, oversize, refused) or yields that suffix with the packet behind it, and the whole queue when there is a free slot and room for the bytes; it answers false exactly when the packet got in and nothing was dropped |
| PacketQueue.EnqueueConserves | forwardx-fxp/udp_tuning.go:86-127 | usage moves by exactly the bytes the queue gains or loses |
| PacketQueue.Queue.PlanDrops | forwardx-fxp/udp_tuning.go:100-114 | the loop over the ring finds that drop count and its bytes, and room is left, so the second capacity test never fires |
| PacketQueue.Queue.Enqueue | forwardx-fxp/udp_tuning.go:86-127 | ring, budget and answer are those of the drop-oldest queue on sequences; the wake-up token is there exactly when it was or the packet got in |
| PacketQueue.Queue.TakeLocked | forwardx-fxp/udp_tuning.go:133-164 | takes the oldest packet under a lease that keeps its bytes charged, and passes the wake-up on while packets remain |
| PacketQueue.Queue.Close | forwardx-fxp/udp_tuning.go:199-213 | empties the queue and gives all its bytes back |
| PacketQueue.Lease.Done | forwardx-fxp/udp_tuning.go:42-53 | releases the bytes once, however often it is called |
| ReadySignal.AlwaysAwake | forwardx-fxp/udp_tuning.go:86-164 | in every reachable state a non-empty queue has a token in its channel or a consumer on its way to the lock with one |
| ReadySignal.TakenInOrder | forwardx-fxp/udp_tuning.go:86-164 | what consumers take together is a subsequence of what was admitted, in order |
| ReadySignal.Drains | forwardx-fxp/udp_tuning.go:86-164 | whatever has happened, consumers that go on receiving take all that waits, oldest first |
| BudgetConservation.ChangeBalances | forwardx-fxp/udp_tuning.go:42-53 | each operation of a queue, lease or receiver moves rule and process usage by exactly what its owner gained or gave back |
| BudgetConservation.ArriveBalances | forwardx-fxp/udp_fragment.go:229-344 | so does an arriving fragment, through eviction, timeout, refusal and completion |
| BudgetConservation.AlwaysBalanced | forwardx-fxp/udp_queue_budget.go:44-98 | in every reachable state of any run a rule's usage is the bytes of its queues, unfinished leases and reassemblies, the process usage is the sum over rules, and no limit is exceeded |
| BudgetConservation.NeverClamped | forwardx-fxp/udp_queue_budget.go:65-98 | in no reachable state does any operation give back more than its rule and the process have in use, so no release is ever cut short and no exchange is refused for it |
| Reclamation.PlanReclamation | forwardx-fxp/udp_tuning.go:307-364 | the plan takes only idle drained sessions, none twice, oldest first, each under pressure when taken, and leaves no idle session under pressure |
| Reclamation.PlanTakesIdle | forwardx-fxp/udp_tuning.go:307-348 | a good plan takes what has been idle for the policy's time, or 30 s, with nothing pending, oldest first and equals by key |
| Reclamation.PlanTakesUnderPressure | forwardx-fxp/udp_tuning.go:349-364 | when it takes a session, the sessions left reach the soft limit of all or of its address |
| Reclamation.PlanRelieves | forwardx-fxp/udp_tuning.go:349-364 | an idle session that it leaves is left below both soft limits |
| Reclamation.SortCandidates | forwardx-fxp/udp_tuning.go:343-348 | sorted by age and then key, and a permutation |
| SessionTable.AdmitKeeps | forwardx-fxp/udp_direct.go:363-385 | a session admitted below the caps keeps the two maps equal, the per-address counts true and the caps |
| SessionTable.DetachKeeps | forwardx-fxp/udp_direct.go:233-250 | so does taking one out, and it was in both maps |
| SessionTable.SessionTables.Preflight | forwardx-fxp/udp_direct.go:332-348 | the check before a session is created rejects exactly when the true count of its address or of all has reached a hard limit, and never a key that has a session |
| SessionTable.SessionTables.Admit | forwardx-fxp/udp_direct.go:363-385 | existing key, id collision, rejection exactly when the true count of its address or of all has reached a hard limit, or admission, each with the whole new maps; an admission reports pressure exactly when the true counts reach a soft limit |
| SessionTable.SessionTables.Detach | forwardx-fxp/udp_direct.go:233-250 | a registered session leaves all three maps, any other call changes nothing |
| SessionTable.SessionTables.Sweep | forwardx-fxp/udp_direct.go:256-285 | first exactly the expired sessions go, then exactly a good plan for the rest is carried out, in its order |
| SessionTable.SweptByTime | forwardx-fxp/udp_direct.go:256-272 | what expires has been silent for ten minutes, or for five with nothing pending, and has been active at all |
| Reports.FirstArrival | forwardx-fxp/traffic.go:350-387 | the first report of an id to arrive is the one still pending, however many are under way |
| TrafficBatches.Ledger.Enqueue | forwardx-fxp/traffic.go:60-106 | adds counts to the account of the key and rule; nothing to add or an incomplete configuration changes nothing; other accounts are untouched |
| TrafficBatches.Ledger.PendingSnapshot | forwardx-fxp/traffic.go:350-387 | a pending report is posted again under its own id, else the non-zero counts become a new one |
| TrafficBatches.DueMeaning | forwardx-fxp/traffic.go:350-387 | nothing is posted only when nothing is outstanding, and a new report holds all that is outstanding, rule by rule |
| TrafficBatches.Ledger.Acknowledge | forwardx-fxp/traffic.go:214-248 | the sent counts are taken off, rules and accounts with nothing left go, other accounts are untouched |
| TrafficBatches.AlwaysBalanced | forwardx-fxp/traffic.go:60-387 | over every run of enqueues, flushes, failures and lost, late or repeated reports: enqueued plus the doubtful pending report is credited plus outstanding, and the pending report never exceeds what is outstanding, so nothing saturates |
| TrafficBatches.CreditedOnce | forwardx-fxp/traffic.go:60-387 | never more is credited than was enqueued, and exactly that once nothing is outstanding |
| TrafficBatches.CreditedInTheEnd | forwardx-fxp/traffic.go:60-387 | from wherever a run has got to, posts that succeed credit exactly what was enqueued |
| TrafficBatches.Reporter.ReportDelta | forwardx-fxp/traffic.go:393-412 | the growth since the last report reaches the account, or is dropped when the configuration is incomplete |
| TrafficBatches.ReportedAddsUp | forwardx-fxp/traffic.go:393-412 | whatever the readings in between, the reported growth adds up to the last reading |
| AgentLedger.Ledger.ReadPrevState | agent/metrics.go:3263-3318 | the cached baseline, else the file's, else an empty one that is then cached |
| AgentLedger.Ledger.WritePrevState | agent/metrics.go:3332-3353 | file and cache change together, or neither; an equal cached baseline is not written |
| AgentLedger.Ledger.SampleAll | agent/metrics.go:1240-1281 | each sampled port gets a line exactly when it grew, and its baseline is written at once exactly when it did not |
| AgentLedger.Ledger.CommitBaselines | agent/metrics.go:3355-3365 | success commits every line; a failure leaves each port committed or as it was |
| AgentLedger.Ledger.CompletePending | agent/metrics.go:1006-1044 | when it is done, each port whose rule file names the rule of its line has that baseline in the cache and, unless the cache had it before, on file, and every other port is as before; a rule file that cannot be read stops it before any commit, and it is certain to be done when all files can be used; the pending file goes exactly then |
| CounterReadings.LargestChain | agent/metrics.go:2757-2775 | the loops over chains and columns give the largest of the sums of the listed columns |
| CounterReadings.CountsNoMoreIff | agent/metrics.go:2743-2825 | whatever the counters of a chain hold, a sample counts no more than they have grown if and only if the columns listed now that have kept their counts are exactly those listed for the baseline, or there are none |
| CounterReadings.ReadingGrows | agent/metrics.go:2757-2775 | with the same columns listed a reading never falls and grows by no more than has passed, over any number of chains |
| CounterReadings.OneCellRestarts | agent/metrics.go:2757-2775 | when some counters start again, a reading of a single one stays or goes to zero |
| AgentConservation.SampleFits | agent/gost_traffic.go:199-209 | what a sample counts fits between the mark of the baseline on file and what has passed, through restarts, source and epoch changes and stale caches |
| AgentConservation.NeverOvercreditedIff | agent/metrics.go:1129-1365 | over all runs of traffic, failed listings, skipped ports, restarting counters, source and epoch changes, failed writes and posts, lost, late and repeated reports and crashes the panel counts no more than has passed if and only if every source is always read with the same columns and, where single kernel counters can start again alone, with one counter only |
| AgentConservation.ListedOrSkipped | agent/metrics.go:1223-1243 | for any sources, it counts no more than has passed in every run where each sample that is not skipped has all its columns listed and sources start again as a whole |
| AgentConservation.CreditedExactly | agent/metrics.go:1129-1365 | in runs whose samples read all that passes with the same columns, find the baseline file readable, and whose source does not start again, it counts exactly what has passed between the first baseline and the committed one, or that of the pending report once it is applied |
| LedgerSteps.CollectRun | agent/metrics.go:1129-1365 | for one port of a fixed rule, sampling all ports and saving the report is one legal step of that model: a collection when the port is sampled, a skip when it is not, with a report when it was saved |
| LedgerSteps.CompleteRun | agent/metrics.go:1006-1044 | completing the answered report is the step of a commit and that of the removal; when it fails, that of a commit, written or not, without the removal |
| LedgerSteps.RestartRun | agent/metrics.go:3263-3318 | a restart is the crash step |
| LedgerCycles.CycleCredits | agent/metrics.go:1129-1365 | over a baseline on file, a sample that is reported, answered and completed credits in each direction what the reading has grown, or all of it when it is less; nothing over another source and nothing from a native runtime that has started again; and leaves the sample as the baseline on file and in the cache |
| LedgerCycles.RestartThenCycle | agent/metrics.go:1240-1281 | after kernel counters have started again as a whole, a cycle whose readings are still below the old baseline credits exactly what has passed |
| CounterFamilies.RuleNeverOvercreditedIff | agent/metrics.go:379-419 | for a rule of any kind with any counting columns installed, that holds exactly when the test for its layout and the choice of its source leave only one way to read it, and no sum of counters that can start again alone |
| CounterFamilies.InstalledNeverOvercreditedIff | agent/main.go:8850-9031 | with the columns the agent installs it fails exactly for nftables rules, for processes counted by iptables and ip6tables together, and for rules counted in two protocols whose counters can start again alone; where a tool is missing its columns are not installed |
| CounterFamilies.FailedListingReplays | agent/metrics.go:1240-1281 | a kernel reading of zero after a failed listing counts nothing and becomes the baseline in cache and file, and the next reading is counted whole |
| BbrJournal.Host.Write | agent/plugin_bbr.go:97-110 | a write touches its own key only, whatever it leaves there |
| BbrJournal.SupportedTcpKeys | agent/plugin_bbr.go:37-47 | TCP parameters with a name of small letters, digits and underscores are supported |
| BbrJournal.SupportedCoreKeys | agent/plugin_bbr.go:37-47 | ten core parameters are supported |
| BbrJournal.NumbersAccepted | agent/plugin_bbr.go:53-87 | any number is an acceptable value |
| BbrJournal.ListsAccepted | agent/plugin_bbr.go:53-87 | acceptable values joined by one blank are acceptable |
| BbrManager.Transaction | agent/plugin_bbr.go:352-427 | done completely, or refused or rolled back with nothing changed, or stuck with its journal saved; every state on the way can be undone; certain to be done when nothing fails and the targets can be set; never stuck when at most one operation goes wrong and new and present values are acceptable |
| BbrManager.RollBack | agent/plugin_bbr.go:401-414 | undoing in reverse past failures; clean means every value is as before |
| BbrManager.Apply | agent/plugin_bbr.go:429-496 | when done, the named keys have their new values and every other key its original one, and the record has values for the named keys and those it had; certain to be done when nothing fails, the keys exist and the saved record loads; refused without a trace behind a record that does not load; never stuck when at most one operation goes wrong and the present values are acceptable |
| BbrManager.Restore | agent/plugin_bbr.go:498-524 | when done, every key and the config file are as before the plugin, and the record is gone; certain to be done when nothing fails and there is a record that loads; refused without a trace when there is none; never stuck when at most one operation goes wrong and the present values are acceptable |
| BbrManager.Live | agent/plugin_bbr.go:352-524 | after any applies and restores with any faults, each killed anywhere, the host can be undone, and a restore that is done gives exactly the first state |
| BbrManager.AppliedValues | agent/plugin_bbr.go:449-493 | setting the deselected keys back and then the selection gives the selection on top of the original values |
| BbrManager.ApplyPlanned | agent/plugin_bbr.go:449-493 | the journal and the final record of an apply keep every changed key with its original value |
| BbrManager.SavedRecordLoads | agent/plugin_bbr.go:240-269 | a record the plugin saved loads again if and only if its own parser accepts the original values |
| BbrManager.ApplyThenRestore | agent/plugin_bbr.go:240-524 | a first apply that is done can be undone, when nothing fails, if and only if the plugin's parser accepts the original values of all its parameters; otherwise the restore is refused and the applied values stay |
| BbrManager.StaysRefused | agent/plugin_bbr.go:240-269 | behind a record that does not load no sequence of commands, with any faults and killed anywhere, changes anything |
| BbrManager.CommaStays | agent/plugin_bbr.go:53-76 | such an original value is a list with a comma |
| PortLimits.NormalizedPortLimits | agent/port_access_limits.go:80-110 | succeeds exactly when users are positive and distinct, no limit is negative, limited ports are between 1 and 65535 and no port is limited for two users; the result is sorted, without duplicates or overlaps, and limits the same ports for the same users |
| PortLimitRules.CompileRules | agent/port_access_limits.go:115-145 | the chains are the counters of the users and the dispatcher, none for no limits; a counter drops above its limit, by whole IPv4 or IPv6 addresses, and returns; the dispatcher jumps and returns |
| PortLimitRules.DispatchMeaning | agent/port_access_limits.go:115-145 | in any order of the jump rules ahead of the return, a limited port enters exactly its user's counter, once, and any other port none |
| PortLimitRules.ChunkSizes | agent/port_access_limits.go:131-141 | every jump rule lists one to fifteen ports |
| Firewall.Firewall.Run | agent/port_access_limits.go:64-72 | a failed command may have taken effect; a successful one has |
| PortLimitSafety.PreparingSafe | agent/port_access_limits.go:195-231 | while chains are completed, the old hooks and all they lead to work as before |
| PortLimitSafety.HookingSafe | agent/port_access_limits.go:232-245 | a new hook leads to a complete dispatcher, and the old hooks stay |
| PortLimitSafety.UnhookingSafe | agent/port_access_limits.go:252-257 | old hooks go only when both base chains carry the new one |
| PortLimitSafety.NoGap | agent/port_access_limits.go:178-273 | a new connection that a complete counter counts at the start goes, in every safe table on the way to limits that limit its port, through that counter or through the new one of the port, complete |
| PortLimitSafety.CompleteDrops | agent/port_access_limits.go:115-145 | a counter with all its rules, repaired or not, drops a new connection exactly when more than its limit are counted for its address |
| PortLimitSafety.ExcessRefused | agent/port_access_limits.go:178-273 | while limits change, a connection that exceeds the old and the new limit is refused in every safe table on the way |
| PortLimitSafety.HealthyEnforces | agent/port_access_limits.go:115-273 | a healthy table refuses a new connection exactly when the user of its port has more connections from its address than allowed |
| PortLimitReconcile.Unreferenced | agent/port_access_limits.go:258-271 | an obsolete dispatcher is not referenced, nor is an obsolete counter once those are gone |
| PortLimitReconcile.ReconcileFamily | agent/port_access_limits.go:178-273 | every table on the way is safe whatever fails; success settles the table and is certain when no command fails; a check changes nothing, accepts only a healthy table, and accepts every healthy one when its commands work |
| PortLimitReconcile.EmptyFormed | agent/port_access_limits.go:178-273 | a reconciliation can start from a table without managed chains |
| PortLimitReconcile.ReconcileThenCheck | agent/port_access_limits.go:178-273 | a reconciliation that is done leaves exactly the wanted chains and a table that a check passes whenever its own commands work, and it is done when no command fails; a check that passes means a healthy table that enforces exactly the limits |
| PortLimitReconcile.CountedThroughout | agent/port_access_limits.go:178-273 | over any number of changes of the limits with any faults, each killed anywhere, every table on the way counts a connection of a user whose port all of these limits limit, if the first table did, and refuses it when it exceeds all of them |
| PortLimitSafety.CompleteMeaning | agent/port_access_limits.go:175-245 | the dispatcher of any ready table, repaired or not, sends a connection into exactly the counters that limit its port |
| ProxyTables.RetainKeeps | agent/wireguard_runtime.go:1226-1244 | retaining a key keeps every count equal to the number of owners and every proxy owned |
| ProxyTables.ReleaseDone | agent/wireguard_runtime.go:940-966 | releasing an id keeps that, and closes exactly the registered proxies it was the last owner of |
| ProxyTables.LastOwnedMeaning | agent/wireguard_runtime.go:940-966 | an id is the last owner of the keys that it owns and no other id does |
| ProxyTables.NoOwners | agent/wireguard_runtime.go:940-966 | without owners there are no proxies and no counts |
| ProxyTables.ProxyTable.Ensure | agent/wireguard_runtime.go:1211-1280 | an open proxy is kept, a closed one replaced, a new one registered only for a registered reference, else discarded |
| ProxyTables.ProxyTable.Release | agent/wireguard_runtime.go:940-966 | the loop over an id's keys gives that result |
| WireGuardRefs.Runtime.AddRef | agent/wireguard_runtime.go:871-913 | counts the reference, stops the release timer, retains the registered keys; a closed runtime refuses |
| WireGuardRefs.Runtime.Release | agent/wireguard_runtime.go:925-985 | the last reference of an id closes exactly what it last owned; the last of all arms the release timer |
| WireGuardRefs.Runtime.EnsureOutbound | agent/wireguard_runtime.go:1211-1280 | an outbound proxy for a registered reference, unless the runtime is closed |
| WireGuardRefs.Runtime.EnsureInbound | agent/wireguard_runtime.go:1350-1424 | the same for inbound proxies |
| WireGuardRefs.Runtime.IdleIsEmpty | agent/wireguard_runtime.go:925-985 | with no references both tables are empty |
| WireGuardRefs.Runtime.ClaimClose | agent/wireguard_runtime.go:1592-1625 | the first claim gets everything, every later one nothing |
| WireGuardRefs.Runtime.StopIfUnused | agent/wireguard_runtime.go:987-1009 | a release timer closes the runtime only when no reference was acquired since it was armed |
| ActionIngress.Buffer.Push | agent/actions.go:132-164 | items, index and what comes back are those of a push on the list of pending jobs |
| ActionIngress.PushMeaning | agent/actions.go:132-164 | a job older than the pending one of its key comes back and changes nothing; any other goes to the end, and the pending one of its key leaves its place and comes back; there is room for it below the capacity or when its key is pending |
| ActionIngress.Buffer.Pop | agent/actions.go:166-181 | the oldest job, in order |
| ActionIngress.AlwaysConserved | agent/actions.go:121-202 | over every run the buffer stays within its capacity and every pushed job is popped, returned or drained exactly once or still pending |
| ActionIngress.PoppedInOrder | agent/actions.go:121-202 | over every run jobs are popped in the order they were pushed, some left out |
| ActionIngress.AlwaysLatest | agent/actions.go:121-202 | with positive times the pending job of a key has the latest time pushed since the key last left |
| ActionJobs.PrepareBatch | agent/actions.go:1429-1543 | the prerequisites of every job of the batch are exactly those stated: ports for the runtimes they need, those for the handoffs, and the runtimes of one-way owner changes; so no job waits for itself, owners run before their ports and handoffs before owners, and runtimes that swap ports do not wait for each other |
| ActionJobs.PortWaitsFor | agent/actions.go:1845-1881 | by the names of the forward types: a port's job waits for the nginx or gost runtime exactly when that one listens on the port now or will, a guarded port by its backend, and for the WireGuard runtime of its tunnel; those wait for the port's handoff |
| ActionJobs.RuntimeWaitsFor | agent/actions.go:1545-1575 | of the last gost and nginx runtimes, the one that takes ports over waits for the one that gives them up, exactly when none go the other way |
| ActionJobs.NoCycle | agent/actions.go:1429-1575 | no job of a batch waits for itself, however indirectly |
| ActionJobs.OwnersFirst | agent/actions.go:1863-1881 | a port's job waits for every runtime that owns its old or new listener, and each of those for the port's handoff |
| ActionJobs.SwapsRunTogether | agent/actions.go:1545-1575 | when ports move both ways between two runtimes neither waits for the other |
| StatusQueue.Queue.Enqueue | agent/action_status.go:92-106 | an outdated report is refused, any other is filed under its key, at the end if the key is new |
| StatusQueue.Queue.Take | agent/action_status.go:122-148 | the first keys' reports, in order, leave the queue |
| StatusQueue.Queue.Restore | agent/action_status.go:156-181 | the batch goes back in front in its order, except outdated reports and keys with something newer |
| StatusQueue.RestoreDisplacesNothing | agent/action_status.go:156-181 | whatever is pending stays, in its order, and only reports of the batch are added |
| StatusQueue.RestoreMeaning | agent/action_status.go:156-181 | after a restore every key of the batch for which nothing later has been issued has a report pending, and nothing comes back that something later was issued for |
| StatusQueue.RestoreInOrder | agent/action_status.go:156-181 | what comes back stands in front, in the order of the batch |
| StatusQueue.AlwaysNewest | agent/action_status.go:92-181 | over every run the order lists the pending keys once each, what is pending is the newest of its key, and the newest accepted report of a key is pending, under way or delivered |
| StatusQueue.DeliveredInTheEnd | agent/action_status.go:92-181 | from wherever a run has got to, batches that are sent deliver the newest accepted report of every key |

## Left out

* Sockets, HTTP, systemd, shell commands, procfs, conntrack and the parsing of
  nft, iptables and GOST output: their results are parameters or small abstract
  state.
* The cryptography itself (HMAC, AES-GCM, SHA-256, base64, TLS) and JSON
  encoding: ideal encryption, injective digests, decoding inverse to encoding.
* File-system durability below atomic replacement: a replacement or removal
  happens and succeeds, or fails without effect. A removal that takes effect and
  then reports a failed directory sync is not modelled.
* Blocking: waiting on condition variables and channels appears as a
  precondition of the step that follows; that a step is taken at all, and the
  number of workers, are not treated.
* Go's random map iteration order: loops over maps take any remaining key, so
  the theorems hold for every order.
* Aliasing of a partial reassembly through a Go pointer: an assembly is a value
  in the map and is stored back.
* The exit and relay session loops, the endpoint selector, rate limiters and
  diagnostics logs.
* Wrap-around of 64-bit byte counters, which are natural numbers here.
* Ports whose rule changes or goes away while a report is pending, in the
  conservation theorems; identity changes, legacy baseline formats, host traffic
  and the connection counters in the agent's ledger: a connection delta is a
  parameter.
* The text of the counter listings: a listing shows the counting columns of a
  port completely or not at all.
* The text parser of the kernel parameters: `BbrManager.Apply` starts from its
  result, with the parser's guarantees as its precondition.
* Trimming of blanks in configuration fields, keys and ids: they arrive trimmed.
* Registering and replacing runtimes in the global runtime table; whether a
  tunnel still uses a runtime is a parameter of `WireGuardRefs.Runtime.StopIfUnused`.
* The FXP recovery snapshot attached to a handoff job, and the snapshot that
  tells the present owner of a port: both are inputs of `ActionJobs`.
- PortLimitSafety.CompleteMeaning: states which counters a connection enters, not how often, because a check that fails on a rule that is present makes the repair insert it twice; PortLimitRules.DispatchMeaning states once for rules without such a repeat.
- StatusQueue.AlwaysNewest: covers one batch under way at a time, as the single reporter loop has it; with two batches of equal times restored in the wrong order the earlier one would win.
- SessionTable.SessionTables.Sweep: starts from snapshots taken after the partial reassemblies have timed out; that timeout is Reassembly.Reassembler.Expire.
- PortLimitReconcile.ReconcileFamily: takes managed chains to hold only rules made for them, each any number of times and with the return last; the code never removes a foreign rule from a chain it keeps, so one that an administrator puts there stays.
- PortLimitReconcile.ReconcileThenCheck: the same, as it runs the same reconciliation.
- PortLimitReconcile.CountedThroughout: the same; moments inside a single command are not seen.
- AgentConservation.CreditedExactly: does not cover a sample that finds the cache empty and the baseline file unreadable, because the code then starts a new baseline and what had passed before is never counted.
