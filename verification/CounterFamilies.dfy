/**
 Which counters the agent reads for a rule, and when it skips the rule, given
 the listings that worked. Together with the conservation of
 `AgentConservation` this says for which rules the panel can count more than has
 passed.
 */
module CounterFamilies {
  import opened Options
  import opened AgentLedger
  import opened CounterReadings
  import opened AgentConservation

  /** The target of a rule: an address of either family, or a name that is none. */
  datatype Target = IPv4 | IPv6 | Name

  /** How a rule forwards; GOST and the other processes are counted alike. */
  datatype Kind = Nftables | Iptables(target: Target) | Process

  /** How many counting columns each listing has for the port: its own table for nftables rules, the nft table for processes, iptables and ip6tables. */
  datatype Layout = Layout(nft: nat, process: nat, ipv4: nat, ipv6: nat)

  /** Which of these listings worked. */
  datatype Listings = Listings(nft: bool, process: bool, ipv4: bool, ipv6: bool)

  const NATIVE_NFT := "native-nft-v1"
  const IPTABLES := "iptables-v1"
  const PROCESS_NFT := "process-nft"
  const PROCESS_IPTABLES := "process-iptables"

  /** Whether the counting layout shows; a rule without it is left to the native counters, or skipped. */
  predicate Present(kind: Kind, layout: Layout, l: Listings) {
    match kind
    case Nftables => true
    case Iptables(Name) => true
    case Iptables(IPv4) => l.ipv4 && layout.ipv4 > 0
    case Iptables(IPv6) => l.ipv6 && layout.ipv6 > 0
    case Process => ProcessListed(layout, l) || (l.ipv4 && layout.ipv4 > 0) || (l.ipv6 && layout.ipv6 > 0)
  }

  predicate ProcessListed(layout: Layout, l: Listings) {
    l.process && layout.process > 0
  }

  function SourceOf(kind: Kind, layout: Layout, l: Listings): string {
    match kind
    case Nftables => NATIVE_NFT
    case Iptables(_) => IPTABLES
    case Process => if ProcessListed(layout, l) then PROCESS_NFT else PROCESS_IPTABLES
  }

  function Columns(n: nat, listed: bool): View {
    seq(n, _ => listed)
  }

  function Width(layout: Layout, source: string): nat {
    if source == NATIVE_NFT then layout.nft
    else if source == PROCESS_NFT then layout.process
    else layout.ipv4 + layout.ipv6
  }

  /** The columns a sample reads; those of iptables and ip6tables are added up. */
  function ViewOf(kind: Kind, layout: Layout, l: Listings): View {
    match kind
    case Nftables => Columns(layout.nft, l.nft)
    case Iptables(_) => Columns(layout.ipv4, l.ipv4) + Columns(layout.ipv6, l.ipv6)
    case Process =>
      if ProcessListed(layout, l) then Columns(layout.process, true)
      else Columns(layout.ipv4, l.ipv4) + Columns(layout.ipv6, l.ipv6)
  }

  ghost predicate ReadAs(kind: Kind, layout: Layout, source: string, l: Listings, view: View) {
    Present(kind, layout, l) && SourceOf(kind, layout, l) == source && ViewOf(kind, layout, l) == view
  }

  ghost function ViewsOf(kind: Kind, layout: Layout, source: string): set<View> {
    set nft: bool, process: bool, ipv4: bool, ipv6: bool |
      var l := Listings(nft, process, ipv4, ipv6); Present(kind, layout, l) && SourceOf(kind, layout, l) == source
    :: ViewOf(kind, layout, Listings(nft, process, ipv4, ipv6))
  }

  function Sources(kind: Kind): set<string> {
    match kind
    case Nftables => {NATIVE_NFT}
    case Iptables(_) => {IPTABLES}
    case Process => {PROCESS_NFT, PROCESS_IPTABLES}
  }

  /** Only iptables readings take the largest of several chains. */
  ghost function KernelFamily(kind: Kind, layout: Layout, source: string, chains: nat, separate: bool): Family {
    Family(if source == NATIVE_NFT || source == PROCESS_NFT then 1 else chains, Width(layout, source), ViewsOf(kind, layout, source), separate)
  }

  /** The policy of a rule: its kernel counters and the two native runtimes that stand in for them. */
  ghost function RulePolicy(kind: Kind, layout: Layout, chains: nat, separate: bool): Policy {
    map s | s in Sources(kind) + {GOST_NATIVE, GUARD_NATIVE} ::
      if IsNative(s) then Family(1, 1, {[true]}, separate) else KernelFamily(kind, layout, s, chains, separate)
  }

  lemma ViewsOfContains(kind: Kind, layout: Layout, source: string, view: View)
    ensures view in ViewsOf(kind, layout, source) <==> exists l :: ReadAs(kind, layout, source, l, view)
  {
    if l :| ReadAs(kind, layout, source, l, view) {
      assert l == Listings(l.nft, l.process, l.ipv4, l.ipv6);
    }
    if view in ViewsOf(kind, layout, source) {
      var nft, process, ipv4, ipv6 :| var l := Listings(nft, process, ipv4, ipv6);
        Present(kind, layout, l) && SourceOf(kind, layout, l) == source && ViewOf(kind, layout, l) == view;
      assert ReadAs(kind, layout, source, Listings(nft, process, ipv4, ipv6), view);
    }
  }

  lemma RulePolicyValid(kind: Kind, layout: Layout, chains: nat, separate: bool)
    requires chains > 0
    ensures ValidPolicy(RulePolicy(kind, layout, chains, separate))
  {
    var policy := RulePolicy(kind, layout, chains, separate);
    forall s | s in policy && !IsNative(s) ensures forall v :: v in policy[s].views ==> |v| == policy[s].columns {
      forall v | v in policy[s].views ensures |v| == policy[s].columns {
        ViewsOfContains(kind, layout, s, v);
      }
    }
  }

  /** Two sets of listings that give a source different columns. */
  lemma Differ(kind: Kind, layout: Layout, source: string, l: Listings, m: Listings, i: nat)
    requires Present(kind, layout, l) && SourceOf(kind, layout, l) == source && Present(kind, layout, m) && SourceOf(kind, layout, m) == source
    requires i < |ViewOf(kind, layout, l)| && i < |ViewOf(kind, layout, m)| && ViewOf(kind, layout, l)[i] != ViewOf(kind, layout, m)[i]
    ensures forall chains, separate :: !SameViews(KernelFamily(kind, layout, source, chains, separate))
  {
    assert ReadAs(kind, layout, source, l, ViewOf(kind, layout, l)) && ReadAs(kind, layout, source, m, ViewOf(kind, layout, m));
    ViewsOfContains(kind, layout, source, ViewOf(kind, layout, l));
    ViewsOfContains(kind, layout, source, ViewOf(kind, layout, m));
  }

  /** All listings that let a source be read give it these columns. */
  ghost predicate ReadsOnly(kind: Kind, layout: Layout, source: string, view: View) {
    forall l :: Present(kind, layout, l) && SourceOf(kind, layout, l) == source ==> ViewOf(kind, layout, l) == view
  }

  lemma Agree(kind: Kind, layout: Layout, source: string, view: View, l: Listings, chains: nat, separate: bool)
    requires ReadsOnly(kind, layout, source, view) && Present(kind, layout, l) && SourceOf(kind, layout, l) == source
    ensures var f := KernelFamily(kind, layout, source, chains, separate);
      SameViews(f) && (ReadsOneCell(f) <==> OneCell(f.chains, view))
  {
    var f := KernelFamily(kind, layout, source, chains, separate);
    forall v | v in f.views ensures v == view {
      ViewsOfContains(kind, layout, source, v);
    }
    assert ReadAs(kind, layout, source, l, view);
    ViewsOfContains(kind, layout, source, view);
  }

  lemma NeverRead(kind: Kind, layout: Layout, source: string, chains: nat, separate: bool)
    requires forall l :: !(Present(kind, layout, l) && SourceOf(kind, layout, l) == source)
    ensures var f := KernelFamily(kind, layout, source, chains, separate); SameViews(f) && ReadsOneCell(f)
  {
    forall v ensures v !in ViewsOf(kind, layout, source) {
      ViewsOfContains(kind, layout, source, v);
    }
  }

  lemma FullCells(chains: nat, n: nat)
    requires chains > 0
    ensures OneCell(chains, Columns(n, true)) <==> n == 0 || (n == 1 && chains == 1)
  {
    var view := Columns(n, true);
    if n > 1 { assert Cell(chains, view, 0, 0) && Cell(chains, view, 0, 1); }
    if n == 1 && chains > 1 { assert Cell(chains, view, 0, 0) && Cell(chains, view, 1, 0); }
  }

  // ---------- Which rules are guarded ----------

  ghost predicate KernelGuarded(f: Family) {
    SameViews(f) && (f.separate ==> ReadsOneCell(f))
  }

  /** At most one counter, when single ones can start again alone. */
  predicate Alone(columns: nat, chains: nat, separate: bool) {
    separate ==> columns == 0 || (columns == 1 && chains == 1)
  }

  lemma NftablesFamily(layout: Layout, chains: nat, separate: bool)
    ensures KernelGuarded(KernelFamily(Nftables, layout, NATIVE_NFT, chains, separate)) <==> layout.nft == 0
  {
    var l := Listings(true, false, false, false);
    if layout.nft > 0 {
      Differ(Nftables, layout, NATIVE_NFT, l, l.(nft := false), 0);
    } else {
      Agree(Nftables, layout, NATIVE_NFT, Columns(0, true), l, chains, separate);
    }
  }

  lemma NamedFamily(layout: Layout, chains: nat, separate: bool)
    ensures KernelGuarded(KernelFamily(Iptables(Name), layout, IPTABLES, chains, separate)) <==> layout.ipv4 + layout.ipv6 == 0
  {
    var none, both := Listings(false, false, false, false), Listings(false, false, true, true);
    if layout.ipv4 + layout.ipv6 > 0 {
      Differ(Iptables(Name), layout, IPTABLES, none, both, 0);
    } else {
      Agree(Iptables(Name), layout, IPTABLES, Columns(0, true), none, chains, separate);
    }
  }

  lemma IPv4Family(layout: Layout, chains: nat, separate: bool)
    requires chains > 0
    ensures KernelGuarded(KernelFamily(Iptables(IPv4), layout, IPTABLES, chains, separate))
       <==> layout.ipv4 == 0 || (layout.ipv6 == 0 && Alone(layout.ipv4, chains, separate))
  {
    var both := Listings(false, false, true, true);
    if layout.ipv4 == 0 {
      NeverRead(Iptables(IPv4), layout, IPTABLES, chains, separate);
    } else if layout.ipv6 > 0 {
      Differ(Iptables(IPv4), layout, IPTABLES, both, both.(ipv6 := false), layout.ipv4);
    } else {
      Agree(Iptables(IPv4), layout, IPTABLES, Columns(layout.ipv4, true), both, chains, separate);
      FullCells(chains, layout.ipv4);
    }
  }

  lemma IPv6Family(layout: Layout, chains: nat, separate: bool)
    requires chains > 0
    ensures KernelGuarded(KernelFamily(Iptables(IPv6), layout, IPTABLES, chains, separate))
       <==> layout.ipv6 == 0 || (layout.ipv4 == 0 && Alone(layout.ipv6, chains, separate))
  {
    var both := Listings(false, false, true, true);
    if layout.ipv6 == 0 {
      NeverRead(Iptables(IPv6), layout, IPTABLES, chains, separate);
    } else if layout.ipv4 > 0 {
      Differ(Iptables(IPv6), layout, IPTABLES, both, both.(ipv4 := false), 0);
    } else {
      Agree(Iptables(IPv6), layout, IPTABLES, Columns(layout.ipv6, true), both, chains, separate);
      FullCells(chains, layout.ipv6);
    }
  }

  lemma ProcessNftFamily(layout: Layout, chains: nat, separate: bool)
    ensures KernelGuarded(KernelFamily(Process, layout, PROCESS_NFT, chains, separate)) <==> Alone(layout.process, 1, separate)
  {
    if layout.process == 0 {
      NeverRead(Process, layout, PROCESS_NFT, chains, separate);
    } else {
      Agree(Process, layout, PROCESS_NFT, Columns(layout.process, true), Listings(false, true, false, false), chains, separate);
      FullCells(1, layout.process);
    }
  }

  lemma ProcessIptablesFamily(layout: Layout, chains: nat, separate: bool)
    requires chains > 0
    ensures KernelGuarded(KernelFamily(Process, layout, PROCESS_IPTABLES, chains, separate))
       <==> (layout.ipv4 == 0 || layout.ipv6 == 0) && Alone(layout.ipv4 + layout.ipv6, chains, separate)
  {
    var both := Listings(false, false, true, true);
    var n := layout.ipv4 + layout.ipv6;
    if n == 0 {
      NeverRead(Process, layout, PROCESS_IPTABLES, chains, separate);
    } else if layout.ipv4 > 0 && layout.ipv6 > 0 {
      Differ(Process, layout, PROCESS_IPTABLES, both, both.(ipv6 := false), layout.ipv4);
    } else {
      Agree(Process, layout, PROCESS_IPTABLES, Columns(n, true), both, chains, separate);
      FullCells(chains, n);
    }
  }

  /** What a maintainer can check of a rule: its kind, the counting columns installed, and whether single counters can start again. */
  predicate Dependable(kind: Kind, layout: Layout, chains: nat, separate: bool) {
    match kind
    case Nftables => layout.nft == 0
    case Iptables(Name) => layout.ipv4 + layout.ipv6 == 0
    case Iptables(IPv4) => layout.ipv4 == 0 || (layout.ipv6 == 0 && Alone(layout.ipv4, chains, separate))
    case Iptables(IPv6) => layout.ipv6 == 0 || (layout.ipv4 == 0 && Alone(layout.ipv6, chains, separate))
    case Process =>
      && Alone(layout.process, 1, separate)
      && (layout.ipv4 == 0 || layout.ipv6 == 0) && Alone(layout.ipv4 + layout.ipv6, chains, separate)
  }

  lemma DependableIff(kind: Kind, layout: Layout, chains: nat, separate: bool)
    requires chains > 0
    ensures Guarded(RulePolicy(kind, layout, chains, separate)) <==> Dependable(kind, layout, chains, separate)
  {
    var policy := RulePolicy(kind, layout, chains, separate);
    KernelSources(kind, layout, chains, separate);
    match kind
    case Nftables => NftablesFamily(layout, chains, separate);
    case Iptables(Name) => NamedFamily(layout, chains, separate);
    case Iptables(IPv4) => IPv4Family(layout, chains, separate);
    case Iptables(IPv6) => IPv6Family(layout, chains, separate);
    case Process =>
      ProcessNftFamily(layout, chains, separate);
      ProcessIptablesFamily(layout, chains, separate);
  }

  lemma KernelSources(kind: Kind, layout: Layout, chains: nat, separate: bool)
    ensures Guarded(RulePolicy(kind, layout, chains, separate))
       <==> forall s :: s in Sources(kind) ==> KernelGuarded(KernelFamily(kind, layout, s, chains, separate))
  {
    var policy := RulePolicy(kind, layout, chains, separate);
    assert forall s :: s in Sources(kind) ==> !IsNative(s) && s in policy && policy[s] == KernelFamily(kind, layout, s, chains, separate);
  }

  /** The panel never counts more than has passed for a rule exactly when the rule is dependable. */
  lemma RuleNeverOvercreditedIff(kind: Kind, layout: Layout, chains: nat, separate: bool)
    requires chains > 0
    ensures NeverOvercredits(RulePolicy(kind, layout, chains, separate)) <==> Dependable(kind, layout, chains, separate)
  {
    RulePolicyValid(kind, layout, chains, separate);
    NeverOvercreditedIff(RulePolicy(kind, layout, chains, separate));
    DependableIff(kind, layout, chains, separate);
  }

  /** Which of the tools are there and do their work when the counters are installed. */
  datatype Tools = Tools(nft: bool, iptables: bool, ip6tables: bool)

  /**
   The columns the agent installs, one for each protocol of the rule: an
   address is counted in its own family only, a name not at all, a process in
   the nft table, or else by iptables and, where it is there, by ip6tables.
   */
  function Installed(kind: Kind, protocols: nat, tools: Tools): Layout {
    match kind
    case Nftables => Layout(if tools.nft then protocols else 0, 0, 0, 0)
    case Iptables(IPv4) => Layout(0, 0, if tools.iptables then protocols else 0, 0)
    case Iptables(IPv6) => Layout(0, 0, 0, if tools.ip6tables then protocols else 0)
    case Iptables(Name) => Layout(0, 0, 0, 0)
    case Process =>
      if tools.nft then Layout(0, protocols, 0, 0)
      else if tools.iptables then Layout(0, 0, protocols, if tools.ip6tables then protocols else 0)
      else Layout(0, 0, 0, 0)
  }

  /**
   With the columns the agent installs, too much can be counted for an nftables
   rule, for a process counted by iptables and ip6tables together, and for any
   rule counted in two protocols when one of its counters can start again
   alone. For no other.
   */
  lemma InstalledNeverOvercreditedIff(kind: Kind, protocols: nat, tools: Tools, separate: bool)
    requires 1 <= protocols <= 2
    ensures NeverOvercredits(RulePolicy(kind, Installed(kind, protocols, tools), 1, separate)) <==>
      && (kind.Nftables? ==> !tools.nft)
      && (kind.Process? ==> tools.nft || !tools.iptables || !tools.ip6tables)
      && (separate && protocols == 2 ==> Installed(kind, protocols, tools) == Layout(0, 0, 0, 0))
  {
    RuleNeverOvercreditedIff(kind, Installed(kind, protocols, tools), 1, separate);
  }

  /**
   How it happens: a listing that fails reads as zero, which becomes the
   baseline at once, and the next listing that works counts the whole again.
   */
  lemma FailedListingReplays(b: Baseline)
    requires b.ruleID > 0 && !IsNative(b.source) && b.bytes != ZERO
    ensures var (store, zero, disk) := (Store(Some(b), Some(b)), b.(bytes := ZERO), Disk(true, true));
      && SampledEntry(store, zero, 0, disk) == None
      && SampledStore(store, zero, 0, disk) == Store(Some(zero), Some(zero))
      && SampledEntry(Store(Some(zero), Some(zero)), b, 0, disk) == Some(Entry(b.bytes, 0, b))
  {
    var zero := b.(bytes := ZERO);
    assert ByteDeltas(b, zero) == ZERO;
    assert Growth(b.bytes, ZERO) == b.bytes;
  }
}
