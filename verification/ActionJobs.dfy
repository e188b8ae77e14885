/**
 The prerequisites of one batch of jobs: shared runtimes are synchronised
 before the jobs of the ports they own, ports that change hands are stopped
 before that, and an old owner gives its ports up before the new one starts.
 */
module ActionJobs {
  import opened Options

  const GOST := "gost-runtime-sync"
  const NGINX := "nginx-runtime-sync"
  const WIREGUARD := "forwardx-wireguard"
  const RUNTIME := "runtime"

  /** `peerTunnel` is the tunnel an action reaches through the WireGuard transport, zero for none. */
  datatype Action = Action(statusType: string, forwardType: string, backend: string, tunnelID: int, peerTunnel: int)

  /**
   A job of the batch: what it does, which forward type listens on its port
   now, and whether that listener must be stopped before the runtimes change.
   */
  datatype Job = Job(action: Action, previous: string, handoff: bool)

  predicate IsSharedSync(a: Action) {
    a.statusType == RUNTIME && (a.forwardType == GOST || a.forwardType == NGINX || a.forwardType == WIREGUARD)
  }

  function OwnerOf(forwardType: string): (owner: string)
    ensures owner == "" || owner == GOST || owner == NGINX
  {
    if forwardType in {"nginx", "nginx-tunnel", "nginx-tunnel-exit"} then NGINX
    else if forwardType in {"gost", "gost-tunnel", "gost-tunnel-exit", "gost-tunnel-hop"} then GOST
    else ""
  }

  function DesiredOwner(a: Action): string {
    OwnerOf(if a.forwardType == "guard" then a.backend else a.forwardType)
  }

  /** The shared runtime owns the old or the new listener of the job, or carries its tunnel. */
  predicate RequiredBy(runtime: Action, a: Action, previous: string) {
    && IsSharedSync(runtime) && a.statusType != RUNTIME
    && (|| runtime.forwardType == DesiredOwner(a)
        || runtime.forwardType == OwnerOf(previous)
        || (runtime.forwardType == WIREGUARD && a.peerTunnel > 0 && a.peerTunnel == runtime.tunnelID))
  }

  // ---------- What waits for what ----------

  /** The jobs of a prepared batch, by their positions among the shared and the remaining jobs. */
  datatype Node = Handoff(port: nat) | Shared(runtime: nat) | Port(port: nat)

  /** For every job the shared runtimes it waits for, and for every shared runtime its handoffs and other runtimes. */
  datatype Plan = Plan(shared: seq<Job>, ports: seq<Job>, portWaits: seq<set<nat>>, handoffWaits: seq<set<nat>>, runtimeWaits: seq<set<nat>>)

  ghost predicate Shaped(p: Plan) {
    |p.portWaits| == |p.ports| && |p.handoffWaits| == |p.shared| && |p.runtimeWaits| == |p.shared|
  }

  ghost predicate Waits(p: Plan, a: Node, b: Node)
    requires Shaped(p)
  {
    match (a, b)
    case (Port(i), Shared(k)) => i < |p.ports| && k in p.portWaits[i]
    case (Shared(k), Handoff(i)) => k < |p.shared| && i in p.handoffWaits[k]
    case (Shared(k), Shared(l)) => k < |p.shared| && l in p.runtimeWaits[k]
    case _ => false
  }

  /** A port changes hands from one shared runtime to another. */
  ghost predicate Moves(ports: seq<Job>, from: string, to: string) {
    && from != "" && to != "" && from != to
    && exists i :: 0 <= i < |ports| && ports[i].handoff && OwnerOf(ports[i].previous) == from && DesiredOwner(ports[i].action) == to
  }

  ghost predicate OneWay(ports: seq<Job>, from: string, to: string) {
    Moves(ports, from, to) && !Moves(ports, to, from)
  }

  /** The last runtime job of its kind, the one that owner changes refer to. */
  predicate IsLast(shared: seq<Job>, k: nat) {
    k < |shared| && forall l :: k < l < |shared| ==> shared[l].action.forwardType != shared[k].action.forwardType
  }

  /** This port's job needs this runtime. */
  ghost predicate Needs(shared: seq<Job>, ports: seq<Job>, i: nat, k: nat) {
    i < |ports| && k < |shared| && RequiredBy(shared[k].action, ports[i].action, ports[i].previous)
  }

  /** The runtime k takes ports over from the runtime l, and gives it none. */
  ghost predicate Linked(shared: seq<Job>, ports: seq<Job>, k: nat, l: nat) {
    IsLast(shared, k) && IsLast(shared, l) && OneWay(ports, shared[l].action.forwardType, shared[k].action.forwardType)
  }

  /** What every prepared batch satisfies. */
  ghost predicate Prepared(p: Plan) {
    && Shaped(p)
    && (forall k :: 0 <= k < |p.shared| ==> IsSharedSync(p.shared[k].action))
    && (forall i: nat, k: nat :: i < |p.ports| ==> (k in p.portWaits[i] <==> Needs(p.shared, p.ports, i, k)))
    && (forall i: nat, k: nat :: k < |p.shared| ==> (i in p.handoffWaits[k] <==> Needs(p.shared, p.ports, i, k) && p.ports[i].handoff))
    && (forall k: nat, l: nat :: k < |p.shared| ==> (l in p.runtimeWaits[k] <==> Linked(p.shared, p.ports, k, l)))
  }

  // ---------- No cycle ----------

  /** Handoffs come first, then runtimes that give ports up, then the other runtimes, then the ports. */
  ghost function Rank(p: Plan, a: Node): nat
    requires Shaped(p)
  {
    match a
    case Handoff(_) => 0
    case Shared(k) => if k < |p.shared| && p.runtimeWaits[k] != {} then 2 else 1
    case Port(_) => 3
  }

  lemma MovesBetween(ports: seq<Job>, from: string, to: string)
    requires Moves(ports, from, to)
    ensures (from == GOST && to == NGINX) || (from == NGINX && to == GOST)
  {}

  lemma WaitsDescend(p: Plan, a: Node, b: Node)
    requires Prepared(p) && Waits(p, a, b)
    ensures Rank(p, b) < Rank(p, a)
  {
    if a.Shared? && b.Shared? {
      var k, l := a.runtime, b.runtime;
      assert Linked(p.shared, p.ports, k, l);
      MovesBetween(p.ports, p.shared[l].action.forwardType, p.shared[k].action.forwardType);
      forall m ensures m !in p.runtimeWaits[l] {
        NoChain(p, k, l, m);
      }
      assert p.runtimeWaits[l] == {};
    }
  }

  /** A runtime that another waits for waits for none: its ports move one way only. */
  lemma NoChain(p: Plan, k: nat, l: nat, m: nat)
    requires Prepared(p) && k < |p.shared| && l < |p.shared| && l in p.runtimeWaits[k]
    ensures m !in p.runtimeWaits[l]
  {
    assert Linked(p.shared, p.ports, k, l);
    BackIsForth(p.shared, p.ports, k, l, m);
  }

  /** With two owners, the way on is the way back. */
  lemma BackIsForth(shared: seq<Job>, ports: seq<Job>, k: nat, l: nat, m: nat)
    requires Linked(shared, ports, k, l)
    ensures !Linked(shared, ports, l, m)
  {
    var from, to := shared[l].action.forwardType, shared[k].action.forwardType;
    MovesBetween(ports, from, to);
    if IsLast(shared, m) && Moves(ports, shared[m].action.forwardType, from) {
      MovesBetween(ports, shared[m].action.forwardType, from);
    }
  }

  ghost predicate Path(p: Plan, path: seq<Node>)
    requires Shaped(p)
  {
    forall i :: 0 <= i < |path| - 1 ==> Waits(p, path[i], path[i + 1])
  }

  lemma {:induction false} PathDescends(p: Plan, path: seq<Node>)
    requires Prepared(p) && |path| > 1 && Path(p, path)
    ensures Rank(p, path[|path| - 1]) < Rank(p, path[0])
  {
    WaitsDescend(p, path[0], path[1]);
    if |path| > 2 {
      var rest := path[1..];
      forall i | 0 <= i < |rest| - 1 ensures Waits(p, rest[i], rest[i + 1]) {
        assert rest[i] == path[i + 1] && rest[i + 1] == path[i + 2];
        assert Waits(p, path[i + 1], path[i + 1 + 1]);
      }
      PathDescends(p, rest);
    }
  }

  /** No job of a prepared batch waits for itself, however indirectly. */
  lemma NoCycle(p: Plan, path: seq<Node>)
    requires Prepared(p) && |path| > 1 && Path(p, path)
    ensures path[0] != path[|path| - 1]
  {
    PathDescends(p, path);
  }

  /** The runtime owns the port's old or its new listener. */
  predicate Owns(p: Plan, k: nat, i: nat)
    requires k < |p.shared| && i < |p.ports|
  {
    && p.ports[i].action.statusType != RUNTIME
    && (p.shared[k].action.forwardType == DesiredOwner(p.ports[i].action) || p.shared[k].action.forwardType == OwnerOf(p.ports[i].previous))
  }

  /** Ports move from the first runtime to the second. */
  ghost predicate Gives(p: Plan, k: nat, l: nat)
    requires k < |p.shared| && l < |p.shared|
  {
    Moves(p.ports, p.shared[k].action.forwardType, p.shared[l].action.forwardType)
  }

  /** A port waits for every runtime that owns its old or its new listener, and each of those for its handoff. */
  lemma OwnersFirst(p: Plan, i: nat, k: nat)
    requires Prepared(p) && i < |p.ports| && k < |p.shared| && Owns(p, k, i)
    ensures Waits(p, Port(i), Shared(k))
    ensures p.ports[i].handoff ==> Waits(p, Shared(k), Handoff(i))
  {
    assert Needs(p.shared, p.ports, i, k);
  }

  /** When ports move both ways between two runtimes, neither waits for the other. */
  lemma SwapsRunTogether(p: Plan, k: nat, l: nat)
    requires Prepared(p) && k < |p.shared| && l < |p.shared| && Gives(p, k, l) && Gives(p, l, k)
    ensures !Waits(p, Shared(k), Shared(l)) && !Waits(p, Shared(l), Shared(k))
  {
    assert !Linked(p.shared, p.ports, k, l) && !Linked(p.shared, p.ports, l, k);
  }

  /**
   In the words of the actions: a port's job waits for the nginx runtime when
   nginx listens on the port now or will, for the gost runtime likewise, and for
   the WireGuard runtime that carries its tunnel; those wait for its handoff. A
   guarded port belongs to its backend.
   */
  lemma PortWaitsFor(p: Plan, i: nat, k: nat)
    requires Prepared(p) && i < |p.ports| && k < |p.shared|
    ensures
      var a, was, runtime := p.ports[i].action, p.ports[i].previous, p.shared[k].action;
      var now := if a.forwardType == "guard" then a.backend else a.forwardType;
      var nginx, gost := {"nginx", "nginx-tunnel", "nginx-tunnel-exit"}, {"gost", "gost-tunnel", "gost-tunnel-exit", "gost-tunnel-hop"};
      var needed := a.statusType != "runtime" && runtime.statusType == "runtime" && (
        || (runtime.forwardType == "nginx-runtime-sync" && (was in nginx || now in nginx))
        || (runtime.forwardType == "gost-runtime-sync" && (was in gost || now in gost))
        || (runtime.forwardType == "forwardx-wireguard" && a.peerTunnel > 0 && a.peerTunnel == runtime.tunnelID));
      && (Waits(p, Port(i), Shared(k)) <==> needed)
      && (Waits(p, Shared(k), Handoff(i)) <==> needed && p.ports[i].handoff)
  {
    var a, was, runtime := p.ports[i].action, p.ports[i].previous, p.shared[k].action;
    var now := if a.forwardType == "guard" then a.backend else a.forwardType;
    assert Waits(p, Port(i), Shared(k)) <==> Needs(p.shared, p.ports, i, k);
    OwnersNamed(was);
    OwnersNamed(now);
  }

  /** The runtime that owns a listener, by its forward type. */
  lemma OwnersNamed(t: string)
    ensures OwnerOf(t) == "nginx-runtime-sync" <==> t in {"nginx", "nginx-tunnel", "nginx-tunnel-exit"}
    ensures OwnerOf(t) == "gost-runtime-sync" <==> t in {"gost", "gost-tunnel", "gost-tunnel-exit", "gost-tunnel-hop"}
    ensures OwnerOf(t) != "forwardx-wireguard"
  {}

  /** Some port with a handoff goes from a listener of the first types to one of the second. */
  ghost predicate GoesOver(ports: seq<Job>, from: set<string>, to: set<string>) {
    exists i :: 0 <= i < |ports| && ports[i].handoff && ports[i].previous in from
      && (if ports[i].action.forwardType == "guard" then ports[i].action.backend else ports[i].action.forwardType) in to
  }

  lemma MovesNamed(ports: seq<Job>)
    ensures Moves(ports, NGINX, GOST) <==>
      GoesOver(ports, {"nginx", "nginx-tunnel", "nginx-tunnel-exit"}, {"gost", "gost-tunnel", "gost-tunnel-exit", "gost-tunnel-hop"})
    ensures Moves(ports, GOST, NGINX) <==>
      GoesOver(ports, {"gost", "gost-tunnel", "gost-tunnel-exit", "gost-tunnel-hop"}, {"nginx", "nginx-tunnel", "nginx-tunnel-exit"})
  {
    forall i | 0 <= i < |ports|
      ensures OwnerOf(ports[i].previous) == NGINX <==> ports[i].previous in {"nginx", "nginx-tunnel", "nginx-tunnel-exit"}
      ensures OwnerOf(ports[i].previous) == GOST <==> ports[i].previous in {"gost", "gost-tunnel", "gost-tunnel-exit", "gost-tunnel-hop"}
      ensures var now := if ports[i].action.forwardType == "guard" then ports[i].action.backend else ports[i].action.forwardType;
        && (DesiredOwner(ports[i].action) == NGINX <==> now in {"nginx", "nginx-tunnel", "nginx-tunnel-exit"})
        && (DesiredOwner(ports[i].action) == GOST <==> now in {"gost", "gost-tunnel", "gost-tunnel-exit", "gost-tunnel-hop"})
    {}
    if GoesOver(ports, {"nginx", "nginx-tunnel", "nginx-tunnel-exit"}, {"gost", "gost-tunnel", "gost-tunnel-exit", "gost-tunnel-hop"}) {
      assert Moves(ports, NGINX, GOST);
    }
    if GoesOver(ports, {"gost", "gost-tunnel", "gost-tunnel-exit", "gost-tunnel-hop"}, {"nginx", "nginx-tunnel", "nginx-tunnel-exit"}) {
      assert Moves(ports, GOST, NGINX);
    }
  }

  /** The gost runtime waits for the nginx one exactly when ports go over from nginx to gost and none the other way; and the reverse. */
  lemma RuntimeWaitsFor(p: Plan, k: nat, l: nat)
    requires Prepared(p) && k < |p.shared| && l < |p.shared|
    ensures
      var to, from := p.shared[k].action.forwardType, p.shared[l].action.forwardType;
      var toGost := GoesOver(p.ports, {"nginx", "nginx-tunnel", "nginx-tunnel-exit"}, {"gost", "gost-tunnel", "gost-tunnel-exit", "gost-tunnel-hop"});
      var toNginx := GoesOver(p.ports, {"gost", "gost-tunnel", "gost-tunnel-exit", "gost-tunnel-hop"}, {"nginx", "nginx-tunnel", "nginx-tunnel-exit"});
      Waits(p, Shared(k), Shared(l)) <==>
        && (forall m :: k < m < |p.shared| ==> p.shared[m].action.forwardType != to)
        && (forall m :: l < m < |p.shared| ==> p.shared[m].action.forwardType != from)
        && (|| (from == "nginx-runtime-sync" && to == "gost-runtime-sync" && toGost && !toNginx)
            || (from == "gost-runtime-sync" && to == "nginx-runtime-sync" && toNginx && !toGost))
  {
    MovesNamed(p.ports);
    var to, from := p.shared[k].action.forwardType, p.shared[l].action.forwardType;
    assert Waits(p, Shared(k), Shared(l)) <==> Linked(p.shared, p.ports, k, l);
    if Moves(p.ports, from, to) {
      MovesBetween(p.ports, from, to);
    }
  }

  /** Every job can be run: none waits for itself, however indirectly. */
  ghost predicate Acyclic(p: Plan)
    requires Shaped(p)
  {
    forall path :: |path| > 1 && Path(p, path) ==> path[0] != path[|path| - 1]
  }

  ghost predicate OwnersRunFirst(p: Plan)
    requires Shaped(p)
  {
    forall i: nat, k: nat :: i < |p.ports| && k < |p.shared| && Owns(p, k, i) ==>
      Waits(p, Port(i), Shared(k)) && (p.ports[i].handoff ==> Waits(p, Shared(k), Handoff(i)))
  }

  ghost predicate SwapsAreFree(p: Plan)
    requires Shaped(p)
  {
    forall k: nat, l: nat :: k < |p.shared| && l < |p.shared| && Gives(p, k, l) && Gives(p, l, k) ==> !Waits(p, Shared(k), Shared(l))
  }

  /** What the waits of a prepared batch are for. */
  lemma PreparedOrders(p: Plan)
    requires Prepared(p)
    ensures Acyclic(p) && OwnersRunFirst(p) && SwapsAreFree(p)
  {
    forall path | |path| > 1 && Path(p, path) ensures path[0] != path[|path| - 1] {
      NoCycle(p, path);
    }
    forall i: nat, k: nat | i < |p.ports| && k < |p.shared| && Owns(p, k, i)
      ensures Waits(p, Port(i), Shared(k)) && (p.ports[i].handoff ==> Waits(p, Shared(k), Handoff(i)))
    {
      OwnersFirst(p, i, k);
    }
    forall k: nat, l: nat | k < |p.shared| && l < |p.shared| && Gives(p, k, l) && Gives(p, l, k) ensures !Waits(p, Shared(k), Shared(l)) {
      SwapsRunTogether(p, k, l);
    }
  }

  // ---------- Preparing a batch ----------

  function SharedJobs(jobs: seq<Job>): seq<Job> {
    if jobs == [] then [] else (if IsSharedSync(jobs[0].action) then [jobs[0]] else []) + SharedJobs(jobs[1..])
  }

  function RemainingJobs(jobs: seq<Job>): seq<Job> {
    if jobs == [] then [] else (if IsSharedSync(jobs[0].action) then [] else [jobs[0]]) + RemainingJobs(jobs[1..])
  }

  lemma {:induction false} PartsAppend(jobs: seq<Job>, job: Job)
    ensures SharedJobs(jobs + [job]) == SharedJobs(jobs) + if IsSharedSync(job.action) then [job] else []
    ensures RemainingJobs(jobs + [job]) == RemainingJobs(jobs) + if IsSharedSync(job.action) then [] else [job]
  {
    if jobs != [] {
      assert (jobs + [job])[1..] == jobs[1..] + [job];
      PartsAppend(jobs[1..], job);
    }
  }

  /** Every job is in one part, the shared runtimes in the first. */
  lemma {:induction false} PartsMembers(jobs: seq<Job>)
    ensures forall job :: job in SharedJobs(jobs) <==>
      job in jobs && job.action.statusType == "runtime" && job.action.forwardType in {"gost-runtime-sync", "nginx-runtime-sync", "forwardx-wireguard"}
    ensures multiset(SharedJobs(jobs)) + multiset(RemainingJobs(jobs)) == multiset(jobs)
  {
    if jobs != [] {
      assert jobs == [jobs[0]] + jobs[1..];
      PartsMembers(jobs[1..]);
    }
  }

  method Split(jobs: seq<Job>) returns (shared: seq<Job>, ports: seq<Job>)
    ensures shared == SharedJobs(jobs) && ports == RemainingJobs(jobs)
    ensures forall k :: 0 <= k < |shared| ==> IsSharedSync(shared[k].action)
  {
    shared, ports := [], [];
    for n := 0 to |jobs|
      invariant shared == SharedJobs(jobs[..n]) && ports == RemainingJobs(jobs[..n])
      invariant forall k :: 0 <= k < |shared| ==> IsSharedSync(shared[k].action)
    {
      assert jobs[..n + 1] == jobs[..n] + [jobs[n]];
      PartsAppend(jobs[..n], jobs[n]);
      if IsSharedSync(jobs[n].action) {
        shared := shared + [jobs[n]];
      } else {
        ports := ports + [jobs[n]];
      }
    }
    assert jobs[..|jobs|] == jobs;
  }

  /** The owner changes of the ports that need a handoff. */
  method Transitions(ports: seq<Job>) returns (moves: set<(string, string)>)
    ensures forall from, to :: (from, to) in moves <==> Moves(ports, from, to)
  {
    moves := {};
    for i := 0 to |ports|
      invariant forall from, to :: (from, to) in moves <==> Moves(ports[..i], from, to)
    {
      MovesNext(ports, i);
      var from, to := OwnerOf(ports[i].previous), DesiredOwner(ports[i].action);
      if ports[i].handoff && from != "" && to != "" && from != to {
        moves := moves + {(from, to)};
      }
    }
    assert ports[..|ports|] == ports;
  }

  lemma MovesNext(ports: seq<Job>, i: nat)
    requires i < |ports|
    ensures forall from, to :: Moves(ports[..i + 1], from, to) <==>
      Moves(ports[..i], from, to) ||
      (ports[i].handoff && from != "" && to != "" && from != to && OwnerOf(ports[i].previous) == from && DesiredOwner(ports[i].action) == to)
  {
    var next := ports[..i + 1];
    assert next[i] == ports[i];
    forall from, to | Moves(ports[..i], from, to) ensures Moves(next, from, to) {
      var j :| 0 <= j < i && ports[..i][j].handoff && OwnerOf(ports[..i][j].previous) == from && DesiredOwner(ports[..i][j].action) == to;
      assert next[j] == ports[..i][j];
    }
  }

  /** The runtimes a job needs. */
  method Relevant(shared: seq<Job>, ports: seq<Job>, i: nat) returns (relevant: set<nat>)
    requires i < |ports|
    ensures forall k: nat :: k in relevant <==> Needs(shared, ports, i, k)
  {
    relevant := {};
    for k := 0 to |shared|
      invariant forall l: nat :: l in relevant <==> l < k && Needs(shared, ports, i, l)
    {
      if RequiredBy(shared[k].action, ports[i].action, ports[i].previous) {
        relevant := relevant + {k};
      }
    }
  }

  /** Makes every runtime of a set wait for a handoff. */
  method AddHandoff(waits: seq<set<nat>>, relevant: set<nat>, i: nat) returns (r: seq<set<nat>>)
    requires forall k: nat :: k in relevant ==> k < |waits|
    ensures |r| == |waits| && forall k: nat :: k < |r| ==> r[k] == waits[k] + if k in relevant then {i} else {}
  {
    r := waits;
    for k := 0 to |waits|
      invariant |r| == |waits|
      invariant forall l: nat :: l < |r| ==> r[l] == waits[l] + if l < k && l in relevant then {i} else {}
    {
      if k in relevant {
        r := r[k := r[k] + {i}];
      }
    }
  }

  ghost predicate PortsDone(shared: seq<Job>, ports: seq<Job>, n: nat, portWaits: seq<set<nat>>, handoffWaits: seq<set<nat>>)
  {
    && |portWaits| == n <= |ports| && |handoffWaits| == |shared|
    && (forall i: nat, k: nat :: i < n ==> (k in portWaits[i] <==> Needs(shared, ports, i, k)))
    && (forall i: nat, k: nat :: k < |shared| ==> (i in handoffWaits[k] <==> i < n && Needs(shared, ports, i, k) && ports[i].handoff))
  }

  method AddPort(shared: seq<Job>, ports: seq<Job>, n: nat, portWaits: seq<set<nat>>, handoffWaits: seq<set<nat>>)
    returns (portWaits': seq<set<nat>>, handoffWaits': seq<set<nat>>)
    requires n < |ports| && PortsDone(shared, ports, n, portWaits, handoffWaits)
    ensures PortsDone(shared, ports, n + 1, portWaits', handoffWaits')
  {
    var relevant := Relevant(shared, ports, n);
    portWaits', handoffWaits' := portWaits + [relevant], handoffWaits;
    if ports[n].handoff {
      handoffWaits' := AddHandoff(handoffWaits, relevant, n);
    }
  }

  /** The last runtime job of this kind. */
  method IndexOf(shared: seq<Job>, kind: string) returns (index: Option<nat>)
    ensures index.Some? ==> IsLast(shared, index.value) && shared[index.value].action.forwardType == kind
    ensures index.None? ==> forall k :: 0 <= k < |shared| ==> shared[k].action.forwardType != kind
  {
    index := None;
    for k := 0 to |shared|
      invariant index.Some? ==> index.value < k && shared[index.value].action.forwardType == kind
      invariant forall l :: (if index.Some? then index.value + 1 else 0) <= l < k ==> shared[l].action.forwardType != kind
    {
      if shared[k].action.forwardType == kind {
        index := Some(k);
      }
    }
  }

  /** The links made so far: those of the owner changes no longer in `todo`. */
  ghost predicate LinksDone(shared: seq<Job>, ports: seq<Job>, todo: set<(string, string)>, waits: seq<set<nat>>) {
    && |waits| == |shared|
    && forall k: nat, l: nat :: k < |shared| ==>
         (l in waits[k] <==> Linked(shared, ports, k, l) && (shared[l].action.forwardType, shared[k].action.forwardType) !in todo)
  }

  lemma LastIsOne(shared: seq<Job>, k: nat, l: nat)
    requires IsLast(shared, k) && IsLast(shared, l) && shared[k].action.forwardType == shared[l].action.forwardType
    ensures k == l
  {}

  method LinkOne(shared: seq<Job>, ports: seq<Job>, moves: set<(string, string)>, ghost todo: set<(string, string)>, move: (string, string), waits: seq<set<nat>>)
    returns (waits': seq<set<nat>>)
    requires LinksDone(shared, ports, todo, waits) && move in todo && move in moves
    requires forall from, to :: (from, to) in moves <==> Moves(ports, from, to)
    ensures LinksDone(shared, ports, todo - {move}, waits')
  {
    waits' := waits;
    var from, to := move.0, move.1;
    var previous := IndexOf(shared, from);
    var desired := IndexOf(shared, to);
    if previous.Some? && desired.Some? && desired != previous && (to, from) !in moves {
      waits' := waits[desired.value := waits[desired.value] + {previous.value}];
    }
    forall k: nat, l: nat | k < |shared|
      ensures l in waits'[k] <==> Linked(shared, ports, k, l) && (shared[l].action.forwardType, shared[k].action.forwardType) !in todo - {move}
    {
      if Linked(shared, ports, k, l) && (shared[l].action.forwardType, shared[k].action.forwardType) == move {
        LastIsOne(shared, k, desired.value);
        LastIsOne(shared, l, previous.value);
      }
    }
  }

  method LinkOneWay(shared: seq<Job>, ports: seq<Job>, moves: set<(string, string)>) returns (waits: seq<set<nat>>)
    requires forall from, to :: (from, to) in moves <==> Moves(ports, from, to)
    ensures LinksDone(shared, ports, {}, waits)
  {
    waits := seq(|shared|, _ => {});
    var todo := moves;
    while todo != {}
      invariant todo <= moves && LinksDone(shared, ports, todo, waits)
      decreases todo
    {
      var move :| move in todo;
      waits := LinkOne(shared, ports, moves, todo, move, waits);
      todo := todo - {move};
    }
  }

  /** Prepares a batch; a single job, or a batch without a shared runtime, needs no preparation. */
  method PrepareBatch(jobs: seq<Job>) returns (plan: Option<Plan>)
    ensures plan.Some? <==> |jobs| >= 2 && SharedJobs(jobs) != []
    ensures plan.Some? ==> Prepared(plan.value) && plan.value.shared == SharedJobs(jobs) && plan.value.ports == RemainingJobs(jobs)
    ensures plan.Some? ==> forall job :: job in plan.value.shared <==>
      job in jobs && job.action.statusType == "runtime" && job.action.forwardType in {"gost-runtime-sync", "nginx-runtime-sync", "forwardx-wireguard"}
    ensures plan.Some? ==> multiset(plan.value.shared) + multiset(plan.value.ports) == multiset(jobs)
    ensures plan.Some? ==> Acyclic(plan.value) && OwnersRunFirst(plan.value) && SwapsAreFree(plan.value)
  {
    if |jobs| < 2 {
      return None;
    }
    var shared, ports := Split(jobs);
    if shared == [] {
      return None;
    }
    var moves := Transitions(ports);
    var portWaits: seq<set<nat>>, handoffWaits: seq<set<nat>> := [], seq(|shared|, _ => {});
    for n := 0 to |ports|
      invariant PortsDone(shared, ports, n, portWaits, handoffWaits)
    {
      portWaits, handoffWaits := AddPort(shared, ports, n, portWaits, handoffWaits);
    }
    var runtimeWaits := LinkOneWay(shared, ports, moves);
    var prepared := Plan(shared, ports, portWaits, handoffWaits, runtimeWaits);
    PreparedOrders(prepared);
    PartsMembers(jobs);
    return Some(prepared);
  }
}
