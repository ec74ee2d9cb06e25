/** The whole system for one namespace and one kind of resource: the ledger shared
    by all nodes, and on every node the limit and counter that its syncs set up and
    its hooks enforce. A sync is several steps, and everything interleaves. */
module Cluster {

  import opened Basics
  import opened MapSum
  import opened QuotaLedger
  import opened LeaseManager
  import opened LedgerRuns
  import opened Enforcer
  import opened SyncLeases
  import opened Syncer

  /** What a sync in progress is going to enforce, and whether it has set the limit. */
  datatype Offer = Offer(node: string, amount: int64, adopted: bool)

  /** The namespace's entries in one node's kernel maps. */
  datatype NodeMaps = NodeMaps(limit: Option<int64>, lease: Option<CpuLease>)

  datatype World = World(ledger: State, offers: map<nat, Offer>, nodes: map<string, NodeMaps>)
  {
    function Node(n: string): NodeMaps {
      if n in nodes then nodes[n] else NodeMaps(None, None)
    }

    function Count(n: string): nat {
      match Node(n).lease
      case Some(l) => l.count
      case None => 0
    }

    function Set(n: string, m: NodeMaps): World {
      this.(nodes := nodes[n := m])
    }
  }

  /** An event of the ledger; for the request of a sync, `spec` is the version of the
      object from which the syncing node has read the limit. */
  datatype WorldEvent =
    | Shared(event: Event, spec: nat := 0)
    | Adopt(worker: nat)
    | Slice(worker: nat)
    | Hook(node: string, cgid: CgroupId, cgCount: nat, now: nat)
    | Shut(node: string, now: nat)
    | ForgetLimit(node: string)
    | ForgetCounter(node: string)

  /** The event is the request that a sync of this kind makes. */
  predicate SyncAsks(e: Event, kind: Kind) {
    e.Try? && e.action.Ask? && e.action.kind == kind
  }

  /** The limit in a version of the object that a node may still read. */
  ghost function LimitRead(s: State, kind: Kind, spec: nat): int64
    requires Valid(s)
  {
    if spec < |s.history| then s.history[spec].Limit(kind) else Current(s).Limit(kind)
  }

  /** What a sync enforces after its request: the grant, or the whole limit of the
      namespace, as it has read it, if the request failed or was granted nothing. */
  ghost function OfferOf(s: State, e: Event, kind: Kind, spec: nat): Offer
    requires Valid(s) && SyncAsks(e, kind) && Enabled(s, e)
  {
    var answer := Answer(s, e);
    var granted := if answer.Ok? then Some(answer.value) else None;
    Offer(e.action.node, EffectiveLimit(LimitRead(s, kind, spec), granted), false)
  }

  /** The syncer's method makes exactly the request of these runs, of the side of its kind:
      it leaves the object as the step does, and goes on to enforce what is offered. */
  lemma SyncTakesTheStep(s: State, e: Event, kind: Kind, spec: nat, stored: map<string, Stored>, ns: string,
                         leaser: K8sLeaseManager, net: Net)
    requires Valid(s) && SyncAsks(e, kind) && Enabled(s, e) && OwnKey(ns, kind)
    requires leaser.nodeID == e.action.node && leaser.defaultBatch == e.action.batch && net.update == e.up
    requires ns in stored && stored[ns] == Stored(Current(s), |s.history| - 1)
    ensures var read, key := Some(Stored(s.history[s.seen[e.worker]], s.seen[e.worker])), LeaseKey(ns, kind);
            var t := Step(s, e);
            && StoredAfterRequest(stored, key, Some(leaser), e.action.node, read, e.action.requested, net)
               == stored[ns := Stored(Current(t), |t.history| - 1)]
            && EffectiveLimit(LimitRead(s, kind, spec),
                              GrantFor(stored, key, Some(leaser), e.action.node, read, e.action.requested, net))
               == OfferOf(s, e, kind, spec).amount
  {
    hide PlanRequest, LeaseKey, Step, AfterWrite, Reply, SplitProc;
    KeyReachesSide(ns, kind);
    ManagerTakesTheStep(s, e, stored, ns);
  }

  ghost function WorldStep(w: World, kind: Kind, e: WorldEvent): (w': World)
    requires Valid(w.ledger)
    ensures Valid(w'.ledger)
  {
    match e
    case Shared(event, spec) =>
      var offers := if SyncAsks(event, kind) && Enabled(w.ledger, event)
                    then w.offers[event.worker := OfferOf(w.ledger, event, kind, spec)] else w.offers;
      w.(ledger := Step(w.ledger, event), offers := offers)
    case Adopt(worker) =>
      if worker !in w.offers then w else
      var o := w.offers[worker];
      w.(offers := w.offers[worker := o.(adopted := true)]).Set(o.node, w.Node(o.node).(limit := Some(o.amount)))
    case Slice(worker) =>
      if worker !in w.offers || !w.offers[worker].adopted then w else
      var o := w.offers[worker];
      var m := w.Node(o.node);
      var slice := FirstSlice(o.amount);
      var lease := if m.lease.Some? then m.lease.value.(leaseBudget := slice) else CpuLease(0, slice, 0, 0, 0);
      w.(offers := w.offers - {worker}).Set(o.node, m.(lease := Some(lease)))
    case Hook(node, cgid, cgCount, now) =>
      var m := w.Node(node);
      if m.limit.None? || m.limit.value == 0 || m.lease.None? then w
      else w.Set(node, m.(lease := Some(Attempt(Noted(m.lease.value, cgid, cgCount, now), ToU64(m.limit.value)).0)))
    case Shut(node, now) =>
      var m := w.Node(node);
      if w.Count(node) == 0 then w
      else w.Set(node, m.(lease := Some(m.lease.value.(count := m.lease.value.count - 1, lastUsedNs := now))))
    case ForgetLimit(node) => w.Set(node, w.Node(node).(limit := None))
    case ForgetCounter(node) => w.Set(node, w.Node(node).(lease := None))
  }

  ghost function WorldRun(w: World, kind: Kind, es: seq<WorldEvent>): (w': World)
    requires Valid(w.ledger)
    ensures Valid(w'.ledger)
  {
    if es == [] then w else WorldStep(WorldRun(w, kind, es[..|es| - 1]), kind, es[|es| - 1])
  }

  /** The node's kernel maps hold this for the namespace. */
  predicate Shows(m: NodeMaps, k: Kernel, ns: Namespace) {
    && (m.limit.Some? <==> ns in k.nsLimit) && (m.limit.Some? ==> k.nsLimit[ns] == ToU64(m.limit.value))
    && m.lease == (if ns in k.nsCounter then Some(k.nsCounter[ns]) else None)
  }

  /** What one map operation or hook on a node is in these runs: nothing, if it is
      not about the namespace. A limit and a slice come from a sync in progress. */
  predicate Mirrors(w: World, e: WorldEvent, k: Kernel, me: MapEvent, node: string, ns: Namespace) {
    match me
    case Install(cgid, now) => k.Bound(cgid, ns) && e == Hook(node, cgid, k.Count(cgid) + 1, now)
    case Close(cgid, now) => k.Bound(cgid, ns) && e == Shut(node, now)
    case SetLimit(n, limit) => n == ns && e.Adopt? && e.worker in w.offers && w.offers[e.worker] == Offer(node, limit, w.offers[e.worker].adopted)
    case Reslice(n, limit) => n == ns && e.Slice? && e.worker in w.offers && w.offers[e.worker] == Offer(node, limit, true)
    case DropLimit(n) => n == ns && e == ForgetLimit(node)
    case DropCounter(n) => n == ns && e == ForgetCounter(node)
    case _ => false
  }

  predicate Elsewhere(k: Kernel, me: MapEvent, ns: Namespace) {
    match me
    case Install(cgid, _) => !k.Bound(cgid, ns)
    case Close(cgid, _) => !k.Bound(cgid, ns)
    case SetLimit(n, _) => n != ns
    case Reslice(n, _) => n != ns
    case DropLimit(n) => n != ns
    case DropCounter(n) => n != ns
    case _ => true
  }

  /** The node's steps are exactly what its kernel maps do for the namespace. */
  lemma KernelTakesTheStep(w: World, kind: Kind, e: WorldEvent, k: Kernel, me: MapEvent, node: string, ns: Namespace)
    requires Valid(w.ledger) && Shows(w.Node(node), k, ns) && Mirrors(w, e, k, me, node, ns)
    ensures Shows(WorldStep(w, kind, e).Node(node), MapStep(k, kind, me), ns)
  {
    hide Attempt, Noted, Step, OfferOf, FirstSlice;
  }

  /** What its kernel maps do for other namespaces does not show. */
  lemma KernelWorksElsewhere(m: NodeMaps, kind: Kind, k: Kernel, me: MapEvent, ns: Namespace)
    requires Shows(m, k, ns) && Elsewhere(k, me, ns)
    ensures Shows(m, MapStep(k, kind, me), ns)
  {
    hide Attempt, Noted;
    if (me.Install? || me.Close?) && me.cgid in k.cgroupNs { assert k.cgroupNs[me.cgid] != ns; }
  }

  ghost function CreditsIn(w: World, kind: Kind): Credits
    requires Valid(w.ledger)
  {
    Current(w.ledger).Alloc(kind)
  }

  /** Nothing enforces on the node: it has no counter, and no sync is in progress. */
  predicate Quiet(w: World, n: string) {
    w.Node(n).lease.None? && forall o | o in w.offers :: w.offers[o].node != n
  }

  /** The rules that the guarantees below rest on, each about single steps. The spec
      is fixed. A sync's request goes through and is granted more than 0, so that no
      node falls back to the whole limit. A request that returns what the node
      already holds has read a version since which the node has held credits
      throughout. Credits are taken from a node only when it is quiet. And a node
      that has none is granted credits only when it is quiet. */
  datatype Rule = SpecFixed | GrantsOnly | HeldSince | WithdrawsQuietly | RegrantsQuietly

  ghost predicate Asks(w: World, kind: Kind, e: WorldEvent)
    requires Valid(w.ledger)
  {
    e.Shared? && SyncAsks(e.event, kind) && Enabled(w.ledger, e.event)
  }

  /** The request of a sync goes through and returns credits. */
  ghost predicate Granted(w: World, kind: Kind, e: WorldEvent)
    requires Valid(w.ledger) && Asks(w, kind, e)
  {
    Answer(w.ledger, e.event).Ok? && Answer(w.ledger, e.event).value > 0
  }

  ghost predicate Meets(w: World, kind: Kind, e: WorldEvent, rule: Rule)
    requires Valid(w.ledger)
  {
    var s := w.ledger;
    match rule
    case SpecFixed => !(e.Shared? && e.event.EditSpec?)
    case GrantsOnly => Asks(w, kind, e) ==> Granted(w, kind, e)
    case HeldSince =>
      Asks(w, kind, e) && Granted(w, kind, e) && !Commits(s, e.event) ==>
        forall i | s.seen[e.event.worker] <= i < |s.history| :: e.event.action.node in s.history[i].Alloc(kind)
    case WithdrawsQuietly =>
      forall n | n in CreditsIn(w, kind) && n !in CreditsIn(WorldStep(w, kind, e), kind) :: Quiet(w, n)
    case RegrantsQuietly =>
      forall n | n !in CreditsIn(w, kind) && n in CreditsIn(WorldStep(w, kind, e), kind) :: Quiet(w, n)
  }

  ghost predicate ProperEvent(e: WorldEvent) {
    e.Shared? ==> ProperRun([e.event])
  }

  ghost predicate Follows(w: World, kind: Kind, e: WorldEvent, rules: set<Rule>)
    requires Valid(w.ledger)
  {
    ProperEvent(e) && forall rule | rule in rules :: Meets(w, kind, e, rule)
  }

  ghost predicate RunFollows(w: World, kind: Kind, es: seq<WorldEvent>, rules: set<Rule>)
    requires Valid(w.ledger)
  {
    es == [] ||
    (RunFollows(w, kind, es[..|es| - 1], rules) && Follows(WorldRun(w, kind, es[..|es| - 1]), kind, es[|es| - 1], rules))
  }

  /** What the guarantee for the nodes that hold credits needs. */
  const HOLDER_RULES: set<Rule> := {SpecFixed, GrantsOnly, HeldSince, RegrantsQuietly}

  /** What the guarantee for all nodes needs. */
  const LIMIT_RULES: set<Rule> := {SpecFixed, GrantsOnly, HeldSince, WithdrawsQuietly}

  /** Credits do not change while they are held: neighbouring versions agree on
      every node that both of them list. */
  ghost predicate WrittenOnce(s: State, kind: Kind) {
    forall i, n | 0 <= i < |s.history| - 1 && n in s.history[i].Alloc(kind) && n in s.history[i + 1].Alloc(kind) ::
      s.history[i].Alloc(kind)[n] == s.history[i + 1].Alloc(kind)[n]
  }

  lemma {:induction false} HeldThroughout(s: State, kind: Kind, n: string, from: nat)
    requires Valid(s) && WrittenOnce(s, kind) && from < |s.history|
    requires forall i | from <= i < |s.history| :: n in s.history[i].Alloc(kind)
    ensures s.history[from].Alloc(kind)[n] == Current(s).Alloc(kind)[n]
    decreases |s.history| - from
  {
    if from < |s.history| - 1 {
      HeldThroughout(s, kind, n, from + 1);
      assert n in s.history[from].Alloc(kind) && n in s.history[from + 1].Alloc(kind);
    }
  }

  /** What holds of a node that has g credits: its syncs in progress are going to
      enforce g; and once one of them has set the limit, or the counter exists, the
      limit is g or gone, and the count is at most g. */
  ghost predicate NodeFits(w: World, n: string, g: int) {
    && (forall o | o in w.offers && w.offers[o].node == n ::
          w.offers[o].amount == g && (w.offers[o].adopted ==> w.Node(n).limit.None? || w.Node(n).limit.value == g))
    && (w.Node(n).lease.Some? ==> w.Count(n) <= g && (w.Node(n).limit.None? || w.Node(n).limit.value == g))
  }

  ghost predicate Fits(w: World, kind: Kind)
    requires Valid(w.ledger)
  {
    && SoundHistory(w.ledger) && WrittenOnce(w.ledger, kind)
    && forall n | n in Current(w.ledger).Alloc(kind) :: NodeFits(w, n, Current(w.ledger).Alloc(kind)[n])
  }

  /** The steps of one node keep what holds of every node, whatever its credits. */
  lemma LocalStepFits(w: World, kind: Kind, e: WorldEvent, n: string, g: int64)
    requires Valid(w.ledger) && !e.Shared? && 0 < g && NodeFits(w, n, g)
    ensures NodeFits(WorldStep(w, kind, e), n, g)
  {
    hide Noted;
    match e
    case Hook(node, cgid, cgCount, now) =>
      if w.Node(node).lease.Some? && w.Node(node).limit.Some? {
        AttemptStaysBelow(w.Node(node).lease.value, cgid, cgCount, now, ToU64(w.Node(node).limit.value), if node == n then g else 0);
      }
    case _ =>
  }

  lemma AttemptStaysBelow(l: CpuLease, cgid: CgroupId, n: nat, now: nat, limit: nat, g: int)
    ensures l.count <= g && limit == g ==> Attempt(Noted(l, cgid, n, now), limit).0.count <= g
  {
  }

  /** A step of the ledger keeps the versions sound and written once. */
  lemma SharedStepSound(w: World, kind: Kind, e: Event)
    requires Valid(w.ledger) && SoundHistory(w.ledger) && WrittenOnce(w.ledger, kind) && ProperRun([e])
    ensures SoundHistory(Step(w.ledger, e)) && WrittenOnce(Step(w.ledger, e), kind)
  {
    hide Apply, PlanOf, Step, Sound, Decision;
    var s, t := w.ledger, Step(w.ledger, e);
    StepIsAtomic(s, e);
    if Commits(s, e) {
      assert e in [e];
      ApplySound(Current(s), Intent(s, e));
      forall i, n | 0 <= i < |t.history| - 1 && n in t.history[i].Alloc(kind) && n in t.history[i + 1].Alloc(kind)
        ensures t.history[i].Alloc(kind)[n] == t.history[i + 1].Alloc(kind)[n]
      {
        if i == |s.history| - 1 {
          EntriesAreWrittenOnce(Current(s), Intent(s, e), kind, n);
        }
      }
    }
  }

  /** A sync whose request is granted is offered what its node holds from then on. */
  lemma OfferIsWhatIsHeld(w: World, kind: Kind, e: Event, spec: nat)
    requires Valid(w.ledger) && SoundHistory(w.ledger) && WrittenOnce(w.ledger, kind)
    requires SyncAsks(e, kind) && Enabled(w.ledger, e) && ProperRun([e])
    requires Meets(w, kind, Shared(e, spec), GrantsOnly) && Meets(w, kind, Shared(e, spec), HeldSince)
    ensures var t, node := Step(w.ledger, e), e.action.node;
            && node in Current(t).Alloc(kind)
            && OfferOf(w.ledger, e, kind, spec).amount == Current(t).Alloc(kind)[node]
            && (Commits(w.ledger, e) ==> node !in Current(w.ledger).Alloc(kind))
  {
    hide PlanOf, WrittenOnce, Step, Sound;
    var s, node := w.ledger, e.action.node;
    var read := s.history[s.seen[e.worker]];
    assert e in [e] && read in s.history;
    StepIsAtomic(s, e);
    RequestDecides(read, kind, node, e.action.requested, e.action.batch);
    if !Commits(s, e) {
      HeldThroughout(s, kind, node, s.seen[e.worker]);
    }
  }

  lemma RequestDecides(q: Quota, kind: Kind, node: string, requested: int64, batch: int64)
    requires Sound(q) && 0 < batch
    ensures match PlanOf(q, Request(kind, node, requested, batch))
            case Keep(r) => r == Held(q.Alloc(kind), node)
            case Write(next, r) => node !in q.Alloc(kind) && node in next.Alloc(kind) && next.Alloc(kind)[node] == r
  {
    hide EffectiveBatch, Wrap64, Sum, NextVersion;
    RequestGrants(q, kind, node, requested, batch);
  }

  /** Adding an offer of what the node is going to hold, or replacing one by it. */
  lemma OfferFits(w: World, w': World, worker: nat, offer: Offer, n: string, g: int)
    requires w' == w.(ledger := w'.ledger, offers := w.offers[worker := offer])
    requires offer.node == n ==> offer.amount == g && !offer.adopted
    requires NodeFits(w, n, g)
    ensures NodeFits(w', n, g)
  {
    assert w'.Node(n) == w.Node(n);
  }

  lemma SharedStepFits(w: World, kind: Kind, e: Event, spec: nat, n: string)
    requires Valid(w.ledger) && Fits(w, kind) && Follows(w, kind, Shared(e, spec), HOLDER_RULES)
    requires n in Current(Step(w.ledger, e)).Alloc(kind)
    ensures NodeFits(WorldStep(w, kind, Shared(e, spec)), n, Current(Step(w.ledger, e)).Alloc(kind)[n])
  {
    hide Step, Apply, PlanOf, Sound, Decision, OfferOf, NodeFits, WrittenOnce, Meets, Quiet;
    RulesOf(w, kind, Shared(e, spec));
    var s, w', g := w.ledger, WorldStep(w, kind, Shared(e, spec)), Current(Step(w.ledger, e)).Alloc(kind)[n];
    var asks := SyncAsks(e, kind) && Enabled(s, e);
    assert e in [e] && Current(s) in s.history;
    StepIsAtomic(s, e);
    if Commits(s, e) {
      EntriesAreWrittenOnce(Current(s), Intent(s, e), kind, n);
    }
    if n !in Current(s).Alloc(kind) {
      NewcomerIsQuiet(w, kind, Shared(e, spec), n);
      NothingToFit(w, n, g);
    }
    assert NodeFits(w, n, g);
    if asks {
      OfferIsWhatIsHeld(w, kind, e, spec);
      OfferIsFor(s, e, kind, spec);
      OfferFits(w, w', e.worker, OfferOf(s, e, kind, spec), n, g);
    } else {
      LedgerAloneFits(w, w', n, g);
    }
  }

  lemma NothingToFit(w: World, n: string, g: int)
    requires Quiet(w, n)
    ensures NodeFits(w, n, g)
  {
  }

  lemma LedgerAloneFits(w: World, w': World, n: string, g: int)
    requires w' == w.(ledger := w'.ledger) && NodeFits(w, n, g)
    ensures NodeFits(w', n, g)
  {
    assert w'.Node(n) == w.Node(n);
  }

  lemma OfferIsFor(s: State, e: Event, kind: Kind, spec: nat)
    requires Valid(s) && SyncAsks(e, kind) && Enabled(s, e)
    ensures OfferOf(s, e, kind, spec).node == e.action.node && !OfferOf(s, e, kind, spec).adopted
  {
  }

  lemma RulesOf(w: World, kind: Kind, e: WorldEvent)
    requires Valid(w.ledger) && Follows(w, kind, e, HOLDER_RULES)
    ensures Meets(w, kind, e, SpecFixed) && Meets(w, kind, e, GrantsOnly) && Meets(w, kind, e, HeldSince)
    ensures Meets(w, kind, e, RegrantsQuietly) && !(e.Shared? && e.event.EditSpec?)
  {
    hide Granted, Asks, WorldStep;
  }

  lemma NewcomerIsQuiet(w: World, kind: Kind, e: WorldEvent, n: string)
    requires Valid(w.ledger) && Meets(w, kind, e, RegrantsQuietly)
    requires n !in CreditsIn(w, kind) && n in CreditsIn(WorldStep(w, kind, e), kind)
    ensures Quiet(w, n)
  {
  }

  lemma StepFits(w: World, kind: Kind, e: WorldEvent)
    requires Valid(w.ledger) && Fits(w, kind) && Follows(w, kind, e, HOLDER_RULES)
    ensures Fits(WorldStep(w, kind, e), kind)
  {
    hide Step, NodeFits, Meets;
    var w' := WorldStep(w, kind, e);
    if e.Shared? {
      SharedStepSound(w, kind, e.event);
      forall n | n in Current(w'.ledger).Alloc(kind) ensures NodeFits(w', n, Current(w'.ledger).Alloc(kind)[n]) {
        SharedStepFits(w, kind, e.event, e.spec, n);
      }
    } else {
      LedgerUntouched(w, kind, e);
      forall n | n in Current(w.ledger).Alloc(kind) ensures NodeFits(w', n, Current(w.ledger).Alloc(kind)[n]) {
        assert Sound(Current(w.ledger));
        LocalStepFits(w, kind, e, n, Current(w.ledger).Alloc(kind)[n]);
      }
    }
  }

  lemma LedgerUntouched(w: World, kind: Kind, e: WorldEvent)
    requires Valid(w.ledger) && !e.Shared?
    ensures WorldStep(w, kind, e).ledger == w.ledger
  {
  }

  lemma {:induction false} RunFits(w: World, kind: Kind, es: seq<WorldEvent>)
    requires Valid(w.ledger) && Fits(w, kind) && RunFollows(w, kind, es, HOLDER_RULES)
    requires Excess(Current(w.ledger), kind) == 0
    ensures var t := WorldRun(w, kind, es);
            && Fits(t, kind)
            && Current(t.ledger).Limit(kind) == Current(w.ledger).Limit(kind)
            && Excess(Current(t.ledger), kind) == 0
  {
    hide WorldStep, Fits, Follows, Excess;
    if es != [] {
      var prefix, e := es[..|es| - 1], es[|es| - 1];
      RunFits(w, kind, prefix);
      var before := WorldRun(w, kind, prefix);
      StepFits(before, kind, e);
      WorldLimitStays(before, kind, e);
    }
  }

  lemma WorldLimitStays(w: World, kind: Kind, e: WorldEvent)
    requires Valid(w.ledger) && Fits(w, kind) && Follows(w, kind, e, HOLDER_RULES) && Excess(Current(w.ledger), kind) == 0
    ensures var t := WorldStep(w, kind, e);
            Current(t.ledger).Limit(kind) == Current(w.ledger).Limit(kind) && Excess(Current(t.ledger), kind) == 0
  {
    hide Step, Apply, PlanOf, Decision, OfferOf, Sound, NodeFits, Excess, Meets;
    RulesOf(w, kind, e);
    if e.Shared? {
      var s := w.ledger;
      assert e.event in [e.event] && Current(s) in s.history;
      StepIsAtomic(s, e.event);
      if Commits(s, e.event) {
        ApplyNeverOvercommits(Current(s), Intent(s, e.event), kind);
        ExcessIsNatural(Current(Step(s, e.event)), kind);
      }
    } else {
      LedgerUntouched(w, kind, e);
    }
  }

  lemma ExcessIsNatural(q: Quota, kind: Kind)
    ensures Excess(q, kind) >= 0
    ensures Excess(q, kind) == 0 ==> Sum(q.Alloc(kind)) <= q.Limit(kind)
  {
  }

  /** Nobody has asked for credits yet, and nothing enforces on any node. */
  ghost predicate Fresh(w: World)
    requires Valid(w.ledger)
  {
    var q := Current(w.ledger);
    && |w.ledger.history| == 1 && q.fd == map[] && q.proc == map[] && 0 <= q.Limit(FD) && 0 <= q.Limit(Proc)
    && w.offers == map[] && forall n | n in w.nodes :: w.nodes[n].lease.None?
  }

  /** Only nodes that hold credits have a counter or a sync in progress. */
  ghost predicate OnlyHoldersEnforce(w: World, kind: Kind)
    requires Valid(w.ledger)
  {
    forall n :: Quiet(w, n) || n in CreditsIn(w, kind)
  }

  lemma FreshWorldFits(w: World, kind: Kind)
    requires Valid(w.ledger) && Fresh(w)
    ensures Fits(w, kind) && OnlyHoldersEnforce(w, kind) && Excess(Current(w.ledger), kind) == 0
  {
    assert Sum(Current(w.ledger).Alloc(kind)) == 0;
    assert forall q | q in w.ledger.history :: q == Current(w.ledger);
  }

  /** The steps of a node start nothing on a node that was quiet. */
  lemma LocalStepStaysQuiet(w: World, kind: Kind, e: WorldEvent, n: string)
    requires Valid(w.ledger) && !e.Shared? && Quiet(w, n)
    ensures Quiet(WorldStep(w, kind, e), n)
  {
    hide Attempt, Noted, FirstSlice;
  }

  /** A step of the ledger starts something only on the node that asks. */
  lemma SharedStepStaysQuiet(w: World, kind: Kind, e: Event, spec: nat, n: string)
    requires Valid(w.ledger) && Quiet(w, n) && !(SyncAsks(e, kind) && Enabled(w.ledger, e) && e.action.node == n)
    ensures Quiet(WorldStep(w, kind, Shared(e, spec)), n)
  {
    hide Step, OfferOf;
    if SyncAsks(e, kind) && Enabled(w.ledger, e) {
      OfferIsFor(w.ledger, e, kind, spec);
    }
  }

  lemma OnlyHoldersStep(w: World, kind: Kind, e: WorldEvent)
    requires Valid(w.ledger) && SoundHistory(w.ledger) && WrittenOnce(w.ledger, kind) && OnlyHoldersEnforce(w, kind)
    requires Follows(w, kind, e, LIMIT_RULES)
    ensures OnlyHoldersEnforce(WorldStep(w, kind, e), kind)
  {
    hide WorldStep, SoundHistory, WrittenOnce, Quiet, Granted, Answer, Commits;
    var w' := WorldStep(w, kind, e);
    assert Meets(w, kind, e, WithdrawsQuietly) && Meets(w, kind, e, GrantsOnly) && Meets(w, kind, e, HeldSince);
    forall n ensures Quiet(w', n) || n in CreditsIn(w', kind) {
      if e.Shared? && SyncAsks(e.event, kind) && Enabled(w.ledger, e.event) && e.event.action.node == n {
        OfferIsWhatIsHeld(w, kind, e.event, e.spec);
        SharedLedger(w, kind, e.event, e.spec);
      } else if n !in CreditsIn(w', kind) {
        assert Quiet(w, n);
        if e.Shared? { SharedStepStaysQuiet(w, kind, e.event, e.spec, n); } else { LocalStepStaysQuiet(w, kind, e, n); }
      }
    }
  }

  lemma SharedLedger(w: World, kind: Kind, e: Event, spec: nat)
    requires Valid(w.ledger)
    ensures WorldStep(w, kind, Shared(e, spec)).ledger == Step(w.ledger, e)
  {
  }

  /** Where credits are taken only from quiet nodes, they are granted only to those. */
  lemma QuietRulesImply(w: World, kind: Kind, e: WorldEvent)
    requires Valid(w.ledger) && OnlyHoldersEnforce(w, kind) && Follows(w, kind, e, LIMIT_RULES)
    ensures Follows(w, kind, e, HOLDER_RULES)
  {
    hide WorldStep, Granted, Asks, Quiet;
  }

  lemma {:induction false} LimitRulesSuffice(w: World, kind: Kind, es: seq<WorldEvent>)
    requires Valid(w.ledger) && Fits(w, kind) && OnlyHoldersEnforce(w, kind) && RunFollows(w, kind, es, LIMIT_RULES)
    requires Excess(Current(w.ledger), kind) == 0
    ensures RunFollows(w, kind, es, HOLDER_RULES) && OnlyHoldersEnforce(WorldRun(w, kind, es), kind)
  {
    hide WorldStep, Follows, Excess, NodeFits, OnlyHoldersEnforce;
    if es != [] {
      var prefix, e := es[..|es| - 1], es[|es| - 1];
      LimitRulesSuffice(w, kind, prefix);
      RunFits(w, kind, prefix);
      var before := WorldRun(w, kind, prefix);
      QuietRulesImply(before, kind, e);
      OnlyHoldersStep(before, kind, e);
    }
  }

  /** The counts on the given nodes. */
  function CountsOn(w: World, nodes: set<string>): map<string, int> {
    map n | n in nodes :: w.Count(n)
  }

  ghost function TotalCount(w: World): int {
    Sum(CountsOn(w, w.nodes.Keys))
  }

  /** The guarantee for holders: while the spec is fixed, nobody falls back or trusts
      an outdated read, and credits are newly granted to quiet nodes only, each node
      that holds credits counts at most what it holds, and the counts of all holders
      add up to at most the namespace's global limit. */
  lemma HoldersStayWithinLimit(w: World, kind: Kind, es: seq<WorldEvent>)
    requires Valid(w.ledger) && Fits(w, kind) && RunFollows(w, kind, es, HOLDER_RULES)
    requires Excess(Current(w.ledger), kind) == 0
    ensures var t := WorldRun(w, kind, es);
            var credits := CreditsIn(t, kind);
            && (forall n | n in credits :: t.Count(n) <= credits[n])
            && Sum(CountsOn(t, credits.Keys)) <= Current(w.ledger).Limit(kind)
  {
    hide WorldRun, RunFollows, Excess, Sound;
    RunFits(w, kind, es);
    var t := WorldRun(w, kind, es);
    var credits := CreditsIn(t, kind);
    ExcessIsNatural(Current(t.ledger), kind);
    forall n | n in credits ensures t.Count(n) <= credits[n] {
      assert NodeFits(t, n, credits[n]);
      CreditsArePositive(Current(t.ledger), kind, n);
    }
    SumMonotone(CountsOn(t, credits.Keys), credits);
  }

  lemma CreditsArePositive(q: Quota, kind: Kind, n: string)
    requires Sound(q) && n in q.Alloc(kind)
    ensures 0 < q.Alloc(kind)[n]
  {
  }

  /** The cluster-wide guarantee: while the spec is fixed, nobody falls back or trusts
      an outdated read, and credits are taken from quiet nodes only, the counts of
      all nodes add up to at most the namespace's global limit in every state that
      can be reached, and every node counts at most what it holds. */
  lemma GlobalLimitHolds(w: World, kind: Kind, es: seq<WorldEvent>)
    requires Valid(w.ledger) && Fits(w, kind) && OnlyHoldersEnforce(w, kind) && RunFollows(w, kind, es, LIMIT_RULES)
    requires Excess(Current(w.ledger), kind) == 0
    ensures var t := WorldRun(w, kind, es);
            && TotalCount(t) <= Current(w.ledger).Limit(kind) == Current(t.ledger).Limit(kind)
            && forall n :: t.Count(n) <= Held(CreditsIn(t, kind), n)
  {
    hide WorldRun, RunFollows, Excess, Fits, OnlyHoldersEnforce;
    LimitRulesSuffice(w, kind, es);
    RunFits(w, kind, es);
    HoldersStayWithinLimit(w, kind, es);
    var t := WorldRun(w, kind, es);
    var credits := CreditsIn(t, kind);
    forall n ensures n !in credits ==> t.Count(n) == 0 {
      if n !in credits { OutsidersCountNothing(t, kind, n); }
    }
    CountsElsewhereAreZero(t, t.nodes.Keys, credits.Keys);
  }

  lemma OutsidersCountNothing(w: World, kind: Kind, n: string)
    requires Valid(w.ledger) && OnlyHoldersEnforce(w, kind) && n !in CreditsIn(w, kind)
    ensures w.Count(n) == 0
  {
    assert Quiet(w, n);
  }

  /** The same from a world in which nobody has asked for credits yet. */
  lemma GlobalLimitHoldsFromStart(w: World, kind: Kind, es: seq<WorldEvent>)
    requires Valid(w.ledger) && Fresh(w) && RunFollows(w, kind, es, LIMIT_RULES)
    ensures TotalCount(WorldRun(w, kind, es)) <= Current(w.ledger).Limit(kind)
  {
    hide WorldRun, RunFollows, Excess, Fits, OnlyHoldersEnforce;
    FreshWorldFits(w, kind);
    GlobalLimitHolds(w, kind, es);
  }

  /** Nodes that count nothing add nothing. */
  lemma {:induction false} CountsElsewhereAreZero(w: World, nodes: set<string>, holders: set<string>)
    requires forall n | n in nodes && n !in holders :: w.Count(n) == 0
    ensures Sum(CountsOn(w, nodes)) <= Sum(CountsOn(w, holders))
    decreases nodes
  {
    if n :| n in nodes && n !in holders {
      SumRemove(CountsOn(w, nodes), n);
      assert CountsOn(w, nodes) - {n} == CountsOn(w, nodes - {n});
      CountsElsewhereAreZero(w, nodes - {n}, holders);
    } else {
      SumMonotone(CountsOn(w, nodes), CountsOn(w, holders));
    }
  }
}
