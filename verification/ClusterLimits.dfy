/** Every rule of the cluster-wide guarantee is needed: for each of them a run of the
    code, from a world in which nobody has asked for credits, that follows all the
    others and after which the hooks take the counts of the namespace beyond its limit. */
module ClusterLimits {

  import opened Basics
  import opened MapSum
  import opened QuotaLedger
  import opened LeaseManager
  import opened LedgerRuns
  import opened Enforcer
  import opened Syncer
  import opened Cluster
  import opened ClusterReach

  const ALL_RULES: set<Rule> := {SpecFixed, GrantsOnly, HeldSince, WithdrawsQuietly, RegrantsQuietly}

  lemma {:induction false} FollowsConcat(w: World, kind: Kind, es: seq<WorldEvent>, fs: seq<WorldEvent>,
                                         rules: set<Rule>)
    requires Valid(w.ledger) && RunFollows(w, kind, es, rules) && RunFollows(WorldRun(w, kind, es), kind, fs, rules)
    ensures RunFollows(w, kind, es + fs, rules)
  {
    hide WorldRun, Follows;
    if fs == [] {
      assert es + fs == es;
    } else {
      assert (es + fs)[..|es + fs| - 1] == es + fs[..|fs| - 1];
      FollowsConcat(w, kind, es, fs[..|fs| - 1], rules);
      WorldRunConcat(w, kind, es, fs[..|fs| - 1]);
    }
  }

  /** A run and its end, one event longer. */
  lemma FollowsExtends(w: World, kind: Kind, es: seq<WorldEvent>, e: WorldEvent, rules: set<Rule>)
    requires Valid(w.ledger) && RunFollows(w, kind, es, rules) && Follows(WorldRun(w, kind, es), kind, e, rules)
    ensures RunFollows(w, kind, es + [e], rules)
    ensures WorldRun(w, kind, es + [e]) == WorldStep(WorldRun(w, kind, es), kind, e)
  {
    hide Follows, WorldStep;
    WorldRunExtends(w, kind, es, e);
    assert (es + [e])[..|es|] == es;
  }

  lemma NothingFollows(w: World, kind: Kind, rules: set<Rule>)
    requires Valid(w.ledger)
    ensures RunFollows(w, kind, [], rules)
  {
  }

  lemma FollowsTwo(w: World, kind: Kind, e1: WorldEvent, e2: WorldEvent, rules: set<Rule>)
    requires Valid(w.ledger) && Follows(w, kind, e1, rules) && Follows(WorldStep(w, kind, e1), kind, e2, rules)
    ensures RunFollows(w, kind, [e1, e2], rules)
    ensures WorldRun(w, kind, [e1, e2]) == WorldStep(WorldStep(w, kind, e1), kind, e2)
  {
    hide Follows, WorldStep, RunFollows, WorldRun;
    RunOfNothing(w, kind);
    NothingFollows(w, kind, rules);
    FollowsExtends(w, kind, [], e1, rules);
    assert [] + [e1] == [e1] && [e1] + [e2] == [e1, e2];
    FollowsExtends(w, kind, [e1], e2, rules);
  }

  /** What a node does on its own breaks no rule. */
  lemma LocalFollows(w: World, kind: Kind, e: WorldEvent, rules: set<Rule>)
    requires Valid(w.ledger) && !e.Shared?
    ensures Follows(w, kind, e, rules)
  {
    hide WorldStep, Quiet;
    LedgerUntouched(w, kind, e);
  }

  /** Nor does reading. */
  lemma ReadFollows(w: World, kind: Kind, e: Event, rules: set<Rule>)
    requires Valid(w.ledger) && (e.Read? || e.List?)
    ensures Follows(w, kind, Shared(e), rules)
    ensures var t := WorldStep(w, kind, Shared(e));
            t == w.(ledger := Step(w.ledger, e)) && t.ledger.history == w.ledger.history && t.ledger.beats == w.ledger.beats
  {
    hide Quiet;
  }

  lemma {:induction false} HooksFollow(w: World, kind: Kind, hs: seq<WorldEvent>, rules: set<Rule>)
    requires Valid(w.ledger) && HooksOnly(hs)
    ensures RunFollows(w, kind, hs, rules)
  {
    hide WorldRun, Follows;
    if hs != [] {
      assert hs[|hs| - 1] in hs;
      HooksFollow(w, kind, hs[..|hs| - 1], rules);
      LocalFollows(WorldRun(w, kind, hs[..|hs| - 1]), kind, hs[|hs| - 1], rules);
    }
  }

  /** The rules of the guarantee are enough for the counts to stay within the limit at
      all times, whatever the hooks do. */
  lemma {:induction false} RulesKeepWithin(w: World, kind: Kind, es: seq<WorldEvent>)
    requires Valid(w.ledger) && Fits(w, kind) && OnlyHoldersEnforce(w, kind) && RunFollows(w, kind, es, LIMIT_RULES)
    requires Excess(Current(w.ledger), kind) == 0
    ensures StaysWithin(w, kind, es)
  {
    hide WorldRun, Fits, OnlyHoldersEnforce, Excess, Follows, TotalCount;
    if es != [] {
      RulesKeepWithin(w, kind, es[..|es| - 1]);
    }
    GlobalLimitHolds(w, kind, es);
    forall hs | HooksOnly(hs)
      ensures TotalCount(WorldRun(WorldRun(w, kind, es), kind, hs)) <= LimitIn(WorldRun(w, kind, es), kind)
    {
      HooksFollow(WorldRun(w, kind, es), kind, hs, LIMIT_RULES);
      FollowsConcat(w, kind, es, hs, LIMIT_RULES);
      WorldRunConcat(w, kind, es, hs);
      GlobalLimitHolds(w, kind, es + hs);
    }
  }

  /** No sync is in progress, and the ledger has this limit and these credits. */
  ghost predicate Settled(w: World, kind: Kind, limit: int64, c: Credits) {
    && Valid(w.ledger) && Sound(Current(w.ledger)) && w.offers == map[]
    && LimitIn(w, kind) == limit && CreditsIn(w, kind) == c
  }

  /** A sync's request, made from this version of the object. */
  function Requesting(kind: Kind, worker: nat, version: nat, node: string, requested: int64): seq<WorldEvent> {
    [Shared(Read(worker, version)), Shared(Try(worker, Ask(kind, node, requested, DEFAULT_BATCH), true), version)]
  }

  /** What it takes for a request to follow the rules. */
  lemma RequestFollows(w: World, kind: Kind, e: Event, spec: nat, rules: set<Rule>)
    requires Valid(w.ledger) && SyncAsks(e, kind) && Enabled(w.ledger, e) && 0 < e.action.batch
    requires Answer(w.ledger, e).Ok? && (GrantsOnly in rules ==> Answer(w.ledger, e).value > 0)
    requires HeldSince in rules ==> Commits(w.ledger, e) || Answer(w.ledger, e).value <= 0
    requires RegrantsQuietly in rules && Commits(w.ledger, e) ==> Quiet(w, e.action.node)
    ensures Follows(w, kind, Shared(e, spec), rules)
  {
    hide Quiet, PlanOf, Apply, Answer;
    StepIsAtomic(w.ledger, e);
    SharedLedger(w, kind, e, spec);
    RequestAddsOneEntry(Current(w.ledger), kind, e.action.node, e.action.requested, e.action.batch);
  }

  lemma RequestAddsOneEntry(q: Quota, kind: Kind, node: string, requested: int64, batch: int64)
    ensures var q' := Apply(q, Request(kind, node, requested, batch));
            q.Alloc(kind).Keys <= q'.Alloc(kind).Keys <= q.Alloc(kind).Keys + {node}
  {
    hide Wrap64, EffectiveBatch, Sum, NextVersion;
  }

  lemma RequestingRuns(w: World, kind: Kind, worker: nat, version: nat, node: string, requested: int64,
                       rules: set<Rule>)
    requires Valid(w.ledger) && version < |w.ledger.history| && w.offers == map[]
    requires var plan := PlanOf(w.ledger.history[version], Request(kind, node, requested, DEFAULT_BATCH));
             && (plan.Write? ==> version == |w.ledger.history| - 1)
             && (GrantsOnly in rules ==> plan.result > 0)
             && (HeldSince in rules ==> plan.Write? || plan.result <= 0)
             && (RegrantsQuietly in rules && plan.Write? ==> Quiet(w, node))
    ensures var plan := PlanOf(w.ledger.history[version], Request(kind, node, requested, DEFAULT_BATCH));
            var es := Requesting(kind, worker, version, node, requested);
            var t := WorldRun(w, kind, es);
            && RunFollows(w, kind, es, rules)
            && t.ledger.history == (if plan.Write? then w.ledger.history + [plan.next] else w.ledger.history)
            && t.ledger.beats == w.ledger.beats && t.nodes == w.nodes
            && t.offers == map[worker := Offer(node, EffectiveLimit(w.ledger.history[version].Limit(kind), Some(plan.result)), false)]
  {
    hide PlanOf, WorldRun, RunFollows, Follows;
    var e1, e2 := Read(worker, version), Try(worker, Ask(kind, node, requested, DEFAULT_BATCH), true);
    ReadFollows(w, kind, e1, rules);
    var w1 := WorldStep(w, kind, Shared(e1));
    assert w1.ledger.history[w1.ledger.seen[worker]] == w.ledger.history[version];
    assert Quiet(w, node) ==> Quiet(w1, node);
    RequestFollows(w1, kind, e2, version, rules);
    FollowsTwo(w, kind, Shared(e1), Shared(e2, version), rules);
  }

  /** A node's maps after a sync has enforced the amount. */
  function Enforced(m: NodeMaps, amount: int64): NodeMaps {
    NodeMaps(Some(amount), Some(if m.lease.Some? then m.lease.value.(leaseBudget := FirstSlice(amount))
                                else CpuLease(0, FirstSlice(amount), 0, 0, 0)))
  }

  lemma EnforcingRuns(w: World, kind: Kind, worker: nat, node: string, amount: int64, rules: set<Rule>)
    requires Valid(w.ledger) && w.offers == map[worker := Offer(node, amount, false)]
    ensures var es := [Adopt(worker), Slice(worker)];
            && RunFollows(w, kind, es, rules)
            && WorldRun(w, kind, es) == w.(offers := map[], nodes := w.nodes[node := Enforced(w.Node(node), amount)])
  {
    hide WorldRun, RunFollows, Follows, FirstSlice;
    var w1 := WorldStep(w, kind, Adopt(worker));
    assert w1.offers == map[worker := Offer(node, amount, true)];
    LocalFollows(w, kind, Adopt(worker), rules);
    LocalFollows(w1, kind, Slice(worker), rules);
    FollowsTwo(w, kind, Adopt(worker), Slice(worker), rules);
    assert w1.offers - {worker} == map[];
    assert w1.nodes[node := Enforced(w.Node(node), amount)] == w.nodes[node := Enforced(w.Node(node), amount)];
  }

  /** A whole sync. */
  function Syncing(kind: Kind, worker: nat, version: nat, node: string, requested: int64): seq<WorldEvent> {
    Requesting(kind, worker, version, node, requested) + [Adopt(worker), Slice(worker)]
  }

  lemma SyncingRuns(w: World, kind: Kind, worker: nat, version: nat, node: string, requested: int64, rules: set<Rule>)
    requires Valid(w.ledger) && version < |w.ledger.history| && w.offers == map[]
    requires var plan := PlanOf(w.ledger.history[version], Request(kind, node, requested, DEFAULT_BATCH));
             && (plan.Write? ==> version == |w.ledger.history| - 1)
             && (GrantsOnly in rules ==> plan.result > 0)
             && (HeldSince in rules ==> plan.Write? || plan.result <= 0)
             && (RegrantsQuietly in rules && plan.Write? ==> Quiet(w, node))
    ensures var plan := PlanOf(w.ledger.history[version], Request(kind, node, requested, DEFAULT_BATCH));
            var es := Syncing(kind, worker, version, node, requested);
            var t := WorldRun(w, kind, es);
            && RunFollows(w, kind, es, rules)
            && t.ledger.history == (if plan.Write? then w.ledger.history + [plan.next] else w.ledger.history)
            && t.ledger.beats == w.ledger.beats && t.offers == map[]
            && t.nodes == w.nodes[node := Enforced(w.Node(node), EffectiveLimit(w.ledger.history[version].Limit(kind), Some(plan.result)))]
  {
    hide PlanOf, WorldRun, RunFollows, Requesting, Enforced, EffectiveLimit, Quiet;
    RequestingRuns(w, kind, worker, version, node, requested, rules);
    var first := Requesting(kind, worker, version, node, requested);
    var w1 := WorldRun(w, kind, first);
    EnforcingRuns(w1, kind, worker, node, w1.offers[worker].amount, rules);
    WorldRunConcat(w, kind, first, [Adopt(worker), Slice(worker)]);
    FollowsConcat(w, kind, first, [Adopt(worker), Slice(worker)], rules);
  }

  /** A sync that is granted credits. */
  lemma GrantRuns(w: World, kind: Kind, limit: int64, c: Credits, worker: nat, node: string, requested: int64,
                  rules: set<Rule>)
    requires Settled(w, kind, limit, c) && node !in c && Sum(c) < limit && 0 < requested
    requires RegrantsQuietly in rules ==> w.Node(node).lease.None?
    ensures var es := Syncing(kind, worker, |w.ledger.history| - 1, node, requested);
            var t, g := WorldRun(w, kind, es), Min(requested, limit - Sum(c));
            && 0 < g <= INT64_MAX && RunFollows(w, kind, es, rules)
            && Settled(t, kind, limit, c[node := g])
            && t.nodes == w.nodes[node := Enforced(w.Node(node), g)]
            && w.ledger.history <= t.ledger.history && t.ledger.beats == w.ledger.beats
  {
    hide PlanOf, WorldRun, RunFollows, Enforced, Sound, Syncing;
    var q := Current(w.ledger);
    GrantPlans(q, kind, node, requested);
    SyncingRuns(w, kind, worker, |w.ledger.history| - 1, node, requested, rules);
  }

  lemma GrantPlans(q: Quota, kind: Kind, node: string, requested: int64)
    requires Sound(q) && node !in q.Alloc(kind) && Sum(q.Alloc(kind)) < q.Limit(kind) && 0 < requested
    ensures var plan, g := PlanOf(q, Request(kind, node, requested, DEFAULT_BATCH)), Min(requested, q.Limit(kind) - Sum(q.Alloc(kind)));
            && plan.Write? && plan.result == g && 0 < g <= INT64_MAX
            && Sound(plan.next) && plan.next.Limit(kind) == q.Limit(kind) && plan.next.Alloc(kind) == q.Alloc(kind)[node := g]
  {
    RequestGrants(q, kind, node, requested, DEFAULT_BATCH);
    ApplySound(q, Request(kind, node, requested, DEFAULT_BATCH));
  }

  /** A sync that finds the pool exhausted enforces the whole limit. */
  lemma FallbackRuns(w: World, kind: Kind, limit: int64, c: Credits, worker: nat, node: string, rules: set<Rule>)
    requires Settled(w, kind, limit, c) && node !in c && Sum(c) == limit && GrantsOnly !in rules && 0 < limit
    ensures var es := Syncing(kind, worker, |w.ledger.history| - 1, node, limit);
            var t := WorldRun(w, kind, es);
            && RunFollows(w, kind, es, rules) && Settled(t, kind, limit, c)
            && t.nodes == w.nodes[node := Enforced(w.Node(node), limit)]
  {
    hide PlanOf, WorldRun, RunFollows, Enforced, Sound, Syncing;
    var q := Current(w.ledger);
    ExhaustedKeeps(q, kind, node);
    SyncingRuns(w, kind, worker, |w.ledger.history| - 1, node, limit, rules);
  }

  lemma ExhaustedKeeps(q: Quota, kind: Kind, node: string)
    requires Sound(q) && q.Limit(kind) == Sum(q.Alloc(kind)) && node !in q.Alloc(kind)
    ensures PlanOf(q, Request(kind, node, q.Limit(kind), DEFAULT_BATCH)) == Keep(0)
  {
    RequestGrants(q, kind, node, q.Limit(kind), DEFAULT_BATCH);
  }

  /** A sync that reads an old version enforces what its node held then. */
  lemma StaleRuns(w: World, kind: Kind, limit: int64, c: Credits, worker: nat, version: nat, node: string,
                  rules: set<Rule>)
    requires Settled(w, kind, limit, c) && version < |w.ledger.history| && HeldSince !in rules
    requires var was := w.ledger.history[version].Alloc(kind); node in was && 0 < was[node]
    ensures var es := Syncing(kind, worker, version, node, limit);
            var t := WorldRun(w, kind, es);
            && RunFollows(w, kind, es, rules) && Settled(t, kind, limit, c)
            && t.nodes == w.nodes[node := Enforced(w.Node(node), w.ledger.history[version].Alloc(kind)[node])]
  {
    hide WorldRun, RunFollows, Enforced, Sound, Syncing;
    SyncingRuns(w, kind, worker, version, node, limit, rules);
  }

  function Freeing(kind: Kind, worker: nat, version: nat, node: string): seq<WorldEvent> {
    [Shared(Read(worker, version)), Shared(Try(worker, Free(kind, node), true))]
  }

  /** What it takes for giving back or reclaiming credits to follow the rules. */
  lemma WithdrawalFollows(w: World, kind: Kind, e: Event, rules: set<Rule>)
    requires Valid(w.ledger) && e.Try? && !e.action.Ask? && Enabled(w.ledger, e)
    requires forall n | n in CreditsIn(w, kind) && n !in Current(Step(w.ledger, e)).Alloc(kind) && WithdrawsQuietly in rules :: Quiet(w, n)
    requires Current(Step(w.ledger, e)).Alloc(kind).Keys <= CreditsIn(w, kind).Keys
    ensures Follows(w, kind, Shared(e), rules)
  {
    hide Quiet, Step;
    SharedLedger(w, kind, e, 0);
  }

  /** A node gives its credits back. */
  lemma FreeRuns(w: World, kind: Kind, limit: int64, c: Credits, worker: nat, node: string, rules: set<Rule>)
    requires Settled(w, kind, limit, c) && node in c
    requires WithdrawsQuietly in rules ==> w.Node(node).lease.None?
    ensures var es := Freeing(kind, worker, |w.ledger.history| - 1, node);
            var t := WorldRun(w, kind, es);
            && RunFollows(w, kind, es, rules)
            && Settled(t, kind, limit, c - {node}) && t.nodes == w.nodes
            && w.ledger.history <= t.ledger.history && t.ledger.beats == w.ledger.beats
  {
    hide PlanOf, WorldRun, RunFollows, Follows, Sound;
    var q := Current(w.ledger);
    var e1, e2 := Read(worker, |w.ledger.history| - 1), Try(worker, Free(kind, node), true);
    ReadFollows(w, kind, e1, rules);
    var w1 := WorldStep(w, kind, Shared(e1));
    assert w1.ledger.history[w1.ledger.seen[worker]] == q;
    FreePlans(q, kind, node);
    WithdrawalFollows(w1, kind, e2, rules);
    FollowsTwo(w, kind, Shared(e1), Shared(e2), rules);
  }

  lemma FreePlans(q: Quota, kind: Kind, node: string)
    requires Sound(q) && node in q.Alloc(kind)
    ensures var plan := PlanOf(q, Release(kind, node));
            && plan.Write? && Sound(plan.next)
            && plan.next.Limit(kind) == q.Limit(kind) && plan.next.Alloc(kind) == q.Alloc(kind) - {node}
  {
    ReleaseGivesBack(q, kind, node);
    ApplySound(q, Release(kind, node));
  }

  function Sweeping(worker: nat, version: nat, snapshot: nat, now: int, self: string): seq<WorldEvent> {
    [Shared(Read(worker, version)), Shared(List(worker, snapshot, now))] + [Shared(Try(worker, Sweep(self), true))]
  }

  /** A node reclaims the credits of the only holder, whose heartbeat is not fresh. */
  lemma SweepRuns(w: World, kind: Kind, limit: int64, c: Credits, worker: nat, now: int, self: string, gone: string,
                  rules: set<Rule>)
    requires Settled(w, kind, limit, c) && c.Keys == {gone} && gone != self && WithdrawsQuietly !in rules
    requires gone !in FreshNodes(Beating(w.ledger), now)
    ensures var es := Sweeping(worker, |w.ledger.history| - 1, |w.ledger.beats| - 1, now, self);
            var t := WorldRun(w, kind, es);
            && RunFollows(w, kind, es, rules)
            && Settled(t, kind, limit, map[]) && t.nodes == w.nodes
  {
    hide PlanOf, WorldRun, RunFollows, Follows, Sound, FreshNodes;
    var q := Current(w.ledger);
    var e1, e2, e3 := Read(worker, |w.ledger.history| - 1), List(worker, |w.ledger.beats| - 1, now), Try(worker, Sweep(self), true);
    ReadFollows(w, kind, e1, rules);
    var w1 := WorldStep(w, kind, Shared(e1));
    ReadFollows(w1, kind, e2, rules);
    FollowsTwo(w, kind, Shared(e1), Shared(e2), rules);
    var w2 := WorldStep(w1, kind, Shared(e2));
    var active := FreshNodes(Beating(w.ledger), now);
    assert w2.ledger.history[w2.ledger.seen[worker]] == q && w2.ledger.views[worker] == active;
    SweepPlans(q, kind, self, active, gone);
    WithdrawalFollows(w2, kind, e3, rules);
    FollowsExtends(w, kind, [Shared(e1), Shared(e2)], Shared(e3), rules);
  }

  lemma SweepPlans(q: Quota, kind: Kind, self: string, active: set<string>, gone: string)
    requires Sound(q) && q.Alloc(kind).Keys == {gone} && gone != self && gone !in active
    ensures var plan := PlanOf(q, Reclaim(self, active));
            && plan.Write? && Sound(plan.next)
            && plan.next.Limit(kind) == q.Limit(kind) && plan.next.Alloc(kind) == map[]
  {
    ReclaimRemovesStale(q, self, active);
    ApplySound(q, Reclaim(self, active));
  }

  /** A node loses its entries in the kernel maps. */
  lemma ForgetRuns(w: World, kind: Kind, node: string, rules: set<Rule>)
    requires Valid(w.ledger)
    ensures var es := [ForgetLimit(node), ForgetCounter(node)];
            && RunFollows(w, kind, es, rules)
            && WorldRun(w, kind, es) == w.(nodes := w.nodes[node := NodeMaps(None, None)])
  {
    hide WorldRun, RunFollows, Follows;
    LocalFollows(w, kind, ForgetLimit(node), rules);
    LocalFollows(WorldStep(w, kind, ForgetLimit(node)), kind, ForgetCounter(node), rules);
    FollowsTwo(w, kind, ForgetLimit(node), ForgetCounter(node), rules);
    assert w.nodes[node := w.Node(node).(limit := None)][node := NodeMaps(None, None)] == w.nodes[node := NodeMaps(None, None)];
  }

  /** Nobody has asked, no node has an entry for the namespace, and the limit is
      positive. */
  ghost predicate Untouched(w: World, kind: Kind) {
    Valid(w.ledger) && Fresh(w) && w.nodes == map[] && 0 < LimitIn(w, kind)
  }

  lemma UntouchedIsSettled(w: World, kind: Kind)
    requires Untouched(w, kind)
    ensures Settled(w, kind, LimitIn(w, kind), map[]) && Sum(CreditsIn(w, kind)) == 0
  {
  }

  /** Two syncs, or what is left of them: the reaches add up. */
  lemma TwoReaches(w: World, kind: Kind, limit: int64, c: Credits, a: string, b: string, x: int64, y: int64)
    requires Settled(w, kind, limit, c) && a != b && 0 < x && 0 < y
    requires w.nodes == map[a := Enforced(NodeMaps(None, None), x), b := Enforced(NodeMaps(None, None), y)]
    ensures TotalReach(w) == x + y
    ensures Within(w, kind) <==> x + y <= limit
  {
    hide WorldRun, TotalReach, TotalCount, Within, FirstSlice;
    var none := w.(nodes := map[]);
    var one := none.Set(a, Enforced(NodeMaps(None, None), x));
    assert one.Set(b, Enforced(NodeMaps(None, None), y)) == w;
    ReachUpdate(one, b, Enforced(NodeMaps(None, None), y));
    ReachUpdate(none, a, Enforced(NodeMaps(None, None), x));
    NoReach(none);
    WithinExactly(w, kind);
  }

  lemma NoReach(w: World)
    requires w.nodes == map[]
    ensures TotalReach(w) == 0
  {
    assert NodeReaches(w) == map[];
  }

  lemma OneEntry(n: string, v: int64)
    ensures Sum(map[n := v]) == v
  {
    SumRemove(map[n := v], n);
    assert map[n := v] - {n} == map[];
  }

  /** The first node to sync asks for everything. */
  lemma FirstTakesAll(w: World, kind: Kind, worker: nat, a: string, rules: set<Rule>)
    requires Untouched(w, kind)
    ensures var limit := LimitIn(w, kind);
            var es := Syncing(kind, worker, 0, a, limit);
            var t := WorldRun(w, kind, es);
            && RunFollows(w, kind, es, rules)
            && Settled(t, kind, limit, map[a := limit])
            && t.nodes == map[a := Enforced(NodeMaps(None, None), limit)]
            && |t.ledger.history| >= 1 && w.ledger.history <= t.ledger.history && t.ledger.beats == w.ledger.beats
  {
    hide WorldRun, RunFollows, Syncing, Sound;
    UntouchedIsSettled(w, kind);
    GrantRuns(w, kind, LimitIn(w, kind), map[], worker, a, LimitIn(w, kind), rules);
  }

  /** Falling back to the whole limit: the second node to ask is granted nothing and
      enforces the limit as well. */
  lemma FallbackBreaksTheLimit(w: World, kind: Kind, a: string, b: string)
    requires Untouched(w, kind) && a != b
    ensures var limit := LimitIn(w, kind);
            var first := Syncing(kind, 0, 0, a, limit);
            var w1 := WorldRun(w, kind, first);
            var es := first + Syncing(kind, 0, |w1.ledger.history| - 1, b, limit);
            RunFollows(w, kind, es, ALL_RULES - {GrantsOnly}) && !Within(WorldRun(w, kind, es), kind)
  {
    hide WorldRun, RunFollows, Syncing, Sound, Within, Enforced;
    var limit, rules := LimitIn(w, kind), ALL_RULES - {GrantsOnly};
    var first := Syncing(kind, 0, 0, a, limit);
    FirstTakesAll(w, kind, 0, a, rules);
    var w1 := WorldRun(w, kind, first);
    var second := Syncing(kind, 0, |w1.ledger.history| - 1, b, limit);
    OneEntry(a, limit);
    FallbackRuns(w1, kind, limit, map[a := limit], 0, b, rules);
    WorldRunConcat(w, kind, first, second);
    FollowsConcat(w, kind, first, second, rules);
    TwoReaches(WorldRun(w, kind, first + second), kind, limit, map[a := limit], a, b, limit, limit);
  }

  /** Releasing first: removing a namespace from a node gives its credits back before
      the counter is deleted; the next node is granted them while they still count. */
  lemma ReleaseFirstBreaksTheLimit(w: World, kind: Kind, a: string, b: string)
    requires Untouched(w, kind) && a != b
    ensures var limit := LimitIn(w, kind);
            var first := Syncing(kind, 0, 0, a, limit);
            var w1 := WorldRun(w, kind, first);
            var release := Freeing(kind, 0, |w1.ledger.history| - 1, a);
            var w2 := WorldRun(w1, kind, release);
            var es := first + release + Syncing(kind, 0, |w2.ledger.history| - 1, b, limit);
            RunFollows(w, kind, es, ALL_RULES - {WithdrawsQuietly}) && !Within(WorldRun(w, kind, es), kind)
  {
    hide WorldRun, RunFollows, Syncing, Freeing, Sound, Within, Enforced;
    var limit, rules := LimitIn(w, kind), ALL_RULES - {WithdrawsQuietly};
    var first := Syncing(kind, 0, 0, a, limit);
    FirstTakesAll(w, kind, 0, a, rules);
    var w1 := WorldRun(w, kind, first);
    var release := Freeing(kind, 0, |w1.ledger.history| - 1, a);
    FreeRuns(w1, kind, limit, map[a := limit], 0, a, rules);
    assert map[a := limit] - {a} == map[];
    SecondTakesAll(w, kind, first, release, a, b, limit, rules);
  }

  /** Reclaiming from a node that goes on counting: its heartbeat is missing or too
      old, but its kernel maps are as they were. */
  lemma ReclaimBreaksTheLimit(w: World, kind: Kind, a: string, b: string, now: int)
    requires Untouched(w, kind) && a != b && a !in FreshNodes(Beating(w.ledger), now)
    ensures var limit := LimitIn(w, kind);
            var first := Syncing(kind, 0, 0, a, limit);
            var w1 := WorldRun(w, kind, first);
            var sweep := Sweeping(0, |w1.ledger.history| - 1, |w1.ledger.beats| - 1, now, b);
            var w2 := WorldRun(w1, kind, sweep);
            var es := first + sweep + Syncing(kind, 0, |w2.ledger.history| - 1, b, limit);
            RunFollows(w, kind, es, ALL_RULES - {WithdrawsQuietly}) && !Within(WorldRun(w, kind, es), kind)
  {
    hide WorldRun, RunFollows, Syncing, Sweeping, Sound, Within, Enforced, FreshNodes;
    var limit, rules := LimitIn(w, kind), ALL_RULES - {WithdrawsQuietly};
    var first := Syncing(kind, 0, 0, a, limit);
    FirstTakesAll(w, kind, 0, a, rules);
    var w1 := WorldRun(w, kind, first);
    var sweep := Sweeping(0, |w1.ledger.history| - 1, |w1.ledger.beats| - 1, now, b);
    SweepRuns(w1, kind, limit, map[a := limit], 0, now, b, a, rules);
    SecondTakesAll(w, kind, first, sweep, a, b, limit, rules);
  }

  /** Once the ledger is empty again, the second node is granted everything. */
  lemma SecondTakesAll(w: World, kind: Kind, first: seq<WorldEvent>, middle: seq<WorldEvent>, a: string, b: string,
                       limit: int64, rules: set<Rule>)
    requires Valid(w.ledger) && RunFollows(w, kind, first, rules) && 0 < limit && a != b
    requires RunFollows(WorldRun(w, kind, first), kind, middle, rules)
    requires var w2 := WorldRun(WorldRun(w, kind, first), kind, middle);
             Settled(w2, kind, limit, map[]) && w2.nodes == map[a := Enforced(NodeMaps(None, None), limit)]
    ensures var w2 := WorldRun(WorldRun(w, kind, first), kind, middle);
            var es := first + middle + Syncing(kind, 0, |w2.ledger.history| - 1, b, limit);
            RunFollows(w, kind, es, rules) && !Within(WorldRun(w, kind, es), kind)
  {
    hide WorldRun, RunFollows, Syncing, Sound, Within, Enforced;
    var w2 := WorldRun(WorldRun(w, kind, first), kind, middle);
    var last := Syncing(kind, 0, |w2.ledger.history| - 1, b, limit);
    assert Sum<string>(map[]) == 0;
    GrantRuns(w2, kind, limit, map[], 0, b, limit, rules);
    WorldRunConcat(w, kind, first, middle);
    WorldRunConcat(w, kind, first + middle, last);
    FollowsConcat(w, kind, first, middle, rules);
    FollowsConcat(w, kind, first + middle, last, rules);
    TwoReaches(WorldRun(w2, kind, last), kind, limit, map[b := limit], a, b, limit, limit);
  }

  lemma ThreeParts(w: World, kind: Kind, p: seq<WorldEvent>, q: seq<WorldEvent>, r: seq<WorldEvent>, rules: set<Rule>)
    requires Valid(w.ledger) && RunFollows(w, kind, p, rules) && RunFollows(WorldRun(w, kind, p), kind, q, rules)
    requires RunFollows(WorldRun(WorldRun(w, kind, p), kind, q), kind, r, rules)
    ensures RunFollows(w, kind, p + q + r, rules)
    ensures WorldRun(w, kind, p + q + r) == WorldRun(WorldRun(WorldRun(w, kind, p), kind, q), kind, r)
  {
    hide WorldRun, RunFollows;
    WorldRunConcat(w, kind, p, q);
    WorldRunConcat(w, kind, p + q, r);
    FollowsConcat(w, kind, p, q, rules);
    FollowsConcat(w, kind, p + q, r, rules);
  }

  function Leaving(kind: Kind, version: nat, a: string): seq<WorldEvent> {
    [ForgetLimit(a), ForgetCounter(a)] + Freeing(kind, 0, version, a)
  }

  /** A node that has taken everything gives it back once its maps are cleared. */
  lemma LeavingRuns(w: World, kind: Kind, limit: int64, a: string, rules: set<Rule>)
    requires Settled(w, kind, limit, map[a := limit]) && w.nodes.Keys == {a}
    ensures var es := Leaving(kind, |w.ledger.history| - 1, a);
            var t := WorldRun(w, kind, es);
            && RunFollows(w, kind, es, rules)
            && Settled(t, kind, limit, map[]) && t.nodes == map[a := NodeMaps(None, None)]
            && w.ledger.history <= t.ledger.history
  {
    hide WorldRun, RunFollows, Freeing, Sound;
    var left, release := [ForgetLimit(a), ForgetCounter(a)], Freeing(kind, 0, |w.ledger.history| - 1, a);
    ForgetRuns(w, kind, a, rules);
    var w1 := WorldRun(w, kind, left);
    FreeRuns(w1, kind, limit, map[a := limit], 0, a, rules);
    assert map[a := limit] - {a} == map[];
    WorldRunConcat(w, kind, left, release);
    FollowsConcat(w, kind, left, release, rules);
  }

  /** Reading stale: a node whose maps were cleared and whose credits have been given
      to another node still reads the version in which it held them. */
  lemma StaleReadBreaksTheLimit(w: World, kind: Kind, a: string, b: string)
    requires Untouched(w, kind) && a != b
    ensures var limit := LimitIn(w, kind);
            var first := Syncing(kind, 0, 0, a, limit);
            var w1 := WorldRun(w, kind, first);
            var leave := Leaving(kind, |w1.ledger.history| - 1, a);
            var w2 := WorldRun(w1, kind, leave);
            var es := first + leave + (Syncing(kind, 0, |w2.ledger.history| - 1, b, limit)
                                       + Syncing(kind, 0, |w1.ledger.history| - 1, a, limit));
            RunFollows(w, kind, es, ALL_RULES - {HeldSince}) && !Within(WorldRun(w, kind, es), kind)
  {
    hide WorldRun, RunFollows, Syncing, Leaving, Sound, Within, Enforced;
    var limit, rules := LimitIn(w, kind), ALL_RULES - {HeldSince};
    var first := Syncing(kind, 0, 0, a, limit);
    FirstTakesAll(w, kind, 0, a, rules);
    var w1 := WorldRun(w, kind, first);
    var leave := Leaving(kind, |w1.ledger.history| - 1, a);
    LeavingRuns(w1, kind, limit, a, rules);
    var w2 := WorldRun(w1, kind, leave);
    BothTakeAll(w2, kind, limit, |w1.ledger.history| - 1, a, b, rules);
    ThreeParts(w, kind, first, leave, Syncing(kind, 0, |w2.ledger.history| - 1, b, limit)
                                      + Syncing(kind, 0, |w1.ledger.history| - 1, a, limit), rules);
  }

  lemma BothTakeAll(w: World, kind: Kind, limit: int64, version: nat, a: string, b: string, rules: set<Rule>)
    requires Settled(w, kind, limit, map[]) && 0 < limit && a != b && w.nodes == map[a := NodeMaps(None, None)]
    requires version < |w.ledger.history| && w.ledger.history[version].Alloc(kind) == map[a := limit] && HeldSince !in rules
    ensures var es := Syncing(kind, 0, |w.ledger.history| - 1, b, limit) + Syncing(kind, 0, version, a, limit);
            RunFollows(w, kind, es, rules) && !Within(WorldRun(w, kind, es), kind)
  {
    hide WorldRun, RunFollows, Syncing, Sound, Within, Enforced;
    var first, second := Syncing(kind, 0, |w.ledger.history| - 1, b, limit), Syncing(kind, 0, version, a, limit);
    assert Sum<string>(map[]) == 0;
    GrantRuns(w, kind, limit, map[], 0, b, limit, rules);
    var w1 := WorldRun(w, kind, first);
    StaleRuns(w1, kind, limit, map[b := limit], 0, version, a, rules);
    WorldRunConcat(w, kind, first, second);
    FollowsConcat(w, kind, first, second, rules);
    TwoReaches(WorldRun(w1, kind, second), kind, limit, map[b := limit], a, b, limit, limit);
  }

  /** Editing the spec: lowering the limit below what has been granted. */
  lemma EditBreaksTheLimit(w: World, kind: Kind, a: string, lower: int64)
    requires Untouched(w, kind) && 0 <= lower < LimitIn(w, kind)
    ensures var first := Syncing(kind, 0, 0, a, LimitIn(w, kind));
            var es := first + [Shared(EditSpec(Some(lower), Some(lower)))];
            && RunFollows(w, kind, es, ALL_RULES - {SpecFixed})
            && LimitIn(WorldRun(w, kind, es), kind) == lower && !Within(WorldRun(w, kind, es), kind)
  {
    hide WorldRun, RunFollows, Syncing, Sound, Within, Follows, TotalReach;
    var limit, rules := LimitIn(w, kind), ALL_RULES - {SpecFixed};
    var first, e := Syncing(kind, 0, 0, a, limit), Shared(EditSpec(Some(lower), Some(lower)));
    FirstTakesAll(w, kind, 0, a, rules);
    var w1 := WorldRun(w, kind, first);
    EditFollows(w1, kind, e.event, rules);
    FollowsExtends(w, kind, first, e, rules);
    var t := WorldStep(w1, kind, e);
    LimitAfter(w1, kind, e);
    OthersAddNothing(w1, kind, e);
    OneReach(w1, a, limit);
    WithinExactly(t, kind);
  }

  lemma OneReach(w: World, a: string, x: int64)
    requires 0 < x && w.nodes == map[a := Enforced(NodeMaps(None, None), x)]
    ensures TotalReach(w) == x && NaturalLimits(w)
  {
    hide TotalReach, FirstSlice;
    var none := w.(nodes := map[]);
    assert none.Set(a, Enforced(NodeMaps(None, None), x)) == w;
    ReachUpdate(none, a, Enforced(NodeMaps(None, None), x));
    NoReach(none);
  }

  lemma EditFollows(w: World, kind: Kind, e: Event, rules: set<Rule>)
    requires Valid(w.ledger) && e.EditSpec? && ProperRun([e]) && SpecFixed !in rules
    ensures Follows(w, kind, Shared(e), rules)
    ensures WorldStep(w, kind, Shared(e)) == w.(ledger := Step(w.ledger, e))
  {
    hide Quiet;
  }

  /** One install after another on a node whose limit is at least 2. */
  lemma TwoInstalls(w: World, kind: Kind, a: string, x: int64, rules: set<Rule>)
    requires Valid(w.ledger) && 2 <= x && a in w.nodes && w.nodes[a] == Enforced(NodeMaps(None, None), x)
    ensures var hs := [Hook(a, 0, 0, 0), Hook(a, 0, 0, 0)];
            var t := WorldRun(w, kind, hs);
            && RunFollows(w, kind, hs, rules) && a in t.nodes && t == w.(nodes := w.nodes[a := t.nodes[a]])
            && t.nodes[a].limit == Some(x) && t.nodes[a].lease.Some? && t.Count(a) == 2
  {
    hide WorldRun, RunFollows, Follows, Attempt;
    var e := Hook(a, 0, 0, 0);
    var w1 := WorldStep(w, kind, e);
    LocalFollows(w, kind, e, rules);
    LocalFollows(w1, kind, e, rules);
    FollowsTwo(w, kind, e, e, rules);
    AttemptInFirstSlice(w.nodes[a].lease.value, x);
    AttemptInFirstSlice(w1.nodes[a].lease.value, x);
  }

  lemma AttemptInFirstSlice(l: CpuLease, x: int64)
    requires 2 <= x && l.count < 2 && l.leaseBudget == FirstSlice(x)
    ensures Attempt(l, ToU64(x)).0 == l.(count := l.count + 1)
  {
  }

  /** A node counts 2 and gives its credits back. */
  function CountingOn(kind: Kind, version: nat, a: string): seq<WorldEvent> {
    [Hook(a, 0, 0, 0), Hook(a, 0, 0, 0)] + Freeing(kind, 0, version, a)
  }

  lemma CountingOnRuns(w: World, kind: Kind, limit: int64, a: string, rules: set<Rule>)
    requires Settled(w, kind, limit, map[a := limit]) && 2 <= limit && WithdrawsQuietly !in rules
    requires w.nodes == map[a := Enforced(NodeMaps(None, None), limit)]
    ensures var es := CountingOn(kind, |w.ledger.history| - 1, a);
            var t := WorldRun(w, kind, es);
            && RunFollows(w, kind, es, rules) && Settled(t, kind, limit, map[])
            && t.nodes.Keys == {a} && t.nodes[a].lease.Some? && t.Count(a) == 2
  {
    hide WorldRun, RunFollows, Freeing, Sound, Enforced;
    var installs, release := [Hook(a, 0, 0, 0), Hook(a, 0, 0, 0)], Freeing(kind, 0, |w.ledger.history| - 1, a);
    TwoInstalls(w, kind, a, limit, rules);
    var w1 := WorldRun(w, kind, installs);
    FreeRuns(w1, kind, limit, map[a := limit], 0, a, rules);
    assert map[a := limit] - {a} == map[];
    WorldRunConcat(w, kind, installs, release);
    FollowsConcat(w, kind, installs, release, rules);
  }

  /** Granting anew to a node that is still counting: a node counts 2, gives its
      credits back, is granted a single credit, and another node takes the rest. All
      nodes hold credits, and yet one counts more than it holds, and together they
      can count more than the limit. */
  lemma RegrantBreaksTheLimit(w: World, kind: Kind, a: string, b: string)
    requires Untouched(w, kind) && a != b && 2 <= LimitIn(w, kind)
    ensures var limit := LimitIn(w, kind);
            var first := Syncing(kind, 0, 0, a, limit);
            var w1 := WorldRun(w, kind, first);
            var count := CountingOn(kind, |w1.ledger.history| - 1, a);
            var w2 := WorldRun(w1, kind, count);
            var again := Syncing(kind, 0, |w2.ledger.history| - 1, a, 1);
            var es := first + count + (again + Syncing(kind, 0, |WorldRun(w2, kind, again).ledger.history| - 1, b, limit));
            RunFollows(w, kind, es, HOLDER_RULES - {RegrantsQuietly}) && HoldersBreak(WorldRun(w, kind, es), kind, a)
  {
    hide WorldRun, RunFollows, Syncing, CountingOn, Sound, Enforced, HoldersBreak;
    var limit, rules := LimitIn(w, kind), HOLDER_RULES - {RegrantsQuietly};
    var first := Syncing(kind, 0, 0, a, limit);
    FirstTakesAll(w, kind, 0, a, rules);
    var w1 := WorldRun(w, kind, first);
    var count := CountingOn(kind, |w1.ledger.history| - 1, a);
    CountingOnRuns(w1, kind, limit, a, rules);
    var w2 := WorldRun(w1, kind, count);
    RegrantRuns(w2, kind, limit, a, b, rules);
    var again := Syncing(kind, 0, |w2.ledger.history| - 1, a, 1);
    ThreeParts(w, kind, first, count, again + Syncing(kind, 0, |WorldRun(w2, kind, again).ledger.history| - 1, b, limit), rules);
  }

  ghost predicate HoldersBreak(w: World, kind: Kind, a: string)
    requires Valid(w.ledger)
  {
    && w.nodes.Keys == CreditsIn(w, kind).Keys
    && w.Count(a) > Held(CreditsIn(w, kind), a)
    && !Within(w, kind)
  }

  lemma RegrantRuns(w: World, kind: Kind, limit: int64, a: string, b: string, rules: set<Rule>)
    requires Settled(w, kind, limit, map[]) && 2 <= limit && a != b && RegrantsQuietly !in rules
    requires w.nodes.Keys == {a} && w.nodes[a].lease.Some? && w.Count(a) == 2
    ensures var again := Syncing(kind, 0, |w.ledger.history| - 1, a, 1);
            var es := again + Syncing(kind, 0, |WorldRun(w, kind, again).ledger.history| - 1, b, limit);
            RunFollows(w, kind, es, rules) && HoldersBreak(WorldRun(w, kind, es), kind, a)
  {
    hide WorldRun, RunFollows, Syncing, Sound, Within, FirstSlice;
    var again := Syncing(kind, 0, |w.ledger.history| - 1, a, 1);
    assert Sum<string>(map[]) == 0;
    GrantRuns(w, kind, limit, map[], 0, a, 1, rules);
    var w1 := WorldRun(w, kind, again);
    var last := Syncing(kind, 0, |w1.ledger.history| - 1, b, limit);
    OneEntry(a, 1);
    GrantRuns(w1, kind, limit, map[a := 1], 0, b, limit, rules);
    WorldRunConcat(w, kind, again, last);
    FollowsConcat(w, kind, again, last, rules);
    RegrantReaches(w1, WorldRun(w1, kind, last), kind, limit, a, b);
  }

  lemma RegrantReaches(w: World, t: World, kind: Kind, limit: int64, a: string, b: string)
    requires a != b && 2 <= limit && w.nodes.Keys == {a} && w.Count(a) == 2
    requires w.Node(a).limit == Some(1) && w.Node(a).lease.Some?
    requires t.nodes == w.nodes[b := Enforced(NodeMaps(None, None), limit - 1)]
    requires Settled(t, kind, limit, map[a := 1][b := limit - 1])
    ensures !Within(t, kind) && t.nodes.Keys == CreditsIn(t, kind).Keys && t.Count(a) == 2
  {
    hide Within, TotalReach, FirstSlice;
    var none, one := t.(nodes := map[]), t.(nodes := w.nodes);
    assert none.Set(a, w.Node(a)) == one;
    assert one.Set(b, Enforced(NodeMaps(None, None), limit - 1)) == t;
    ReachUpdate(none, a, w.Node(a));
    ReachUpdate(one, b, Enforced(NodeMaps(None, None), limit - 1));
    NoReach(none);
    WithinExactly(t, kind);
  }

  /** A run after which the hooks can break the limit goes on to one that breaks it. */
  lemma LimitIsBroken(w: World, kind: Kind, es: seq<WorldEvent>, rules: set<Rule>)
    requires Valid(w.ledger) && RunFollows(w, kind, es, rules) && !Within(WorldRun(w, kind, es), kind)
    ensures exists run :: RunFollows(w, kind, run, rules)
                          && TotalCount(WorldRun(w, kind, run)) > LimitIn(WorldRun(w, kind, run), kind)
  {
    hide WorldRun, RunFollows, TotalCount;
    var t := WorldRun(w, kind, es);
    var hs :| HooksOnly(hs) && TotalCount(WorldRun(t, kind, hs)) > LimitIn(t, kind);
    HooksFollow(t, kind, hs, rules);
    HooksKeepReach(t, kind, hs);
    WorldRunConcat(w, kind, es, hs);
    FollowsConcat(w, kind, es, hs, rules);
    assert RunFollows(w, kind, es + hs, rules);
  }

  /** None of the rules of the guarantee can be left out, even if all the others are
      kept and credits are granted to quiet nodes only. */
  lemma EveryRuleIsNeeded(w: World, kind: Kind, rule: Rule)
    requires Untouched(w, kind) && rule in LIMIT_RULES
    ensures exists run :: RunFollows(w, kind, run, ALL_RULES - {rule})
                          && TotalCount(WorldRun(w, kind, run)) > LimitIn(WorldRun(w, kind, run), kind)
  {
    hide WorldRun, RunFollows, Within, TotalCount, Syncing, Freeing, Leaving;
    var limit := LimitIn(w, kind);
    var first := Syncing(kind, 0, 0, "a", limit);
    var w1 := WorldRun(w, kind, first);
    var release := Freeing(kind, 0, |w1.ledger.history| - 1, "a");
    match rule
    case SpecFixed =>
      EditBreaksTheLimit(w, kind, "a", 0);
      LimitIsBroken(w, kind, first + [Shared(EditSpec(Some(0), Some(0)))], ALL_RULES - {rule});
    case GrantsOnly =>
      FallbackBreaksTheLimit(w, kind, "a", "b");
      LimitIsBroken(w, kind, first + Syncing(kind, 0, |w1.ledger.history| - 1, "b", limit), ALL_RULES - {rule});
    case HeldSince =>
      StaleReadBreaksTheLimit(w, kind, "a", "b");
      var leave := Leaving(kind, |w1.ledger.history| - 1, "a");
      var w2 := WorldRun(w1, kind, leave);
      LimitIsBroken(w, kind, first + leave + (Syncing(kind, 0, |w2.ledger.history| - 1, "b", limit)
                                              + Syncing(kind, 0, |w1.ledger.history| - 1, "a", limit)), ALL_RULES - {rule});
    case WithdrawsQuietly =>
      ReleaseFirstBreaksTheLimit(w, kind, "a", "b");
      var w2 := WorldRun(w1, kind, release);
      LimitIsBroken(w, kind, first + release + Syncing(kind, 0, |w2.ledger.history| - 1, "b", limit), ALL_RULES - {rule});
  }
}
