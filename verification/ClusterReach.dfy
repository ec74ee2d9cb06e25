/** Exactly when the counts of a namespace stay within its limit, whatever the hooks
    do. Hooks cannot be held up, so what matters is how far they can take the counts
    on all nodes without any further sync. */
module ClusterReach {

  import opened Basics
  import opened MapSum
  import opened QuotaLedger
  import opened LedgerRuns
  import opened Enforcer
  import opened Cluster

  lemma RunOfNothing(w: World, kind: Kind)
    requires Valid(w.ledger)
    ensures WorldRun(w, kind, []) == w
  {
  }

  lemma WorldRunExtends(w: World, kind: Kind, es: seq<WorldEvent>, e: WorldEvent)
    requires Valid(w.ledger)
    ensures WorldRun(w, kind, es + [e]) == WorldStep(WorldRun(w, kind, es), kind, e)
  {
    assert (es + [e])[..|es|] == es;
  }

  lemma RunOfOne(w: World, kind: Kind, e: WorldEvent)
    requires Valid(w.ledger)
    ensures WorldRun(w, kind, [e]) == WorldStep(w, kind, e)
  {
    hide WorldStep;
    RunOfNothing(w, kind);
    WorldRunExtends(w, kind, [], e);
    assert [] + [e] == [e];
  }

  lemma {:induction false} WorldRunConcat(w: World, kind: Kind, es: seq<WorldEvent>, fs: seq<WorldEvent>)
    requires Valid(w.ledger)
    ensures WorldRun(w, kind, es + fs) == WorldRun(WorldRun(w, kind, es), kind, fs)
  {
    hide WorldStep;
    if fs == [] {
      assert es + fs == es;
    } else {
      assert (es + fs)[..|es + fs| - 1] == es + fs[..|fs| - 1];
      WorldRunConcat(w, kind, es, fs[..|fs| - 1]);
    }
  }

  /** How far hooks alone can take a node's count. */
  function ReachOf(m: NodeMaps): nat {
    match m.lease
    case None => 0
    case Some(l) =>
      if m.limit.Some? && m.limit.value != 0 && l.count <= ToU64(m.limit.value) then ToU64(m.limit.value) else l.count
  }

  function NodeReaches(w: World): map<string, int> {
    map n | n in w.nodes :: ReachOf(w.nodes[n])
  }

  ghost function TotalReach(w: World): int {
    Sum(NodeReaches(w))
  }

  predicate HooksOnly(es: seq<WorldEvent>) {
    forall e | e in es :: e.Hook? || e.Shut?
  }

  lemma ReachUpdate(w: World, n: string, m: NodeMaps)
    ensures TotalReach(w.Set(n, m)) == TotalReach(w) - ReachOf(w.Node(n)) + ReachOf(m)
  {
    assert NodeReaches(w.Set(n, m)) == NodeReaches(w)[n := ReachOf(m)];
    SumUpdate(NodeReaches(w), n, ReachOf(m));
  }

  lemma CountsBelowReach(w: World)
    ensures TotalCount(w) <= TotalReach(w)
  {
    SumMonotone(CountsOn(w, w.nodes.Keys), NodeReaches(w));
  }

  /** Attempts never take a lease beyond its reach. */
  lemma AttemptKeepsReach(l: CpuLease, limit: int64, cgid: CgroupId, cgCount: nat, now: nat)
    requires limit != 0
    ensures ReachOf(NodeMaps(Some(limit), Some(Attempt(Noted(l, cgid, cgCount, now), ToU64(limit)).0)))
         == ReachOf(NodeMaps(Some(limit), Some(l)))
  {
    hide Grown;
  }

  /** A hook never takes a node's count out of reach, nor its reach up. */
  lemma HookKeepsReach(w: World, kind: Kind, e: WorldEvent)
    requires Valid(w.ledger) && (e.Hook? || e.Shut?)
    ensures var t := WorldStep(w, kind, e); t.ledger == w.ledger && TotalReach(t) <= TotalReach(w)
  {
    hide Attempt, Noted, TotalReach;
    match e
    case Hook(node, cgid, cgCount, now) =>
      var m := w.Node(node);
      if m.limit.Some? && m.limit.value != 0 && m.lease.Some? {
        AttemptKeepsReach(m.lease.value, m.limit.value, cgid, cgCount, now);
        ReachUpdate(w, node, m.(lease := Some(Attempt(Noted(m.lease.value, cgid, cgCount, now), ToU64(m.limit.value)).0)));
      }
    case Shut(node, now) =>
      var m := w.Node(node);
      if w.Count(node) > 0 {
        ReachUpdate(w, node, m.(lease := Some(m.lease.value.(count := m.lease.value.count - 1, lastUsedNs := now))));
      }
  }

  lemma {:induction false} HooksKeepReach(w: World, kind: Kind, es: seq<WorldEvent>)
    requires Valid(w.ledger) && HooksOnly(es)
    ensures var t := WorldRun(w, kind, es); t.ledger == w.ledger && TotalReach(t) <= TotalReach(w)
  {
    hide WorldStep, TotalReach;
    if es != [] {
      var prefix, e := es[..|es| - 1], es[|es| - 1];
      assert e in es;
      HooksKeepReach(w, kind, prefix);
      HookKeepsReach(WorldRun(w, kind, prefix), kind, e);
    }
  }

  /** One attempt below the limit is admitted or moves the budget on. */
  lemma AttemptProgresses(l: CpuLease, limit: int64)
    requires 0 < limit && l.count < limit
    ensures var l' := Attempt(Noted(l, 0, 0, 0), ToU64(limit)).0;
            || l'.count == l.count + 1
            || (l'.count == l.count && l.leaseBudget < l'.leaseBudget <= limit)
  {
  }

  predicate NaturalLimit(m: NodeMaps) {
    m.limit.Some? ==> 0 <= m.limit.value
  }

  /** The second world differs from the first in one node only. */
  ghost predicate OnlyNode(w: World, t: World, n: string) {
    t == w.(nodes := t.nodes) && t.nodes.Keys == w.nodes.Keys && forall o | o != n :: t.Node(o) == w.Node(o)
  }

  lemma OneHook(w: World, kind: Kind, n: string)
    requires Valid(w.ledger) && n in w.nodes
    requires var m := w.nodes[n];
             m.lease.Some? && m.limit.Some? && 0 < m.limit.value && m.lease.value.count < m.limit.value
    ensures var t, m := WorldStep(w, kind, Hook(n, 0, 0, 0)), w.nodes[n];
            && OnlyNode(w, t, n)
            && t.Node(n) == m.(lease := Some(Attempt(Noted(m.lease.value, 0, 0, 0), ToU64(m.limit.value)).0))
  {
    hide Attempt, Noted;
  }

  function Gap(budget: nat, limit: int): nat {
    if budget < limit then limit - budget else 0
  }

  /** Installs on one node take its count all the way. */
  lemma {:induction false} NodeCanFill(w: World, kind: Kind, n: string) returns (es: seq<WorldEvent>)
    requires Valid(w.ledger) && n in w.nodes && NaturalLimit(w.nodes[n])
    ensures HooksOnly(es) && OnlyNode(w, WorldRun(w, kind, es), n)
    ensures WorldRun(w, kind, es).Count(n) == ReachOf(w.nodes[n])
    decreases ReachOf(w.nodes[n]) - w.Count(n),
              if w.nodes[n].lease.Some? then Gap(w.nodes[n].lease.value.leaseBudget, ReachOf(w.nodes[n])) else 0
  {
    hide WorldStep, WorldRun, Attempt, Noted;
    var m := w.nodes[n];
    if m.lease.Some? && m.limit.Some? && 0 < m.limit.value && m.lease.value.count < m.limit.value {
      var e := Hook(n, 0, 0, 0);
      var w1 := WorldStep(w, kind, e);
      OneHook(w, kind, n);
      AttemptProgresses(m.lease.value, m.limit.value);
      var rest := NodeCanFill(w1, kind, n);
      es := [e] + rest;
      WorldRunConcat(w, kind, [e], rest);
      RunOfOne(w, kind, e);
    } else {
      es := [];
      RunOfNothing(w, kind);
    }
  }

  ghost predicate NaturalLimits(w: World) {
    forall n | n in w.nodes :: NaturalLimit(w.nodes[n])
  }

  /** So do installs on all nodes together. */
  lemma {:induction false} AllCanFill(w: World, kind: Kind, todo: set<string>) returns (es: seq<WorldEvent>)
    requires Valid(w.ledger) && NaturalLimits(w) && todo <= w.nodes.Keys
    ensures HooksOnly(es)
    ensures var t := WorldRun(w, kind, es);
            && t.nodes.Keys == w.nodes.Keys
            && (forall n | n in todo :: t.Count(n) == ReachOf(w.nodes[n]))
            && (forall n | n !in todo :: t.Node(n) == w.Node(n))
    decreases todo
  {
    hide WorldRun, ReachOf;
    if n :| n in todo {
      var first := NodeCanFill(w, kind, n);
      var w1 := WorldRun(w, kind, first);
      assert NaturalLimits(w1) by { FillKeepsLimits(w, w1, kind, n, first); }
      var rest := AllCanFill(w1, kind, todo - {n});
      es := first + rest;
      WorldRunConcat(w, kind, first, rest);
      forall o | o in todo - {n} ensures ReachOf(w1.nodes[o]) == ReachOf(w.nodes[o]) {
        assert w1.Node(o) == w.Node(o);
      }
      assert WorldRun(w1, kind, rest).Node(n) == w1.Node(n);
    } else {
      es := [];
      RunOfNothing(w, kind);
    }
  }

  lemma {:induction false} HooksKeepLimits(w: World, kind: Kind, es: seq<WorldEvent>, n: string)
    requires Valid(w.ledger) && HooksOnly(es)
    ensures WorldRun(w, kind, es).Node(n).limit == w.Node(n).limit
  {
    hide Attempt, Noted;
    if es != [] {
      assert es[|es| - 1] in es;
      HooksKeepLimits(w, kind, es[..|es| - 1], n);
    }
  }

  lemma FillKeepsLimits(w: World, w1: World, kind: Kind, n: string, es: seq<WorldEvent>)
    requires Valid(w.ledger) && NaturalLimits(w) && HooksOnly(es) && w1 == WorldRun(w, kind, es) && OnlyNode(w, w1, n)
    ensures NaturalLimits(w1)
  {
    hide WorldRun;
    forall o | o in w1.nodes ensures NaturalLimit(w1.nodes[o]) {
      HooksKeepLimits(w, kind, es, o);
      assert NaturalLimit(w.nodes[o]);
    }
  }

  /** Some run of hooks takes the counts of all nodes beyond a bound exactly if the
      reaches of all nodes are together beyond it. */
  lemma ReachIsExact(w: World, kind: Kind, bound: int)
    requires Valid(w.ledger) && NaturalLimits(w)
    ensures (exists es | HooksOnly(es) :: TotalCount(WorldRun(w, kind, es)) > bound) <==> TotalReach(w) > bound
  {
    hide WorldRun;
    if es :| HooksOnly(es) && TotalCount(WorldRun(w, kind, es)) > bound {
      HooksKeepReach(w, kind, es);
      CountsBelowReach(WorldRun(w, kind, es));
    }
    if TotalReach(w) > bound {
      var es := AllCanFill(w, kind, w.nodes.Keys);
      var t := WorldRun(w, kind, es);
      assert CountsOn(t, t.nodes.Keys) == NodeReaches(w);
    }
  }

  ghost function LimitIn(w: World, kind: Kind): int64
    requires Valid(w.ledger)
  {
    Current(w.ledger).Limit(kind)
  }

  /** No limit in use or about to be used is negative. */
  ghost predicate Natural(w: World, kind: Kind)
    requires Valid(w.ledger)
  {
    && NaturalLimits(w) && (forall o | o in w.offers :: 0 <= w.offers[o].amount)
    && forall q | q in w.ledger.history :: 0 <= q.Limit(kind)
  }

  lemma ApplyLimit(q: Quota, op: Op, kind: Kind)
    ensures Apply(q, op).Limit(kind) == (if op.Edit? then Quota(op.fdLimit, op.procLimit, map[], map[], 0, None).Limit(kind)
                                         else q.Limit(kind))
  {
  }

  /** The limit after an event: that of the new spec, if the event edits it. */
  ghost function NextLimit(w: World, kind: Kind, e: WorldEvent): int64
    requires Valid(w.ledger)
  {
    if e.Shared? && e.event.EditSpec? then
      Quota(e.event.fdLimit, e.event.procLimit, map[], map[], 0, None).Limit(kind)
    else LimitIn(w, kind)
  }

  lemma LimitAfter(w: World, kind: Kind, e: WorldEvent)
    requires Valid(w.ledger)
    ensures LimitIn(WorldStep(w, kind, e), kind) == NextLimit(w, kind, e)
  {
    hide Apply, PlanOf, Decision;
    if e.Shared? {
      StepIsAtomic(w.ledger, e.event);
      SharedLedger(w, kind, e.event, e.spec);
      if Commits(w.ledger, e.event) {
        ApplyLimit(Current(w.ledger), Intent(w.ledger, e.event), kind);
      }
    } else {
      LedgerUntouched(w, kind, e);
    }
  }

  lemma NaturalVersions(w: World, kind: Kind, e: Event, spec: nat)
    requires Valid(w.ledger) && ProperRun([e]) && forall q | q in w.ledger.history :: 0 <= q.Limit(kind)
    ensures forall q | q in Step(w.ledger, e).history :: 0 <= q.Limit(kind)
  {
    hide Step, Apply, PlanOf, Decision;
    var s, t := w.ledger, Step(w.ledger, e);
    StepIsAtomic(s, e);
    LimitAfter(w, kind, Shared(e, spec));
    SharedLedger(w, kind, e, spec);
    assert e in [e] && Current(s) in s.history;
    if Commits(s, e) {
      assert Current(t) == t.history[|s.history|];
    }
  }

  lemma NaturalOffer(s: State, e: Event, kind: Kind, spec: nat)
    requires Valid(s) && SyncAsks(e, kind) && Enabled(s, e) && forall q | q in s.history :: 0 <= q.Limit(kind)
    ensures 0 <= OfferOf(s, e, kind, spec).amount
  {
    hide Answer;
  }

  lemma NaturalStep(w: World, kind: Kind, e: WorldEvent)
    requires Valid(w.ledger) && Natural(w, kind) && ProperEvent(e)
    ensures Natural(WorldStep(w, kind, e), kind)
  {
    hide Step, OfferOf, Attempt, Noted, FirstSlice;
    if e.Shared? {
      NaturalVersions(w, kind, e.event, e.spec);
      if SyncAsks(e.event, kind) && Enabled(w.ledger, e.event) {
        NaturalOffer(w.ledger, e.event, kind, e.spec);
      }
    }
  }

  /** How much reach an event adds. A sync that sets the limit of a node with a counter
      makes the amount it enforces the reach, or the count if that is higher; one
      that creates the counter makes the limit the reach, which was 0 before. */
  function Adds(w: World, e: WorldEvent): int {
    match e
    case Adopt(worker) =>
      if worker !in w.offers then 0 else
      var m := w.Node(w.offers[worker].node);
      if m.lease.None? then 0 else Max(w.offers[worker].amount, m.lease.value.count) - ReachOf(m)
    case Slice(worker) =>
      if worker !in w.offers || !w.offers[worker].adopted then 0 else
      var m := w.Node(w.offers[worker].node);
      if m.lease.None? && m.limit.Some? then m.limit.value else 0
    case _ => 0
  }

  lemma AdoptAdds(w: World, kind: Kind, worker: nat)
    requires Valid(w.ledger) && Natural(w, kind)
    ensures TotalReach(WorldStep(w, kind, Adopt(worker))) == TotalReach(w) + Adds(w, Adopt(worker))
  {
    hide TotalReach;
    if worker in w.offers {
      var o := w.offers[worker];
      ReachUpdate(w.(offers := w.offers[worker := o.(adopted := true)]), o.node, w.Node(o.node).(limit := Some(o.amount)));
      SameNodes(w, w.(offers := w.offers[worker := o.(adopted := true)]));
    }
  }

  lemma SliceAdds(w: World, kind: Kind, worker: nat)
    requires Valid(w.ledger) && Natural(w, kind)
    ensures TotalReach(WorldStep(w, kind, Slice(worker))) == TotalReach(w) + Adds(w, Slice(worker))
  {
    hide TotalReach, FirstSlice;
    if worker in w.offers && w.offers[worker].adopted {
      var o := w.offers[worker];
      var m := w.Node(o.node);
      var lease := if m.lease.Some? then m.lease.value.(leaseBudget := FirstSlice(o.amount))
                   else CpuLease(0, FirstSlice(o.amount), 0, 0, 0);
      ReachUpdate(w.(offers := w.offers - {worker}), o.node, m.(lease := Some(lease)));
      SameNodes(w, w.(offers := w.offers - {worker}));
      assert NaturalLimit(m);
    }
  }

  lemma SameNodes(w: World, t: World)
    requires t.nodes == w.nodes
    ensures TotalReach(t) == TotalReach(w)
  {
    assert NodeReaches(t) == NodeReaches(w);
  }

  /** Nothing but the two steps of a sync adds reach. */
  lemma OthersAddNothing(w: World, kind: Kind, e: WorldEvent)
    requires Valid(w.ledger) && !e.Adopt? && !e.Slice?
    ensures TotalReach(WorldStep(w, kind, e)) <= TotalReach(w)
    ensures e.Shared? ==> TotalReach(WorldStep(w, kind, e)) == TotalReach(w)
  {
    hide TotalReach;
    match e
    case Shared(_, _) => SameNodes(w, WorldStep(w, kind, e));
    case ForgetLimit(node) => ReachUpdate(w, node, w.Node(node).(limit := None));
    case ForgetCounter(node) => ReachUpdate(w, node, w.Node(node).(lease := None));
    case _ => HookKeepsReach(w, kind, e);
  }

  /** What can be seen before a step: a sync does not add more reach than the limit
      leaves, and an edit of the spec does not take the limit below the reach. */
  ghost predicate KeepsWithin(w: World, kind: Kind, e: WorldEvent)
    requires Valid(w.ledger)
  {
    match e
    case Adopt(_) => TotalReach(w) + Adds(w, e) <= LimitIn(w, kind)
    case Slice(_) => TotalReach(w) + Adds(w, e) <= LimitIn(w, kind)
    case Shared(event, _) => event.EditSpec? ==> TotalReach(w) <= NextLimit(w, kind, e)
    case _ => true
  }

  lemma StepKeepsWithin(w: World, kind: Kind, e: WorldEvent)
    requires Valid(w.ledger) && Natural(w, kind) && TotalReach(w) <= LimitIn(w, kind)
    ensures var t := WorldStep(w, kind, e);
            TotalReach(t) <= LimitIn(t, kind) <==> KeepsWithin(w, kind, e)
  {
    hide WorldStep, TotalReach, Adds, Natural;
    LimitAfter(w, kind, e);
    match e
    case Adopt(worker) => AdoptAdds(w, kind, worker);
    case Slice(worker) => SliceAdds(w, kind, worker);
    case _ => OthersAddNothing(w, kind, e);
  }

  /** Whatever the hooks do next, the counts of all nodes stay within the limit. */
  ghost predicate Within(w: World, kind: Kind)
    requires Valid(w.ledger)
  {
    forall hs | HooksOnly(hs) :: TotalCount(WorldRun(w, kind, hs)) <= LimitIn(w, kind)
  }

  ghost predicate StaysWithin(w: World, kind: Kind, es: seq<WorldEvent>)
    requires Valid(w.ledger)
  {
    (es == [] || StaysWithin(w, kind, es[..|es| - 1])) && Within(WorldRun(w, kind, es), kind)
  }

  ghost predicate AllKeepWithin(w: World, kind: Kind, es: seq<WorldEvent>)
    requires Valid(w.ledger)
  {
    es == [] ||
    (AllKeepWithin(w, kind, es[..|es| - 1]) && KeepsWithin(WorldRun(w, kind, es[..|es| - 1]), kind, es[|es| - 1]))
  }

  lemma WithinExactly(w: World, kind: Kind)
    requires Valid(w.ledger) && NaturalLimits(w)
    ensures Within(w, kind) <==> TotalReach(w) <= LimitIn(w, kind)
  {
    hide WorldRun, TotalReach, TotalCount;
    ReachIsExact(w, kind, LimitIn(w, kind));
  }

  lemma NaturalLimitsIn(w: World, kind: Kind)
    requires Valid(w.ledger) && Natural(w, kind)
    ensures NaturalLimits(w)
  {
  }

  /** The global limit, exactly: in every run, through fallbacks, outdated reads,
      releases, reclaims and edits of the spec, the counts of all nodes stay within
      the limit at all times whatever the hooks do, if and only if every step of a
      sync adds no more reach than the limit leaves and no edit takes the limit below
      the reach there is. */
  lemma {:induction false} LimitHoldsExactly(w: World, kind: Kind, es: seq<WorldEvent>)
    requires Valid(w.ledger) && Natural(w, kind) && TotalReach(w) <= LimitIn(w, kind)
    requires forall e | e in es :: ProperEvent(e)
    ensures Natural(WorldRun(w, kind, es), kind)
    ensures StaysWithin(w, kind, es) <==> AllKeepWithin(w, kind, es)
  {
    hide WorldStep, Natural, NaturalLimits, Within, KeepsWithin, TotalReach;
    NaturalLimitsIn(w, kind);
    WithinExactly(WorldRun(w, kind, []), kind);
    if es != [] {
      var prefix, e := es[..|es| - 1], es[|es| - 1];
      assert e in es;
      LimitHoldsExactly(w, kind, prefix);
      var before := WorldRun(w, kind, prefix);
      NaturalStep(before, kind, e);
      NaturalLimitsIn(before, kind);
      NaturalLimitsIn(WorldStep(before, kind, e), kind);
      WithinExactly(before, kind);
      WithinExactly(WorldStep(before, kind, e), kind);
      if StaysWithin(w, kind, prefix) {
        StaysUntilNow(w, kind, prefix);
        StepKeepsWithin(before, kind, e);
      }
    }
  }

  lemma StaysUntilNow(w: World, kind: Kind, es: seq<WorldEvent>)
    requires Valid(w.ledger) && StaysWithin(w, kind, es)
    ensures Within(WorldRun(w, kind, es), kind)
  {
  }
}
