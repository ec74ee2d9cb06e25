/** The two accounts the kernel keeps beside a namespace's count: the top consumer,
    and the counters of the single cgroups. */
module EnforcerAccounts {

  import opened Basics
  import opened MapSum
  import opened QuotaLedger
  import opened Enforcer
  import opened EnforcerRuns

  /** The event keeps the namespace enforced: a limit that is not 0, and the counter. */
  predicate KeepsEnforcing(e: MapEvent, ns: Namespace) {
    match e
    case SetLimit(n, l) => n == ns ==> l != 0
    case DropLimit(n) => n != ns
    case DropCounter(n) => n != ns
    case _ => true
  }

  /** The cgroups that installed in the namespace, each with its count then. */
  function Seen(k: Kernel, kind: Kind, es: seq<MapEvent>, ns: Namespace): seq<(CgroupId, nat)> {
    if es == [] then [] else
    var before, e := MapRun(k, kind, es[..|es| - 1]), es[|es| - 1];
    Seen(k, kind, es[..|es| - 1], ns)
      + (if InstallIn(before, e, ns) then [(e.cgid, before.Count(e.cgid) + 1)] else [])
  }

  /** The cgroup and count that were the first to reach the greatest count seen. */
  ghost predicate IsHighWater(cgid: CgroupId, count: nat, seen: seq<(CgroupId, nat)>) {
    if seen == [] then cgid == 0 && count == 0
    else exists i | 0 <= i < |seen| ::
        && seen[i] == (cgid, count)
        && (forall j | 0 <= j < |seen| :: seen[j].1 <= count)
        && (forall j | 0 <= j < i :: seen[j].1 < count)
  }

  lemma HighWaterStep(cgid: CgroupId, count: nat, seen: seq<(CgroupId, nat)>, c: CgroupId, n: nat)
    requires IsHighWater(cgid, count, seen) && 0 < n
    ensures IsHighWater(if n > count then c else cgid, if n > count then n else count, seen + [(c, n)])
  {
    var seen' := seen + [(c, n)];
    if n > count {
      assert seen'[|seen|] == (c, n);
    } else {
      var i :| 0 <= i < |seen| && seen[i] == (cgid, count) && (forall j | 0 <= j < i :: seen[j].1 < count);
      assert seen'[i] == (cgid, count);
    }
  }

  /** A hook or map operation moves the top consumer only by an install in the
      namespace with a higher count; nothing lowers it. */
  lemma TopStep(k: Kernel, kind: Kind, e: MapEvent, ns: Namespace)
    requires k.Enforces(ns) && KeepsEnforcing(e, ns)
    ensures var k' := MapStep(k, kind, e);
            var l, n := k.nsCounter[ns], k.Count(if e.Install? then e.cgid else 0) + 1;
            && k'.Enforces(ns)
            && k'.nsCounter[ns].topCount == (if InstallIn(k, e, ns) && n > l.topCount then n else l.topCount)
            && k'.nsCounter[ns].topCgid == (if InstallIn(k, e, ns) && n > l.topCount then e.cgid else l.topCgid)
  {
    if e.Install? && e.cgid in k.cgroupNs && !InstallIn(k, e, ns) { assert k.cgroupNs[e.cgid] != ns; }
    if e.Close? && e.cgid in k.cgroupNs && !CloseIn(k, e, ns) { assert k.cgroupNs[e.cgid] != ns; }
  }

  /** The top consumer is a high-water mark: since the counter was created, the
      recorded count is the greatest any install of the namespace has seen, and
      the recorded cgroup the first to have reached it. Closes and re-syncs do not
      lower it. */
  lemma {:induction false} TopConsumerIsHighWater(k: Kernel, kind: Kind, es: seq<MapEvent>, ns: Namespace)
    requires k.Enforces(ns) && k.nsCounter[ns].topCgid == 0 && k.nsCounter[ns].topCount == 0
    requires forall e | e in es :: KeepsEnforcing(e, ns)
    ensures var t := MapRun(k, kind, es);
            t.Enforces(ns) && IsHighWater(t.nsCounter[ns].topCgid, t.nsCounter[ns].topCount, Seen(k, kind, es, ns))
  {
    hide MapStep, IsHighWater;
    if es == [] {
      assert IsHighWater(0, 0, []) by { StartOfHighWater(); }
    } else {
      var prefix, e := es[..|es| - 1], es[|es| - 1];
      TopConsumerIsHighWater(k, kind, prefix, ns);
      var before := MapRun(k, kind, prefix);
      TopStep(before, kind, e, ns);
      if InstallIn(before, e, ns) {
        var l := before.nsCounter[ns];
        HighWaterStep(l.topCgid, l.topCount, Seen(k, kind, prefix, ns), e.cgid, before.Count(e.cgid) + 1);
      } else {
        assert Seen(k, kind, es, ns) == Seen(k, kind, prefix, ns);
      }
    }
  }

  lemma StartOfHighWater()
    ensures IsHighWater(0, 0, [])
  {
  }

  /** Who owns a cgroup is fixed, and cgroups are bound to their owners only. */
  predicate ObeysOwner(e: MapEvent, own: CgroupId -> Namespace) {
    e.Bind? ==> own(e.cgid) == e.ns
  }

  predicate OwnedBy(k: Kernel, own: CgroupId -> Namespace) {
    forall c | c in k.cgroupNs :: k.cgroupNs[c] == own(c)
  }

  /** If the cgroups of a namespace start at 0, then none of them ever counts more
      than the top consumer. */
  lemma {:induction false} NoCgroupAboveTop(k: Kernel, kind: Kind, es: seq<MapEvent>, ns: Namespace,
                                            own: CgroupId -> Namespace)
    requires k.Enforces(ns) && OwnedBy(k, own)
    requires forall c | own(c) == ns :: k.Count(c) <= k.nsCounter[ns].topCount
    requires forall e | e in es :: KeepsEnforcing(e, ns) && ObeysOwner(e, own)
    ensures var t := MapRun(k, kind, es);
            && t.Enforces(ns) && OwnedBy(t, own)
            && forall c | own(c) == ns :: t.Count(c) <= t.nsCounter[ns].topCount
  {
    hide MapStep;
    if es != [] {
      var prefix, e := es[..|es| - 1], es[|es| - 1];
      NoCgroupAboveTop(k, kind, prefix, ns, own);
      var before := MapRun(k, kind, prefix);
      TopStep(before, kind, e, ns);
      CountStep(before, kind, e, own);
      var after := MapStep(before, kind, e);
      forall c | own(c) == ns ensures after.Count(c) <= after.nsCounter[ns].topCount {
      }
    }
  }

  /** A cgroup's own counter goes up by its installs, whether admitted or refused,
      down by its closes but not below 0, and to 0 when it is unmapped. */
  lemma CountStep(k: Kernel, kind: Kind, e: MapEvent, own: CgroupId -> Namespace)
    requires OwnedBy(k, own) && ObeysOwner(e, own)
    ensures var k' := MapStep(k, kind, e);
            && OwnedBy(k', own)
            && forall c: CgroupId ::
                 k'.Count(c) == (if InstallIn(k, e, own(c)) && e.cgid == c then k.Count(c) + 1
                                 else if e.Close? && e.cgid == c then Max(0, k.Count(c) - 1)
                                 else if e == Unbind(c) then 0
                                 else k.Count(c))
  {
  }

  /** The counters of the cgroups mapped to a namespace. */
  function CountsOf(k: Kernel, ns: Namespace): map<CgroupId, int> {
    map c | c in k.cgroupNs && k.cgroupNs[c] == ns :: k.Count(c)
  }

  /** The per-cgroup counters cover the namespace's count. */
  ghost predicate Covered(k: Kernel, ns: Namespace) {
    ns in k.nsCounter ==> k.nsCounter[ns].count <= Sum<CgroupId>(CountsOf(k, ns))
  }

  /** Unmapping a cgroup of the namespace leaves the counters of its other cgroups
      covering the count, or the namespace's counter is gone. */
  ghost predicate LeavesCover(k: Kernel, e: MapEvent, ns: Namespace) {
    e.Unbind? && k.Bound(e.cgid, ns) && ns in k.nsCounter ==>
      k.nsCounter[ns].count + k.Count(e.cgid) <= Sum<CgroupId>(CountsOf(k, ns))
  }

  /** How a namespace's count moves while its counter lasts. */
  lemma LeaseCountStep(k: Kernel, kind: Kind, e: MapEvent, ns: Namespace)
    requires ns in MapStep(k, kind, e).nsCounter
    ensures var count := if ns in k.nsCounter then k.nsCounter[ns].count else 0;
            var count' := MapStep(k, kind, e).nsCounter[ns].count;
            && (ns !in k.nsCounter ==> count' == 0)
            && count' <= (if InstallIn(k, e, ns) then count + 1 else if CloseIn(k, e, ns) then Max(0, count - 1) else count)
  {
    if e.Install? && e.cgid in k.cgroupNs && !InstallIn(k, e, ns) { assert k.cgroupNs[e.cgid] != ns; }
    if e.Close? && e.cgid in k.cgroupNs && !CloseIn(k, e, ns) { assert k.cgroupNs[e.cgid] != ns; }
  }

  /** How the counters of a namespace's cgroups move. */
  lemma CountsStep(k: Kernel, kind: Kind, e: MapEvent, ns: Namespace, own: CgroupId -> Namespace)
    requires OwnedBy(k, own) && ObeysOwner(e, own) && !(e.Unbind? && k.Bound(e.cgid, ns))
    ensures var m, m' := CountsOf(k, ns), CountsOf(MapStep(k, kind, e), ns);
            if InstallIn(k, e, ns) then e.cgid in m && m' == m[e.cgid := m[e.cgid] + 1]
            else if CloseIn(k, e, ns) then e.cgid in m && m' == m[e.cgid := Max(0, m[e.cgid] - 1)]
            else m.Keys <= m'.Keys && forall c | c in m :: m'[c] == m[c]
  {
    hide MapStep, Kernel.Count;
    CountStep(k, kind, e, own);
    MappingStep(k, kind, e);
  }

  lemma MappingStep(k: Kernel, kind: Kind, e: MapEvent)
    ensures MapStep(k, kind, e).cgroupNs == match e
                                            case Bind(cgid, ns) => k.cgroupNs[cgid := ns]
                                            case Unbind(cgid) => k.cgroupNs - {cgid}
                                            case _ => k.cgroupNs
  {
  }

  /** Installs, closes, re-syncs and mappings keep the cover; unmapping a cgroup
      keeps it exactly if the other cgroups still cover the count. */
  lemma CoverageStep(k: Kernel, kind: Kind, e: MapEvent, ns: Namespace, own: CgroupId -> Namespace)
    requires OwnedBy(k, own) && ObeysOwner(e, own) && Covered(k, ns)
    ensures Covered(MapStep(k, kind, e), ns) <==> LeavesCover(k, e, ns)
  {
    hide MapStep, CountsOf;
    if e.Unbind? && k.Bound(e.cgid, ns) {
      UnbindTakesCount(k, kind, e.cgid, ns);
    } else {
      CoverageGrows(k, kind, e, ns, own);
    }
  }

  lemma UnbindTakesCount(k: Kernel, kind: Kind, c: CgroupId, ns: Namespace)
    requires k.Bound(c, ns)
    ensures var k' := MapStep(k, kind, Unbind(c));
            && k'.nsCounter == k.nsCounter
            && Sum<CgroupId>(CountsOf(k', ns)) == Sum<CgroupId>(CountsOf(k, ns)) - k.Count(c)
  {
    assert CountsOf(MapStep(k, kind, Unbind(c)), ns) == CountsOf(k, ns) - {c};
    SumRemove<CgroupId>(CountsOf(k, ns), c);
  }

  lemma CoverageGrows(k: Kernel, kind: Kind, e: MapEvent, ns: Namespace, own: CgroupId -> Namespace)
    requires OwnedBy(k, own) && ObeysOwner(e, own) && Covered(k, ns) && !(e.Unbind? && k.Bound(e.cgid, ns))
    ensures Covered(MapStep(k, kind, e), ns)
  {
    hide MapStep, CountsOf;
    var k' := MapStep(k, kind, e);
    var m, m' := CountsOf(k, ns), CountsOf(k', ns);
    CountsAreNatural(k, ns);
    CountsAreNatural(k', ns);
    if ns in k'.nsCounter {
      LeaseCountStep(k, kind, e, ns);
      CountsStep(k, kind, e, ns, own);
      if InstallIn(k, e, ns) {
        SumUpdate<CgroupId>(m, e.cgid, m[e.cgid] + 1);
      } else if CloseIn(k, e, ns) {
        SumUpdate<CgroupId>(m, e.cgid, Max(0, m[e.cgid] - 1));
      } else {
        SumMonotone<CgroupId>(m, m');
      }
    }
  }

  lemma CountsAreNatural(k: Kernel, ns: Namespace)
    ensures forall c | c in CountsOf(k, ns) :: 0 <= CountsOf(k, ns)[c]
    ensures 0 <= Sum<CgroupId>(CountsOf(k, ns))
  {
    SumNonNegative<CgroupId>(CountsOf(k, ns));
  }

  /** The cover holds after every step. */
  ghost predicate StaysCovered(k: Kernel, kind: Kind, es: seq<MapEvent>, ns: Namespace) {
    (es == [] || StaysCovered(k, kind, es[..|es| - 1], ns)) && Covered(MapRun(k, kind, es), ns)
  }

  ghost predicate AllLeaveCover(k: Kernel, kind: Kind, es: seq<MapEvent>, ns: Namespace) {
    es == [] ||
    (AllLeaveCover(k, kind, es[..|es| - 1], ns) && LeavesCover(MapRun(k, kind, es[..|es| - 1]), es[|es| - 1], ns))
  }

  /** Two-level accounting: through admitted and refused installs, closes at 0,
      re-syncs, mappings and removals, the counters of a namespace's cgroups add up
      to at least its count, in exactly those runs in which every unmapping leaves
      the cover. */
  lemma {:induction false} CgroupsCoverNamespace(k: Kernel, kind: Kind, es: seq<MapEvent>, ns: Namespace,
                                                 own: CgroupId -> Namespace)
    requires OwnedBy(k, own) && Covered(k, ns)
    requires forall e | e in es :: ObeysOwner(e, own)
    ensures OwnedBy(MapRun(k, kind, es), own)
    ensures StaysCovered(k, kind, es, ns) <==> AllLeaveCover(k, kind, es, ns)
  {
    hide MapStep, Covered, LeavesCover;
    if es != [] {
      var prefix, e := es[..|es| - 1], es[|es| - 1];
      CgroupsCoverNamespace(k, kind, prefix, ns, own);
      var before := MapRun(k, kind, prefix);
      CountStep(before, kind, e, own);
      if StaysCovered(k, kind, prefix, ns) {
        CoverageStep(before, kind, e, ns, own);
      }
    }
  }

  /** A cgroup is unmapped only once its namespace's counter is gone. */
  predicate UnbindsLate(k: Kernel, e: MapEvent) {
    e.Unbind? && e.cgid in k.cgroupNs ==> k.cgroupNs[e.cgid] !in k.nsCounter
  }

  ghost predicate LateUnbinds(k: Kernel, kind: Kind, es: seq<MapEvent>) {
    forall i | 0 <= i < |es| :: UnbindsLate(MapRun(k, kind, es[..i]), es[i])
  }

  lemma {:induction false} LateUnbindsCover(k: Kernel, kind: Kind, es: seq<MapEvent>, ns: Namespace,
                                            own: CgroupId -> Namespace)
    requires OwnedBy(k, own) && Covered(k, ns)
    requires (forall e | e in es :: ObeysOwner(e, own)) && LateUnbinds(k, kind, es)
    ensures StaysCovered(k, kind, es, ns)
  {
    hide MapStep, Covered, UnbindsLate, LeavesCover;
    CgroupsCoverNamespace(k, kind, es, ns, own);
    if es != [] {
      var prefix, e := es[..|es| - 1], es[|es| - 1];
      forall i | 0 <= i < |prefix| ensures UnbindsLate(MapRun(k, kind, prefix[..i]), prefix[i]) {
        assert es[..i] == prefix[..i];
      }
      LateUnbindsCover(k, kind, prefix, ns, own);
      CgroupsCoverNamespace(k, kind, prefix, ns, own);
      assert UnbindsLate(MapRun(k, kind, es[..|prefix|]), es[|prefix|]);
      LateLeavesCover(MapRun(k, kind, prefix), e, ns);
    }
  }

  lemma LateLeavesCover(k: Kernel, e: MapEvent, ns: Namespace)
    requires UnbindsLate(k, e)
    ensures LeavesCover(k, e, ns)
  {
  }

  predicate NoReslice(es: seq<MapEvent>, ns: Namespace) {
    forall e | e in es :: !(e.Reslice? && e.ns == ns)
  }

  /** The namespace's counter was deleted and no sync has reset it since; or it was
      not there and no sync has set it. */
  predicate DroppedForGood(there: bool, es: seq<MapEvent>, ns: Namespace) {
    || (exists j | 0 <= j < |es| :: es[j] == DropCounter(ns) && NoReslice(es[j + 1..], ns))
    || (!there && NoReslice(es, ns))
  }

  lemma CounterStep(k: Kernel, kind: Kind, e: MapEvent, ns: Namespace)
    ensures ns in MapStep(k, kind, e).nsCounter <==>
            (e.Reslice? && e.ns == ns) || (ns in k.nsCounter && e != DropCounter(ns))
  {
  }

  lemma DroppedStep(there: bool, es: seq<MapEvent>, e: MapEvent, ns: Namespace)
    ensures DroppedForGood(there, es + [e], ns) <==>
            !(e.Reslice? && e.ns == ns) && (e == DropCounter(ns) || DroppedForGood(there, es, ns))
  {
    var all := es + [e];
    forall j | 0 <= j < |es| && es[j] == DropCounter(ns)
      ensures NoReslice(all[j + 1..], ns) <==> NoReslice(es[j + 1..], ns) && !(e.Reslice? && e.ns == ns)
    {
      assert all[j + 1..] == es[j + 1..] + [e];
      assert e in all[j + 1..];
    }
    assert all[|es|] == e && all[|es| + 1..] == [];
    assert e in all;
    if DroppedForGood(there, es, ns) && !(e.Reslice? && e.ns == ns) {
      if j :| 0 <= j < |es| && es[j] == DropCounter(ns) && NoReslice(es[j + 1..], ns) {
        assert all[j] == DropCounter(ns);
      }
    }
  }

  lemma {:induction false} CounterIsGoneExactly(k: Kernel, kind: Kind, es: seq<MapEvent>, ns: Namespace)
    ensures ns !in MapRun(k, kind, es).nsCounter <==> DroppedForGood(ns in k.nsCounter, es, ns)
  {
    hide MapStep, DroppedForGood;
    if es == [] {
      NothingDropped(ns in k.nsCounter, ns);
    } else {
      var prefix, e := es[..|es| - 1], es[|es| - 1];
      CounterIsGoneExactly(k, kind, prefix, ns);
      CounterStep(MapRun(k, kind, prefix), kind, e, ns);
      assert es == prefix + [e];
      DroppedStep(ns in k.nsCounter, prefix, e, ns);
    }
  }

  lemma NothingDropped(there: bool, ns: Namespace)
    ensures DroppedForGood(there, [], ns) <==> !there
  {
  }

  /** Which interleavings unmap late: those in which no sync resets the namespace's
      counter between its deletion and the unmapping of a cgroup. */
  lemma LateUnbindsExactly(k: Kernel, kind: Kind, es: seq<MapEvent>, own: CgroupId -> Namespace)
    requires OwnedBy(k, own) && forall e | e in es :: ObeysOwner(e, own)
    ensures LateUnbinds(k, kind, es) <==>
            forall i | 0 <= i < |es| && es[i].Unbind? && es[i].cgid in MapRun(k, kind, es[..i]).cgroupNs ::
              DroppedForGood(own(es[i].cgid) in k.nsCounter, es[..i], own(es[i].cgid))
  {
    hide MapStep, MapRun, DroppedForGood;
    forall i | 0 <= i < |es| && es[i].Unbind? && es[i].cgid in MapRun(k, kind, es[..i]).cgroupNs
      ensures UnbindsLate(MapRun(k, kind, es[..i]), es[i]) <==>
              DroppedForGood(own(es[i].cgid) in k.nsCounter, es[..i], own(es[i].cgid))
    {
      RunIsOwned(k, kind, es[..i], own);
      CounterIsGoneExactly(k, kind, es[..i], own(es[i].cgid));
    }
  }

  lemma {:induction false} RunIsOwned(k: Kernel, kind: Kind, es: seq<MapEvent>, own: CgroupId -> Namespace)
    requires OwnedBy(k, own) && forall e | e in es :: ObeysOwner(e, own)
    ensures OwnedBy(MapRun(k, kind, es), own)
  {
    hide MapStep;
    if es != [] {
      RunIsOwned(k, kind, es[..|es| - 1], own);
      CountStep(MapRun(k, kind, es[..|es| - 1]), kind, es[|es| - 1], own);
    }
  }
}
