/** Two-level accounting over the runs of the syncer: when the counters of a
    namespace's cgroups add up to at least its count. */
module CoverRuns {

  import opened Basics
  import opened MapSum
  import opened QuotaLedger
  import opened Enforcer
  import opened EnforcerAccounts
  import opened Syncer
  import opened SyncerRuns

  /** The map operations of a removal, the cgroups taken in any order. */
  function Unbinds(ids: seq<CgroupId>): seq<MapEvent> {
    if ids == [] then [] else Unbinds(ids[..|ids| - 1]) + [Unbind(ids[|ids| - 1])]
  }

  function IdSet(ids: seq<CgroupId>): set<CgroupId> {
    set c | c in ids
  }

  function RemovalEvents(ns: Namespace, ids: seq<CgroupId>): seq<MapEvent> {
    [DropLimit(ns), DropCounter(ns)] + Unbinds(ids)
  }

  /** A removal is a run of map operations that unmaps cgroups only after their
      namespace's counter is gone, so the cgroup counters go on covering the count. */
  lemma {:induction false} RemovalUnbindsLate(k: Kernel, kind: Kind, ns: Namespace, ids: seq<CgroupId>,
                                              own: CgroupId -> Namespace)
    requires OwnedBy(k, own) && forall c | c in ids :: own(c) == ns
    ensures MapRun(k, kind, RemovalEvents(ns, ids)) == Purged(k, ns, IdSet(ids))
    ensures LateUnbinds(k, kind, RemovalEvents(ns, ids))
  {
    hide MapStep, Purged, UnbindsLate;
    var es := RemovalEvents(ns, ids);
    if ids == [] {
      FirstRemovals(k, kind, ns);
      assert IdSet(ids) == {};
      assert es == [DropLimit(ns), DropCounter(ns)];
    } else {
      var init, last := ids[..|ids| - 1], ids[|ids| - 1];
      var before := RemovalEvents(ns, init);
      assert es == before + [Unbind(last)] && es[..|before|] == before;
      RemovalUnbindsLate(k, kind, ns, init, own);
      OneMorePurged(k, kind, ns, IdSet(init), last);
      assert IdSet(ids) == IdSet(init) + {last};
      PurgedUnbindsLate(k, ns, IdSet(init), last, own);
      forall i | 0 <= i < |es| ensures UnbindsLate(MapRun(k, kind, es[..i]), es[i]) {
        if i < |before| {
          assert es[..i] == before[..i] && UnbindsLate(MapRun(k, kind, before[..i]), before[i]);
        }
      }
    }
  }

  lemma FirstRemovals(k: Kernel, kind: Kind, ns: Namespace)
    ensures var es := [DropLimit(ns), DropCounter(ns)];
            MapRun(k, kind, es) == Purged(k, ns, {}) && LateUnbinds(k, kind, es)
  {
    hide MapStep;
    var es := [DropLimit(ns), DropCounter(ns)];
    assert es[..1] == [DropLimit(ns)] && es[..1][..0] == [];
    assert MapRun(k, kind, es[..1]) == MapStep(MapRun(k, kind, []), kind, DropLimit(ns));
    OneMorePurged(k, kind, ns, {}, 0);
  }

  lemma PurgedUnbindsLate(k: Kernel, ns: Namespace, ids: set<CgroupId>, c: CgroupId, own: CgroupId -> Namespace)
    requires OwnedBy(k, own) && own(c) == ns
    ensures UnbindsLate(Purged(k, ns, ids), Unbind(c))
  {
  }

  /** A sync that comes in the middle of a removal: the removal deletes the limit and
      the counter without the lock, the sync sets both again and maps its cgroup, an
      install is counted, and then the removal, which has got the lock, unmaps
      whatever is tracked. A count is left that no cgroup covers. */
  lemma SyncInsideRemoval(k: Kernel, kind: Kind, ns: Namespace, limit: int64, c: CgroupId, now: nat)
    requires 0 < limit && forall d | k.Bound(d, ns) :: d == c
    ensures var es := [DropLimit(ns), DropCounter(ns)] + SyncEvents(ns, limit, [CgroupInfo(c, "")])
                      + [Install(c, now)] + Unbinds([c]);
            var t := MapRun(k, kind, es);
            && ns in t.nsCounter && t.nsCounter[ns].count == 1
            && CountsOf(t, ns) == map[] && !Covered(t, ns)
  {
    hide MapRun, MapStep, SyncEvents, Unbinds, CountsOf, Kernel.Bound;
    var drops, infos := [DropLimit(ns), DropCounter(ns)], [CgroupInfo(c, "")];
    var k1 := MapRun(k, kind, drops);
    FirstRemovals(k, kind, ns);
    var k2 := MapRun(k1, kind, SyncEvents(ns, limit, infos));
    MapRunConcat(k, kind, drops, SyncEvents(ns, limit, infos));
    SyncMaps(k1, kind, ns, limit, infos);
    OnlyCgroup(k, k1, k2, infos, ns, c);
    OneRun(k2, kind, Install(c, now));
    MapRunConcat(k, kind, drops + SyncEvents(ns, limit, infos), [Install(c, now)]);
    var k3 := MapStep(k2, kind, Install(c, now));
    FreshInstall(k1, k2, kind, ns, limit, c, now);
    OneUnbind(c);
    OneRun(k3, kind, Unbind(c));
    LastUnbind(k3, kind, c, ns);
    MapRunConcat(k, kind, drops + SyncEvents(ns, limit, infos) + [Install(c, now)], Unbinds([c]));
  }

  lemma OnlyCgroup(k: Kernel, k1: Kernel, k2: Kernel, infos: seq<CgroupInfo>, ns: Namespace, c: CgroupId)
    requires infos == [CgroupInfo(c, "")] && k1 == Purged(k, ns, {}) && forall d | k.Bound(d, ns) :: d == c
    requires k2.cgroupNs.Keys == k1.cgroupNs.Keys + Ids(infos)
    requires forall d | d in k2.cgroupNs :: k2.cgroupNs[d] == if d in Ids(infos) then ns else k1.cgroupNs[d]
    ensures k2.Bound(c, ns) && forall d | k2.Bound(d, ns) :: d == c
  {
    assert infos[0] in infos;
    forall d | k2.Bound(d, ns) ensures d == c {
      if d !in Ids(infos) { assert k.Bound(d, ns); }
    }
  }

  lemma LastUnbind(k: Kernel, kind: Kind, c: CgroupId, ns: Namespace)
    requires forall d | k.Bound(d, ns) :: d == c
    ensures var t := MapStep(k, kind, Unbind(c));
            t.nsCounter == k.nsCounter && CountsOf(t, ns) == map[] && Sum<CgroupId>(CountsOf(t, ns)) == 0
  {
    var t := MapStep(k, kind, Unbind(c));
    forall d ensures d !in CountsOf(t, ns) {
      if d in t.cgroupNs && t.cgroupNs[d] == ns { assert k.Bound(d, ns); }
    }
  }

  lemma OneRun(k: Kernel, kind: Kind, e: MapEvent)
    ensures MapRun(k, kind, [e]) == MapStep(k, kind, e)
  {
    hide MapStep;
    assert [e][..0] == [];
  }

  lemma OneUnbind(c: CgroupId)
    ensures Unbinds([c]) == [Unbind(c)]
  {
    assert [c][..0] == [];
  }

  /** The first install after a sync of a namespace that had no counter. */
  lemma FreshInstall(k: Kernel, k': Kernel, kind: Kind, ns: Namespace, limit: int64, c: CgroupId, now: nat)
    requires 0 < limit && ns !in k.nsCounter
    requires k'.nsLimit == k.nsLimit[ns := ToU64(limit)] && k'.nsCounter == MapStep(k, kind, Reslice(ns, limit)).nsCounter
    requires k'.Bound(c, ns)
    ensures var t := MapStep(k', kind, Install(c, now));
            ns in t.nsCounter && t.nsCounter[ns].count == 1
            && forall d :: t.Bound(d, ns) <==> k'.Bound(d, ns)
  {
  }

  /** In the tables of the syncer, for both kinds, the cgroup counters of every
      namespace cover its count. */
  ghost predicate AllCovered(t: Tables) {
    forall ns: Namespace :: Covered(t.fd, ns) && Covered(t.proc, ns)
  }

  predicate MapsOnly(e: MapEvent) {
    e.Bind?
  }

  lemma {:induction false} BindsMapOnly(infos: seq<CgroupInfo>, ns: Namespace, own: CgroupId -> Namespace)
    requires Owned(infos, ns, own)
    ensures forall e | e in Binds(infos, ns) :: MapsOnly(e) && ObeysOwner(e, own)
  {
    if infos != [] {
      assert forall i | i in infos[..|infos| - 1] :: i in infos;
      BindsMapOnly(infos[..|infos| - 1], ns, own);
      assert infos[|infos| - 1] in infos;
    }
  }

  lemma {:induction false} MappingKeepsCover(k: Kernel, kind: Kind, es: seq<MapEvent>, ns: Namespace,
                                             own: CgroupId -> Namespace)
    requires OwnedBy(k, own) && Covered(k, ns) && forall e | e in es :: MapsOnly(e) && ObeysOwner(e, own)
    ensures Covered(MapRun(k, kind, es), ns)
  {
    hide MapStep, Covered, OwnedBy;
    if es != [] {
      var prefix, e := es[..|es| - 1], es[|es| - 1];
      MappingKeepsCover(k, kind, prefix, ns, own);
      RunIsOwned(k, kind, prefix, own);
      CoverageStep(MapRun(k, kind, prefix), kind, e, ns, own);
    }
  }

  lemma TrackKeepsCover(t: Tables, kind: Kind, ns: Namespace, pods: seq<Pod>, other: Namespace,
                        own: CgroupId -> Namespace)
    requires Agree(t, own) && WellOwned(Track(kind, ns, pods), own) && Covered(t.Maps(kind), other)
    ensures Covered(Tracked(t, kind, ns, pods).Maps(kind), other)
  {
    hide MapRun, Binds, Covered, OwnedBy, LiveCgroups, WithPaths;
    BindsMapOnly(LiveCgroups(pods), ns, own);
    MappingKeepsCover(t.Maps(kind), kind, Binds(LiveCgroups(pods), ns), other, own);
  }

  lemma TrackCovers(t: Tables, kind: Kind, ns: Namespace, pods: seq<Pod>, own: CgroupId -> Namespace)
    requires Agree(t, own) && WellOwned(Track(kind, ns, pods), own) && AllCovered(t)
    ensures AllCovered(Tracked(t, kind, ns, pods))
  {
    hide MapRun, Binds, Covered, LiveCgroups, WithPaths, WellOwned, Agree;
    var t' := Tracked(t, kind, ns, pods);
    forall other: Namespace ensures Covered(t'.fd, other) && Covered(t'.proc, other) {
      TrackKeepsCover(t, kind, ns, pods, other, own);
    }
  }

  lemma {:induction false} ScanKeepsCover(t: Tables, ns: Namespace, known: set<CgroupId>, infos: seq<CgroupInfo>,
                                          own: CgroupId -> Namespace)
    requires Agree(t, own) && Owned(infos, ns, own) && ns in t.nsCgroups && AllCovered(t)
    ensures AllCovered(Scanned(t, ns, known, infos))
  {
    hide Agree, Scanned, Ids, MapStep, Covered;
    if infos == [] {
      NothingScanned(t, ns, known, infos);
      assert infos[..0] == infos;
    } else {
      var n := |infos| - 1;
      var init, last := infos[..n], infos[n];
      assert infos == infos[..n + 1] && last in infos;
      ScanKeepsCover(t, ns, known, init, own);
      ScanAgrees(t, ns, known, init, own);
      ScannedStep(t, ns, known, infos, n);
      var before := Scanned(t, ns, known, init);
      AgreedIsOwned(before, own);
      forall other: Namespace
        ensures Covered(MapStep(before.fd, FD, Bind(last.id, ns)), other)
                && Covered(MapStep(before.proc, Proc, Bind(last.id, ns)), other)
      {
        CoverageStep(before.fd, FD, Bind(last.id, ns), other, own);
        CoverageStep(before.proc, Proc, Bind(last.id, ns), other, own);
      }
    }
  }

  lemma AgreedIsOwned(t: Tables, own: CgroupId -> Namespace)
    requires Agree(t, own)
    ensures OwnedBy(t.fd, own) && OwnedBy(t.proc, own)
  {
  }

  /** The counters of the namespace's cgroups that are not among the given ones. */
  function CountsBut(k: Kernel, ns: Namespace, ids: set<CgroupId>): map<CgroupId, int> {
    map c | c in k.cgroupNs && k.cgroupNs[c] == ns && c !in ids :: k.Count(c)
  }

  /** For neither kind does the namespace have a counter that its cgroups which are not
      tracked do not cover. */
  ghost predicate ForgetLeavesCover(t: Tables, ns: Namespace) {
    forall kind: Kind | ns in t.Maps(kind).nsCounter ::
      t.Maps(kind).nsCounter[ns].count <= Sum<CgroupId>(CountsBut(t.Maps(kind), ns, TrackedIds(t, ns)))
  }

  lemma UnmappedCounts(k: Kernel, ids: set<CgroupId>, ns: Namespace, other: Namespace, own: CgroupId -> Namespace)
    requires OwnedBy(k, own) && forall c | c in ids :: own(c) == ns
    ensures CountsOf(Unmapped(k, ids), ns) == CountsBut(k, ns, ids)
    ensures other != ns ==> CountsOf(Unmapped(k, ids), other) == CountsOf(k, other)
  {
  }

  lemma TrackedAreOwned(t: Tables, ns: Namespace, own: CgroupId -> Namespace)
    requires Agree(t, own)
    ensures forall c | c in TrackedIds(t, ns) :: own(c) == ns
  {
    forall c | c in TrackedIds(t, ns) ensures own(c) == ns {
      assert t.fd.Bound(c, ns) || t.proc.Bound(c, ns);
    }
  }

  lemma ForgetCovers(t: Tables, ns: Namespace, own: CgroupId -> Namespace)
    requires Agree(t, own) && AllCovered(t)
    ensures AllCovered(Forgotten(t, ns)) <==> ForgetLeavesCover(t, ns)
  {
    hide CountsOf, CountsBut, Agree;
    var t', ids := Forgotten(t, ns), TrackedIds(t, ns);
    AgreedIsOwned(t, own);
    TrackedAreOwned(t, ns, own);
    forall other: Namespace ensures other != ns ==> Covered(t'.fd, other) && Covered(t'.proc, other) {
      UnmappedCounts(t.fd, ids, ns, other, own);
      UnmappedCounts(t.proc, ids, ns, other, own);
      assert Covered(t.fd, other) && Covered(t.proc, other);
    }
    UnmappedCounts(t.fd, ids, ns, ns, own);
    UnmappedCounts(t.proc, ids, ns, ns, own);
    assert Covered(t'.fd, ns) && Covered(t'.proc, ns) <==> ForgetLeavesCover(t, ns) by {
      assert t.Maps(FD) == t.fd && t.Maps(Proc) == t.proc;
    }
  }

  lemma OutsideCovers(t: Tables, kind: Kind, event: MapEvent, own: CgroupId -> Namespace)
    requires Agree(t, own) && AllCovered(t)
    ensures AllCovered(TableStep(t, Outside(kind, event)))
  {
    hide MapStep, Covered, Agree;
    AgreedIsOwned(t, own);
    if !event.Bind? && !event.Unbind? {
      forall other: Namespace ensures Covered(MapStep(t.Maps(kind), kind, event), other) {
        CoverageStep(t.Maps(kind), kind, event, other, own);
      }
    }
  }

  /** What can be seen before a step: the locked part of a removal does not take
      cgroups whose counters a count still needs. */
  ghost predicate LeavesAllCovered(t: Tables, e: TableEvent) {
    e.Forget? ==> ForgetLeavesCover(t, e.ns)
  }

  lemma StepKeepsCover(t: Tables, e: TableEvent, own: CgroupId -> Namespace)
    requires Agree(t, own) && WellOwned(e, own) && AllCovered(t)
    ensures AllCovered(TableStep(t, e)) <==> LeavesAllCovered(t, e)
  {
    hide Covered, Scanned, LiveCgroups, MapRun, WithPaths, MapStep, Agree, ForgetLeavesCover, WellOwned;
    match e
    case Outside(kind, event) => OutsideCovers(t, kind, event, own);
    case Scan(ns, known, infos) => if ns in t.nsCgroups { ScanCovers(t, ns, known, infos, own); }
    case Track(kind, ns, pods) =>
      TrackCovers(t, kind, ns, pods, own);
    case Forget(ns) => ForgetCovers(t, ns, own);
  }

  lemma ScanCovers(t: Tables, ns: Namespace, known: set<CgroupId>, infos: seq<CgroupInfo>, own: CgroupId -> Namespace)
    requires Agree(t, own) && WellOwned(Scan(ns, known, infos), own) && ns in t.nsCgroups && AllCovered(t)
    ensures AllCovered(Scanned(t, ns, known, infos))
  {
    ScanKeepsCover(t, ns, known, infos, own);
  }

  ghost predicate StaysAllCovered(t: Tables, es: seq<TableEvent>) {
    (es == [] || StaysAllCovered(t, es[..|es| - 1])) && AllCovered(TableRun(t, es))
  }

  ghost predicate AllLeaveAllCovered(t: Tables, es: seq<TableEvent>) {
    es == [] ||
    (AllLeaveAllCovered(t, es[..|es| - 1]) && LeavesAllCovered(TableRun(t, es[..|es| - 1]), es[|es| - 1]))
  }

  /** Two-level accounting for the syncer, however its operations interleave: for both
      kinds and every namespace the counters of its cgroups add up to at least its
      count at all times, in exactly those runs in which no removal takes cgroups
      whose counters a count still needs. */
  lemma {:induction false} TablesAreCovered(t: Tables, es: seq<TableEvent>, own: CgroupId -> Namespace)
    requires Agree(t, own) && AllCovered(t) && forall e | e in es :: WellOwned(e, own)
    ensures StaysAllCovered(t, es) <==> AllLeaveAllCovered(t, es)
  {
    hide TableStep, Agree, AllCovered, LeavesAllCovered, WellOwned;
    if es != [] {
      var prefix, e := es[..|es| - 1], es[|es| - 1];
      TablesAreCovered(t, prefix, own);
      TablesAgree(t, prefix, own);
      if StaysAllCovered(t, prefix) {
        assert e in es;
        StepKeepsCover(TableRun(t, prefix), e, own);
      }
    }
  }

  /** A sync has handed out a slice for the namespace, and no removal has deleted its
      counter since. */
  predicate Counting(es: seq<TableEvent>, kind: Kind, ns: Namespace) {
    if es == [] then false else
    var last := es[|es| - 1];
    || (last.Outside? && last.kind == kind && last.event.Reslice? && last.event.ns == ns)
    || (last != Outside(kind, DropCounter(ns)) && Counting(es[..|es| - 1], kind, ns))
  }

  /** No sync of a namespace comes between the two parts of its removal. */
  predicate Uninterrupted(es: seq<TableEvent>) {
    es == [] ||
    (Uninterrupted(es[..|es| - 1])
     && (es[|es| - 1].Forget? ==>
           !Counting(es[..|es| - 1], FD, es[|es| - 1].ns) && !Counting(es[..|es| - 1], Proc, es[|es| - 1].ns)))
  }

  lemma CountersStep(t: Tables, e: TableEvent, kind: Kind, ns: Namespace)
    ensures ns in TableStep(t, e).Maps(kind).nsCounter <==>
            || (e.Outside? && e.kind == kind && e.event.Reslice? && e.event.ns == ns)
            || (ns in t.Maps(kind).nsCounter && e != Outside(kind, DropCounter(ns)))
  {
    hide MapRun, MapStep, WithPaths, LiveCgroups, Scanned;
    match e
    case Outside(k, event) => CounterStep(t.Maps(k), k, event, ns);
    case Track(k, n, pods) => BindsMap(t.Maps(k), k, LiveCgroups(pods), n);
    case Scan(n, known, infos) => if n in t.nsCgroups { ScanTakesEffect(t, n, known, infos, 0); }
    case Forget(_) =>
  }

  lemma {:induction false} CountersExactly(es: seq<TableEvent>, kind: Kind, ns: Namespace)
    ensures ns in TableRun(EMPTY, es).Maps(kind).nsCounter <==> Counting(es, kind, ns)
  {
    hide TableStep;
    if es != [] {
      CountersExactly(es[..|es| - 1], kind, ns);
      CountersStep(TableRun(EMPTY, es[..|es| - 1]), es[|es| - 1], kind, ns);
    }
  }

  /** So it is in every run from the start of the syncer in which no sync comes between
      the two parts of a removal. */
  lemma {:induction false} RunsFromStartAreCovered(es: seq<TableEvent>, own: CgroupId -> Namespace)
    requires (forall e | e in es :: WellOwned(e, own)) && Uninterrupted(es)
    ensures StaysAllCovered(EMPTY, es) && AllLeaveAllCovered(EMPTY, es)
  {
    hide TableStep, Agree, AllCovered, WellOwned;
    assert Agree(EMPTY, own) && AllCovered(EMPTY) by { EmptyIsCovered(own); }
    if es != [] {
      var prefix, e := es[..|es| - 1], es[|es| - 1];
      RunsFromStartAreCovered(prefix, own);
      if e.Forget? {
        CountersExactly(prefix, FD, e.ns);
        CountersExactly(prefix, Proc, e.ns);
      }
    }
    TablesAreCovered(EMPTY, es, own);
  }

  lemma EmptyIsCovered(own: CgroupId -> Namespace)
    ensures Agree(EMPTY, own) && AllCovered(EMPTY)
  {
  }
}
