/** What the syncer's tables and the kernel maps keep together, over whole runs of
    syncs, scans, removals and hooks that interleave. */
module SyncerRuns {

  import opened Basics
  import opened QuotaLedger
  import opened Enforcer
  import opened EnforcerAccounts
  import opened Syncer

  /** Single steps: a hook, or one map operation that a sync or a removal makes without
      the lock; and the three sections that hold the lock. */
  datatype TableEvent =
    | Outside(kind: Kind, event: MapEvent)
    | Track(kind: Kind, ns: Namespace, pods: seq<Pod>)
    | Scan(ns: Namespace, known: set<CgroupId>, infos: seq<CgroupInfo>)
    | Forget(ns: Namespace)

  function TableStep(t: Tables, e: TableEvent): Tables {
    match e
    case Outside(kind, event) =>
      if event.Bind? || event.Unbind? then t else t.WithMaps(kind, MapStep(t.Maps(kind), kind, event))
    case Track(kind, ns, pods) => Tracked(t, kind, ns, pods)
    case Scan(ns, known, infos) => if ns in t.nsCgroups then Scanned(t, ns, known, infos) else t
    case Forget(ns) => Forgotten(t, ns)
  }

  function TableRun(t: Tables, es: seq<TableEvent>): Tables {
    if es == [] then t else TableStep(TableRun(t, es[..|es| - 1]), es[|es| - 1])
  }

  lemma {:induction false} TableRunConcat(t: Tables, es: seq<TableEvent>, fs: seq<TableEvent>)
    ensures TableRun(t, es + fs) == TableRun(TableRun(t, es), fs)
  {
    hide TableStep;
    if fs == [] {
      assert es + fs == es;
    } else {
      assert (es + fs)[..|es + fs| - 1] == es + fs[..|fs| - 1];
      TableRunConcat(t, es, fs[..|fs| - 1]);
    }
  }

  lemma OneTableStep(t: Tables, e: TableEvent)
    ensures TableRun(t, [e]) == TableStep(t, e)
  {
    hide TableStep;
    assert [e][..0] == [];
  }

  /** The steps of a sync; one whose listing fails ends after the first two. */
  function SyncSteps(kind: Kind, ns: Namespace, limit: int64, pods: Option<seq<Pod>>): seq<TableEvent> {
    [Outside(kind, SetLimit(ns, limit))] + [Outside(kind, Reslice(ns, limit))]
      + (if pods.Some? then [Track(kind, ns, pods.value)] else [])
  }

  /** The part of a removal that follows its releases and does not hold the lock. */
  function DropSteps(ns: Namespace): seq<TableEvent> {
    [Outside(FD, DropLimit(ns))] + [Outside(FD, DropCounter(ns))]
      + [Outside(Proc, DropLimit(ns))] + [Outside(Proc, DropCounter(ns))]
  }

  function RemovalSteps(ns: Namespace): seq<TableEvent> {
    DropSteps(ns) + [Forget(ns)]
  }

  /** Uninterrupted, the steps of a sync are the sync. */
  lemma SyncIsItsSteps(t: Tables, kind: Kind, ns: Namespace, limit: int64, pods: Option<seq<Pod>>)
    ensures TableRun(t, SyncSteps(kind, ns, limit, pods)) == Synced(t, kind, ns, limit, pods)
  {
    hide TableStep, TableRun, MapRun, MapStep, Binds, SyncEvents, LiveCgroups, WithPaths, Ids;
    var e1, e2 := Outside(kind, SetLimit(ns, limit)), Outside(kind, Reslice(ns, limit));
    OneTableStep(t, e1);
    var t1 := TableStep(t, e1);
    TableRunConcat(t, [e1], [e2]);
    OneTableStep(t1, e2);
    var t2 := TableStep(t1, e2);
    var k := t.Maps(kind);
    StepOutside(t, kind, SetLimit(ns, limit));
    StepOutside(t1, kind, Reslice(ns, limit));
    SyncStart(k, kind, ns, limit);
    if pods.Some? {
      TableRunConcat(t, [e1] + [e2], [Track(kind, ns, pods.value)]);
      OneTableStep(t2, Track(kind, ns, pods.value));
      StepTrack(t2, kind, ns, pods.value);
      SyncRuns(k, kind, ns, limit, LiveCgroups(pods.value));
    } else {
      assert [e1] + [e2] + [] == [e1] + [e2];
    }
  }

  lemma StepOutside(t: Tables, kind: Kind, event: MapEvent)
    requires !event.Bind? && !event.Unbind?
    ensures TableStep(t, Outside(kind, event)) == t.WithMaps(kind, MapStep(t.Maps(kind), kind, event))
  {
    hide MapStep;
  }

  lemma StepTrack(t: Tables, kind: Kind, ns: Namespace, pods: seq<Pod>)
    ensures TableStep(t, Track(kind, ns, pods)) == Tracked(t, kind, ns, pods)
  {
    hide MapRun, LiveCgroups, WithPaths;
  }

  lemma Drops(t: Tables, ns: Namespace)
    ensures TableRun(t, DropSteps(ns)) == t.(fd := Purged(t.fd, ns, {}), proc := Purged(t.proc, ns, {}))
  {
    hide TableRun;
    var e1, e2 := Outside(FD, DropLimit(ns)), Outside(FD, DropCounter(ns));
    var e3, e4 := Outside(Proc, DropLimit(ns)), Outside(Proc, DropCounter(ns));
    OneTableStep(t, e1);
    var t1 := TableStep(t, e1);
    TableRunConcat(t, [e1], [e2]);
    OneTableStep(t1, e2);
    var t2 := TableStep(t1, e2);
    TableRunConcat(t, [e1] + [e2], [e3]);
    OneTableStep(t2, e3);
    var t3 := TableStep(t2, e3);
    TableRunConcat(t, [e1] + [e2] + [e3], [e4]);
    OneTableStep(t3, e4);
    OneMorePurged(t.fd, FD, ns, {}, 0);
    OneMorePurged(t.proc, Proc, ns, {}, 0);
  }

  /** Uninterrupted, the steps of a removal are the removal. */
  lemma RemovalIsItsSteps(t: Tables, ns: Namespace)
    ensures TableRun(t, RemovalSteps(ns)) == Removed(t, ns)
  {
    hide TableRun, DropSteps;
    Drops(t, ns);
    TableRunConcat(t, DropSteps(ns), [Forget(ns)]);
    OneTableStep(TableRun(t, DropSteps(ns)), Forget(ns));
  }

  /** Mapping or unmapping one cgroup. */
  function Remapped(k: Kernel, mapping: MapEvent): Kernel
    requires mapping.Bind? || mapping.Unbind?
  {
    if mapping.Bind? then k.(cgroupNs := k.cgroupNs[mapping.cgid := mapping.ns]) else Unmapped(k, {mapping.cgid})
  }

  lemma InstallCommutes(k: Kernel, kind: Kind, cgid: CgroupId, now: nat, mapping: MapEvent)
    requires (mapping.Bind? || mapping.Unbind?) && mapping.cgid != cgid
    ensures Remapped(OnInstall(k, kind, cgid, now).0, mapping) == OnInstall(Remapped(k, mapping), kind, cgid, now).0
    ensures OnInstall(k, kind, cgid, now).1 == OnInstall(Remapped(k, mapping), kind, cgid, now).1
  {
    hide Attempt, Noted;
    var m := Remapped(k, mapping);
    assert m.Count(cgid) == k.Count(cgid) && (cgid in m.cgroupNs <==> cgid in k.cgroupNs);
    assert cgid in k.cgroupNs ==> m.cgroupNs[cgid] == k.cgroupNs[cgid];
    if mapping.Unbind? {
      var c := k.cgroupCount;
      assert c[cgid := k.Count(cgid) + 1] - {mapping.cgid} == (c - {mapping.cgid})[cgid := k.Count(cgid) + 1];
    }
  }

  lemma CloseCommutes(k: Kernel, cgid: CgroupId, now: nat, mapping: MapEvent)
    requires (mapping.Bind? || mapping.Unbind?) && mapping.cgid != cgid
    ensures Remapped(OnClose(k, cgid, now), mapping) == OnClose(Remapped(k, mapping), cgid, now)
  {
    var m := Remapped(k, mapping);
    assert m.Count(cgid) == k.Count(cgid) && (cgid in m.cgroupNs <==> cgid in k.cgroupNs);
    assert cgid in k.cgroupNs ==> m.cgroupNs[cgid] == k.cgroupNs[cgid];
    if mapping.Unbind? && k.Count(cgid) > 0 {
      var c := k.cgroupCount;
      assert c[cgid := k.Count(cgid) - 1] - {mapping.cgid} == (c - {mapping.cgid})[cgid := k.Count(cgid) - 1];
    }
  }

  /** A hook that runs while the lock is held may be taken before or after the section:
      mapping or unmapping another cgroup commutes with it, and its verdict is the
      same on both sides. */
  lemma HooksCommuteWithMapping(k: Kernel, kind: Kind, hook: MapEvent, mapping: MapEvent)
    requires hook.Install? || hook.Close?
    requires (mapping.Bind? || mapping.Unbind?) && mapping.cgid != hook.cgid
    ensures MapStep(MapStep(k, kind, hook), kind, mapping) == MapStep(MapStep(k, kind, mapping), kind, hook)
    ensures hook.Install? ==> OnInstall(k, kind, hook.cgid, hook.now).1
                              == OnInstall(MapStep(k, kind, mapping), kind, hook.cgid, hook.now).1
  {
    hide OnInstall, OnClose;
    if hook.Install? {
      InstallCommutes(k, kind, hook.cgid, hook.now, mapping);
    } else {
      CloseCommutes(k, hook.cgid, hook.now, mapping);
    }
  }

  /** The tables and maps when the syncer starts. */
  const EMPTY: Tables := Tables(Kernel(map[], map[], map[], map[]), Kernel(map[], map[], map[], map[]), map[], map[], {})

  /** The cgroups are those of the namespace, and their ids are not 0. */
  predicate Owned(infos: seq<CgroupInfo>, ns: Namespace, own: CgroupId -> Namespace) {
    forall i | i in infos :: own(i.id) == ns && i.id != 0
  }

  /** Each cgroup belongs to one namespace, and pods and scans report it there. */
  predicate WellOwned(e: TableEvent, own: CgroupId -> Namespace) {
    match e
    case Track(_, ns, pods) => Owned(LiveCgroups(pods), ns, own)
    case Scan(ns, _, infos) => Owned(infos, ns, own)
    case _ => true
  }

  /** Every tracked cgroup is mapped to the namespace that tracks it. */
  predicate TrackedBound(t: Tables) {
    forall ns, c | ns in t.nsCgroups && c in t.nsCgroups[ns] :: t.fd.Bound(c, ns) || t.proc.Bound(c, ns)
  }

  /** A cgroup has a path exactly when the kernel maps it, for either kind; mapped
      cgroups map to their owner, and tracked ones are mapped. */
  predicate Agree(t: Tables, own: CgroupId -> Namespace) {
    && OwnedBy(t.fd, own) && OwnedBy(t.proc, own)
    && 0 !in t.cgroupPaths
    && t.cgroupPaths.Keys == t.fd.cgroupNs.Keys + t.proc.cgroupNs.Keys
    && TrackedBound(t)
  }

  /** What a run of bindings does to the maps of one kind. */
  lemma {:induction false} BindsMap(k: Kernel, kind: Kind, infos: seq<CgroupInfo>, ns: Namespace)
    ensures var k' := MapRun(k, kind, Binds(infos, ns));
            && k' == k.(cgroupNs := k'.cgroupNs)
            && k'.cgroupNs.Keys == k.cgroupNs.Keys + Ids(infos)
            && (forall c | c in k'.cgroupNs :: k'.cgroupNs[c] == if c in Ids(infos) then ns else k.cgroupNs[c])
  {
    hide MapStep, MapRun, Binds, Ids;
    if infos == [] {
      NothingMapped(k, kind, ns, map[]);
    } else {
      var init, last := infos[..|infos| - 1], infos[|infos| - 1];
      assert infos == init + [last];
      BindsMap(k, kind, init, ns);
      OneMoreCgroup(k, kind, ns, map[], init, last);
      BindStep(MapRun(k, kind, Binds(init, ns)), kind, last.id, ns);
    }
  }

  lemma BindStep(k: Kernel, kind: Kind, c: CgroupId, ns: Namespace)
    ensures MapStep(k, kind, Bind(c, ns)) == k.(cgroupNs := k.cgroupNs[c := ns])
  {
  }

  lemma {:induction false} PathsOf(paths: map<CgroupId, string>, infos: seq<CgroupInfo>)
    ensures WithPaths(paths, infos).Keys == paths.Keys + Ids(infos)
  {
    if infos != [] {
      var init, last := infos[..|infos| - 1], infos[|infos| - 1];
      assert infos == init + [last];
      PathsOf(paths, init);
      OneMoreCgroup(Kernel(map[], map[], map[], map[]), FD, "", paths, init, last);
    }
  }

  /** The maps of one kind after a sync: the limit and the slice of the one
      namespace are set, its cgroups are mapped, and nothing else changes. */
  lemma SyncMaps(k: Kernel, kind: Kind, ns: Namespace, limit: int64, infos: seq<CgroupInfo>)
    ensures var k' := MapRun(k, kind, SyncEvents(ns, limit, infos));
            && k'.nsLimit == k.nsLimit[ns := ToU64(limit)]
            && k'.nsCounter == MapStep(k, kind, Reslice(ns, limit)).nsCounter
            && k'.cgroupCount == k.cgroupCount
            && k'.cgroupNs.Keys == k.cgroupNs.Keys + Ids(infos)
            && (forall c | c in k'.cgroupNs :: k'.cgroupNs[c] == if c in Ids(infos) then ns else k.cgroupNs[c])
  {
    SyncRuns(k, kind, ns, limit, infos);
    SyncStart(k, kind, ns, limit);
    BindsMap(MapRun(k, kind, SyncEvents(ns, limit, [])), kind, infos, ns);
  }

  /** The second maps are the first with these cgroups mapped to the namespace. */
  predicate Extends(k: Kernel, k': Kernel, ids: set<CgroupId>, ns: Namespace) {
    && k'.cgroupNs.Keys == k.cgroupNs.Keys + ids
    && (forall c | c in k'.cgroupNs :: k'.cgroupNs[c] == if c in ids then ns else k.cgroupNs[c])
  }

  lemma ExtendsKeeps(k: Kernel, k': Kernel, ids: set<CgroupId>, ns: Namespace, own: CgroupId -> Namespace)
    requires Extends(k, k', ids, ns) && OwnedBy(k, own) && forall c | c in ids :: own(c) == ns
    ensures OwnedBy(k', own) && k'.cgroupNs.Keys == k.cgroupNs.Keys + ids
    ensures forall c, n | k.Bound(c, n) :: k'.Bound(c, n)
    ensures forall c | c in ids :: k'.Bound(c, ns)
  {
  }

  lemma BindExtends(k: Kernel, kind: Kind, c: CgroupId, ns: Namespace)
    ensures var k' := MapStep(k, kind, Bind(c, ns)); Extends(k, k', {c}, ns) && k'.nsCounter == k.nsCounter
  {
  }

  /** Mapping a namespace's own cgroups, for one kind or both, and noting their
      paths keeps the tables in agreement. */
  lemma MappingAgrees(t: Tables, t': Tables, ns: Namespace, ids: set<CgroupId>, kind: Kind, own: CgroupId -> Namespace)
    requires Agree(t, own) && forall c | c in ids :: own(c) == ns && c != 0
    requires Extends(t.Maps(kind), t'.Maps(kind), ids, ns)
    requires var o := if kind.FD? then Proc else FD;
             t'.Maps(o).cgroupNs == t.Maps(o).cgroupNs || Extends(t.Maps(o), t'.Maps(o), ids, ns)
    requires t'.cgroupPaths.Keys == t.cgroupPaths.Keys + ids
    requires forall n | n in t'.nsCgroups && n != ns :: n in t.nsCgroups && t'.nsCgroups[n] == t.nsCgroups[n]
    requires ns in t'.nsCgroups ==> t'.nsCgroups[ns] <= ids + (if ns in t.nsCgroups then t.nsCgroups[ns] else {})
    ensures Agree(t', own)
  {
    hide Extends, OwnedBy, TrackedBound, Kernel.Bound;
    MapsKeep(t.fd, t'.fd, ids, ns, own);
    MapsKeep(t.proc, t'.proc, ids, ns, own);
    if kind.FD? {
      ExtendsKeeps(t.fd, t'.fd, ids, ns, own);
    } else {
      ExtendsKeeps(t.proc, t'.proc, ids, ns, own);
    }
    TrackedStayBound(t, t', ns, ids, kind);
  }

  lemma MapsKeep(k: Kernel, k': Kernel, ids: set<CgroupId>, ns: Namespace, own: CgroupId -> Namespace)
    requires k'.cgroupNs == k.cgroupNs || Extends(k, k', ids, ns)
    requires OwnedBy(k, own) && forall c | c in ids :: own(c) == ns
    ensures OwnedBy(k', own) && k.cgroupNs.Keys <= k'.cgroupNs.Keys <= k.cgroupNs.Keys + ids
    ensures forall c, n | k.Bound(c, n) :: k'.Bound(c, n)
  {
  }

  lemma TrackedStayBound(t: Tables, t': Tables, ns: Namespace, ids: set<CgroupId>, kind: Kind)
    requires TrackedBound(t)
    requires forall c, n | t.fd.Bound(c, n) :: t'.fd.Bound(c, n)
    requires forall c, n | t.proc.Bound(c, n) :: t'.proc.Bound(c, n)
    requires forall c | c in ids :: t'.Maps(kind).Bound(c, ns)
    requires forall n | n in t'.nsCgroups && n != ns :: n in t.nsCgroups && t'.nsCgroups[n] == t.nsCgroups[n]
    requires ns in t'.nsCgroups ==> t'.nsCgroups[ns] <= ids + (if ns in t.nsCgroups then t.nsCgroups[ns] else {})
    ensures TrackedBound(t')
  {
    forall n, c | n in t'.nsCgroups && c in t'.nsCgroups[n] ensures t'.fd.Bound(c, n) || t'.proc.Bound(c, n) {
      if n == ns && c in ids {
        assert t'.Maps(kind).Bound(c, n);
      } else {
        assert t.fd.Bound(c, n) || t.proc.Bound(c, n);
      }
    }
  }

  lemma TrackAgrees(t: Tables, kind: Kind, ns: Namespace, pods: seq<Pod>, own: CgroupId -> Namespace)
    requires Agree(t, own) && WellOwned(Track(kind, ns, pods), own)
    ensures Agree(Tracked(t, kind, ns, pods), own)
  {
    hide MapRun, WithPaths, Agree, LiveCgroups;
    var infos := LiveCgroups(pods);
    BindsMap(t.Maps(kind), kind, infos, ns);
    PathsOf(t.cgroupPaths, infos);
    MappingAgrees(t, Tracked(t, kind, ns, pods), ns, Ids(infos), kind, own);
  }

  /** The cgroups of a listing are those of its unfinished pods that were resolved. */
  lemma {:induction false} LiveCgroupsAre(pods: seq<Pod>, info: CgroupInfo)
    ensures info in LiveCgroups(pods) <==>
            exists p | p in pods :: !p.finished && p.cgroups.Some? && info in p.cgroups.value
  {
    if pods != [] {
      var last := pods[|pods| - 1];
      LiveCgroupsAre(pods[..|pods| - 1], info);
      assert pods == pods[..|pods| - 1] + [last];
      if !last.finished && last.cgroups.Some? && info in last.cgroups.value {
        assert last in pods;
      }
    }
  }

  lemma {:induction false} PathsAreReported(paths: map<CgroupId, string>, infos: seq<CgroupInfo>, c: CgroupId)
    ensures c in Ids(infos) ==> c in WithPaths(paths, infos) && CgroupInfo(c, WithPaths(paths, infos)[c]) in infos
    ensures c !in Ids(infos) ==> (c in WithPaths(paths, infos) <==> c in paths)
    ensures c !in Ids(infos) && c in paths ==> WithPaths(paths, infos)[c] == paths[c]
  {
    if infos != [] {
      var init, last := infos[..|infos| - 1], infos[|infos| - 1];
      assert infos == init + [last];
      PathsAreReported(paths, init, c);
      OneMoreCgroup(Kernel(map[], map[], map[], map[]), FD, "", paths, init, last);
    }
  }

  /** A sync puts its namespace under the limit and tracks exactly the cgroups the
      listing reported for it: each is mapped and has a reported path. An existing
      counter keeps its count and its top consumer. The other kind, the other
      namespaces and all other cgroups are left as they were. */
  lemma SyncTakesEffect(t: Tables, kind: Kind, ns: Namespace, limit: int64, pods: seq<Pod>, c: CgroupId,
                        other: Namespace)
    requires other != ns
    ensures var infos, t' := LiveCgroups(pods), Synced(t, kind, ns, limit, Some(pods));
            var k, k' := t.Maps(kind), t'.Maps(kind);
            && ns in k'.nsLimit && k'.nsLimit[ns] == ToU64(limit)
            && ns in k'.nsCounter
            && (ns !in k.nsCounter ==> k'.nsCounter[ns].count == 0)
            && (ns in k.nsCounter ==> k'.nsCounter[ns] == k.nsCounter[ns].(leaseBudget := FirstSlice(limit)))
            && ns in t'.nsCgroups && ns in t'.nsNames
            && (c in t'.nsCgroups[ns] <==> exists info | info in infos :: info.id == c)
            && (c in t'.nsCgroups[ns] ==> k'.Bound(c, ns) && c in t'.cgroupPaths && CgroupInfo(c, t'.cgroupPaths[c]) in infos)
            && (c !in t'.nsCgroups[ns] ==>
                  && (c in k'.cgroupNs <==> c in k.cgroupNs) && (c in k.cgroupNs ==> k'.cgroupNs[c] == k.cgroupNs[c])
                  && (c in t'.cgroupPaths <==> c in t.cgroupPaths)
                  && (c in t.cgroupPaths ==> t'.cgroupPaths[c] == t.cgroupPaths[c]))
            && k'.cgroupCount == k.cgroupCount && t'.nsNames == t.nsNames + {ns}
            && (other in k'.nsLimit <==> other in k.nsLimit) && (other in k.nsLimit ==> k'.nsLimit[other] == k.nsLimit[other])
            && (other in k'.nsCounter <==> other in k.nsCounter) && (other in k.nsCounter ==> k'.nsCounter[other] == k.nsCounter[other])
            && (other in t'.nsCgroups <==> other in t.nsCgroups) && (other in t.nsCgroups ==> t'.nsCgroups[other] == t.nsCgroups[other])
            && t'.Maps(if kind.FD? then Proc else FD) == t.Maps(if kind.FD? then Proc else FD)
  {
    hide MapRun, SyncEvents, WithPaths, LiveCgroups;
    SyncMaps(t.Maps(kind), kind, ns, limit, LiveCgroups(pods));
    PathsAreReported(t.cgroupPaths, LiveCgroups(pods), c);
  }

  /** The scanner only adds: cgroups that were not known get mapped for both kinds. */
  lemma {:induction false} ScanAgrees(t: Tables, ns: Namespace, known: set<CgroupId>, infos: seq<CgroupInfo>,
                                      own: CgroupId -> Namespace)
    requires Agree(t, own) && Owned(infos, ns, own) && ns in t.nsCgroups
    ensures var t' := Scanned(t, ns, known, infos);
            && Agree(t', own)
            && t.cgroupPaths.Keys <= t'.cgroupPaths.Keys && t'.nsNames == t.nsNames
            && t'.fd.nsCounter == t.fd.nsCounter && t'.proc.nsCounter == t.proc.nsCounter
  {
    hide Agree, Scanned, Ids, MapStep, Extends;
    if infos == [] {
      NothingScanned(t, ns, known, infos);
      assert infos[..0] == infos;
    } else {
      var n := |infos| - 1;
      var init, last := infos[..n], infos[n];
      assert infos == infos[..n + 1] && last in infos;
      ScanAgrees(t, ns, known, init, own);
      ScannedStep(t, ns, known, infos, n);
      var before, after := Scanned(t, ns, known, init), Scanned(t, ns, known, infos);
      if last.id !in known + Ids(init) {
        BindExtends(before.fd, FD, last.id, ns);
        BindExtends(before.proc, Proc, last.id, ns);
        MappingAgrees(before, after, ns, {last.id}, FD, own);
      }
    }
  }

  /** The scanner tracks what it has mapped, for both kinds, and touches no cgroup
      that was known or not reported. */
  lemma {:induction false} ScanTakesEffect(t: Tables, ns: Namespace, known: set<CgroupId>, infos: seq<CgroupInfo>,
                                           c: CgroupId)
    requires ns in t.nsCgroups
    ensures var t' := Scanned(t, ns, known, infos);
            && t'.nsCgroups == t.nsCgroups[ns := t'.nsCgroups[ns]]
            && (c in t'.nsCgroups[ns] <==> c in t.nsCgroups[ns] || c in Ids(infos) - known)
            && (c in Ids(infos) - known ==>
                  && t'.fd.Bound(c, ns) && t'.proc.Bound(c, ns)
                  && c in t'.cgroupPaths && CgroupInfo(c, t'.cgroupPaths[c]) in infos)
            && (c !in Ids(infos) - known ==>
                  && (forall kind: Kind, n :: t'.Maps(kind).Bound(c, n) <==> t.Maps(kind).Bound(c, n))
                  && (c in t'.cgroupPaths <==> c in t.cgroupPaths)
                  && (c in t.cgroupPaths ==> t'.cgroupPaths[c] == t.cgroupPaths[c]))
            && t'.nsNames == t.nsNames
            && (forall kind: Kind ::
                  t'.Maps(kind) == t.Maps(kind).(cgroupNs := t'.Maps(kind).cgroupNs))
  {
    hide Scanned, Ids, MapStep;
    if infos == [] {
      NothingScanned(t, ns, known, infos);
      assert infos[..0] == infos;
    } else {
      var n := |infos| - 1;
      var init, last := infos[..n], infos[n];
      assert infos == infos[..n + 1];
      ScanTakesEffect(t, ns, known, init, c);
      assert infos == init + [last];
      ScannedStep(t, ns, known, infos, n);
      var before := Scanned(t, ns, known, init);
      BindStep(before.fd, FD, last.id, ns);
      BindStep(before.proc, Proc, last.id, ns);
    }
  }

  lemma ForgetAgrees(t: Tables, ns: Namespace, own: CgroupId -> Namespace)
    requires Agree(t, own)
    ensures Agree(Forgotten(t, ns), own)
  {
    var t' := Forgotten(t, ns);
    forall n, c | n in t'.nsCgroups && c in t'.nsCgroups[n] ensures t'.fd.Bound(c, n) || t'.proc.Bound(c, n) {
      assert t.fd.Bound(c, n) || t.proc.Bound(c, n);
      assert own(c) == n;
    }
  }

  lemma OutsideAgrees(t: Tables, kind: Kind, event: MapEvent, own: CgroupId -> Namespace)
    requires Agree(t, own)
    ensures Agree(TableStep(t, Outside(kind, event)), own)
  {
    hide MapStep;
    MappingStep(t.Maps(kind), kind, event);
  }

  lemma StepAgrees(t: Tables, e: TableEvent, own: CgroupId -> Namespace)
    requires Agree(t, own) && WellOwned(e, own)
    ensures Agree(TableStep(t, e), own)
  {
    match e
    case Outside(kind, event) => OutsideAgrees(t, kind, event, own);
    case Track(kind, ns, pods) => TrackAgrees(t, kind, ns, pods, own);
    case Scan(ns, known, infos) => if ns in t.nsCgroups { ScanAgrees(t, ns, known, infos, own); }
    case Forget(ns) => ForgetAgrees(t, ns, own);
  }

  /** Table agreement: after every step of a run, however syncs, scans, removals and
      hooks interleave, a cgroup has a path exactly when the kernel maps it, every mapping is to the owner,
      and every tracked cgroup maps to its namespace. */
  lemma {:induction false} TablesAgree(t: Tables, es: seq<TableEvent>, own: CgroupId -> Namespace)
    requires Agree(t, own) && forall e | e in es :: WellOwned(e, own)
    ensures Agree(TableRun(t, es), own)
  {
    hide TableStep, Agree;
    if es != [] {
      TablesAgree(t, es[..|es| - 1], own);
      StepAgrees(TableRun(t, es[..|es| - 1]), es[|es| - 1], own);
    }
  }

  /** A removal undoes everything for its namespace and nothing for another one. */
  lemma RemovalIsComplete(t: Tables, ns: Namespace, other: Namespace, own: CgroupId -> Namespace)
    requires Agree(t, own) && other != ns
    ensures var t' := Removed(t, ns);
            && (forall kind: Kind :: ns !in t'.Maps(kind).nsLimit && ns !in t'.Maps(kind).nsCounter)
            && ns !in t'.nsCgroups && ns !in t'.nsNames
            && (ns in t.nsCgroups ==> forall c | c in t.nsCgroups[ns] ::
                  c !in t'.cgroupPaths && forall kind: Kind :: c !in t'.Maps(kind).cgroupNs && c !in t'.Maps(kind).cgroupCount)
            && (other in t'.nsNames <==> other in t.nsNames)
            && (other in t'.nsCgroups <==> other in t.nsCgroups)
            && (other in t.nsCgroups ==> t'.nsCgroups[other] == t.nsCgroups[other])
            && (forall kind: Kind ::
                  var k, k' := t.Maps(kind), t'.Maps(kind);
                  && (other in k'.nsLimit <==> other in k.nsLimit) && (other in k.nsLimit ==> k'.nsLimit[other] == k.nsLimit[other])
                  && (other in k'.nsCounter <==> other in k.nsCounter) && (other in k.nsCounter ==> k'.nsCounter[other] == k.nsCounter[other])
                  && (forall c | own(c) == other ::
                        (k'.Bound(c, other) <==> k.Bound(c, other)) && k'.Count(c) == k.Count(c)))
            && (forall c | own(c) == other ::
                  (c in t'.cgroupPaths <==> c in t.cgroupPaths) && (c in t.cgroupPaths ==> t'.cgroupPaths[c] == t.cgroupPaths[c]))
  {
    forall c | ns in t.nsCgroups && c in t.nsCgroups[ns] ensures own(c) == ns {
      assert t.fd.Bound(c, ns) || t.proc.Bound(c, ns);
    }
  }

  /** What a removal unmaps: exactly the cgroups tracked for the namespace when it is
      called. */
  lemma RemovalUnmapsTracked(t: Tables, kind: Kind, ns: Namespace, c: CgroupId)
    ensures Removed(t, ns).Maps(kind).Bound(c, ns) <==>
            t.Maps(kind).Bound(c, ns) && !(ns in t.nsCgroups && c in t.nsCgroups[ns])
    ensures c in Removed(t, ns).cgroupPaths <==> c in t.cgroupPaths && !(ns in t.nsCgroups && c in t.nsCgroups[ns])
  {
  }

  /** A re-sync forgets the cgroups whose pods are gone without unmapping them, so the
      cgroups that stay mapped after the namespace is removed are exactly those that
      were mapped to it before the last sync and that this sync did not report. */
  lemma DroppedCgroupStaysMapped(t: Tables, kind: Kind, ns: Namespace, limit: int64, pods: seq<Pod>, c: CgroupId)
    ensures var t' := Removed(Synced(t, kind, ns, limit, Some(pods)), ns);
            && (t'.Maps(kind).Bound(c, ns) <==> t.Maps(kind).Bound(c, ns) && c !in Ids(LiveCgroups(pods)))
            && (c in t'.cgroupPaths <==> c in t.cgroupPaths && c !in Ids(LiveCgroups(pods)))
  {
    hide MapRun, SyncEvents, WithPaths;
    SyncMaps(t.Maps(kind), kind, ns, limit, LiveCgroups(pods));
    PathsOf(t.cgroupPaths, LiveCgroups(pods));
  }
}
