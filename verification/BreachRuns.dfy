/** Who kills whom when a breach is raised: the kernel signals the trigger, or
    userspace kills the cgroup of the top consumer. */
module BreachRuns {

  import opened Basics
  import opened QuotaLedger
  import opened Enforcer
  import opened EnforcerRuns
  import opened EnforcerAccounts
  import opened Syncer
  import opened SyncerRuns
  import opened CoverRuns

  /** Every recorded top consumer belongs to its namespace and has a path. */
  predicate TopsOf(k: Kernel, paths: map<CgroupId, string>, own: CgroupId -> Namespace) {
    forall ns | ns in k.nsCounter && k.nsCounter[ns].topCount > 0 ::
      own(k.nsCounter[ns].topCgid) == ns && k.nsCounter[ns].topCgid in paths
  }

  predicate TopsKnown(t: Tables, own: CgroupId -> Namespace) {
    TopsOf(t.fd, t.cgroupPaths, own) && TopsOf(t.proc, t.cgroupPaths, own)
  }

  /** A hook changes a top consumer only to the installing cgroup itself. */
  lemma HookTops(k: Kernel, kind: Kind, e: MapEvent)
    requires e.Install? || e.Close?
    ensures var k' := MapStep(k, kind, e);
            && k'.nsCounter.Keys == k.nsCounter.Keys
            && forall ns | ns in k.nsCounter ::
                 var l, l' := k.nsCounter[ns], k'.nsCounter[ns];
                 (l'.topCgid == l.topCgid && l'.topCount == l.topCount) || (InstallIn(k, e, ns) && l'.topCgid == e.cgid)
  {
  }

  lemma HookKeepsTops(k: Kernel, kind: Kind, e: MapEvent, paths: map<CgroupId, string>, own: CgroupId -> Namespace)
    requires e.Install? || e.Close?
    requires TopsOf(k, paths, own) && OwnedBy(k, own) && k.cgroupNs.Keys <= paths.Keys
    ensures TopsOf(MapStep(k, kind, e), paths, own)
  {
    hide MapStep;
    HookTops(k, kind, e);
  }

  lemma TrackKeepsTops(t: Tables, kind: Kind, ns: Namespace, pods: seq<Pod>, own: CgroupId -> Namespace)
    requires TopsKnown(t, own)
    ensures TopsKnown(Tracked(t, kind, ns, pods), own)
  {
    hide MapRun, WithPaths, LiveCgroups;
    BindsMap(t.Maps(kind), kind, LiveCgroups(pods), ns);
    PathsOf(t.cgroupPaths, LiveCgroups(pods));
  }

  /** The top consumer of neither kind is among the cgroups tracked for the namespace. */
  predicate SparesTops(t: Tables, ns: Namespace) {
    && (ns in t.fd.nsCounter && t.fd.nsCounter[ns].topCount > 0 ==> t.fd.nsCounter[ns].topCgid !in TrackedIds(t, ns))
    && (ns in t.proc.nsCounter && t.proc.nsCounter[ns].topCount > 0 ==> t.proc.nsCounter[ns].topCgid !in TrackedIds(t, ns))
  }

  /** The locked part of a removal forgets the path of a top consumer exactly if it is
      tracked for the namespace, and the counter is there again by then. */
  lemma ForgetKeepsTops(t: Tables, ns: Namespace, own: CgroupId -> Namespace)
    requires TopsKnown(t, own) && Agree(t, own)
    ensures TopsKnown(Forgotten(t, ns), own) <==> SparesTops(t, ns)
  {
    hide Agree;
    TrackedAreOwned(t, ns, own);
  }

  lemma OutsideKeepsTops(t: Tables, kind: Kind, event: MapEvent, own: CgroupId -> Namespace)
    requires TopsKnown(t, own) && Agree(t, own)
    ensures TopsKnown(TableStep(t, Outside(kind, event)), own)
  {
    hide MapStep, TopsOf;
    if event.Install? || event.Close? {
      HookKeepsTops(t.Maps(kind), kind, event, t.cgroupPaths, own);
    } else if !event.Bind? && !event.Unbind? {
      SettingKeepsTops(t.Maps(kind), kind, event, t.cgroupPaths, own);
    }
  }

  lemma SettingKeepsTops(k: Kernel, kind: Kind, e: MapEvent, paths: map<CgroupId, string>, own: CgroupId -> Namespace)
    requires !e.Install? && !e.Close? && TopsOf(k, paths, own)
    ensures TopsOf(MapStep(k, kind, e), paths, own)
  {
  }

  /** What can be seen before a step. */
  predicate StepSparesTops(t: Tables, e: TableEvent) {
    e.Forget? ==> SparesTops(t, e.ns)
  }

  lemma StepKeepsTops(t: Tables, e: TableEvent, own: CgroupId -> Namespace)
    requires TopsKnown(t, own) && Agree(t, own) && WellOwned(e, own)
    ensures TopsKnown(TableStep(t, e), own) <==> StepSparesTops(t, e)
  {
    hide TopsKnown, Agree, SparesTops;
    match e
    case Outside(kind, event) => OutsideKeepsTops(t, kind, event, own);
    case Track(kind, ns, pods) => TrackKeepsTops(t, kind, ns, pods, own);
    case Scan(ns, known, infos) => if ns in t.nsCgroups { ScanKeepsTops(t, ns, known, infos, own); }
    case Forget(ns) => ForgetKeepsTops(t, ns, own);
  }

  lemma ScanKeepsTops(t: Tables, ns: Namespace, known: set<CgroupId>, infos: seq<CgroupInfo>, own: CgroupId -> Namespace)
    requires TopsKnown(t, own) && Agree(t, own) && WellOwned(Scan(ns, known, infos), own) && ns in t.nsCgroups
    ensures TopsKnown(Scanned(t, ns, known, infos), own)
  {
    hide Agree;
    ScanAgrees(t, ns, known, infos, own);
  }

  predicate StaysKnown(es: seq<TableEvent>, own: CgroupId -> Namespace) {
    (es == [] || StaysKnown(es[..|es| - 1], own)) && TopsKnown(TableRun(EMPTY, es), own)
  }

  predicate AllSpareTops(es: seq<TableEvent>) {
    es == [] || (AllSpareTops(es[..|es| - 1]) && StepSparesTops(TableRun(EMPTY, es[..|es| - 1]), es[|es| - 1]))
  }

  /** From the start of the syncer, every recorded top consumer has a path at all times
      in exactly those runs in which no removal forgets one whose counter is there. */
  lemma {:induction false} TopsStayKnownExactly(es: seq<TableEvent>, own: CgroupId -> Namespace)
    requires forall e | e in es :: WellOwned(e, own)
    ensures Agree(TableRun(EMPTY, es), own)
    ensures StaysKnown(es, own) <==> AllSpareTops(es)
  {
    hide TableStep, Agree, TopsKnown, StepSparesTops, WellOwned;
    EmptyIsFine(own);
    TablesAgree(EMPTY, es, own);
    if es != [] {
      var prefix, e := es[..|es| - 1], es[|es| - 1];
      assert e in es;
      TopsStayKnownExactly(prefix, own);
      if StaysKnown(prefix, own) {
        StepKeepsTops(TableRun(EMPTY, prefix), e, own);
      }
    }
  }

  /** No removal does, if no sync of its namespace comes between its two parts. */
  lemma {:induction false} UninterruptedSpareTops(es: seq<TableEvent>)
    requires Uninterrupted(es)
    ensures AllSpareTops(es)
  {
    hide TableStep;
    if es != [] {
      var prefix, e := es[..|es| - 1], es[|es| - 1];
      UninterruptedSpareTops(prefix);
      if e.Forget? {
        CountersExactly(prefix, FD, e.ns);
        CountersExactly(prefix, Proc, e.ns);
      }
    }
  }

  lemma EmptyIsFine(own: CgroupId -> Namespace)
    ensures Agree(EMPTY, own) && TopsKnown(EMPTY, own)
  {
  }

  /** What a breach event says: the namespace and cgroup of the trigger, and a top
      consumer that has installed in the namespace. */
  lemma EventIsAccurate(k: Kernel, kind: Kind, cgid: CgroupId, now: nat)
    requires OnInstall(k, kind, cgid, now).1.Refused?
    ensures var (k', v) := OnInstall(k, kind, cgid, now);
            && k.Bound(cgid, v.event.ns) && v.event.cgid == cgid && v.event.reason == kind
            && v.event.ns in k'.nsCounter
            && v.event.topCgid == k'.nsCounter[v.event.ns].topCgid
            && k'.nsCounter[v.event.ns].topCount > 0
  {
  }

  /** Only the locked part of a removal of a namespace forgets its cgroups' paths. */
  lemma {:induction false} PathsAreKept(t: Tables, es: seq<TableEvent>, ns: Namespace, own: CgroupId -> Namespace,
                                        c: CgroupId)
    requires Agree(t, own) && (forall e | e in es :: WellOwned(e, own) && e != Forget(ns))
    requires own(c) == ns && c in t.cgroupPaths
    ensures c in TableRun(t, es).cgroupPaths
  {
    hide Agree, TableStep;
    if es != [] {
      var prefix, e := es[..|es| - 1], es[|es| - 1];
      PathsAreKept(t, prefix, ns, own, c);
      TablesAgree(t, prefix, own);
      PathIsKept(TableRun(t, prefix), e, ns, own, c);
    }
  }

  lemma PathIsKept(t: Tables, e: TableEvent, ns: Namespace, own: CgroupId -> Namespace, c: CgroupId)
    requires Agree(t, own) && WellOwned(e, own) && e != Forget(ns) && own(c) == ns && c in t.cgroupPaths
    ensures c in TableStep(t, e).cgroupPaths
  {
    match e
    case Track(kind, n, pods) => PathsOf(t.cgroupPaths, LiveCgroups(pods));
    case Scan(n, known, infos) => if n in t.nsCgroups { ScanAgrees(t, n, known, infos, own); }
    case Forget(n) => TrackedAreOwned(t, n, own);
    case Outside(_, _) =>
  }

  /** One killer: take any breach in tables that know their top consumers, and let
      anything happen until userspace handles its event, except that a removal forgets
      the namespace. Then the top consumer in the event is a real cgroup with a known
      path; the kernel and userspace never both kill; userspace, if it kills, kills
      the top consumer and not the trigger; and exactly one of them kills if and only
      if the kernel did or the namespace's name is registered when the event is
      handled. */
  lemma BreachHasOneKiller(t: Tables, kind: Kind, cgid: CgroupId, now: nat, es: seq<TableEvent>,
                           own: CgroupId -> Namespace)
    requires Agree(t, own) && TopsKnown(t, own)
    requires OnInstall(t.Maps(kind), kind, cgid, now).1.Refused?
    requires var event := OnInstall(t.Maps(kind), kind, cgid, now).1.event;
             forall e | e in es :: WellOwned(e, own) && e != Forget(event.ns)
    ensures var verdict := OnInstall(t.Maps(kind), kind, cgid, now).1;
            var event := verdict.event;
            var later := TableRun(TableStep(t, Outside(kind, Install(cgid, now))), es);
            var byKernel, byUser := Signals(verdict), UserKill(later, event).Some?;
            && event.topCgid != 0 && event.topCgid in later.cgroupPaths && own(event.topCgid) == event.ns
            && !(byKernel && byUser)
            && (byUser ==> event.topCgid != cgid && UserKill(later, event).value == later.cgroupPaths[event.topCgid])
            && (byKernel || byUser <==> byKernel || event.ns in later.nsNames)
  {
    hide Agree, TopsKnown, TableStep, OnInstall, TableRun;
    var h := Outside(kind, Install(cgid, now));
    var event := OnInstall(t.Maps(kind), kind, cgid, now).1.event;
    var t1 := TableStep(t, h);
    EventIsAccurate(t.Maps(kind), kind, cgid, now);
    StepKeepsTops(t, h, own);
    StepAgrees(t, h, own);
    EventTopIsKnown(t, kind, cgid, now, own);
    PathsAreKept(t1, es, event.ns, own, event.topCgid);
    TablesAgree(t1, es, own);
    ZeroHasNoPath(TableRun(t1, es), own);
  }

  lemma ZeroHasNoPath(t: Tables, own: CgroupId -> Namespace)
    requires Agree(t, own)
    ensures 0 !in t.cgroupPaths
  {
  }

  lemma EventTopIsKnown(t: Tables, kind: Kind, cgid: CgroupId, now: nat, own: CgroupId -> Namespace)
    requires OnInstall(t.Maps(kind), kind, cgid, now).1.Refused?
    requires TopsKnown(TableStep(t, Outside(kind, Install(cgid, now))), own)
    ensures var event := OnInstall(t.Maps(kind), kind, cgid, now).1.event;
            var t1 := TableStep(t, Outside(kind, Install(cgid, now)));
            own(event.topCgid) == event.ns && event.topCgid in t1.cgroupPaths
  {
    hide OnInstall;
    EventIsAccurate(t.Maps(kind), kind, cgid, now);
  }

  /** The run has a sync of the namespace that got as far as its pods, and no removal
      has forgotten the namespace since. */
  predicate Registered(es: seq<TableEvent>, ns: Namespace) {
    if es == [] then false else
    match es[|es| - 1]
    case Track(_, n, _) => n == ns || Registered(es[..|es| - 1], ns)
    case Forget(n) => n != ns && Registered(es[..|es| - 1], ns)
    case _ => Registered(es[..|es| - 1], ns)
  }

  predicate RegistersAt(es: seq<TableEvent>, j: nat, ns: Namespace)
    requires j < |es|
  {
    es[j].Track? && es[j].ns == ns
  }

  lemma {:induction false} RegisteredExactly(es: seq<TableEvent>, ns: Namespace)
    ensures Registered(es, ns) <==>
            exists j | 0 <= j < |es| :: RegistersAt(es, j, ns) && Forget(ns) !in es[j + 1..]
  {
    if es != [] {
      var init, last := es[..|es| - 1], es[|es| - 1];
      RegisteredExactly(init, ns);
      forall j | 0 <= j < |init|
        ensures RegistersAt(init, j, ns) == RegistersAt(es, j, ns) && es[j + 1..] == init[j + 1..] + [last]
      {
      }
      assert es[|es|..] == [];
      if Registered(es, ns) && !RegistersAt(es, |init|, ns) {
        var j :| 0 <= j < |init| && RegistersAt(init, j, ns) && Forget(ns) !in init[j + 1..];
        assert RegistersAt(es, j, ns) && Forget(ns) !in es[j + 1..];
      }
      if j :| 0 <= j < |es| && RegistersAt(es, j, ns) && Forget(ns) !in es[j + 1..] && j < |init| {
        assert RegistersAt(init, j, ns) && last in es[j + 1..];
        assert Forget(ns) !in init[j + 1..];
      }
    }
  }

  lemma {:induction false} NamesAreRegistered(es: seq<TableEvent>, ns: Namespace)
    ensures ns in TableRun(EMPTY, es).nsNames <==> Registered(es, ns)
  {
    hide TableStep;
    if es != [] {
      NamesAreRegistered(es[..|es| - 1], ns);
      NameStep(TableRun(EMPTY, es[..|es| - 1]), es[|es| - 1], ns);
    }
  }

  lemma NameStep(t: Tables, e: TableEvent, ns: Namespace)
    ensures ns in TableStep(t, e).nsNames <==> (e.Track? && e.ns == ns) || (ns in t.nsNames && e != Forget(ns))
  {
    match e
    case Scan(n, known, infos) => if n in t.nsCgroups { ScanTakesEffect(t, n, known, infos, 0); }
    case _ =>
  }

  /** The step maps the cgroup and notes its path. */
  predicate Reports(t: Tables, e: TableEvent, c: CgroupId) {
    match e
    case Track(_, _, pods) => c in Ids(LiveCgroups(pods))
    case Scan(ns, known, infos) => ns in t.nsCgroups && c in Ids(infos) - known
    case _ => false
  }

  /** The step unmaps the cgroup and forgets its path. */
  predicate Takes(t: Tables, e: TableEvent, c: CgroupId) {
    e.Forget? && c in TrackedIds(t, e.ns)
  }

  lemma PathStep(t: Tables, e: TableEvent, c: CgroupId)
    ensures c in TableStep(t, e).cgroupPaths <==> Reports(t, e, c) || (c in t.cgroupPaths && !Takes(t, e, c))
  {
    hide MapStep, MapRun, Scanned, WithPaths, LiveCgroups;
    match e
    case Track(_, _, pods) => PathsOf(t.cgroupPaths, LiveCgroups(pods));
    case Scan(n, known, infos) => if n in t.nsCgroups { ScanTakesEffect(t, n, known, infos, c); }
    case Forget(_) =>
    case Outside(_, _) =>
  }

  predicate ReportsAt(es: seq<TableEvent>, j: nat, c: CgroupId)
    requires j < |es|
  {
    Reports(TableRun(EMPTY, es[..j]), es[j], c)
  }

  predicate TakesAt(es: seq<TableEvent>, j: nat, c: CgroupId)
    requires j < |es|
  {
    Takes(TableRun(EMPTY, es[..j]), es[j], c)
  }

  /** The run has reported the cgroup at some time. */
  predicate Reported(es: seq<TableEvent>, c: CgroupId) {
    es != [] && (ReportsAt(es, |es| - 1, c) || Reported(es[..|es| - 1], c))
  }

  /** A removal has taken the cgroup, and nothing has reported it since. */
  predicate Lost(es: seq<TableEvent>, c: CgroupId) {
    es != [] && !ReportsAt(es, |es| - 1, c) && (TakesAt(es, |es| - 1, c) || Lost(es[..|es| - 1], c))
  }

  lemma PrefixAgrees(es: seq<TableEvent>, j: nat, c: CgroupId)
    requires es != [] && j < |es| - 1
    ensures TakesAt(es[..|es| - 1], j, c) == TakesAt(es, j, c) && ReportsAt(es[..|es| - 1], j, c) == ReportsAt(es, j, c)
  {
    hide Takes, Reports, TableRun;
    assert es[..|es| - 1][..j] == es[..j];
  }

  /** The cgroup is taken here, and nothing reports it from then on. */
  ghost predicate TakenFor(es: seq<TableEvent>, j: nat, c: CgroupId)
    requires j < |es|
  {
    TakesAt(es, j, c) && forall k | j <= k < |es| :: !ReportsAt(es, k, c)
  }

  lemma {:induction false} LostExactly(es: seq<TableEvent>, c: CgroupId)
    ensures Lost(es, c) <==> exists j | 0 <= j < |es| :: TakenFor(es, j, c)
  {
    hide TakesAt, ReportsAt;
    if es != [] {
      var init, n := es[..|es| - 1], |es| - 1;
      LostExactly(init, c);
      forall j | 0 <= j < n
        ensures TakenFor(es, j, c) <==> TakenFor(init, j, c) && !ReportsAt(es, n, c)
      {
        forall k | j <= k < n ensures TakesAt(init, k, c) == TakesAt(es, k, c) && ReportsAt(init, k, c) == ReportsAt(es, k, c) {
          PrefixAgrees(es, k, c);
        }
      }
      assert TakenFor(es, n, c) <==> TakesAt(es, n, c) && !ReportsAt(es, n, c);
    }
  }

  lemma {:induction false} PathsExactly(es: seq<TableEvent>, c: CgroupId)
    ensures c in TableRun(EMPTY, es).cgroupPaths <==> Reported(es, c) && !Lost(es, c)
  {
    hide TableStep, Reports, Takes;
    if es != [] {
      PathsExactly(es[..|es| - 1], c);
      PathStep(TableRun(EMPTY, es[..|es| - 1]), es[|es| - 1], c);
    }
  }

  /** Every recorded top consumer belongs to its namespace and has been reported. */
  ghost predicate TopsReported(k: Kernel, es: seq<TableEvent>, own: CgroupId -> Namespace) {
    forall ns | ns in k.nsCounter && k.nsCounter[ns].topCount > 0 ::
      own(k.nsCounter[ns].topCgid) == ns && k.nsCounter[ns].topCgid != 0 && Reported(es, k.nsCounter[ns].topCgid)
  }

  lemma OutsideReports(k: Kernel, kind: Kind, event: MapEvent, es: seq<TableEvent>, es': seq<TableEvent>,
                       own: CgroupId -> Namespace)
    requires TopsReported(k, es, own) && OwnedBy(k, own) && !event.Bind? && !event.Unbind?
    requires forall c | Reported(es, c) :: Reported(es', c)
    requires forall c | c in k.cgroupNs :: c != 0 && Reported(es, c)
    ensures TopsReported(MapStep(k, kind, event), es', own)
  {
    hide Reported, OnInstall;
    if event.Install? || event.Close? {
      hide MapStep;
      HookTops(k, kind, event);
    }
  }

  /** What a step that holds the lock does to the counters: nothing. */
  lemma LockedKeepsCounters(t: Tables, e: TableEvent)
    requires !e.Outside?
    ensures forall kind: Kind :: TableStep(t, e).Maps(kind).nsCounter == t.Maps(kind).nsCounter
  {
    hide MapRun, WithPaths, LiveCgroups, Scanned;
    match e
    case Track(k, n, pods) => BindsMap(t.Maps(k), k, LiveCgroups(pods), n);
    case Scan(n, known, infos) =>
      if n in t.nsCgroups {
        ScanTakesEffect(t, n, known, infos, 0);
        var t' := Scanned(t, n, known, infos);
        forall kind: Kind ensures t'.Maps(kind).nsCounter == t.Maps(kind).nsCounter {
          assert t'.Maps(kind) == t.Maps(kind).(cgroupNs := t'.Maps(kind).cgroupNs);
        }
      }
    case Forget(_) =>
  }

  lemma {:induction false} TopsStayReported(es: seq<TableEvent>, kind: Kind, own: CgroupId -> Namespace)
    requires forall e | e in es :: WellOwned(e, own)
    ensures TopsReported(TableRun(EMPTY, es).Maps(kind), es, own)
  {
    hide TableStep, Reports, Takes, Agree, WellOwned;
    if es != [] {
      var prefix, e := es[..|es| - 1], es[|es| - 1];
      TopsStayReported(prefix, kind, own);
      EmptyIsFine(own);
      TablesAgree(EMPTY, prefix, own);
      var t := TableRun(EMPTY, prefix);
      forall c | Reported(prefix, c) ensures Reported(es, c) {
      }
      if e.Outside? && e.kind == kind && !e.event.Bind? && !e.event.Unbind? {
        forall c | c in t.Maps(kind).cgroupNs ensures c != 0 && Reported(prefix, c) {
          MappedHasPath(t, kind, c, own);
          PathsExactly(prefix, c);
        }
        AgreedIsOwned(t, own);
        StepOutside(t, kind, e.event);
        OutsideReports(t.Maps(kind), kind, e.event, prefix, es, own);
      } else {
        SameCounters(t, e, kind);
      }
    }
  }

  lemma SameCounters(t: Tables, e: TableEvent, kind: Kind)
    requires !(e.Outside? && e.kind == kind && !e.event.Bind? && !e.event.Unbind?)
    ensures TableStep(t, e).Maps(kind).nsCounter == t.Maps(kind).nsCounter
  {
    hide MapStep;
    if !e.Outside? {
      hide TableStep;
      LockedKeepsCounters(t, e);
    }
  }

  lemma MappedHasPath(t: Tables, kind: Kind, c: CgroupId, own: CgroupId -> Namespace)
    requires Agree(t, own) && c in t.Maps(kind).cgroupNs
    ensures c in t.cgroupPaths && c != 0
  {
  }

  /** Exactly which breaches are followed by a kill, in every run from the start of the
      syncer, however syncs, scans, removals, hooks and the handling of the event
      interleave: those where the kernel kills, and those whose namespace is
      registered when userspace looks up its name, while no removal has taken the top
      consumer when it then looks up its path. There are never two kills, and
      userspace kills the top consumer and not the trigger. */
  lemma BreachKillsExactly(past: seq<TableEvent>, kind: Kind, cgid: CgroupId, now: nat,
                           wait: seq<TableEvent>, more: seq<TableEvent>, own: CgroupId -> Namespace)
    requires forall e | e in past + wait + more :: WellOwned(e, own)
    requires OnInstall(TableRun(EMPTY, past).Maps(kind), kind, cgid, now).1.Refused?
    ensures var verdict := OnInstall(TableRun(EMPTY, past).Maps(kind), kind, cgid, now).1;
            var event := verdict.event;
            var named := past + [Outside(kind, Install(cgid, now))] + wait;
            var found := named + more;
            var killed := KillFrom(TableRun(EMPTY, named).nsNames, TableRun(EMPTY, found).cgroupPaths, event);
            && own(event.topCgid) == event.ns
            && !(Signals(verdict) && killed.Some?)
            && (killed.Some? ==> event.topCgid != cgid)
            && (Signals(verdict) || killed.Some? <==>
                Signals(verdict) || (Registered(named, event.ns) && !Lost(found, event.topCgid)))
  {
    hide TableStep, OnInstall, TableRun, Agree, WellOwned, Registered, Lost, Reported;
    var t, h := TableRun(EMPTY, past), Outside(kind, Install(cgid, now));
    var event := OnInstall(t.Maps(kind), kind, cgid, now).1.event;
    var named := past + [h] + wait;
    var found := named + more;
    EventIsAccurate(t.Maps(kind), kind, cgid, now);
    TopIsReported(past, kind, cgid, now, own);
    ReportedStays(past + [h], wait + more, event.topCgid);
    assert past + [h] + (wait + more) == found;
    NamesAreRegistered(named, event.ns);
    PathsExactly(found, event.topCgid);
  }

  lemma TopIsReported(past: seq<TableEvent>, kind: Kind, cgid: CgroupId, now: nat, own: CgroupId -> Namespace)
    requires forall e | e in past :: WellOwned(e, own)
    requires OnInstall(TableRun(EMPTY, past).Maps(kind), kind, cgid, now).1.Refused?
    ensures var event := OnInstall(TableRun(EMPTY, past).Maps(kind), kind, cgid, now).1.event;
            && own(event.topCgid) == event.ns && event.topCgid != 0
            && Reported(past + [Outside(kind, Install(cgid, now))], event.topCgid)
  {
    hide TableRun, OnInstall, WellOwned, Reported;
    var t, h := TableRun(EMPTY, past), Outside(kind, Install(cgid, now));
    EventIsAccurate(t.Maps(kind), kind, cgid, now);
    assert WellOwned(h, own) by { HooksAreWellOwned(kind, Install(cgid, now), own); }
    TopsStayReported(past + [h], kind, own);
    TableRunConcat(EMPTY, past, [h]);
    OneTableStep(t, h);
    StepOutside(t, kind, h.event);
    InstallStep(t.Maps(kind), kind, cgid, now);
  }

  lemma InstallStep(k: Kernel, kind: Kind, cgid: CgroupId, now: nat)
    ensures MapStep(k, kind, Install(cgid, now)) == OnInstall(k, kind, cgid, now).0
  {
    hide OnInstall;
  }

  lemma {:induction false} ReportedStays(es: seq<TableEvent>, more: seq<TableEvent>, c: CgroupId)
    requires Reported(es, c)
    ensures Reported(es + more, c)
  {
    hide ReportsAt;
    if more == [] {
      assert es + more == es;
    } else {
      assert (es + more)[..|es + more| - 1] == es + more[..|more| - 1];
      ReportedStays(es, more[..|more| - 1], c);
    }
  }

  lemma HooksAreWellOwned(kind: Kind, e: MapEvent, own: CgroupId -> Namespace)
    ensures WellOwned(Outside(kind, e), own)
  {
  }

  /** From the start of the syncer, if no sync comes between the two parts of a
      removal, and the namespace is registered and not forgotten when the event is
      handled, every breach is followed by exactly one kill. */
  lemma EveryBreachKillsOnce(past: seq<TableEvent>, kind: Kind, cgid: CgroupId, now: nat, future: seq<TableEvent>,
                             own: CgroupId -> Namespace)
    requires (forall e | e in past + future :: WellOwned(e, own)) && Uninterrupted(past)
    requires OnInstall(TableRun(EMPTY, past).Maps(kind), kind, cgid, now).1.Refused?
    requires var event := OnInstall(TableRun(EMPTY, past).Maps(kind), kind, cgid, now).1.event;
             && (forall e | e in future :: e != Forget(event.ns))
             && Registered(past + [Outside(kind, Install(cgid, now))] + future, event.ns)
    ensures var t, h := TableRun(EMPTY, past), Outside(kind, Install(cgid, now));
            var verdict := OnInstall(t.Maps(kind), kind, cgid, now).1;
            Signals(verdict) != UserKill(TableRun(TableStep(t, h), future), verdict.event).Some?
  {
    hide TableStep, OnInstall, TableRun, UserKill, Signals, Agree, TopsKnown, WellOwned, Registered, Uninterrupted;
    var t, h := TableRun(EMPTY, past), Outside(kind, Install(cgid, now));
    assert forall e | e in past :: e in past + future;
    assert forall e | e in future :: e in past + future;
    UninterruptedSpareTops(past);
    TopsStayKnownExactly(past, own);
    KnownAtEnd(past, own);
    BreachHasOneKiller(t, kind, cgid, now, future, own);
    OneTableStep(t, h);
    TableRunConcat(EMPTY, past, [h]);
    TableRunConcat(EMPTY, past + [h], future);
    NamesAreRegistered(past + [h] + future, OnInstall(t.Maps(kind), kind, cgid, now).1.event.ns);
  }

  lemma KnownAtEnd(es: seq<TableEvent>, own: CgroupId -> Namespace)
    requires StaysKnown(es, own)
    ensures TopsKnown(TableRun(EMPTY, es), own)
  {
  }

  /** A listing of one running pod with one cgroup. */
  function PodWith(c: CgroupId): seq<Pod> {
    [Pod(false, Some([CgroupInfo(c, "")]))]
  }

  lemma PodHasCgroup(c: CgroupId, paths: map<CgroupId, string>)
    ensures LiveCgroups(PodWith(c)) == [CgroupInfo(c, "")] && Ids([CgroupInfo(c, "")]) == {c}
    ensures WithPaths(paths, [CgroupInfo(c, "")]) == paths[c := ""]
  {
    var info := CgroupInfo(c, "");
    assert PodWith(c)[..0] == [] && [info][..0] == [];
    assert info in [info];
  }

  /** A sync that finds one pod. */
  lemma OnePodSync(t: Tables, ns: Namespace, limit: int64, c: CgroupId)
    ensures TableRun(t, SyncSteps(FD, ns, limit, Some(PodWith(c)))) ==
            Tables(Kernel(t.fd.cgroupNs[c := ns], t.fd.cgroupCount, t.fd.nsLimit[ns := ToU64(limit)],
                          MapStep(t.fd, FD, Reslice(ns, limit)).nsCounter),
                   t.proc, t.nsCgroups[ns := {c}], t.cgroupPaths[c := ""], t.nsNames + {ns})
  {
    hide MapRun, MapStep, SyncEvents, SyncSteps, LiveCgroups, WithPaths, TableRun;
    SyncIsItsSteps(t, FD, ns, limit, Some(PodWith(c)));
    PodHasCgroup(c, t.cgroupPaths);
    SyncMaps(t.fd, FD, ns, limit, [CgroupInfo(c, "")]);
    var k := MapRun(t.fd, FD, SyncEvents(ns, limit, [CgroupInfo(c, "")]));
    assert k.cgroupNs == t.fd.cgroupNs[c := ns];
  }

  /** The run in which a removal is interrupted: between its two parts a sync puts the
      namespace under its limit of 1 again, and its cgroup is counted; after the
      removal has forgotten that cgroup, a sync finds another one. */
  function LosingRun(ns: Namespace, first: CgroupId, second: CgroupId): seq<TableEvent> {
    SyncSteps(FD, ns, 1, Some(PodWith(first))) + DropSteps(ns) + SyncSteps(FD, ns, 1, Some(PodWith(first)))
      + [Outside(FD, Install(first, 0))] + [Forget(ns)] + SyncSteps(FD, ns, 1, Some(PodWith(second)))
  }

  lemma CountedOnce(k: Kernel, ns: Namespace, c: CgroupId)
    requires k.Bound(c, ns) && k.Count(c) == 0
    requires ns in k.nsLimit && k.nsLimit[ns] == 1 && ns in k.nsCounter && k.nsCounter[ns] == CpuLease(0, 1, 0, 0, 0)
    ensures MapStep(k, FD, Install(c, 0))
         == k.(cgroupCount := k.cgroupCount[c := 1], nsCounter := k.nsCounter[ns := CpuLease(1, 1, 0, c, 1)])
  {
  }

  lemma RefusedForAnother(k: Kernel, ns: Namespace, c: CgroupId, top: CgroupId, now: nat)
    requires k.Bound(c, ns) && k.Count(c) == 0
    requires ns in k.nsLimit && k.nsLimit[ns] == 1 && ns in k.nsCounter && k.nsCounter[ns] == CpuLease(1, 1, 0, top, 1)
    ensures OnInstall(k, FD, c, now).1 == Refused(Breach(ns, c, FD, top))
  {
  }

  /** The tables just before the removal forgets the namespace. */
  function BeforeForget(ns: Namespace, first: CgroupId): Tables {
    Tables(Kernel(map[first := ns], map[first := 1], map[ns := 1], map[ns := CpuLease(1, 1, 0, first, 1)]),
           Kernel(map[], map[], map[], map[]), map[ns := {first}], map[first := ""], {ns})
  }

  lemma LosingRunStarts(ns: Namespace, first: CgroupId)
    ensures TableRun(EMPTY, SyncSteps(FD, ns, 1, Some(PodWith(first))) + DropSteps(ns)
                            + SyncSteps(FD, ns, 1, Some(PodWith(first))) + [Outside(FD, Install(first, 0))])
         == BeforeForget(ns, first)
  {
    hide TableRun, SyncSteps, DropSteps, TableStep;
    var sync, install := SyncSteps(FD, ns, 1, Some(PodWith(first))), Outside(FD, Install(first, 0));
    OnePodSync(EMPTY, ns, 1, first);
    var t1 := TableRun(EMPTY, sync);
    Drops(t1, ns);
    var t2 := TableRun(t1, DropSteps(ns));
    OnePodSync(t2, ns, 1, first);
    var t3 := TableRun(t2, sync);
    assert t3.fd == Kernel(map[first := ns], map[], map[ns := 1], map[ns := CpuLease(0, 1, 0, 0, 0)]);
    CountedOnce(t3.fd, ns, first);
    StepOutside(t3, FD, install.event);
    OneTableStep(t3, install);
    TableRunConcat(EMPTY, sync, DropSteps(ns));
    TableRunConcat(EMPTY, sync + DropSteps(ns), sync);
    TableRunConcat(EMPTY, sync + DropSteps(ns) + sync, [install]);
  }

  /** After that run an install by the other cgroup is a breach that nobody answers: the
      kernel does not kill, because the trigger is not the top consumer, and
      userspace does not, although the namespace is registered, because the top
      consumer's path is forgotten. */
  lemma NobodyKills(ns: Namespace, first: CgroupId, second: CgroupId, now: nat)
    requires first != second
    ensures var run := LosingRun(ns, first, second);
            var t := TableRun(EMPTY, run);
            var verdict := OnInstall(t.fd, FD, second, now).1;
            && verdict == Refused(Breach(ns, second, FD, first)) && !Signals(verdict)
            && ns in TableStep(t, Outside(FD, Install(second, now))).nsNames
            && UserKill(TableStep(t, Outside(FD, Install(second, now))), verdict.event) == None
  {
    hide TableRun, SyncSteps, DropSteps, OnInstall;
    var sync, again := SyncSteps(FD, ns, 1, Some(PodWith(first))), SyncSteps(FD, ns, 1, Some(PodWith(second)));
    var start := sync + DropSteps(ns) + sync + [Outside(FD, Install(first, 0))];
    LosingRunStarts(ns, first);
    var t1 := BeforeForget(ns, first);
    TableRunConcat(EMPTY, start, [Forget(ns)]);
    OneTableStep(t1, Forget(ns));
    var t2 := Forgotten(t1, ns);
    TableRunConcat(EMPTY, start + [Forget(ns)], again);
    OnePodSync(t2, ns, 1, second);
    var t := TableRun(t2, again);
    RefusedForAnother(t.fd, ns, second, first, now);
  }
}
