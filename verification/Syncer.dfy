/** The userspace side: the syncer turns a granted lease into the enforced limit,
    maps the cgroups of pods, removes namespaces, and decides about breaches. */
module Syncer {

  import opened Basics
  import opened QuotaLedger
  import opened LeaseManager
  import opened Enforcer
  import opened SyncLeases

  datatype CgroupInfo = CgroupInfo(id: CgroupId, path: string)

  /** A pod of a listing: whether it has finished, and its cgroups if they were found. */
  datatype Pod = Pod(finished: bool, cgroups: Option<seq<CgroupInfo>>)

  /** The kernel maps of both kinds and the syncer's own tables. */
  datatype Tables = Tables(
    fd: Kernel,
    proc: Kernel,
    nsCgroups: map<Namespace, set<CgroupId>>,
    cgroupPaths: map<CgroupId, string>,
    nsNames: set<Namespace>)
  {
    function Maps(kind: Kind): Kernel {
      if kind.FD? then fd else proc
    }

    function WithMaps(kind: Kind, k: Kernel): Tables {
      if kind.FD? then this.(fd := k) else this.(proc := k)
    }
  }

  /** A grant counts only if the request went through and is more than 0. */
  function EffectiveLimit(limit: int64, granted: Option<int64>): int64 {
    if granted.Some? && granted.value > 0 then granted.value else limit
  }

  /** The cgroups of the pods that are running, in the order of the listing. */
  function LiveCgroups(pods: seq<Pod>): seq<CgroupInfo> {
    if pods == [] then [] else
    var p := pods[|pods| - 1];
    LiveCgroups(pods[..|pods| - 1]) + (if p.finished || p.cgroups.None? then [] else p.cgroups.value)
  }

  function Ids(infos: seq<CgroupInfo>): set<CgroupId> {
    set i | i in infos :: i.id
  }

  function Binds(infos: seq<CgroupInfo>, ns: Namespace): seq<MapEvent> {
    if infos == [] then []
    else Binds(infos[..|infos| - 1], ns) + [Bind(infos[|infos| - 1].id, ns)]
  }

  function WithPaths(paths: map<CgroupId, string>, infos: seq<CgroupInfo>): map<CgroupId, string> {
    if infos == [] then paths
    else WithPaths(paths, infos[..|infos| - 1])[infos[|infos| - 1].id := infos[|infos| - 1].path]
  }

  /** The map operations of a sync, in their order. */
  function SyncEvents(ns: Namespace, limit: int64, infos: seq<CgroupInfo>): seq<MapEvent> {
    [SetLimit(ns, limit), Reslice(ns, limit)] + Binds(infos, ns)
  }

  /** A sync of one kind; without a pod listing it stops after setting the limit. */
  function Synced(t: Tables, kind: Kind, ns: Namespace, limit: int64, pods: Option<seq<Pod>>): Tables {
    if pods.None? then t.WithMaps(kind, MapRun(t.Maps(kind), kind, SyncEvents(ns, limit, [])))
    else
      var infos := LiveCgroups(pods.value);
      t.WithMaps(kind, MapRun(t.Maps(kind), kind, SyncEvents(ns, limit, infos)))
       .(nsCgroups := t.nsCgroups[ns := Ids(infos)],
         cgroupPaths := WithPaths(t.cgroupPaths, infos),
         nsNames := t.nsNames + {ns})
  }

  /** The maps of one kind after a namespace and its tracked cgroups are gone. */
  function Purged(k: Kernel, ns: Namespace, ids: set<CgroupId>): Kernel {
    Kernel(k.cgroupNs - ids, k.cgroupCount - ids, k.nsLimit - {ns}, k.nsCounter - {ns})
  }

  /** The cgroups tracked for a namespace. */
  function TrackedIds(t: Tables, ns: Namespace): set<CgroupId> {
    if ns in t.nsCgroups then t.nsCgroups[ns] else {}
  }

  function Removed(t: Tables, ns: Namespace): Tables {
    var ids := TrackedIds(t, ns);
    Tables(Purged(t.fd, ns, ids), Purged(t.proc, ns, ids), t.nsCgroups - {ns}, t.cgroupPaths - ids, t.nsNames - {ns})
  }

  /** The part of a sync that holds the lock: the cgroups of the listed pods are mapped
      and tracked, and the name is registered. */
  function Tracked(t: Tables, kind: Kind, ns: Namespace, pods: seq<Pod>): Tables {
    var infos := LiveCgroups(pods);
    t.WithMaps(kind, MapRun(t.Maps(kind), kind, Binds(infos, ns)))
     .(nsCgroups := t.nsCgroups[ns := Ids(infos)],
       cgroupPaths := WithPaths(t.cgroupPaths, infos),
       nsNames := t.nsNames + {ns})
  }

  function Unmapped(k: Kernel, ids: set<CgroupId>): Kernel {
    k.(cgroupNs := k.cgroupNs - ids, cgroupCount := k.cgroupCount - ids)
  }

  /** The part of a removal that holds the lock: what is tracked is unmapped, and it and
      the name are forgotten. */
  function Forgotten(t: Tables, ns: Namespace): Tables {
    var ids := TrackedIds(t, ns);
    Tables(Unmapped(t.fd, ids), Unmapped(t.proc, ids), t.nsCgroups - {ns}, t.cgroupPaths - ids, t.nsNames - {ns})
  }

  /** The scanner maps, for both kinds, the cgroups it does not know yet. */
  function Scanned(t: Tables, ns: Namespace, known: set<CgroupId>, infos: seq<CgroupInfo>): Tables
    requires ns in t.nsCgroups
    ensures ns in Scanned(t, ns, known, infos).nsCgroups
  {
    if infos == [] then t
    else
      var before := Scanned(t, ns, known, infos[..|infos| - 1]);
      var info := infos[|infos| - 1];
      if info.id in known + Ids(infos[..|infos| - 1]) then before
      else before.(fd := MapStep(before.fd, FD, Bind(info.id, ns)),
                   proc := MapStep(before.proc, Proc, Bind(info.id, ns)),
                   nsCgroups := before.nsCgroups[ns := before.nsCgroups[ns] + {info.id}],
                   cgroupPaths := before.cgroupPaths[info.id := info.path])
  }

  /** The path of the cgroup that userspace kills on a breach event, if any, given the
      names it has seen and the paths it has seen after that. */
  function KillFrom(names: set<Namespace>, paths: map<CgroupId, string>, event: Breach): Option<string> {
    if event.ns !in names then None
    else if event.topCgid == 0 || event.topCgid == event.cgid then None
    else if event.topCgid !in paths then None
    else Some(paths[event.topCgid])
  }

  function UserKill(t: Tables, event: Breach): Option<string> {
    KillFrom(t.nsNames, t.cgroupPaths, event)
  }

  class Syncer {
    const nodeID: string
    const leaser: Option<K8sLeaseManager>
    const fd: EnforcerMaps
    const proc: EnforcerMaps
    var nsCgroups: map<Namespace, set<CgroupId>>
    var cgroupPaths: map<CgroupId, string>
    var nsNames: set<Namespace>

    ghost predicate Valid() {
      fd != proc && fd.kind == FD && proc.kind == Proc
    }

    constructor (leaser: Option<K8sLeaseManager>, nodeID: string)
      ensures Valid() && fresh(fd) && fresh(proc)
      ensures this.leaser == leaser && this.nodeID == nodeID
      ensures Value() == Tables(Kernel(map[], map[], map[], map[]), Kernel(map[], map[], map[], map[]), map[], map[], {})
    {
      this.leaser, this.nodeID := leaser, nodeID;
      fd := new EnforcerMaps(FD);
      proc := new EnforcerMaps(Proc);
      nsCgroups, cgroupPaths, nsNames := map[], map[], {};
    }

    function Value(): Tables
      reads this, fd, proc
    {
      Tables(fd.Value(), proc.Value(), nsCgroups, cgroupPaths, nsNames)
    }

    /** Asks the lease manager for the credits of one side of a namespace. `read` is what
        its Get of the object returns. */
    method RequestCredits(api: ApiServer, key: string, read: Option<Stored>, requested: int64, now: int, net: Net)
      returns (granted: Option<int64>)
      modifies api
      ensures granted == GrantFor(old(api.stored), key, leaser, nodeID, read, requested, net)
      ensures api.stored == StoredAfterRequest(old(api.stored), key, leaser, nodeID, read, requested, net)
      ensures api.heartbeats
           == BeatsAfterRequest(old(api.heartbeats), old(api.stored), key, leaser, nodeID, read, requested, now, net)
    {
      hide AfterWrite, Reply, PlanRequest, SplitProc;
      if leaser.None? {
        return None;
      }
      var copy: Option<ObjectQuota> := None;
      if read.Some? {
        var quota := new ObjectQuota(read.value);
        copy := Some(quota);
      }
      var r := leaser.value.RequestLease(api, copy, key, nodeID, requested, now, net);
      return match r { case Ok(amount) => Some(amount) case Err(_) => None };
    }

    /** Both syncs, for descriptors and for processes: the lease, the kernel maps and
        the tables. */
    method SyncNamespace(api: ApiServer, kind: Kind, ns: Namespace, limit: int64, read: Option<Stored>,
                         requested: int64,
                         now: int, net: Net, pods: Option<seq<Pod>>)
      returns (ok: bool)
      requires Valid()
      modifies this, fd, proc, api
      ensures var granted := GrantFor(old(api.stored), LeaseKey(ns, kind), leaser, nodeID, read, requested, net);
              Value() == Synced(old(Value()), kind, ns, EffectiveLimit(limit, granted), pods)
      ensures api.stored == StoredAfterRequest(old(api.stored), LeaseKey(ns, kind), leaser, nodeID, read, requested, net)
      ensures api.heartbeats
           == BeatsAfterRequest(old(api.heartbeats), old(api.stored), LeaseKey(ns, kind), leaser, nodeID, read, requested, now, net)
      ensures OwnKey(ns, kind) && GetsThrough(old(api.stored), ns, leaser, nodeID, read, net) ==>
                && ns in api.stored && api.stored == old(api.stored)[ns := api.stored[ns]]
                && ns in Value().Maps(kind).nsLimit
                && exists granted: int64 :: Served(old(api.stored)[ns], api.stored[ns], kind, nodeID, requested, granted)
                                     && Value().Maps(kind).nsLimit[ns] == ToU64(if granted > 0 then granted else limit)
      ensures OwnKey(ns, kind) && GetsThrough(old(api.stored), ns, leaser, nodeID, read, net) ==>
                api.heartbeats == if kind == FD && net.lease && ((ns, nodeID) in old(api.heartbeats) ==> net.found)
                                  then old(api.heartbeats)[(ns, nodeID) := now] else old(api.heartbeats)
      ensures leaser.None? || leaser.value.nodeID != nodeID || read.None? ==>
                && api.stored == old(api.stored) && api.heartbeats == old(api.heartbeats)
                && ns in Value().Maps(kind).nsLimit && Value().Maps(kind).nsLimit[ns] == ToU64(limit)
      ensures ok == pods.Some?
    {
      hide GrantFor, StoredAfterRequest, BeatsAfterRequest, Synced, Served, GetsThrough;
      if OwnKey(ns, kind) && GetsThrough(api.stored, ns, leaser, nodeID, read, net) {
        RequestServes(api.stored, ns, kind, leaser, nodeID, read, requested, net);
        RequestRenews(api.heartbeats, api.stored, ns, kind, leaser, nodeID, read, requested, now, net);
      }
      NobodyServes(api.heartbeats, api.stored, LeaseKey(ns, kind), leaser, nodeID, read, requested, now, net);
      ghost var expected := GrantFor(api.stored, LeaseKey(ns, kind), leaser, nodeID, read, requested, net);
      SyncSetsLimit(Value(), kind, ns, EffectiveLimit(limit, expected), pods);
      var granted := RequestCredits(api, LeaseKey(ns, kind), read, requested, now, net);
      ok := EnforceAndMap(kind, ns, limit, granted, pods);
    }

    /** The part of a sync that follows the request. */
    method EnforceAndMap(kind: Kind, ns: Namespace, limit: int64, granted: Option<int64>, pods: Option<seq<Pod>>)
      returns (ok: bool)
      requires Valid()
      modifies this, fd, proc
      ensures Value() == Synced(old(Value()), kind, ns, EffectiveLimit(limit, granted), pods)
      ensures ok == pods.Some?
    {
      hide MapStep, MapRun, Binds, LiveCgroups, WithPaths, Ids, SyncEvents;
      var effectiveLimit := limit;
      if granted.Some? && granted.value > 0 {
        effectiveLimit := granted.value;
      }
      var maps := if kind.FD? then fd else proc;
      ghost var k0 := maps.Value();
      maps.Update(SetLimit(ns, effectiveLimit));
      maps.Update(Reslice(ns, effectiveLimit));
      ghost var k := maps.Value();
      SyncStart(k0, kind, ns, effectiveLimit);
      if pods.None? {
        return false;
      }
      nsNames := nsNames + {ns};
      var known: set<CgroupId> := {};
      NothingMapped(k, kind, ns, cgroupPaths);
      assert pods.value[..0] == [];
      for p := 0 to |pods.value|
        invariant maps.Value() == MapRun(k, kind, Binds(LiveCgroups(pods.value[..p]), ns))
        invariant (if kind.FD? then proc.Value() else fd.Value()) == old(if kind.FD? then proc.Value() else fd.Value())
        invariant nsCgroups == old(nsCgroups) && nsNames == old(nsNames) + {ns}
        invariant known == Ids(LiveCgroups(pods.value[..p]))
        invariant cgroupPaths == WithPaths(old(cgroupPaths), LiveCgroups(pods.value[..p]))
      {
        var pod := pods.value[p];
        LiveCgroupsStep(pods.value, p);
        if !pod.finished && pod.cgroups.Some? {
          MappedInTurn(k, kind, ns, old(cgroupPaths), LiveCgroups(pods.value[..p]), pod.cgroups.value);
          known := BindCgroups(maps, ns, pod.cgroups.value, known);
        }
      }
      assert pods.value[..|pods.value|] == pods.value;
      nsCgroups := nsCgroups[ns := known];
      SyncRuns(k0, kind, ns, effectiveLimit, LiveCgroups(pods.value));
      return true;
    }

    /** Maps the cgroups of one pod and remembers their paths. */
    method BindCgroups(maps: EnforcerMaps, ns: Namespace, infos: seq<CgroupInfo>, before: set<CgroupId>)
      returns (known: set<CgroupId>)
      modifies maps, this`cgroupPaths
      ensures maps.Value() == MapRun(old(maps.Value()), maps.kind, Binds(infos, ns))
      ensures known == before + Ids(infos)
      ensures cgroupPaths == WithPaths(old(cgroupPaths), infos)
    {
      hide MapStep, MapRun, Binds, Ids, WithPaths;
      known := before;
      NothingMapped(maps.Value(), maps.kind, ns, cgroupPaths);
      assert infos[..0] == [];
      for i := 0 to |infos|
        invariant maps.Value() == MapRun(old(maps.Value()), maps.kind, Binds(infos[..i], ns))
        invariant known == before + Ids(infos[..i])
        invariant cgroupPaths == WithPaths(old(cgroupPaths), infos[..i])
      {
        OneMoreCgroup(old(maps.Value()), maps.kind, ns, old(cgroupPaths), infos[..i], infos[i]);
        assert infos[..i] + [infos[i]] == infos[..i + 1];
        maps.Update(Bind(infos[i].id, ns));
        known := known + {infos[i].id};
        cgroupPaths := cgroupPaths[infos[i].id := infos[i].path];
      }
      assert infos[..|infos|] == infos;
    }

    /** Gives back the credits of one side of a namespace. */
    method ReleaseCredits(api: ApiServer, key: string, read: Option<Stored>, net: Net)
      modifies api
      ensures api.stored == if leaser.None? then old(api.stored) else StoredAfterRelease(old(api.stored), key, nodeID, read, net)
      ensures api.heartbeats == if leaser.None? then old(api.heartbeats)
                                else BeatsAfterRelease(old(api.heartbeats), old(api.stored), key, leaser.value, nodeID, read, net)
    {
      hide AfterWrite, Reply, PlanRelease, SplitProc;
      if leaser.Some? {
        var copy: Option<ObjectQuota> := None;
        if read.Some? {
          var quota := new ObjectQuota(read.value);
          copy := Some(quota);
        }
        var _ := leaser.value.ReleaseLease(api, copy, key, nodeID, net);
      }
    }

    /** Gives back the credits of both sides and only then takes the namespace out of the
        kernel maps and the tables. */
    method RemoveNamespace(api: ApiServer, ns: Namespace, fdRead: Option<Stored>, fdNet: Net,
                           procRead: Option<Stored>, procNet: Net)
      requires Valid()
      modifies this, fd, proc, api
      ensures Value() == Removed(old(Value()), ns)
      ensures api.stored == if leaser.None? then old(api.stored) else
                StoredAfterRelease(StoredAfterRelease(old(api.stored), LeaseKey(ns, FD), nodeID, fdRead, fdNet),
                                   LeaseKey(ns, Proc), nodeID, procRead, procNet)
      ensures api.heartbeats == if leaser.None? then old(api.heartbeats) else
                var stored := StoredAfterRelease(old(api.stored), LeaseKey(ns, FD), nodeID, fdRead, fdNet);
                BeatsAfterRelease(BeatsAfterRelease(old(api.heartbeats), old(api.stored), LeaseKey(ns, FD), leaser.value,
                                                    nodeID, fdRead, fdNet),
                                  stored, LeaseKey(ns, Proc), leaser.value, nodeID, procRead, procNet)
      ensures OwnKey(ns, FD) && GetsThrough(old(api.stored), ns, leaser, nodeID, fdRead, fdNet)
              && procNet.update && procRead.Some? && ReadAfterRelease(old(api.stored)[ns], procRead.value, nodeID) ==>
                && ns in api.stored && api.stored == old(api.stored)[ns := api.stored[ns]]
                && GaveBack(old(api.stored)[ns].quota, api.stored[ns].quota, nodeID)
                && api.heartbeats == if nodeID in old(api.stored)[ns].quota.fd && fdNet.lease
                                     then old(api.heartbeats) - {(ns, nodeID)} else old(api.heartbeats)
    {
      hide StoredAfterRelease, BeatsAfterRelease, Removed, GaveBack, ReadAfterRelease;
      if OwnKey(ns, FD) && GetsThrough(api.stored, ns, leaser, nodeID, fdRead, fdNet)
         && procNet.update && procRead.Some? && ReadAfterRelease(api.stored[ns], procRead.value, nodeID) {
        RemovalGivesBack(api.stored, ns, nodeID, fdRead.value, fdNet, procRead.value, procNet);
        RemovalDropsHeartbeat(api.heartbeats, api.stored, ns, leaser.value, nodeID, fdRead.value, fdNet,
                              StoredAfterRelease(api.stored, LeaseKey(ns, FD), nodeID, fdRead, fdNet), procRead, procNet);
      }
      ReleaseCredits(api, LeaseKey(ns, FD), fdRead, fdNet);
      ReleaseCredits(api, LeaseKey(ns, Proc), procRead, procNet);
      Purge(ns);
    }

    /** Takes a namespace out of the kernel maps and the tables. */
    method Purge(ns: Namespace)
      requires Valid()
      modifies this, fd, proc
      ensures Value() == Removed(old(Value()), ns)
    {
      hide MapStep, Purged;
      OneMorePurged(fd.Value(), FD, ns, {}, 0);
      OneMorePurged(proc.Value(), Proc, ns, {}, 0);
      fd.Update(DropLimit(ns));
      fd.Update(DropCounter(ns));
      proc.Update(DropLimit(ns));
      proc.Update(DropCounter(ns));
      if ns in nsCgroups {
        var ids := nsCgroups[ns];
        var todo := ids;
        assert ids - todo == {};
        assert cgroupPaths - {} == cgroupPaths;
        while todo != {}
          invariant todo <= ids
          invariant fd.Value() == Purged(old(fd.Value()), ns, ids - todo)
          invariant proc.Value() == Purged(old(proc.Value()), ns, ids - todo)
          invariant nsCgroups == old(nsCgroups) && nsNames == old(nsNames)
          invariant cgroupPaths == old(cgroupPaths) - (ids - todo)
          decreases todo
        {
          var cgid :| cgid in todo;
          OneMorePurged(old(fd.Value()), FD, ns, ids - todo, cgid);
          OneMorePurged(old(proc.Value()), Proc, ns, ids - todo, cgid);
          assert ids - (todo - {cgid}) == ids - todo + {cgid};
          fd.Update(Unbind(cgid));
          proc.Update(Unbind(cgid));
          cgroupPaths := cgroupPaths - {cgid};
          todo := todo - {cgid};
        }
        assert ids - todo == ids;
        nsCgroups := nsCgroups - {ns};
      } else {
        assert nsCgroups - {ns} == nsCgroups;
        assert cgroupPaths - {} == cgroupPaths;
      }
      nsNames := nsNames - {ns};
    }

    /** The part of the scanner that holds the lock. It writes to the tracked set of
        a namespace that may have been removed since the scan began: then that
        write is to a nil map and the process panics. */
    method MapScanned(ns: Namespace, existing: set<CgroupId>, infos: seq<CgroupInfo>) returns (panicked: bool)
      requires Valid()
      modifies this, fd, proc
      ensures panicked <==> ns !in old(nsCgroups) && !(Ids(infos) <= existing)
      ensures !panicked ==> Value() == if ns in old(nsCgroups) then Scanned(old(Value()), ns, existing, infos) else old(Value())
    {
      hide MapStep, Scanned, Ids;
      var known := existing;
      NothingScanned(Value(), ns, existing, infos);
      for i := 0 to |infos|
        invariant known == existing + Ids(infos[..i])
        invariant (ns in nsCgroups) == (ns in old(nsCgroups))
        invariant ns in old(nsCgroups) ==> Value() == Scanned(old(Value()), ns, existing, infos[..i])
        invariant ns !in old(nsCgroups) ==> Ids(infos[..i]) <= existing && Value() == old(Value())
      {
        ScannedStep(old(Value()), ns, existing, infos, i);
        var info := infos[i];
        if info.id !in known {
          fd.Update(Bind(info.id, ns));
          proc.Update(Bind(info.id, ns));
          if ns !in nsCgroups {
            return true;
          }
          nsCgroups := nsCgroups[ns := nsCgroups[ns] + {info.id}];
          cgroupPaths := cgroupPaths[info.id := info.path];
          known := known + {info.id};
        }
      }
      assert infos[..|infos|] == infos;
      return false;
    }

    /** Returns the path whose processes are killed, if any. */
    method HandleBreachEvent(event: Breach) returns (killed: Option<string>)
      ensures killed == UserKill(Value(), event)
    {
      if event.ns !in nsNames {
        return None;
      }
      var topCgid := event.topCgid;
      if topCgid == 0 || topCgid == event.cgid {
        return None;
      }
      if topCgid !in cgroupPaths {
        return None;
      }
      return Some(cgroupPaths[topCgid]);
    }
  }

  lemma SyncStart(k: Kernel, kind: Kind, ns: Namespace, limit: int64)
    ensures MapRun(k, kind, SyncEvents(ns, limit, [])) == MapStep(MapStep(k, kind, SetLimit(ns, limit)), kind, Reslice(ns, limit))
  {
    hide MapStep;
    assert SyncEvents(ns, limit, []) == [SetLimit(ns, limit), Reslice(ns, limit)];
    assert [SetLimit(ns, limit), Reslice(ns, limit)][..1] == [SetLimit(ns, limit)];
    assert [SetLimit(ns, limit)][..0] == [];
    assert MapRun(k, kind, [SetLimit(ns, limit)]) == MapStep(MapRun(k, kind, []), kind, SetLimit(ns, limit));
  }

  lemma {:induction false} BindsKeepLimits(k: Kernel, kind: Kind, infos: seq<CgroupInfo>, ns: Namespace)
    ensures MapRun(k, kind, Binds(infos, ns)).nsLimit == k.nsLimit
  {
    if infos == [] {
      NothingMapped(k, kind, ns, map[]);
    } else {
      var init, last := infos[..|infos| - 1], infos[|infos| - 1];
      assert infos == init + [last];
      BindsKeepLimits(k, kind, init, ns);
      OneMoreCgroup(k, kind, ns, map[], init, last);
    }
  }

  lemma SyncSetsLimit(t: Tables, kind: Kind, ns: Namespace, limit: int64, pods: Option<seq<Pod>>)
    ensures var k := Synced(t, kind, ns, limit, pods).Maps(kind);
            ns in k.nsLimit && k.nsLimit[ns] == ToU64(limit)
  {
    hide MapRun, SyncEvents, LiveCgroups, WithPaths;
    var infos := if pods.Some? then LiveCgroups(pods.value) else [];
    SyncRuns(t.Maps(kind), kind, ns, limit, infos);
    SyncStart(t.Maps(kind), kind, ns, limit);
    BindsKeepLimits(MapRun(t.Maps(kind), kind, SyncEvents(ns, limit, [])), kind, infos, ns);
  }

  lemma NothingMapped(k: Kernel, kind: Kind, ns: Namespace, paths: map<CgroupId, string>)
    ensures LiveCgroups([]) == [] && Ids([]) == {} && WithPaths(paths, []) == paths
    ensures MapRun(k, kind, Binds([], ns)) == k
  {
  }

  lemma LiveCgroupsStep(pods: seq<Pod>, p: nat)
    requires p < |pods|
    ensures LiveCgroups(pods[..p + 1])
         == LiveCgroups(pods[..p]) + (if pods[p].finished || pods[p].cgroups.None? then [] else pods[p].cgroups.value)
    ensures pods[p].finished || pods[p].cgroups.None? ==> LiveCgroups(pods[..p + 1]) == LiveCgroups(pods[..p])
  {
    assert pods[..p + 1][..p] == pods[..p];
  }

  /** Mapping the cgroups of two pods in turn is mapping them all. */
  lemma {:induction false} MappedInTurn(k: Kernel, kind: Kind, ns: Namespace, paths: map<CgroupId, string>,
                                        infos: seq<CgroupInfo>, more: seq<CgroupInfo>)
    ensures MapRun(k, kind, Binds(infos + more, ns)) == MapRun(MapRun(k, kind, Binds(infos, ns)), kind, Binds(more, ns))
    ensures Ids(infos + more) == Ids(infos) + Ids(more)
    ensures WithPaths(paths, infos + more) == WithPaths(WithPaths(paths, infos), more)
  {
    hide MapStep, MapRun, Ids, Binds, WithPaths;
    if more == [] {
      assert infos + more == infos;
      NothingMapped(MapRun(k, kind, Binds(infos, ns)), kind, ns, WithPaths(paths, infos));
    } else {
      var init, last := more[..|more| - 1], more[|more| - 1];
      assert infos + more == infos + init + [last] && more == init + [last];
      MappedInTurn(k, kind, ns, paths, infos, init);
      OneMoreCgroup(k, kind, ns, paths, infos + init, last);
      OneMoreCgroup(MapRun(k, kind, Binds(infos, ns)), kind, ns, WithPaths(paths, infos), init, last);
    }
  }

  lemma {:induction false} MapRunConcat(k: Kernel, kind: Kind, es: seq<MapEvent>, fs: seq<MapEvent>)
    ensures MapRun(k, kind, es + fs) == MapRun(MapRun(k, kind, es), kind, fs)
  {
    hide MapStep;
    if fs == [] {
      assert es + fs == es;
    } else {
      assert (es + fs)[..|es + fs| - 1] == es + fs[..|fs| - 1];
      MapRunConcat(k, kind, es, fs[..|fs| - 1]);
    }
  }

  lemma SyncRuns(k: Kernel, kind: Kind, ns: Namespace, limit: int64, infos: seq<CgroupInfo>)
    ensures MapRun(k, kind, SyncEvents(ns, limit, infos))
         == MapRun(MapRun(k, kind, SyncEvents(ns, limit, [])), kind, Binds(infos, ns))
  {
    hide MapStep;
    assert SyncEvents(ns, limit, []) == [SetLimit(ns, limit), Reslice(ns, limit)];
    MapRunConcat(k, kind, [SetLimit(ns, limit), Reslice(ns, limit)], Binds(infos, ns));
  }

  lemma OneMoreCgroup(k: Kernel, kind: Kind, ns: Namespace, paths: map<CgroupId, string>, infos: seq<CgroupInfo>,
                      info: CgroupInfo)
    ensures Binds(infos + [info], ns) == Binds(infos, ns) + [Bind(info.id, ns)]
    ensures MapRun(k, kind, Binds(infos + [info], ns)) == MapStep(MapRun(k, kind, Binds(infos, ns)), kind, Bind(info.id, ns))
    ensures Ids(infos + [info]) == Ids(infos) + {info.id}
    ensures WithPaths(paths, infos + [info]) == WithPaths(paths, infos)[info.id := info.path]
  {
    hide MapStep;
    assert (infos + [info])[..|infos|] == infos;
    assert (Binds(infos, ns) + [Bind(info.id, ns)])[..|Binds(infos, ns)|] == Binds(infos, ns);
    forall c | c in Ids(infos) + {info.id} ensures c in Ids(infos + [info]) {
      if c in Ids(infos) {
        var i :| i in infos && i.id == c;
        assert i in infos + [info];
      } else {
        assert info in infos + [info];
      }
    }
  }

  lemma NothingScanned(t: Tables, ns: Namespace, known: set<CgroupId>, infos: seq<CgroupInfo>)
    ensures Ids(infos[..0]) == {} && (ns in t.nsCgroups ==> Scanned(t, ns, known, infos[..0]) == t)
  {
  }

  lemma ScannedStep(t: Tables, ns: Namespace, known: set<CgroupId>, infos: seq<CgroupInfo>, i: nat)
    requires i < |infos|
    ensures Ids(infos[..i + 1]) == Ids(infos[..i]) + {infos[i].id} && infos[i].id in Ids(infos)
    ensures ns in t.nsCgroups ==>
              var before, info := Scanned(t, ns, known, infos[..i]), infos[i];
              Scanned(t, ns, known, infos[..i + 1]) ==
              if info.id in known + Ids(infos[..i]) then before
              else before.(fd := MapStep(before.fd, FD, Bind(info.id, ns)),
                           proc := MapStep(before.proc, Proc, Bind(info.id, ns)),
                           nsCgroups := before.nsCgroups[ns := before.nsCgroups[ns] + {info.id}],
                           cgroupPaths := before.cgroupPaths[info.id := info.path])
  {
    hide MapStep;
    assert infos[..i + 1][..i] == infos[..i];
    OneMoreCgroup(Kernel(map[], map[], map[], map[]), FD, ns, map[], infos[..i], infos[i]);
    assert infos[..i] + [infos[i]] == infos[..i + 1];
  }

  lemma OneMorePurged(k: Kernel, kind: Kind, ns: Namespace, ids: set<CgroupId>, cgid: CgroupId)
    ensures MapStep(Purged(k, ns, ids), kind, Unbind(cgid)) == Purged(k, ns, ids + {cgid})
    ensures MapStep(MapStep(k, kind, DropLimit(ns)), kind, DropCounter(ns)) == Purged(k, ns, {})
  {
  }
}
