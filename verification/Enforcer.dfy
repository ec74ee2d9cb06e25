/** The kernel side: one set of maps per kind of resource, and the hooks that count
    installs and closes (for descriptors) or clones and exits (for processes). */
module Enforcer {

  import opened Basics
  import opened QuotaLedger

  type CgroupId = nat
  type Namespace = string

  datatype CpuLease = CpuLease(
    count: nat,
    leaseBudget: nat,
    lastUsedNs: nat,
    topCgid: CgroupId,
    topCount: nat)

  datatype Breach = Breach(ns: Namespace, cgid: CgroupId, reason: Kind, topCgid: CgroupId)

  /** The kernel maps of one kind. A namespace stands for its key: the keys of the
      namespaces in use are taken to be distinct. */
  datatype Kernel = Kernel(
    cgroupNs: map<CgroupId, Namespace>,
    cgroupCount: map<CgroupId, nat>,
    nsLimit: map<Namespace, nat>,
    nsCounter: map<Namespace, CpuLease>)
  {
    function Count(cgid: CgroupId): nat {
      if cgid in cgroupCount then cgroupCount[cgid] else 0
    }

    predicate Bound(cgid: CgroupId, ns: Namespace) {
      cgid in cgroupNs && cgroupNs[cgid] == ns
    }

    /** The namespace's installs are checked: it has a limit that is not 0 and a counter. */
    predicate Enforces(ns: Namespace) {
      ns in nsLimit && nsLimit[ns] != 0 && ns in nsCounter
    }
  }

  datatype Verdict = Uncounted | Admitted | Refused(event: Breach)

  /** A tenth of the limit, held within 10..100. */
  function SliceStep(limit: nat): nat {
    var step := limit / 10;
    if step < 10 then 10 else if step > 100 then 100 else step
  }

  /** The budget after one slice more, in unsigned 64-bit arithmetic. */
  function Grown(budget: nat, limit: nat): nat {
    var grown := (budget + SliceStep(limit)) % TWO64;
    if grown <= limit then grown else limit
  }

  /** The first slice a sync hands out. */
  function FirstSlice(limit: int64): nat {
    ToU64(if limit > 100 then limit / 10 else limit)
  }

  /** The two checks of an install against the lease, and the count. */
  function Attempt(l: CpuLease, limit: nat): (CpuLease, bool) {
    if l.count >= limit then (l, false)
    else if l.count >= l.leaseBudget then
      var g := l.(leaseBudget := Grown(l.leaseBudget, limit));
      if g.count >= g.leaseBudget then (g, false) else (g.(count := g.count + 1), true)
    else (l.(count := l.count + 1), true)
  }

  /** The bookkeeping before the checks: the top consumer and the time. */
  function Noted(l: CpuLease, cgid: CgroupId, cgCount: nat, now: nat): CpuLease {
    (if cgCount > l.topCount then l.(topCgid := cgid, topCount := cgCount) else l).(lastUsedNs := now)
  }

  /** An install (or clone) by a process in the cgroup. */
  function OnInstall(k: Kernel, kind: Kind, cgid: CgroupId, now: nat): (Kernel, Verdict) {
    if cgid !in k.cgroupNs then (k, Uncounted)
    else
      var ns := k.cgroupNs[cgid];
      var k1 := k.(cgroupCount := k.cgroupCount[cgid := k.Count(cgid) + 1]);
      if !k.Enforces(ns) then (k1, Uncounted)
      else
        var noted := Noted(k.nsCounter[ns], cgid, k.Count(cgid) + 1, now);
        var (l, admitted) := Attempt(noted, k.nsLimit[ns]);
        (k1.(nsCounter := k.nsCounter[ns := l]),
         if admitted then Admitted else Refused(Breach(ns, cgid, kind, noted.topCgid)))
  }

  /** The kernel kills the process that triggered a breach if its own cgroup is
      the top consumer. */
  predicate Signals(v: Verdict) {
    v.Refused? && v.event.cgid == v.event.topCgid
  }

  /** A counted close (or exit) by a process in the cgroup. */
  function OnClose(k: Kernel, cgid: CgroupId, now: nat): Kernel {
    var k1 := if k.Count(cgid) > 0 then k.(cgroupCount := k.cgroupCount[cgid := k.Count(cgid) - 1]) else k;
    if cgid in k.cgroupNs && k.cgroupNs[cgid] in k.nsCounter && k.nsCounter[k.cgroupNs[cgid]].count > 0 then
      var l := k.nsCounter[k.cgroupNs[cgid]];
      k1.(nsCounter := k.nsCounter[k.cgroupNs[cgid] := l.(count := l.count - 1, lastUsedNs := now)])
    else k1
  }

  /** What happens to the maps of one kind: the hooks, and the single map
      operations that syncs and removals are made of. */
  datatype MapEvent =
    | Install(cgid: CgroupId, now: nat)
    | Close(cgid: CgroupId, now: nat)
    | SetLimit(ns: Namespace, limit: int64)
    | Reslice(ns: Namespace, limit: int64)
    | Bind(cgid: CgroupId, ns: Namespace)
    | DropLimit(ns: Namespace)
    | DropCounter(ns: Namespace)
    | Unbind(cgid: CgroupId)

  function MapStep(k: Kernel, kind: Kind, e: MapEvent): Kernel {
    match e
    case Install(cgid, now) => OnInstall(k, kind, cgid, now).0
    case Close(cgid, now) => OnClose(k, cgid, now)
    case SetLimit(ns, limit) => k.(nsLimit := k.nsLimit[ns := ToU64(limit)])
    case Reslice(ns, limit) =>
      k.(nsCounter := k.nsCounter[ns := if ns in k.nsCounter then k.nsCounter[ns].(leaseBudget := FirstSlice(limit))
                                        else CpuLease(0, FirstSlice(limit), 0, 0, 0)])
    case Bind(cgid, ns) => k.(cgroupNs := k.cgroupNs[cgid := ns])
    case DropLimit(ns) => k.(nsLimit := k.nsLimit - {ns})
    case DropCounter(ns) => k.(nsCounter := k.nsCounter - {ns})
    case Unbind(cgid) => k.(cgroupNs := k.cgroupNs - {cgid}, cgroupCount := k.cgroupCount - {cgid})
  }

  function MapRun(k: Kernel, kind: Kind, es: seq<MapEvent>): Kernel {
    if es == [] then k else MapStep(MapRun(k, kind, es[..|es| - 1]), kind, es[|es| - 1])
  }

  /** The maps as the hooks and the syncer change them. */
  class EnforcerMaps {
    const kind: Kind
    var cgroupNs: map<CgroupId, Namespace>
    var cgroupCount: map<CgroupId, nat>
    var nsLimit: map<Namespace, nat>
    var nsCounter: map<Namespace, CpuLease>

    constructor (kind: Kind)
      ensures Value() == Kernel(map[], map[], map[], map[]) && this.kind == kind
    {
      this.kind := kind;
      cgroupNs, cgroupCount, nsLimit, nsCounter := map[], map[], map[], map[];
    }

    function Value(): Kernel
      reads this
    {
      Kernel(cgroupNs, cgroupCount, nsLimit, nsCounter)
    }

    method RecordInc(cgid: CgroupId)
      modifies this`cgroupCount
      ensures cgroupCount == old(cgroupCount)[cgid := old(Value()).Count(cgid) + 1]
    {
      if cgid !in cgroupCount {
        cgroupCount := cgroupCount[cgid := 1];
      } else {
        cgroupCount := cgroupCount[cgid := cgroupCount[cgid] + 1];
      }
    }

    method RecordDec(cgid: CgroupId)
      modifies this`cgroupCount
      ensures cgroupCount == if old(Value()).Count(cgid) > 0 then old(cgroupCount)[cgid := old(Value()).Count(cgid) - 1]
                             else old(cgroupCount)
    {
      if cgid in cgroupCount && cgroupCount[cgid] > 0 {
        cgroupCount := cgroupCount[cgid := cgroupCount[cgid] - 1];
      }
    }

    /** Adds one slice to the budget of a lease, up to the limit. */
    method GrowSlice(lease: CpuLease, limit: nat) returns (l: CpuLease)
      ensures l == lease.(leaseBudget := Grown(lease.leaseBudget, limit))
    {
      l := lease;
      var step := limit / 10;
      if step < 10 {
        step := 10;
      }
      if step > 100 {
        step := 100;
      }
      if (l.leaseBudget + step) % TWO64 <= limit {
        l := l.(leaseBudget := (l.leaseBudget + step) % TWO64);
      } else {
        l := l.(leaseBudget := limit);
      }
    }

    /** Counts one more install against a lease, or refuses it. */
    method Charge(lease: CpuLease, limit: nat) returns (l: CpuLease, admitted: bool)
      ensures (l, admitted) == Attempt(lease, limit)
      ensures l.topCgid == lease.topCgid
    {
      l := lease;
      if l.count >= limit {
        return l, false;
      }
      if l.count >= l.leaseBudget {
        l := GrowSlice(l, limit);
        if l.count >= l.leaseBudget {
          return l, false;
        }
      }
      l := l.(count := l.count + 1);
      return l, true;
    }

    /** Returns 0 to let the process go on, 1 to kill it, and 2 to leave the
        killing to userspace; with 1 and 2 comes an event. */
    method OverLimit(cgid: CgroupId, now: nat) returns (ret: int, event: Option<Breach>)
      modifies this
      ensures var (k, v) := OnInstall(old(Value()), kind, cgid, now);
              && Value() == k
              && event == (if v.Refused? then Some(v.event) else None)
              && ret == (if !v.Refused? then 0 else if Signals(v) then 1 else 2)
    {
      if cgid !in cgroupNs {
        return 0, None;
      }
      hide Attempt;
      var ns := cgroupNs[cgid];
      RecordInc(cgid);
      if ns !in nsLimit || nsLimit[ns] == 0 {
        return 0, None;
      }
      var limit := nsLimit[ns];
      if ns !in nsCounter {
        return 0, None;
      }
      var lease := nsCounter[ns];
      if cgroupCount[cgid] > lease.topCount {
        lease := lease.(topCgid := cgid);
        lease := lease.(topCount := cgroupCount[cgid]);
      }
      lease := lease.(lastUsedNs := now);
      assert lease == Noted(old(nsCounter[ns]), cgid, cgroupCount[cgid], now);
      var admitted: bool;
      lease, admitted := Charge(lease, limit);
      nsCounter := nsCounter[ns := lease];
      if admitted {
        return 0, None;
      }
      return (if cgid == lease.topCgid then 1 else 2), Some(Breach(ns, cgid, kind, lease.topCgid));
    }

    /** The install and clone hooks: `killed` says that the process got a SIGKILL. */
    method TrackInstall(cgid: CgroupId, now: nat) returns (killed: bool, event: Option<Breach>)
      modifies this
      ensures var (k, v) := OnInstall(old(Value()), kind, cgid, now);
              && Value() == k
              && event == (if v.Refused? then Some(v.event) else None)
              && killed == Signals(v)
    {
      var ret: int;
      ret, event := OverLimit(cgid, now);
      killed := ret == 1;
    }

    /** The close hook: only the last reference to an existing file counts. */
    method TrackClose(refs: Option<int>, cgid: CgroupId, now: nat)
      modifies this
      ensures Value() == if refs.Some? && refs.value <= 1 then OnClose(old(Value()), cgid, now) else old(Value())
    {
      if refs.None? {
        return;
      }
      if refs.value > 1 {
        return;
      }
      CountDown(cgid, now);
    }

    /** The exit hook. */
    method TrackExit(cgid: CgroupId, now: nat)
      modifies this
      ensures Value() == OnClose(old(Value()), cgid, now)
    {
      CountDown(cgid, now);
    }

    method CountDown(cgid: CgroupId, now: nat)
      modifies this
      ensures Value() == OnClose(old(Value()), cgid, now)
    {
      RecordDec(cgid);
      if cgid !in cgroupNs {
        return;
      }
      var ns := cgroupNs[cgid];
      if ns !in nsCounter || nsCounter[ns].count == 0 {
        return;
      }
      var lease := nsCounter[ns];
      lease := lease.(count := lease.count - 1);
      lease := lease.(lastUsedNs := now);
      nsCounter := nsCounter[ns := lease];
    }

    /** One map operation of the syncer. */
    method Update(e: MapEvent)
      modifies this
      ensures Value() == MapStep(old(Value()), kind, e)
    {
      match e
      case Install(cgid, now) => var _, _ := OverLimit(cgid, now);
      case Close(cgid, now) => CountDown(cgid, now);
      case SetLimit(ns, limit) => nsLimit := nsLimit[ns := ToU64(limit)];
      case Reslice(ns, limit) => ResetCounter(ns, limit);
      case Bind(cgid, ns) => cgroupNs := cgroupNs[cgid := ns];
      case DropLimit(ns) => nsLimit := nsLimit - {ns};
      case DropCounter(ns) => nsCounter := nsCounter - {ns};
      case Unbind(cgid) =>
        cgroupCount := cgroupCount - {cgid};
        cgroupNs := cgroupNs - {cgid};
    }

    /** Hands out the first slice; an existing counter keeps its count. */
    method ResetCounter(ns: Namespace, limit: int64)
      modifies this`nsCounter
      ensures Value() == MapStep(old(Value()), kind, Reslice(ns, limit))
    {
      var microSlice := ToU64(limit);
      if limit > 100 {
        microSlice := ToU64(limit / 10);
      }
      if ns in nsCounter {
        nsCounter := nsCounter[ns := nsCounter[ns].(leaseBudget := microSlice)];
      } else {
        nsCounter := nsCounter[ns := CpuLease(0, microSlice, 0, 0, 0)];
      }
    }
  }
}
