/** The lease manager of one node: the object it has read is changed in place and
    written back, and the write is accepted only if nobody wrote in between. */
module LeaseManager {

  import opened Basics
  import opened MapSum
  import opened QuotaLedger

  /** Seconds a heartbeat stays fresh, in nanoseconds. */
  const LEASE_DURATION: int := 60_000_000_000

  const DEFAULT_BATCH: int64 := 1000

  datatype Error = WrongNode | ReadFailed | WriteFailed

  datatype Result<+T> = Ok(value: T) | Err(error: Error)

  /** How the calls of one operation fare: whether the status update arrives, whether
      the Get of the node's own Lease finds it if it is there, and whether the
      write to the Lease that follows goes through. */
  datatype Net = Net(update: bool, found: bool, lease: bool)

  /** What the API server keeps: the object and its hidden resource version. */
  datatype Stored = Stored(quota: Quota, resourceVersion: nat)

  /** One element of a listing of Lease objects. */
  datatype LeaseItem = LeaseItem(holder: Option<string>, renewTime: Option<int>)
  {
    predicate Fresh(now: int) {
      renewTime.Some? && now - renewTime.value < LEASE_DURATION && holder.Some?
    }
  }

  function ActiveHolders(items: seq<LeaseItem>, now: int): set<string> {
    set i | 0 <= i < |items| && items[i].Fresh(now) :: items[i].holder.value
  }

  /** A heartbeat counts until it is 60 s old, in nanoseconds, and not from then on; one
      without a holder or a renew time never counts. */
  lemma HeartbeatsLastAMinute(holder: string, renewed: int)
    ensures ActiveHolders([LeaseItem(Some(holder), Some(renewed))], renewed + 59_999_999_999) == {holder}
    ensures ActiveHolders([LeaseItem(Some(holder), Some(renewed))], renewed + 60_000_000_000) == {}
    ensures ActiveHolders([LeaseItem(None, Some(renewed)), LeaseItem(Some(holder), None)], renewed) == {}
  {
    var items := [LeaseItem(Some(holder), Some(renewed))];
    assert items[0].Fresh(renewed + 59_999_999_999);
  }

  const PROC_SUFFIX := "-proc"

  /** Splits the suffix off that asks for process credits. */
  function SplitProc(ns: string): (string, Kind) {
    if |ns| > 5 && ns[|ns| - 5..] == PROC_SUFFIX then (ns[..|ns| - 5], Proc) else (ns, FD)
  }

  /** The two keys of a namespace reach the two sides of the one object, provided
      its own name does not end in the suffix. */
  lemma KeysReachBothSides(ns: string)
    ensures ns != "" ==> SplitProc(ns + PROC_SUFFIX) == (ns, Proc)
    ensures SplitProc(ns) == (ns, FD) <==> !(|ns| > 5 && ns[|ns| - 5..] == PROC_SUFFIX)
  {
    assert (ns + PROC_SUFFIX)[|ns|..] == PROC_SUFFIX;
    assert (ns + PROC_SUFFIX)[..|ns|] == ns;
  }

  /** A node's own copy of an ObjectQuota. */
  class ObjectQuota {
    const resourceVersion: nat
    var fdLimit: Option<int64>
    var procLimit: Option<int64>
    var fdAllocations: Credits
    var procAllocations: Credits
    var availableFD: int64
    var version: Option<int64>

    constructor (s: Stored)
      ensures Value() == s.quota && resourceVersion == s.resourceVersion
    {
      resourceVersion := s.resourceVersion;
      fdLimit, procLimit := s.quota.fdLimit, s.quota.procLimit;
      fdAllocations, procAllocations := s.quota.fd, s.quota.proc;
      availableFD, version := s.quota.availableFD, s.quota.version;
    }

    function Value(): Quota
      reads this
    {
      Quota(fdLimit, procLimit, fdAllocations, procAllocations, availableFD, version)
    }
  }

  /** The renew times after a heartbeat. A Lease that is found is updated and one
      that is not found is created, which fails if it exists after all. */
  function Renewed(beats: map<(string, string), int>, key: (string, string), now: int, net: Net): map<(string,
                   string), int> {
    if net.lease && (key in beats ==> net.found) then beats[key := now] else beats
  }

  /** The stored objects after a node has carried out its plan. */
  ghost function AfterWrite(stored: map<string, Stored>, ns: string, readAt: nat, plan: Plan, up: bool): map<string,
                            Stored> {
    if plan.Write? && up && ns in stored && stored[ns].resourceVersion == readAt
    then stored[ns := Stored(stored[ns].quota.WithStatus(plan.next), readAt + 1)]
    else stored
  }

  /** What a node is told after it has carried out its plan. */
  ghost function Reply(stored: map<string, Stored>, ns: string, readAt: nat, plan: Plan, up: bool): Result<int64> {
    if plan.Write? && !(up && ns in stored && stored[ns].resourceVersion == readAt) then Err(WriteFailed)
    else Ok(plan.result)
  }

  /** What one tick of the renewal loop gets to see for one listed quota. */
  datatype TickItem = TickItem(ns: string, read: Option<Stored>, listing: Option<seq<LeaseItem>>, now: int, net: Net)

  /** The stored objects after a tick: one reclaim after the other. */
  ghost function StoredAfterTick(stored: map<string, Stored>, self: string, items: seq<TickItem>): map<string, Stored> {
    if items == [] then stored else
    var before, item := StoredAfterTick(stored, self, items[..|items| - 1]), items[|items| - 1];
    if item.read.None? || item.listing.None? then before
    else AfterWrite(before, item.ns, item.read.value.resourceVersion,
                    PlanReclaim(item.read.value.quota, self, ActiveHolders(item.listing.value, item.now)), item.net.update)
  }

  /** The heartbeats after a tick: the node's own are renewed, no other is touched. */
  function BeatsAfterTick(beats: map<(string, string), int>, self: string, items: seq<TickItem>): map<(string,
                          string), int> {
    if items == [] then beats else
    var before, item := BeatsAfterTick(beats, self, items[..|items| - 1]), items[|items| - 1];
    Renewed(before, (item.ns, self), item.now, item.net)
  }

  /** The namespaces of a tick are distinct, and for each of them the current object is
      read, the heartbeats are listed and the update arrives. */
  ghost predicate UpToDate(stored: map<string, Stored>, items: seq<TickItem>) {
    && (forall i, j | 0 <= i < j < |items| :: items[i].ns != items[j].ns)
    && forall item | item in items ::
         && item.ns in stored && item.read == Some(stored[item.ns]) && Sound(stored[item.ns].quota)
         && item.listing.Some? && item.net.update
  }

  /** The other nodes with an entry whose heartbeat is not in the listing, or at least
      60 s old. */
  function Stale(q: Quota, self: string, listing: seq<LeaseItem>, now: int): set<string> {
    set n | n in q.fd.Keys + q.proc.Keys && n != self && !exists i | 0 <= i < |listing| :: Keeps(listing[i], n, now)
  }

  predicate Keeps(item: LeaseItem, node: string, now: int) {
    item.holder == Some(node) && item.renewTime.Some? && now < item.renewTime.value + 60_000_000_000
  }

  /** What reclaiming stale credits makes of a stored object. */
  ghost predicate Reclaimed(before: Stored, after: Stored, stale: set<string>) {
    if stale == {} then after == before else
    var q, q' := before.quota, after.quota;
    && q'.fd == q.fd - stale && q'.proc == q.proc - stale
    && q'.fdLimit == q.fdLimit && q'.procLimit == q.procLimit
    && Balanced(q') && after.resourceVersion == before.resourceVersion + 1
    && VersionNumber(q'.version) == Wrap64(VersionNumber(q.version) + 1)
  }

  /** A tick reclaims in each listed namespace and touches no other. */
  ghost predicate TickReclaims(stored: map<string, Stored>, after: map<string, Stored>, self: string, items: seq<TickItem>) {
    && after.Keys == stored.Keys
    && (forall item | item in items :: item.ns in stored && item.ns in after && item.listing.Some? &&
          Reclaimed(stored[item.ns], after[item.ns], Stale(stored[item.ns].quota, self, item.listing.value, item.now)))
    && (forall ns | ns in stored && (forall item | item in items :: item.ns != ns) :: after[ns] == stored[ns])
  }

  lemma StaleAreInactive(q: Quota, self: string, listing: seq<LeaseItem>, now: int)
    ensures Stale(q, self, listing, now) == (q.fd.Keys + q.proc.Keys) - ActiveHolders(listing, now) - {self}
  {
    forall n ensures (exists i | 0 <= i < |listing| :: Keeps(listing[i], n, now)) <==> n in ActiveHolders(listing, now) {
      if i :| 0 <= i < |listing| && Keeps(listing[i], n, now) {
        assert listing[i].Fresh(now) && listing[i].holder.value == n;
      }
      if n in ActiveHolders(listing, now) {
        var i :| 0 <= i < |listing| && listing[i].Fresh(now) && listing[i].holder.value == n;
        assert Keeps(listing[i], n, now);
      }
    }
  }

  lemma OneReclaim(stored: map<string, Stored>, self: string, item: TickItem)
    requires UpToDate(stored, [item])
    ensures var after := AfterWrite(stored, item.ns, item.read.value.resourceVersion,
                                    PlanReclaim(item.read.value.quota, self, ActiveHolders(item.listing.value, item.now)),
                                    item.net.update);
            && after.Keys == stored.Keys && after == stored[item.ns := after[item.ns]]
            && Reclaimed(stored[item.ns], after[item.ns], Stale(stored[item.ns].quota, self, item.listing.value, item.now))
  {
    hide Stale, Sound;
    assert item in [item];
    var s := stored[item.ns];
    ReclaimRemovesStale(s.quota, self, ActiveHolders(item.listing.value, item.now));
    StaleAreInactive(s.quota, self, item.listing.value, item.now);
    var plan := PlanReclaim(s.quota, self, ActiveHolders(item.listing.value, item.now));
    if plan.Write? {
      assert s.quota.WithStatus(plan.next) == plan.next;
    }
  }

  lemma UpToDateParts(stored: map<string, Stored>, init: seq<TickItem>, last: TickItem)
    requires UpToDate(stored, init + [last])
    ensures UpToDate(stored, init) && UpToDate(stored, [last])
    ensures forall item | item in init :: item.ns != last.ns
  {
    hide Sound;
    var items := init + [last];
    forall i, j | 0 <= i < j < |init| ensures init[i].ns != init[j].ns {
      assert items[i].ns != items[j].ns;
    }
    forall item | item in init ensures item.ns != last.ns && item in items {
      var i :| 0 <= i < |init| && init[i] == item;
      assert items[i].ns != items[|init|].ns;
    }
    assert last in items;
  }

  lemma OneMoreReclaims(stored: map<string, Stored>, before: map<string, Stored>, after: map<string, Stored>, self: string,
                        init: seq<TickItem>, last: TickItem)
    requires TickReclaims(stored, before, self, init) && (forall item | item in init :: item.ns != last.ns)
    requires last.ns in stored && last.listing.Some? && after.Keys == before.Keys && after == before[last.ns := after[last.ns]]
    requires Reclaimed(stored[last.ns], after[last.ns], Stale(stored[last.ns].quota, self, last.listing.value, last.now))
    ensures TickReclaims(stored, after, self, init + [last])
  {
    hide Stale, Reclaimed;
    var items := init + [last];
    forall ns | ns in stored && (forall item | item in items :: item.ns != ns) ensures after[ns] == stored[ns] {
      assert last in items;
      assert forall item | item in init :: item in items;
    }
  }

  /** What the renewal loop does to the stored objects when nothing gets in its way. */
  lemma {:induction false} TicksReclaim(stored: map<string, Stored>, self: string, items: seq<TickItem>)
    requires UpToDate(stored, items)
    ensures TickReclaims(stored, StoredAfterTick(stored, self, items), self, items)
  {
    hide AfterWrite, PlanReclaim, ActiveHolders, Stale, Reclaimed, UpToDate, TickReclaims;
    if items == [] {
      NothingReclaimed(stored, self);
    } else {
      var init, last := items[..|items| - 1], items[|items| - 1];
      assert items == init + [last];
      UpToDateParts(stored, init, last);
      TicksReclaim(stored, self, init);
      var before, after := StoredAfterTick(stored, self, init), StoredAfterTick(stored, self, items);
      NotYetReclaimed(stored, before, self, init, last);
      OneReclaim(before, self, last);
      OneMoreReclaims(stored, before, after, self, init, last);
    }
  }

  lemma NothingReclaimed(stored: map<string, Stored>, self: string)
    ensures TickReclaims(stored, stored, self, [])
  {
  }

  lemma NotYetReclaimed(stored: map<string, Stored>, before: map<string, Stored>, self: string,
                        init: seq<TickItem>, last: TickItem)
    requires TickReclaims(stored, before, self, init) && UpToDate(stored, [last])
    requires forall item | item in init :: item.ns != last.ns
    ensures UpToDate(before, [last]) && before[last.ns] == stored[last.ns]
    ensures last.ns in stored && last.read.Some? && last.listing.Some?
  {
    hide Sound, Reclaimed, Stale;
    assert last in [last];
  }

  /** The calls of this part of a tick go through for the namespace. */
  predicate Reaches(item: TickItem, ns: string) {
    item.ns == ns && item.net.found && item.net.lease
  }

  /** A tick renews the node's heartbeat in every listed namespace it can reach, and
      leaves the heartbeats of all other nodes alone. */
  lemma {:induction false} TickRenewsOwnHeartbeats(beats: map<(string, string), int>, self: string,
                                                   items: seq<TickItem>,
                                                   ns: string, node: string)
    ensures var after := BeatsAfterTick(beats, self, items);
            && (node != self ==> ((ns, node) in after <==> (ns, node) in beats)
                                 && ((ns, node) in beats ==> after[(ns, node)] == beats[(ns, node)]))
            && ((ns, self) in beats ==> (ns, self) in after)
            && ((exists item | item in items :: Reaches(item, ns)) ==>
                  (ns, self) in after && exists item | item in items :: item.ns == ns && after[(ns, self)] == item.now)
            && ((forall item | item in items :: item.ns != ns) ==>
                  ((ns, self) in after <==> (ns, self) in beats) && ((ns, self) in beats ==> after[(ns, self)] == beats[(ns, self)]))
  {
    if items != [] {
      var init, last := items[..|items| - 1], items[|items| - 1];
      assert items == init + [last] && last in items;
      TickRenewsOwnHeartbeats(beats, self, init, ns, node);
      var before, after := BeatsAfterTick(beats, self, init), BeatsAfterTick(beats, self, items);
      if (exists item | item in items :: Reaches(item, ns)) && !(last.ns == ns && after[(ns, self)] == last.now) {
        var item :| item in items && Reaches(item, ns);
        assert item in init;
        var renewed :| renewed in init && renewed.ns == ns && before[(ns, self)] == renewed.now;
        assert renewed in items;
      }
    }
  }

  class ApiServer {
    var stored: map<string, Stored>
    /** Renew times of the Lease objects, by namespace and holder. */
    var heartbeats: map<(string, string), int>

    /** Status().Update: accepted only if the object has not changed since it was read. */
    method UpdateStatus(ns: string, quota: ObjectQuota, up: bool) returns (ok: bool)
      modifies this`stored
      ensures ok == (up && ns in old(stored) && old(stored)[ns].resourceVersion == quota.resourceVersion)
      ensures stored == AfterWrite(old(stored), ns, quota.resourceVersion, Write(quota.Value(), 0), up)
    {
      ok := up && ns in stored && stored[ns].resourceVersion == quota.resourceVersion;
      if ok {
        var current := stored[ns];
        stored := stored[ns := Stored(current.quota.WithStatus(quota.Value()), current.resourceVersion + 1)];
      }
    }
  }

  class K8sLeaseManager {
    const nodeID: string
    const defaultBatch: int64

    constructor (nodeID: string, defaultBatch: int64)
      ensures this.nodeID == nodeID && 0 < this.defaultBatch
      ensures this.defaultBatch == if defaultBatch <= 0 then 1000 else defaultBatch
    {
      this.nodeID := nodeID;
      this.defaultBatch := if defaultBatch <= 0 then DEFAULT_BATCH else defaultBatch;
    }

    /** Creates the heartbeat of this node, or renews it. */
    method EnsureLease(api: ApiServer, ns: string, now: int, net: Net)
      modifies api`heartbeats
      ensures api.heartbeats == Renewed(old(api.heartbeats), (ns, nodeID), now, net)
    {
      var key := (ns, nodeID);
      if key in api.heartbeats && net.found {
        if net.lease {
          api.heartbeats := api.heartbeats[key := now];
        }
      } else if key !in api.heartbeats && net.lease {
        api.heartbeats := api.heartbeats[key := now];
      }
    }

    method DeleteLease(api: ApiServer, ns: string, net: Net)
      modifies api`heartbeats
      ensures api.heartbeats == if net.lease then old(api.heartbeats) - {(ns, nodeID)} else old(api.heartbeats)
    {
      if net.lease {
        api.heartbeats := api.heartbeats - {(ns, nodeID)};
      }
    }

    method ChooseBatch(requested: int64, totalLimit: int64) returns (batch: int64)
      ensures batch == EffectiveBatch(requested, totalLimit, defaultBatch)
    {
      batch := requested;
      if requested <= 0 {
        batch := if totalLimit <= 100 then totalLimit else totalLimit / 10;
        batch := Max(batch, 10);
        batch := Min(batch, defaultBatch);
        batch := Min(batch, totalLimit);
      }
    }

    /** `read` is what the client's Get returned: possibly nothing, possibly an
        object that is no longer the stored one. */
    method RequestLease(api: ApiServer, read: Option<ObjectQuota>, ns: string, node: string,
                        requested: int64, now: int, net: Net)
      returns (r: Result<int64>)
      modifies api, if read.Some? then {read.value} else {}
      ensures node != nodeID ==> r == Err(WrongNode)
      ensures node == nodeID && read.None? ==> r == Err(ReadFailed)
      ensures node != nodeID || read.None? ==> api.stored == old(api.stored) && api.heartbeats == old(api.heartbeats)
      ensures node == nodeID && read.Some? ==>
                var (base, kind) := SplitProc(ns);
                var plan := PlanRequest(old(read.value.Value()), kind, node, requested, defaultBatch);
                && api.stored == AfterWrite(old(api.stored), base, read.value.resourceVersion, plan, net.update)
                && r == Reply(old(api.stored), base, read.value.resourceVersion, plan, net.update)
                && api.heartbeats == if kind.FD? && r.Ok? then Renewed(old(api.heartbeats), (base, nodeID), now, net)
                                     else old(api.heartbeats)
    {
      if node != nodeID {
        return Err(WrongNode);
      }
      if read.None? {
        return Err(ReadFailed);
      }
      var (base, kind) := SplitProc(ns);
      if kind.Proc? {
        r := RequestProc(api, read.value, base, node, requested, net);
      } else {
        r := RequestFD(api, read.value, base, node, requested, now, net);
      }
    }

    method RequestFD(api: ApiServer, quota: ObjectQuota, ns: string, node: string,
                     requested: int64, now: int, net: Net)
      returns (r: Result<int64>)
      modifies api, quota
      ensures var plan := PlanRequest(old(quota.Value()), FD, node, requested, defaultBatch);
              && api.stored == AfterWrite(old(api.stored), ns, quota.resourceVersion, plan, net.update)
              && r == Reply(old(api.stored), ns, quota.resourceVersion, plan, net.update)
              && api.heartbeats == if r.Ok? then Renewed(old(api.heartbeats), (ns, nodeID), now, net) else old(api.heartbeats)
    {
      hide Wrap64, EffectiveBatch, Sum;
      ghost var plan := PlanRequest(quota.Value(), FD, node, requested, defaultBatch);
      if node in quota.fdAllocations && quota.fdAllocations[node] > 0 {
        EnsureLease(api, ns, now, net);
        return Ok(quota.fdAllocations[node]);
      }
      var used := WrappedTotal(quota.fdAllocations);
      var totalLimit := match quota.fdLimit { case Some(l) => l case None => 0 };
      var batch := ChooseBatch(requested, totalLimit);
      var available := Wrap64(totalLimit - used);
      if available <= 0 {
        EnsureLease(api, ns, now, net);
        return Ok(Held(quota.fdAllocations, node));
      }
      var grant := Min(batch, available);
      quota.fdAllocations := quota.fdAllocations[node := Wrap64(Held(quota.fdAllocations, node) + grant)];
      quota.availableFD := Wrap64(Wrap64(totalLimit - used) - grant);
      quota.version := NextVersion(quota.version);
      assert quota.Value() == plan.next && plan.Write?;
      var ok := api.UpdateStatus(ns, quota, net.update);
      if !ok {
        return Err(WriteFailed);
      }
      EnsureLease(api, ns, now, net);
      return Ok(quota.fdAllocations[node]);
    }

    method RequestProc(api: ApiServer, quota: ObjectQuota, ns: string, node: string,
                       requested: int64, net: Net)
      returns (r: Result<int64>)
      modifies api`stored, quota
      ensures var plan := PlanRequest(old(quota.Value()), Proc, node, requested, defaultBatch);
              && api.stored == AfterWrite(old(api.stored), ns, quota.resourceVersion, plan, net.update)
              && r == Reply(old(api.stored), ns, quota.resourceVersion, plan, net.update)
    {
      hide Wrap64, EffectiveBatch, Sum;
      ghost var plan := PlanRequest(quota.Value(), Proc, node, requested, defaultBatch);
      if node in quota.procAllocations && quota.procAllocations[node] > 0 {
        return Ok(quota.procAllocations[node]);
      }
      var used := WrappedTotal(quota.procAllocations);
      var totalLimit := match quota.procLimit { case Some(l) => l case None => 0 };
      var batch := ChooseBatch(requested, totalLimit);
      var available := Wrap64(totalLimit - used);
      if available <= 0 {
        return Ok(Held(quota.procAllocations, node));
      }
      var grant := Min(batch, available);
      quota.procAllocations := quota.procAllocations[node := Wrap64(Held(quota.procAllocations, node) + grant)];
      quota.version := NextVersion(quota.version);
      assert quota.Value() == plan.next && plan.Write?;
      var ok := api.UpdateStatus(ns, quota, net.update);
      if !ok {
        return Err(WriteFailed);
      }
      return Ok(quota.procAllocations[node]);
    }

    /** Returns the credits given back; a failed read or write gives back none. */
    method ReleaseLease(api: ApiServer, read: Option<ObjectQuota>, ns: string, node: string, net: Net)
      returns (released: int64)
      modifies api, if read.Some? then {read.value} else {}
      ensures read.None? ==> released == 0 && api.stored == old(api.stored) && api.heartbeats == old(api.heartbeats)
      ensures read.Some? ==>
                var (base, kind) := SplitProc(ns);
                var plan := PlanRelease(old(read.value.Value()), kind, node);
                var reply := Reply(old(api.stored), base, read.value.resourceVersion, plan, net.update);
                && api.stored == AfterWrite(old(api.stored), base, read.value.resourceVersion, plan, net.update)
                && released == (if reply.Ok? then reply.value else 0)
                && api.heartbeats == if kind.FD? && plan.Write? && reply.Ok? && net.lease
                                     then old(api.heartbeats) - {(base, nodeID)} else old(api.heartbeats)
    {
      if read.None? {
        return 0;
      }
      var (base, kind) := SplitProc(ns);
      if kind.Proc? {
        released := ReleaseProc(api, read.value, base, node, net);
      } else {
        released := ReleaseFD(api, read.value, base, node, net);
      }
    }

    method ReleaseFD(api: ApiServer, quota: ObjectQuota, ns: string, node: string, net: Net)
      returns (released: int64)
      modifies api, quota
      ensures var plan := PlanRelease(old(quota.Value()), FD, node);
              var reply := Reply(old(api.stored), ns, quota.resourceVersion, plan, net.update);
              && api.stored == AfterWrite(old(api.stored), ns, quota.resourceVersion, plan, net.update)
              && released == (if reply.Ok? then reply.value else 0)
              && api.heartbeats == if plan.Write? && reply.Ok? && net.lease
                                   then old(api.heartbeats) - {(ns, nodeID)} else old(api.heartbeats)
    {
      hide Wrap64, EffectiveBatch, Sum;
      ghost var plan := PlanRelease(quota.Value(), FD, node);
      if node !in quota.fdAllocations {
        return 0;
      }
      var leased := quota.fdAllocations[node];
      quota.fdAllocations := quota.fdAllocations - {node};
      var totalUsed := WrappedTotal(quota.fdAllocations);
      var totalLimit := match quota.fdLimit { case Some(l) => l case None => 0 };
      quota.availableFD := Wrap64(totalLimit - totalUsed);
      quota.version := NextVersion(quota.version);
      assert quota.Value() == plan.next && plan.Write?;
      var ok := api.UpdateStatus(ns, quota, net.update);
      if !ok {
        return 0;
      }
      DeleteLease(api, ns, net);
      return leased;
    }

    method ReleaseProc(api: ApiServer, quota: ObjectQuota, ns: string, node: string, net: Net)
      returns (released: int64)
      modifies api`stored, quota
      ensures var plan := PlanRelease(old(quota.Value()), Proc, node);
              var reply := Reply(old(api.stored), ns, quota.resourceVersion, plan, net.update);
              && api.stored == AfterWrite(old(api.stored), ns, quota.resourceVersion, plan, net.update)
              && released == (if reply.Ok? then reply.value else 0)
    {
      hide Wrap64, EffectiveBatch, Sum;
      ghost var plan := PlanRelease(quota.Value(), Proc, node);
      if node !in quota.procAllocations {
        return 0;
      }
      var leased := quota.procAllocations[node];
      quota.procAllocations := quota.procAllocations - {node};
      quota.version := NextVersion(quota.version);
      assert quota.Value() == plan.next && plan.Write?;
      var ok := api.UpdateStatus(ns, quota, net.update);
      if !ok {
        return 0;
      }
      return leased;
    }

    /** The holders whose heartbeat is younger than the lease duration. */
    method CollectActive(items: seq<LeaseItem>, now: int) returns (active: set<string>)
      ensures active == ActiveHolders(items, now)
    {
      active := {};
      for i := 0 to |items|
        invariant active == ActiveHolders(items[..i], now)
      {
        assert items[..i + 1] == items[..i] + [items[i]];
        if items[i].renewTime.Some? {
          var age := now - items[i].renewTime.value;
          if age < LEASE_DURATION && items[i].holder.Some? {
            active := active + {items[i].holder.value};
          }
        }
        assert active == ActiveHolders(items[..i + 1], now) by {
          forall h | h in active ensures h in ActiveHolders(items[..i + 1], now) {
            if h in ActiveHolders(items[..i], now) {
              var j :| 0 <= j < i && items[..i][j].Fresh(now) && items[..i][j].holder.value == h;
              assert items[..i + 1][j] == items[j];
            } else {
              assert items[..i + 1][i] == items[i];
            }
          }
          forall h | h in ActiveHolders(items[..i + 1], now) ensures h in active {
            var j :| 0 <= j < i + 1 && items[..i + 1][j].Fresh(now) && items[..i + 1][j].holder.value == h;
            if j < i { assert items[..i][j] == items[j]; }
          }
        }
      }
      assert items[..|items|] == items;
    }

    /** Deletes the entries of other nodes without an active heartbeat. */
    method DropInactive(c: Credits, active: set<string>) returns (kept: Credits, changed: bool)
      ensures kept == Survivors(c, nodeID, active)
      ensures changed <==> kept != c
    {
      kept, changed := c, false;
      var todo := c.Keys;
      while todo != {}
        invariant todo <= c.Keys
        invariant kept == map n | n in c && (n in todo || n == nodeID || n in active) :: c[n]
        invariant changed <==> exists n :: n in c && n !in kept
        decreases todo
      {
        var n :| n in todo;
        todo := todo - {n};
        if n != nodeID && n !in active {
          kept := kept - {n};
          changed := true;
        }
      }
    }

    method ReclaimExpiredLeases(api: ApiServer, read: Option<ObjectQuota>, listing: Option<seq<LeaseItem>>,
                                ns: string, now: int, net: Net)
      returns (r: Result<int64>)
      modifies api`stored, if read.Some? then {read.value} else {}
      ensures read.None? || listing.None? ==> r == Ok(0) && api.stored == old(api.stored)
      ensures read.Some? && listing.Some? ==>
                var plan := PlanReclaim(old(read.value.Value()), nodeID, ActiveHolders(listing.value, now));
                && api.stored == AfterWrite(old(api.stored), ns, read.value.resourceVersion, plan, net.update)
                && r == Reply(old(api.stored), ns, read.value.resourceVersion, plan, net.update)
    {
      if read.None? || listing.None? {
        return Ok(0);
      }
      var quota := read.value;
      var active := CollectActive(listing.value, now);
      ghost var plan := PlanReclaim(quota.Value(), nodeID, active);
      var fd, fdChanged := DropInactive(quota.fdAllocations, active);
      var proc, procChanged := DropInactive(quota.procAllocations, active);
      quota.fdAllocations := fd;
      quota.procAllocations := proc;
      if fdChanged || procChanged {
        var totalFD := WrappedTotal(quota.fdAllocations);
        var fdLimit := match quota.fdLimit { case Some(l) => l case None => 0 };
        quota.availableFD := Wrap64(fdLimit - totalFD);
        quota.version := NextVersion(quota.version);
        assert quota.Value() == plan.next && plan.Write?;
        var ok := api.UpdateStatus(ns, quota, net.update);
        if !ok {
          return Err(WriteFailed);
        }
      }
      return Ok(0);
    }

    /** One tick of the renewal loop over the listed quotas: renew, then reclaim. A
        reclaim that fails does not stop the others. */
    method RenewalTick(api: ApiServer, items: seq<TickItem>)
      modifies api
      ensures api.stored == StoredAfterTick(old(api.stored), nodeID, items)
      ensures UpToDate(old(api.stored), items) ==> TickReclaims(old(api.stored), api.stored, nodeID, items)
      ensures api.heartbeats == BeatsAfterTick(old(api.heartbeats), nodeID, items)
    {
      hide PlanReclaim, AfterWrite, ActiveHolders, Renewed, UpToDate, TickReclaims;
      if UpToDate(api.stored, items) {
        TicksReclaim(api.stored, nodeID, items);
      }
      for i := 0 to |items|
        invariant api.stored == StoredAfterTick(old(api.stored), nodeID, items[..i])
        invariant api.heartbeats == BeatsAfterTick(old(api.heartbeats), nodeID, items[..i])
      {
        var item := items[i];
        assert items[..i + 1][..i] == items[..i];
        EnsureLease(api, item.ns, item.now, item.net);
        var read: Option<ObjectQuota> := None;
        if item.read.Some? {
          var copy := new ObjectQuota(item.read.value);
          read := Some(copy);
        }
        var _ := ReclaimExpiredLeases(api, read, item.listing, item.ns, item.now, item.net);
      }
      assert items[..|items|] == items;
    }
  }
}
