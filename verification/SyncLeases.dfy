/** What the syncer asks of the lease manager: one side's credits for a sync, both
    sides' release for a removal. */
module SyncLeases {

  import opened Basics
  import opened MapSum
  import opened QuotaLedger
  import opened LeaseManager

  /** The key under which the lease manager knows one side of a namespace. */
  function LeaseKey(ns: string, kind: Kind): string {
    if kind.FD? then ns else ns + PROC_SUFFIX
  }

  /** What a request of the syncer gets: nothing if there is no lease manager, if it is
      another node's, or if the object cannot be read. */
  ghost function GrantFor(stored: map<string, Stored>, key: string, leaser: Option<K8sLeaseManager>, node: string,
                          read: Option<Stored>, requested: int64, net: Net): (granted: Option<int64>)
  {
    if leaser.None? || leaser.value.nodeID != node || read.None? then None else
    var (base, kind) := SplitProc(key);
    var plan := PlanRequest(read.value.quota, kind, node, requested, leaser.value.defaultBatch);
    match Reply(stored, base, read.value.resourceVersion, plan, net.update)
    case Ok(amount) => Some(amount)
    case Err(_) => None
  }

  /** The stored objects after that request. */
  ghost function StoredAfterRequest(stored: map<string, Stored>, key: string, leaser: Option<K8sLeaseManager>,
                                    node: string,
                                    read: Option<Stored>, requested: int64, net: Net): map<string, Stored>
  {
    if leaser.None? || leaser.value.nodeID != node || read.None? then stored else
    var (base, kind) := SplitProc(key);
    AfterWrite(stored, base, read.value.resourceVersion,
               PlanRequest(read.value.quota, kind, node, requested, leaser.value.defaultBatch), net.update)
  }

  /** The stored objects after a release. */
  ghost function StoredAfterRelease(stored: map<string, Stored>, key: string, node: string, read: Option<Stored>,
                                    net: Net)
    : map<string, Stored>
  {
    if read.None? then stored else
    var (base, kind) := SplitProc(key);
    AfterWrite(stored, base, read.value.resourceVersion, PlanRelease(read.value.quota, kind, node), net.update)
  }

  /** The heartbeats after a request: a granted request for descriptors renews the node's. */
  ghost function BeatsAfterRequest(beats: map<(string, string), int>, stored: map<string, Stored>, key: string,
                                   leaser: Option<K8sLeaseManager>, node: string, read: Option<Stored>,
                                   requested: int64, now: int, net: Net): map<(string, string), int>
  {
    var (base, kind) := SplitProc(key);
    if kind.FD? && GrantFor(stored, key, leaser, node, read, requested, net).Some?
    then Renewed(beats, (base, node), now, net) else beats
  }

  /** The heartbeats after a release: one of descriptors that is accepted deletes the
      lease manager's. */
  ghost function BeatsAfterRelease(beats: map<(string, string), int>, stored: map<string, Stored>, key: string,
                                   leaser: K8sLeaseManager, node: string, read: Option<Stored>, net: Net): map<(string, string), int>
  {
    if read.None? then beats else
    var (base, kind) := SplitProc(key);
    var plan := PlanRelease(read.value.quota, kind, node);
    if kind.FD? && plan.Write? && net.lease && Reply(stored, base, read.value.resourceVersion, plan, net.update).Ok?
    then beats - {(base, leaser.nodeID)} else beats
  }

  /** The namespace's name does not read as the key of another namespace's processes. */
  predicate OwnKey(ns: string, kind: Kind) {
    ns != "" && (kind.FD? ==> !(|ns| > 5 && ns[|ns| - 5..] == "-proc"))
  }

  /** The lease manager is this node's, it reads the current object, and its update
      arrives. */
  ghost predicate GetsThrough(stored: map<string, Stored>, ns: string, leaser: Option<K8sLeaseManager>, node: string,
                              read: Option<Stored>, net: Net)
  {
    && leaser.Some? && leaser.value.nodeID == node && 0 < leaser.value.defaultBatch
    && ns in stored && read == Some(stored[ns]) && Sound(stored[ns].quota) && net.update
  }

  /** What a request makes of the side it is about: a holder gets what it holds, and
      another node a part of what is left, if anything is. */
  ghost predicate SideServed(c: Credits, c': Credits, limit: Option<int64>, node: string, requested: int64, granted: int64) {
    var left := (if limit.Some? then limit.value else 0) - Sum(c);
    if node in c then c' == c && granted == c[node]
    else if left > 0 then
      0 < granted <= left && c' == c[node := granted] && (requested > 0 ==> granted == Min(requested, left))
    else c' == c && granted == 0
  }

  /** A request is about one side of the object and leaves the other alone. */
  ghost predicate Served(before: Stored, after: Stored, kind: Kind, node: string, requested: int64, granted: int64) {
    var q, q' := before.quota, after.quota;
    && q'.fdLimit == q.fdLimit && q'.procLimit == q.procLimit
    && (kind == FD ==> SideServed(q.fd, q'.fd, q.fdLimit, node, requested, granted) && q'.proc == q.proc)
    && (kind == Proc ==> SideServed(q.proc, q'.proc, q.procLimit, node, requested, granted) && q'.fd == q.fd)
    && after.resourceVersion == before.resourceVersion + (if q'.fd == q.fd && q'.proc == q.proc then 0 else 1)
  }

  lemma KeyReachesSide(ns: string, kind: Kind)
    requires OwnKey(ns, kind)
    ensures SplitProc(LeaseKey(ns, kind)) == (ns, kind)
  {
    KeysReachBothSides(ns);
  }

  lemma PlanServes(q: Quota, kind: Kind, node: string, requested: int64, batch: int64)
    requires Sound(q) && 0 < batch
    ensures var plan := PlanRequest(q, kind, node, requested, batch);
            var q' := if plan.Write? then plan.next else q;
            && q'.fdLimit == q.fdLimit && q'.procLimit == q.procLimit
            && (kind == FD ==> SideServed(q.fd, q'.fd, q.fdLimit, node, requested, plan.result) && q'.proc == q.proc)
            && (kind == Proc ==> SideServed(q.proc, q'.proc, q.procLimit, node, requested, plan.result) && q'.fd == q.fd)
            && (plan.Write? ==> node !in q.Alloc(kind) && node in q'.Alloc(kind))
  {
    hide DefaultBatch, Wrap64, Sum, NextVersion, PlanRequest;
    RequestGrants(q, kind, node, requested, batch);
    SidesAreApart(q, Request(kind, node, requested, batch));
  }

  /** A request that gets through serves the side of its kind and no other. */
  lemma RequestServes(stored: map<string, Stored>, ns: string, kind: Kind, leaser: Option<K8sLeaseManager>, node: string,
                      read: Option<Stored>, requested: int64, net: Net)
    requires OwnKey(ns, kind) && GetsThrough(stored, ns, leaser, node, read, net)
    ensures var granted := GrantFor(stored, LeaseKey(ns, kind), leaser, node, read, requested, net);
            var after := StoredAfterRequest(stored, LeaseKey(ns, kind), leaser, node, read, requested, net);
            && granted.Some? && ns in after && after == stored[ns := after[ns]]
            && Served(stored[ns], after[ns], kind, node, requested, granted.value)
  {
    hide PlanRequest, Sound, SideServed, LeaseKey;
    KeyReachesSide(ns, kind);
    var q := stored[ns].quota;
    PlanServes(q, kind, node, requested, leaser.value.defaultBatch);
    var plan := PlanRequest(q, kind, node, requested, leaser.value.defaultBatch);
    if plan.Write? {
      PlanKeepsSpec(q, plan.next);
    }
  }

  lemma PlanKeepsSpec(q: Quota, next: Quota)
    requires next.fdLimit == q.fdLimit && next.procLimit == q.procLimit
    ensures q.WithStatus(next) == next
  {
  }

  /** The heartbeats after a sync: one of descriptors renews the node's own if the calls
      go through, and one of processes none. */
  lemma RequestRenews(beats: map<(string, string), int>, stored: map<string, Stored>, ns: string, kind: Kind,
                      leaser: Option<K8sLeaseManager>, node: string, read: Option<Stored>, requested: int64, now: int, net: Net)
    requires OwnKey(ns, kind) && GetsThrough(stored, ns, leaser, node, read, net)
    ensures BeatsAfterRequest(beats, stored, LeaseKey(ns, kind), leaser, node, read, requested, now, net)
         == if kind == FD && net.lease && ((ns, node) in beats ==> net.found) then beats[(ns, node) := now] else beats
  {
    hide GrantFor, LeaseKey;
    KeyReachesSide(ns, kind);
    RequestServes(stored, ns, kind, leaser, node, read, requested, net);
  }

  /** The object that a removal reads for its second release: the current one after the
      first. */
  ghost predicate ReadAfterRelease(before: Stored, read: Stored, node: string) {
    && Sound(read.quota) && read.quota.fd == before.quota.fd - {node} && read.quota.proc == before.quota.proc
    && read.quota.fdLimit == before.quota.fdLimit && read.quota.procLimit == before.quota.procLimit
    && (node in before.quota.fd ==> Balanced(read.quota))
    && read.resourceVersion == before.resourceVersion + (if node in before.quota.fd then 1 else 0)
  }

  lemma ReleaseServes(stored: map<string, Stored>, ns: string, kind: Kind, node: string, read: Stored, net: Net)
    requires OwnKey(ns, kind) && ns in stored && read.resourceVersion == stored[ns].resourceVersion && net.update
    requires Sound(read.quota)
    requires read.quota.fdLimit == stored[ns].quota.fdLimit && read.quota.procLimit == stored[ns].quota.procLimit
    ensures var after := StoredAfterRelease(stored, LeaseKey(ns, kind), node, Some(read), net);
            var q := read.quota;
            && ns in after && after == stored[ns := after[ns]]
            && (if node in q.Alloc(kind) then
                  && after[ns].quota.fd == (if kind == FD then q.fd - {node} else q.fd)
                  && after[ns].quota.proc == (if kind == Proc then q.proc - {node} else q.proc)
                  && (kind == FD ==> Balanced(after[ns].quota))
                  && (kind == Proc ==> after[ns].quota.availableFD == q.availableFD)
                  && after[ns].quota.fdLimit == q.fdLimit && after[ns].quota.procLimit == q.procLimit
                  && after[ns].resourceVersion == read.resourceVersion + 1
                else after == stored)
  {
    hide PlanRelease, LeaseKey, Sound;
    KeyReachesSide(ns, kind);
    ReleaseGivesBack(read.quota, kind, node);
    SidesAreApart(read.quota, Release(kind, node));
    var plan := PlanRelease(read.quota, kind, node);
    if plan.Write? {
      PlanKeepsSpec(stored[ns].quota, plan.next);
    }
  }

  /** Both releases of a removal that get through leave the node without an entry on
      either side, and touch nothing else. */
  lemma RemovalGivesBack(stored: map<string, Stored>, ns: string, node: string, fdRead: Stored, fdNet: Net,
                         procRead: Stored, procNet: Net)
    requires OwnKey(ns, FD) && ns in stored && fdRead == stored[ns] && Sound(fdRead.quota)
    requires ReadAfterRelease(fdRead, procRead, node) && fdNet.update && procNet.update
    ensures var after := StoredAfterRelease(StoredAfterRelease(stored, LeaseKey(ns, FD), node, Some(fdRead), fdNet),
                                            LeaseKey(ns, Proc), node, Some(procRead), procNet);
            && ns in after && after == stored[ns := after[ns]]
            && GaveBack(stored[ns].quota, after[ns].quota, node)
  {
    hide StoredAfterRelease, Sound, LeaseKey;
    ReleaseServes(stored, ns, FD, node, fdRead, fdNet);
    ReleaseServes(StoredAfterRelease(stored, LeaseKey(ns, FD), node, Some(fdRead), fdNet), ns, Proc, node, procRead, procNet);
    assert fdRead.quota.fd - {node} == fdRead.quota.fd || node in fdRead.quota.fd;
    assert fdRead.quota.proc - {node} == fdRead.quota.proc || node in fdRead.quota.proc;
  }

  ghost predicate GaveBack(q: Quota, q': Quota, node: string) {
    && q'.fd == q.fd - {node} && q'.proc == q.proc - {node}
    && q'.fdLimit == q.fdLimit && q'.procLimit == q.procLimit
    && (node in q.fd ==> Balanced(q'))
  }

  /** The heartbeats after a removal: if it gives back descriptors, the lease manager's
      heartbeat in the namespace is deleted. */
  lemma RemovalDropsHeartbeat(beats: map<(string, string), int>, stored: map<string, Stored>, ns: string,
                              leaser: K8sLeaseManager, node: string, fdRead: Stored, fdNet: Net,
                              mid: map<string, Stored>, procRead: Option<Stored>, procNet: Net)
    requires OwnKey(ns, FD) && ns in stored && fdRead == stored[ns] && fdNet.update
    ensures BeatsAfterRelease(BeatsAfterRelease(beats, stored, LeaseKey(ns, FD), leaser, node, Some(fdRead), fdNet),
                              mid, LeaseKey(ns, Proc), leaser, node, procRead, procNet)
         == if node in fdRead.quota.fd && fdNet.lease then beats - {(ns, leaser.nodeID)} else beats
  {
    hide LeaseKey, Sum, Wrap64;
    KeyReachesSide(ns, FD);
    KeyReachesSide(ns, Proc);
  }

  /** Without a lease manager for this node, or without its object, nobody is asked. */
  lemma NobodyServes(beats: map<(string, string), int>, stored: map<string, Stored>, key: string,
                     leaser: Option<K8sLeaseManager>, node: string, read: Option<Stored>, requested: int64, now: int, net: Net)
    ensures leaser.None? || leaser.value.nodeID != node || read.None? ==>
              && GrantFor(stored, key, leaser, node, read, requested, net) == None
              && StoredAfterRequest(stored, key, leaser, node, read, requested, net) == stored
              && BeatsAfterRequest(beats, stored, key, leaser, node, read, requested, now, net) == beats
  {
  }
}
