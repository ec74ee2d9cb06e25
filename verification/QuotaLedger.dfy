/** The credit ledger kept in an ObjectQuota: what one request, release or reclaim
    computes from the object it has read, as functions on values, and what each
    of them keeps. The file descriptor side and the process side are the same
    computation on two maps; `Kind` says which one is meant. */
module QuotaLedger {

  import opened Basics
  import opened MapSum

  type Credits = map<string, int64>

  datatype Kind = FD | Proc

  /** An ObjectQuota: the limits of its spec and its status. A nil map and an
      empty map behave alike everywhere, so both are the empty map here. */
  datatype Quota = Quota(
    fdLimit: Option<int64>,
    procLimit: Option<int64>,
    fd: Credits,
    proc: Credits,
    availableFD: int64,
    version: Option<int64>)
  {
    function Limit(kind: Kind): int64 {
      match (if kind.FD? then fdLimit else procLimit)
      case Some(limit) => limit
      case None => 0
    }

    function Alloc(kind: Kind): Credits {
      if kind.FD? then fd else proc
    }

    function WithAlloc(kind: Kind, c: Credits): Quota {
      if kind.FD? then this.(fd := c) else this.(proc := c)
    }

    /** A status update replaces the status and leaves the spec alone. */
    function WithStatus(other: Quota): Quota {
      this.(fd := other.fd, proc := other.proc, availableFD := other.availableFD, version := other.version)
    }
  }

  /** A Go map read: a missing key reads as 0. */
  function Held(c: Credits, node: string): int64 {
    if node in c then c[node] else 0
  }

  function VersionNumber(v: Option<int64>): int64 {
    match v
    case None => 0
    case Some(n) => n
  }

  function NextVersion(v: Option<int64>): Option<int64> {
    Some(Wrap64(VersionNumber(v) + 1))
  }

  /** The batch a request asks for when the caller names none. */
  function DefaultBatch(limit: int64, batch: int64): int64 {
    var tenth := if limit <= 100 then limit else limit / 10;
    Min(Min(Max(tenth, 10), batch), limit)
  }

  function EffectiveBatch(requested: int64, limit: int64, batch: int64): int64 {
    if requested <= 0 then DefaultBatch(limit, batch) else requested
  }

  /** What a computation on a snapshot decides: return at once, or try to write
      a new status and return `result` if the write is accepted. */
  datatype Plan = Keep(result: int64) | Write(next: Quota, result: int64)

  datatype Op =
    | Request(kind: Kind, node: string, requested: int64, batch: int64)
    | Release(kind: Kind, node: string)
    | Reclaim(self: string, active: set<string>)
    | Edit(fdLimit: Option<int64>, procLimit: Option<int64>)

  ghost function PlanRequest(q: Quota, kind: Kind, node: string, requested: int64, batch: int64): Plan {
    var c := q.Alloc(kind);
    if Held(c, node) > 0 then Keep(c[node])
    else
      var used := Wrap64(Sum(c));
      var limit := q.Limit(kind);
      var want := EffectiveBatch(requested, limit, batch);
      var available := Wrap64(limit - used);
      if available <= 0 then Keep(Held(c, node))
      else
        var grant := Min(want, available);
        var amount := Wrap64(Held(c, node) + grant);
        var next := q.WithAlloc(kind, c[node := amount]).(version := NextVersion(q.version));
        Write(if kind.FD? then next.(availableFD := Wrap64(Wrap64(limit - used) - grant)) else next, amount)
  }

  ghost function PlanRelease(q: Quota, kind: Kind, node: string): Plan {
    var c := q.Alloc(kind);
    if node !in c then Keep(0)
    else
      var rest := c - {node};
      var next := q.WithAlloc(kind, rest).(version := NextVersion(q.version));
      Write(if kind.FD? then next.(availableFD := Wrap64(q.Limit(FD) - Wrap64(Sum(rest)))) else next, c[node])
  }

  /** The entries a reclaiming node leaves: its own and those of active nodes. */
  function Survivors(c: Credits, self: string, active: set<string>): Credits {
    map n | n in c && (n == self || n in active) :: c[n]
  }

  ghost function PlanReclaim(q: Quota, self: string, active: set<string>): Plan {
    var fd := Survivors(q.fd, self, active);
    var proc := Survivors(q.proc, self, active);
    if fd == q.fd && proc == q.proc then Keep(0)
    else
      Write(q.(fd := fd, proc := proc, version := NextVersion(q.version),
               availableFD := Wrap64(q.Limit(FD) - Wrap64(Sum(fd)))), 0)
  }

  ghost function PlanOf(q: Quota, op: Op): Plan {
    match op
    case Request(kind, node, requested, batch) => PlanRequest(q, kind, node, requested, batch)
    case Release(kind, node) => PlanRelease(q, kind, node)
    case Reclaim(self, active) => PlanReclaim(q, self, active)
    case Edit(fdLimit, procLimit) => Write(q.(fdLimit := fdLimit, procLimit := procLimit), 0)
  }

  /** The operation run atomically on the current object. */
  ghost function Apply(q: Quota, op: Op): Quota {
    match PlanOf(q, op)
    case Keep(_) => q
    case Write(next, _) => next
  }

  /** What callers owe: a lease manager's default batch is positive, and the
      limits a spec names are not negative. */
  predicate Proper(op: Op) {
    match op
    case Request(_, _, _, batch) => 0 < batch
    case Edit(fdLimit, procLimit) =>
      (fdLimit.Some? ==> 0 <= fdLimit.value) && (procLimit.Some? ==> 0 <= procLimit.value)
    case _ => true
  }

  ghost predicate SoundCredits(c: Credits) {
    && (forall n | n in c :: 0 < c[n])
    && Sum(c) <= INT64_MAX
  }

  ghost predicate Sound(q: Quota) {
    && SoundCredits(q.fd) && SoundCredits(q.proc)
    && 0 <= q.Limit(FD) && 0 <= q.Limit(Proc)
  }

  /** By how much a map of credits is beyond its limit. */
  ghost function Excess(q: Quota, kind: Kind): int {
    Max(0, Sum(q.Alloc(kind)) - q.Limit(kind))
  }

  ghost predicate Balanced(q: Quota) {
    q.availableFD + Sum(q.fd) == q.Limit(FD)
  }

  /** Whether an operation recomputes the available descriptors. */
  predicate RecomputesFD(op: Op) {
    match op
    case Request(kind, _, _, _) => kind.FD?
    case Release(kind, _) => kind.FD?
    case Reclaim(_, _) => true
    case Edit(_, _) => false
  }

  lemma SumIsInRange(c: Credits)
    requires SoundCredits(c)
    ensures 0 <= Sum(c) <= INT64_MAX
    ensures Wrap64(Sum(c)) == Sum(c)
  {
    SumNonNegative(c);
  }

  lemma SumWithout(c: Credits, rest: Credits)
    requires SoundCredits(c)
    requires rest.Keys <= c.Keys
    requires forall n | n in rest :: rest[n] == c[n]
    ensures SoundCredits(rest)
    ensures Sum(rest) <= Sum(c)
  {
    SumMonotone(rest, c);
  }

  /** With no batch named, a positive limit gives a batch between 1 and the
      smaller of the default batch and the limit. */
  lemma DefaultBatchRange(limit: int64, batch: int64)
    requires 0 < limit && 0 < batch
    ensures 1 <= DefaultBatch(limit, batch) <= Min(batch, limit)
  {
  }

  /** The default batch in numbers: a tenth of a limit over 100, and the whole of a
      smaller one, as long as the lease manager's own batch allows it. */
  lemma DefaultBatchIsTenth(limit: int64, batch: int64)
    requires 0 < limit && 0 < batch
    ensures limit <= 100 ==> DefaultBatch(limit, batch) == Min(limit, batch)
    ensures 100 < limit && 10 * batch <= limit ==> DefaultBatch(limit, batch) == batch
    ensures 100 < limit < 10 * batch ==> 10 * DefaultBatch(limit, batch) <= limit < 10 * DefaultBatch(limit, batch) + 10
  {
  }

  /** What the first node that names no batch gets out of an empty pool. */
  lemma FirstGrant(q: Quota, kind: Kind, node: string, batch: int64)
    requires Sound(q) && q.Alloc(kind) == map[] && 0 < q.Limit(kind) && 0 < batch
    ensures var limit, plan := q.Limit(kind), PlanRequest(q, kind, node, 0, batch);
            && plan.Write? && plan.next.Alloc(kind) == map[node := plan.result]
            && (limit <= 100 ==> plan.result == Min(limit, batch))
            && (100 < limit && 10 * batch <= limit ==> plan.result == batch)
            && (100 < limit < 10 * batch ==> 10 * plan.result <= limit < 10 * plan.result + 10)
  {
    hide DefaultBatch;
    DefaultBatchIsTenth(q.Limit(kind), batch);
    DefaultBatchRange(q.Limit(kind), batch);
    RequestGrants(q, kind, node, 0, batch);
    assert Sum(q.Alloc(kind)) == 0;
  }

  lemma BatchIsPositive(requested: int64, limit: int64, batch: int64)
    requires 0 < limit && 0 < batch
    ensures 0 < EffectiveBatch(requested, limit, batch)
  {
    DefaultBatchRange(limit, batch);
  }

  /** A request, without the machine arithmetic: a holder gets back what it has,
      an exhausted pool gives nothing and writes nothing, and otherwise the node
      is granted the smaller of its batch and what is left. */
  lemma RequestGrants(q: Quota, kind: Kind, node: string, requested: int64, batch: int64)
    requires Sound(q) && 0 < batch
    ensures var c := q.Alloc(kind);
            var left := q.Limit(kind) - Sum(c);
            match PlanRequest(q, kind, node, requested, batch)
            case Keep(r) =>
              r == Held(c, node) && (node in c || left <= 0)
            case Write(next, r) =>
              && node !in c && 0 < left
              && r == Min(EffectiveBatch(requested, q.Limit(kind), batch), left) && 0 < r
              && next == q.WithAlloc(kind, c[node := r]).(version := next.version, availableFD := next.availableFD)
              && VersionNumber(next.version) == Wrap64(VersionNumber(q.version) + 1)
              && Sum(next.Alloc(kind)) == Sum(c) + r <= q.Limit(kind)
              && next.availableFD == (if kind.FD? then q.Limit(FD) - Sum(next.fd) else q.availableFD)
  {
    hide Wrap64, EffectiveBatch;
    var c := q.Alloc(kind);
    var limit := q.Limit(kind);
    SumIsInRange(c);
    WrapFits(limit - Sum(c));
    if node !in c && Sum(c) < limit {
      BatchIsPositive(requested, limit, batch);
      var r := Min(EffectiveBatch(requested, limit, batch), limit - Sum(c));
      WrapFits(r);
      WrapFits(limit - Sum(c) - r);
      SumUpdate(c, node, r);
    }
  }

  /** A release gives back exactly the amount it returns, and nothing else changes. */
  lemma ReleaseGivesBack(q: Quota, kind: Kind, node: string)
    requires Sound(q)
    ensures var c := q.Alloc(kind);
            match PlanRelease(q, kind, node)
            case Keep(r) => r == 0 && node !in c
            case Write(next, r) =>
              && node in c && r == c[node]
              && next == q.WithAlloc(kind, c - {node}).(version := next.version, availableFD := next.availableFD)
              && VersionNumber(next.version) == Wrap64(VersionNumber(q.version) + 1)
              && SoundCredits(next.Alloc(kind)) && Sum(c) == Sum(next.Alloc(kind)) + r
              && next.availableFD == (if kind.FD? then q.Limit(FD) - Sum(next.fd) else q.availableFD)
  {
    var c := q.Alloc(kind);
    if node in c {
      SumRemove(c, node);
      SumWithout(c, c - {node});
      SumIsInRange(c - {node});
    }
  }

  /** A reclaim removes exactly the entries of other nodes outside the active
      set, on both maps, and keeps every other entry as it was. */
  lemma ReclaimRemovesStale(q: Quota, self: string, active: set<string>)
    requires Sound(q)
    ensures var stale := (q.fd.Keys + q.proc.Keys) - active - {self};
            match PlanReclaim(q, self, active)
            case Keep(_) => stale == {}
            case Write(next, _) =>
              && stale != {}
              && next == q.(fd := q.fd - stale, proc := q.proc - stale,
                            version := next.version, availableFD := next.availableFD)
              && VersionNumber(next.version) == Wrap64(VersionNumber(q.version) + 1)
              && SoundCredits(next.fd) && SoundCredits(next.proc)
              && Sum(next.fd) <= Sum(q.fd) && Sum(next.proc) <= Sum(q.proc)
              && next.availableFD == q.Limit(FD) - Sum(next.fd)
  {
    var stale := (q.fd.Keys + q.proc.Keys) - active - {self};
    var fd, proc := Survivors(q.fd, self, active), Survivors(q.proc, self, active);
    assert fd == q.fd - stale && proc == q.proc - stale;
    SumWithout(q.fd, fd);
    SumWithout(q.proc, proc);
    SumIsInRange(fd);
    if stale != {} {
      var n :| n in stale;
      assert n !in fd && n !in proc;
      assert fd != q.fd || proc != q.proc;
    } else {
      assert fd == q.fd && proc == q.proc;
    }
  }

  /** A second reclaim with the same active set writes nothing. */
  lemma ReclaimIsIdempotent(q: Quota, self: string, active: set<string>)
    requires Sound(q)
    ensures PlanReclaim(Apply(q, Reclaim(self, active)), self, active).Keep?
  {
    ReclaimRemovesStale(q, self, active);
    var q' := Apply(q, Reclaim(self, active));
    assert Survivors(q'.fd, self, active) == q'.fd;
    assert Survivors(q'.proc, self, active) == q'.proc;
  }

  /** Every operation keeps all entries positive and both sums within int64. */
  lemma ApplySound(q: Quota, op: Op)
    requires Sound(q) && Proper(op)
    ensures Sound(Apply(q, op))
  {
    match op
    case Request(kind, node, requested, batch) => RequestGrants(q, kind, node, requested, batch);
    case Release(kind, node) => ReleaseGivesBack(q, kind, node);
    case Reclaim(self, active) => ReclaimRemovesStale(q, self, active);
    case Edit(_, _) =>
  }

  /** No operation but a spec edit starts or worsens over-commitment, and right
      after a grant there is none. */
  lemma ApplyNeverOvercommits(q: Quota, op: Op, kind: Kind)
    requires Sound(q) && Proper(op) && !op.Edit?
    ensures Apply(q, op).Limit(kind) == q.Limit(kind)
    ensures Excess(Apply(q, op), kind) <= Excess(q, kind)
    ensures op.Request? && op.kind == kind && PlanOf(q, op).Write? ==> Excess(Apply(q, op), kind) == 0
  {
    match op
    case Request(kind', node, requested, batch) => RequestGrants(q, kind', node, requested, batch);
    case Release(kind', node) =>
      ReleaseGivesBack(q, kind', node);
      SumIsInRange(Apply(q, op).Alloc(kind'));
      if PlanOf(q, op).Write? { assert 0 < q.Alloc(kind')[node]; }
    case Reclaim(self, active) => ReclaimRemovesStale(q, self, active);
  }

  /** Conservation, both ways: after a committed operation the available
      descriptors and the allocations add up to the limit exactly when the
      operation recomputed them, or they added up before and it left the sum and
      the limit alone. */
  lemma BalanceAfterCommit(q: Quota, op: Op)
    requires Sound(q) && Proper(op) && PlanOf(q, op).Write?
    ensures Balanced(Apply(q, op)) <==>
            RecomputesFD(op) || q.availableFD + Sum(q.fd) == Apply(q, op).Limit(FD)
  {
    match op
    case Request(kind, node, requested, batch) => RequestGrants(q, kind, node, requested, batch);
    case Release(kind, node) => ReleaseGivesBack(q, kind, node);
    case Reclaim(self, active) => ReclaimRemovesStale(q, self, active);
    case Edit(_, _) =>
  }

  /** Between spec edits a balanced object stays balanced. */
  lemma BalanceIsKept(q: Quota, op: Op)
    requires Sound(q) && Proper(op) && PlanOf(q, op).Write? && !op.Edit? && Balanced(q)
    ensures Balanced(Apply(q, op))
  {
    BalanceAfterCommit(q, op);
    match op
    case Request(kind, node, requested, batch) => RequestGrants(q, kind, node, requested, batch);
    case Release(kind, node) => ReleaseGivesBack(q, kind, node);
    case Reclaim(_, _) =>
  }

  /** Every write of a lease manager takes the next version number. */
  lemma VersionStep(q: Quota, op: Op)
    requires PlanOf(q, op).Write?
    ensures VersionNumber(Apply(q, op).version)
         == Wrap64(VersionNumber(q.version) + (if op.Edit? then 0 else 1))
  {
  }

  /** The first write of a lease manager takes version 1. */
  lemma FirstVersion(q: Quota, op: Op)
    requires q.version == None && PlanOf(q, op).Write? && !op.Edit?
    ensures Apply(q, op).version == Some(1)
  {
  }

  /** An operation on one side leaves the entries of the other side and both limits
      alone. */
  lemma SidesAreApart(q: Quota, op: Op)
    requires op.Request? || op.Release?
    ensures var q' := Apply(q, op);
            && q'.fdLimit == q.fdLimit && q'.procLimit == q.procLimit
            && (if op.kind == FD then q'.proc == q.proc else q'.fd == q.fd && q'.availableFD == q.availableFD)
  {
    hide Wrap64, EffectiveBatch, Sum, NextVersion;
  }

  /** The entries an operation does not name stay as they are: a request or a
      release touches its own node's entry, a reclaim only removes, and no entry
      that is there before and after changes its amount. */
  lemma EntriesAreWrittenOnce(q: Quota, op: Op, kind: Kind, node: string)
    requires Sound(q) && Proper(op)
    ensures var c, c' := q.Alloc(kind), Apply(q, op).Alloc(kind);
            && (node in c && node in c' ==> c'[node] == c[node])
            && (node !in c && node in c' ==> op.Request? && op.kind == kind && op.node == node)
            && (node in c && node !in c' ==>
                  (op.Release? && op.kind == kind && op.node == node)
                  || (op.Reclaim? && op.self != node && node !in op.active))
  {
    match op
    case Request(kind', node', requested, batch) => RequestGrants(q, kind', node', requested, batch);
    case Release(kind', node') => ReleaseGivesBack(q, kind', node');
    case Reclaim(self, active) => ReclaimRemovesStale(q, self, active);
    case Edit(_, _) =>
  }

  /** What a node that is not on record is granted, given what is left in machine
      arithmetic. */
  lemma RequestByWhatIsLeft(q: Quota, kind: Kind, node: string, requested: int64, batch: int64)
    requires SoundCredits(q.Alloc(kind)) && node !in q.Alloc(kind)
    ensures var c, limit := q.Alloc(kind), q.Limit(kind);
            var available := Wrap64(limit - Sum(c));
            match PlanRequest(q, kind, node, requested, batch)
            case Keep(r) => available <= 0 && r == 0
            case Write(next, r) =>
              && available > 0 && r == Min(EffectiveBatch(requested, limit, batch), available)
              && next.Alloc(kind) == c[node := r] && Sum(next.Alloc(kind)) == Sum(c) + r
  {
    hide Wrap64, EffectiveBatch, NextVersion;
    var c, limit := q.Alloc(kind), q.Limit(kind);
    SumIsInRange(c);
    var r := Min(EffectiveBatch(requested, limit, batch), Wrap64(limit - Sum(c)));
    WrapFits(r);
    SumUpdate(c, node, r);
  }

  /** A request by a node that is not on record, under any limit whatever. Grants are
      positive and stay within the limit exactly if the subtraction of the credits
      from the limit does not wrap around. If it does, the request is written: a
      batch named by the caller is granted although nothing is left, and a batch
      chosen for the caller records the negative limit itself. */
  lemma RequestUnderAnyLimit(q: Quota, kind: Kind, node: string, requested: int64, batch: int64)
    requires SoundCredits(q.Alloc(kind)) && node !in q.Alloc(kind) && 0 < batch
    ensures var c, limit := q.Alloc(kind), q.Limit(kind);
            var left := limit - Sum(c);
            var wraps := left < INT64_MIN;
            var plan := PlanRequest(q, kind, node, requested, batch);
            && ((plan.Write? ==> 0 < plan.result && Sum(plan.next.Alloc(kind)) <= limit) <==> !wraps)
            && (plan.Write? <==> left > 0 || wraps)
            && (plan.Write? ==>
                  && plan.next.Alloc(kind) == c[node := plan.result]
                  && plan.result == Min(EffectiveBatch(requested, limit, batch), if wraps then left + TWO64 else left)
                  && (plan.result <= 0 <==> wraps && requested <= 0)
                  && (wraps && requested <= 0 ==> plan.result == limit < 0))
  {
    hide Wrap64, EffectiveBatch, PlanRequest, SoundCredits;
    var left := q.Limit(kind) - Sum(q.Alloc(kind));
    SumIsInRange(q.Alloc(kind));
    BatchUnderAnyLimit(requested, q.Limit(kind), batch);
    RequestByWhatIsLeft(q, kind, node, requested, batch);
    if left < INT64_MIN {
      WrapOnce(left);
    } else {
      WrapFits(left);
    }
  }

  lemma BatchUnderAnyLimit(requested: int64, limit: int64, batch: int64)
    requires 0 < batch
    ensures EffectiveBatch(requested, limit, batch) ==
            if requested > 0 then requested else if limit <= 0 then limit else DefaultBatch(limit, batch)
    ensures 0 < EffectiveBatch(requested, limit, batch) <==> requested > 0 || limit > 0
  {
  }

  lemma WrapOnce(x: int)
    requires INT64_MIN - TWO64 <= x < INT64_MIN
    ensures Wrap64(x) == x + TWO64
  {
  }

  /** With the smallest limit and 5 credits out, a node that names a batch of 7 is
      granted all of it, and one that names none has the limit itself recorded. */
  lemma NegativeLimitGrants(q: Quota, node: string)
    requires q.fd == map["holder" := 5] && q.fdLimit == Some(INT64_MIN) && node != "holder"
    ensures PlanRequest(q, FD, node, 7, 1000).Write? && PlanRequest(q, FD, node, 7, 1000).result == 7
    ensures PlanRequest(q, FD, node, 0, 1000).Write? && PlanRequest(q, FD, node, 0, 1000).result == INT64_MIN
  {
    hide PlanRequest;
    SumRemove(q.fd, "holder");
    assert q.fd - {"holder"} == map[];
    RequestUnderAnyLimit(q, FD, node, 7, 1000);
    RequestUnderAnyLimit(q, FD, node, 0, 1000);
  }
}
