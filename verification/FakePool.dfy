/** The in-memory allocator of the tests. It keeps a running total of the credits
    it has given out, where the ledger adds them up anew each time. */
module FakePool {

  import opened Basics
  import opened MapSum
  import opened QuotaLedger

  const POOL_BATCH: int64 := 1000

  datatype Pool = Pool(totalLimit: int64, allocatedCredits: int64, nodeLeases: Credits)

  datatype PoolOp = Take(node: string, requested: int64) | Give(node: string) | SetLimit(limit: int64)

  /** The pool after one operation, and what the caller is told. */
  function PoolStep(p: Pool, op: PoolOp): (Pool, int64) {
    match op
    case Take(node, requested) =>
      var want := EffectiveBatch(requested, p.totalLimit, POOL_BATCH);
      var remaining := Wrap64(p.totalLimit - p.allocatedCredits);
      if remaining <= 0 then (p, Held(p.nodeLeases, node))
      else
        var grant := Min(want, remaining);
        var amount := Wrap64(Held(p.nodeLeases, node) + grant);
        (p.(allocatedCredits := Wrap64(p.allocatedCredits + grant), nodeLeases := p.nodeLeases[node := amount]), amount)
    case Give(node) =>
      if node !in p.nodeLeases then (p, 0)
      else
        var leased := p.nodeLeases[node];
        (p.(allocatedCredits := Max(0, Wrap64(p.allocatedCredits - leased)), nodeLeases := p.nodeLeases - {node}), leased)
    case SetLimit(limit) => (p.(totalLimit := limit), 0)
  }

  class FakeLeaseManager {
    var pools: map<string, Pool>

    constructor ()
      ensures pools == map[]
    {
      pools := map[];
    }

    method SetGlobalPool(ns: string, totalLimit: int64)
      modifies this
      ensures pools == old(pools)[ns := if ns in old(pools) then PoolStep(old(pools)[ns], SetLimit(totalLimit)).0
                                        else Pool(totalLimit, 0, map[])]
    {
      if ns !in pools {
        pools := pools[ns := Pool(totalLimit, 0, map[])];
        return;
      }
      pools := pools[ns := pools[ns].(totalLimit := totalLimit)];
    }

    method RequestLease(ns: string, node: string, requested: int64) returns (r: Option<int64>)
      modifies this
      ensures ns !in old(pools) ==> r == None && pools == old(pools)
      ensures ns in old(pools) ==>
                var (p, amount) := PoolStep(old(pools)[ns], Take(node, requested));
                r == Some(amount) && pools == old(pools)[ns := p]
    {
      if ns !in pools {
        return None;
      }
      var p := pools[ns];
      var batch := requested;
      if requested <= 0 {
        batch := if p.totalLimit <= 100 then p.totalLimit else p.totalLimit / 10;
        batch := Max(batch, 10);
        batch := Min(batch, POOL_BATCH);
        batch := Min(batch, p.totalLimit);
      }
      var remaining := Wrap64(p.totalLimit - p.allocatedCredits);
      if remaining <= 0 {
        assert pools[ns := p] == pools;
        return Some(Held(p.nodeLeases, node));
      }
      var grant := Min(batch, remaining);
      p := p.(allocatedCredits := Wrap64(p.allocatedCredits + grant));
      p := p.(nodeLeases := p.nodeLeases[node := Wrap64(Held(p.nodeLeases, node) + grant)]);
      pools := pools[ns := p];
      return Some(p.nodeLeases[node]);
    }

    method ReleaseLease(ns: string, node: string) returns (leased: int64)
      modifies this
      ensures ns !in old(pools) ==> leased == 0 && pools == old(pools)
      ensures ns in old(pools) ==>
                var (p, amount) := PoolStep(old(pools)[ns], Give(node));
                leased == amount && pools == old(pools)[ns := p]
    {
      if ns !in pools {
        return 0;
      }
      var p := pools[ns];
      if node !in p.nodeLeases {
        assert pools[ns := p] == pools;
        return 0;
      }
      leased := p.nodeLeases[node];
      p := p.(nodeLeases := p.nodeLeases - {node});
      p := p.(allocatedCredits := Max(0, Wrap64(p.allocatedCredits - leased)));
      pools := pools[ns := p];
    }
  }

  ghost predicate Exact(p: Pool) {
    0 <= p.totalLimit && SoundCredits(p.nodeLeases) && p.allocatedCredits == Sum(p.nodeLeases)
  }

  ghost function PoolRun(p: Pool, ops: seq<PoolOp>): Pool {
    if ops == [] then p else PoolStep(PoolRun(p, ops[..|ops| - 1]), ops[|ops| - 1]).0
  }

  lemma EntryIsWithinSum(c: Credits, node: string)
    requires SoundCredits(c)
    ensures 0 <= Held(c, node) <= Sum(c)
  {
    SumIsInRange(c);
    if node in c {
      SumRemove(c, node);
      SumWithout(c, c - {node});
      SumIsInRange(c - {node});
    }
  }

  /** What a node that names no batch asks the pool for: a tenth of a limit over 100 or
      all of a smaller one, and never more than 1000. */
  lemma PoolBatchInNumbers(requested: int64, limit: int64)
    requires 0 < limit
    ensures EffectiveBatch(requested, limit, POOL_BATCH)
         == if requested > 0 then requested else if limit <= 100 then limit else Min(limit / 10, 1000)
  {
  }

  /** A pool with credits left adds to what the node has: the batch it names, or the
      default one, or what is left if that is less. */
  lemma TakeStaysExact(p: Pool, node: string, requested: int64)
    requires Exact(p)
    ensures var (p', amount) := PoolStep(p, Take(node, requested));
            && Exact(p')
            && (if p.totalLimit <= p.allocatedCredits then p' == p && amount == Held(p.nodeLeases, node)
                else
                  var limit, left := p.totalLimit, p.totalLimit - p.allocatedCredits;
                  var batch := if requested > 0 then requested else if limit <= 100 then limit else Min(limit / 10, 1000);
                  && amount == Held(p.nodeLeases, node) + Min(batch, left) > Held(p.nodeLeases, node)
                  && p' == Pool(limit, p.allocatedCredits + Min(batch, left), p.nodeLeases[node := amount]))
  {
    hide Wrap64, EffectiveBatch;
    EntryIsWithinSum(p.nodeLeases, node);
    WrapFits(p.totalLimit - p.allocatedCredits);
    if p.allocatedCredits < p.totalLimit {
      BatchIsPositive(requested, p.totalLimit, POOL_BATCH);
      PoolBatchInNumbers(requested, p.totalLimit);
      var grant := Min(EffectiveBatch(requested, p.totalLimit, POOL_BATCH), p.totalLimit - p.allocatedCredits);
      WrapFits(p.allocatedCredits + grant);
      WrapFits(Held(p.nodeLeases, node) + grant);
      SumUpdate(p.nodeLeases, node, Held(p.nodeLeases, node) + grant);
    }
  }

  /** The running total is the sum, after any one operation, and giving credits
      back never takes it below zero, so the clamp has nothing to do. */
  lemma TotalStaysExact(p: Pool, op: PoolOp)
    requires Exact(p) && (op.SetLimit? ==> 0 <= op.limit)
    ensures Exact(PoolStep(p, op).0)
    ensures op.Give? && op.node in p.nodeLeases ==> p.allocatedCredits - p.nodeLeases[op.node] >= 0
  {
    match op
    case Take(node, requested) => TakeStaysExact(p, node, requested);
    case Give(node) =>
      SumIsInRange(p.nodeLeases);
      if node in p.nodeLeases {
        SumRemove(p.nodeLeases, node);
        EntryIsWithinSum(p.nodeLeases, node);
        SumWithout(p.nodeLeases, p.nodeLeases - {node});
      }
    case SetLimit(_) =>
  }

  lemma {:induction false} RunTotalStaysExact(p: Pool, ops: seq<PoolOp>)
    requires Exact(p) && forall op | op in ops :: op.SetLimit? ==> 0 <= op.limit
    ensures Exact(PoolRun(p, ops))
  {
    hide PoolStep, Exact;
    if ops != [] {
      RunTotalStaysExact(p, ops[..|ops| - 1]);
      TotalStaysExact(PoolRun(p, ops[..|ops| - 1]), ops[|ops| - 1]);
    }
  }

  /** The same operation on the ledger's file descriptor side. */
  function OnLedger(q: Quota, op: PoolOp): Op {
    match op
    case Take(node, requested) => Request(FD, node, requested, POOL_BATCH)
    case Give(node) => Release(FD, node)
    case SetLimit(limit) => Edit(Some(limit), q.procLimit)
  }

  ghost predicate Related(p: Pool, q: Quota) {
    Exact(p) && Sound(q) && q.fd == p.nodeLeases && q.fdLimit == Some(p.totalLimit)
  }

  /** One operation on both: they stay alike and answer alike exactly when it is
      not a holder asking a pool that still has credits. There the pool of the
      tests grants more and the ledger returns what the node already has. */
  lemma PoolAgreesWithLedger(p: Pool, q: Quota, op: PoolOp)
    requires Related(p, q) && (op.SetLimit? ==> 0 <= op.limit)
    ensures var asksAgain := op.Take? && op.node in p.nodeLeases && p.allocatedCredits < p.totalLimit;
            && (PoolStep(p, op).1 == PlanOf(q, OnLedger(q, op)).result <==> !asksAgain)
            && (Related(PoolStep(p, op).0, Apply(q, OnLedger(q, op))) <==> !asksAgain)
  {
    TotalStaysExact(p, op);
    ApplySound(q, OnLedger(q, op));
    SumIsInRange(p.nodeLeases);
    match op
    case Take(node, requested) =>
      RequestGrants(q, FD, node, requested, POOL_BATCH);
      TakeStaysExact(p, node, requested);
    case Give(node) => ReleaseGivesBack(q, FD, node);
    case SetLimit(limit) =>
  }

  /** No node asks while it holds credits. */
  ghost predicate AskOnlyWhenEmpty(p: Pool, ops: seq<PoolOp>) {
    ops == [] ||
    (var before := PoolRun(p, ops[..|ops| - 1]);
     var op := ops[|ops| - 1];
     && AskOnlyWhenEmpty(p, ops[..|ops| - 1])
     && (op.Take? ==> op.node !in before.nodeLeases))
  }

  ghost function LedgerRun(q: Quota, ops: seq<PoolOp>): Quota {
    if ops == [] then q
    else
      var before := LedgerRun(q, ops[..|ops| - 1]);
      Apply(before, OnLedger(before, ops[|ops| - 1]))
  }

  ghost function PoolAnswers(p: Pool, ops: seq<PoolOp>): seq<int64> {
    if ops == [] then []
    else PoolAnswers(p, ops[..|ops| - 1]) + [PoolStep(PoolRun(p, ops[..|ops| - 1]), ops[|ops| - 1]).1]
  }

  ghost function LedgerAnswers(q: Quota, ops: seq<PoolOp>): seq<int64> {
    if ops == [] then []
    else
      var before := LedgerRun(q, ops[..|ops| - 1]);
      LedgerAnswers(q, ops[..|ops| - 1]) + [PlanOf(before, OnLedger(before, ops[|ops| - 1])).result]
  }

  /** Along every such run the two give the same answers and end up alike. */
  lemma {:induction false} PoolSimulatesLedger(p: Pool, q: Quota, ops: seq<PoolOp>)
    requires Related(p, q) && AskOnlyWhenEmpty(p, ops)
    requires forall op | op in ops :: op.SetLimit? ==> 0 <= op.limit
    ensures Related(PoolRun(p, ops), LedgerRun(q, ops))
    ensures PoolAnswers(p, ops) == LedgerAnswers(q, ops)
  {
    hide PoolStep, PlanOf, Apply, Related, OnLedger;
    if ops != [] {
      var init := ops[..|ops| - 1];
      PoolSimulatesLedger(p, q, init);
      PoolAgreesWithLedger(PoolRun(p, init), LedgerRun(q, init), ops[|ops| - 1]);
    }
  }
}
