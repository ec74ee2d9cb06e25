/** How a pool is shared out when nodes ask in turn. */
module FairShare {

  import opened Basics
  import opened MapSum
  import opened QuotaLedger

  /** The object after the nodes have asked one after the other. */
  ghost function Serve(q: Quota, kind: Kind, nodes: seq<string>, requested: int64, batch: int64): Quota {
    if nodes == [] then q
    else Apply(Serve(q, kind, nodes[..|nodes| - 1], requested, batch),
               Request(kind, nodes[|nodes| - 1], requested, batch))
  }

  /** What k nodes ask for together, in batches of r. */
  function Demand(r: int, k: nat): int {
    k * r
  }

  /** What is left for the node that asks after k others. */
  function Share(limit: int, r: int, k: nat): int {
    Max(0, Min(r, limit - Demand(r, k)))
  }

  function CeilDiv(a: nat, b: int): nat {
    if b <= 0 then 0 else (a + b - 1) / b
  }

  predicate Distinct(nodes: seq<string>) {
    forall i, j | 0 <= i < j < |nodes| :: nodes[i] != nodes[j]
  }

  lemma ShareStep(limit: nat, r: int, k: nat)
    requires 0 < r
    ensures Min(Demand(r, k), limit) + Share(limit, r, k) == Min(Demand(r, k + 1), limit)
    ensures Share(limit, r, k) == Max(0, Min(r, limit - Min(Demand(r, k), limit)))
    ensures Share(limit, r, k) > 0 <==> Demand(r, k) < limit
    ensures Demand(r, 0) == 0
  {
    assert (k + 1) * r == k * r + r;
  }

  /** The k-th node holds its batch as long as the pool lasts, then what is left,
      then nothing; together they hold the pool or all they asked for, whichever is
      smaller; and a node is on record exactly when it got something. */
  ghost predicate IsShared(c: Credits, nodes: seq<string>, limit: int, r: int) {
    && Sum(c) == Min(Demand(r, |nodes|), limit)
    && (forall k | 0 <= k < |nodes| :: Held(c, nodes[k]) == Share(limit, r, k))
    && (forall n | n in c :: n in nodes)
    && (forall k | 0 <= k < |nodes| :: nodes[k] in c <==> Demand(r, k) < limit)
  }

  lemma OneMoreShare(c: Credits, nodes: seq<string>, node: string, limit: int64, r: int)
    requires IsShared(c, nodes, limit, r) && Distinct(nodes + [node]) && 0 < limit && 0 < r
    ensures node !in c
    ensures var g := Share(limit, r, |nodes|);
            g == Max(0, Min(r, limit - Sum(c))) && IsShared(if g > 0 then c[node := g] else c, nodes + [node], limit, r)
  {
    hide Sum, Demand, Share;
    ShareStep(limit, r, |nodes|);
    var g, nodes' := Share(limit, r, |nodes|), nodes + [node];
    forall k | 0 <= k < |nodes| ensures nodes[k] != node {
      assert nodes'[k] != nodes'[|nodes|];
    }
    if g > 0 {
      SumUpdate(c, node, g);
    }
  }

  /** Nobody's share changes when others ask after it: in every state the shares
      are those of the closed form. */
  lemma {:induction false} SharesInClosedForm(q: Quota, kind: Kind, nodes: seq<string>, requested: int64, batch: int64)
    requires Sound(q) && q.Alloc(kind) == map[] && 0 < q.Limit(kind) && 0 < batch && Distinct(nodes)
    ensures var limit := q.Limit(kind);
            var t := Serve(q, kind, nodes, requested, batch);
            && Sound(t) && t.Limit(kind) == limit
            && IsShared(t.Alloc(kind), nodes, limit, EffectiveBatch(requested, limit, batch))
  {
    hide EffectiveBatch, Sum, Demand, Apply, Sound, IsShared, Share;
    var limit := q.Limit(kind);
    var r := BatchOf(requested, limit, batch);
    if nodes != [] {
      var init, node := nodes[..|nodes| - 1], nodes[|nodes| - 1];
      assert nodes == init + [node];
      SharesInClosedForm(q, kind, init, requested, batch);
      var before := Serve(q, kind, init, requested, batch);
      OneMoreShare(before.Alloc(kind), init, node, limit, r);
      OneMoreAsks(before, kind, node, requested, batch);
    } else {
      NothingShared(limit, r);
    }
  }

  lemma NothingShared(limit: int64, r: int)
    requires 0 < limit && 0 < r
    ensures IsShared(map[], [], limit, r)
  {
  }

  lemma BatchOf(requested: int64, limit: int64, batch: int64) returns (r: int)
    requires 0 < limit && 0 < batch
    ensures r == EffectiveBatch(requested, limit, batch) && 0 < r
  {
    BatchIsPositive(requested, limit, batch);
    r := EffectiveBatch(requested, limit, batch);
  }

  /** A node without credits asks: it gets its batch or what is left. */
  lemma OneMoreAsks(q: Quota, kind: Kind, node: string, requested: int64, batch: int64)
    requires Sound(q) && 0 < batch && node !in q.Alloc(kind)
    ensures var t := Apply(q, Request(kind, node, requested, batch));
            var left := q.Limit(kind) - Sum(q.Alloc(kind));
            && Sound(t) && t.Limit(kind) == q.Limit(kind)
            && (if left <= 0 then t == q else
                  var g := Min(EffectiveBatch(requested, q.Limit(kind), batch), left);
                  && t.Alloc(kind) == q.Alloc(kind)[node := g]
                  && Sum(t.Alloc(kind)) == Sum(q.Alloc(kind)) + g)
  {
    RequestGrants(q, kind, node, requested, batch);
    ApplySound(q, Request(kind, node, requested, batch));
  }

  /** Exactly the first CeilDiv(limit, r) nodes hold credits, and once that many
      have asked the pool is shared out completely. */
  lemma HoldersAndTotal(q: Quota, kind: Kind, nodes: seq<string>, requested: int64, batch: int64)
    requires Sound(q) && q.Alloc(kind) == map[] && 0 < q.Limit(kind) && 0 < batch && Distinct(nodes)
    ensures var limit := q.Limit(kind);
            var holders := CeilDiv(limit, EffectiveBatch(requested, limit, batch));
            var c := Serve(q, kind, nodes, requested, batch).Alloc(kind);
            && (forall k | 0 <= k < |nodes| :: nodes[k] in c <==> k < holders)
            && |c| == Min(|nodes|, holders)
            && (holders <= |nodes| ==> Sum(c) == limit)
  {
    hide Serve, EffectiveBatch, Sum, Demand, Sound;
    var limit := q.Limit(kind);
    var r := BatchOf(requested, limit, batch);
    var c := Serve(q, kind, nodes, requested, batch).Alloc(kind);
    var holders := CeilDiv(limit, r);
    SharesInClosedForm(q, kind, nodes, requested, batch);
    forall k | 0 <= k < |nodes| ensures nodes[k] in c <==> k < holders {
      CeilDivCounts(limit, r, k);
    }
    var first := nodes[..Min(|nodes|, holders)];
    assert c.Keys == set n | n in first by {
      forall n | n in c ensures n in first {
        var k :| 0 <= k < |nodes| && nodes[k] == n;
        assert first[k] == n;
      }
    }
    DistinctSize(first);
    if holders <= |nodes| {
      CeilDivCounts(limit, r, |nodes|);
    }
  }

  /** With the default batch, a pool of more than 100 credits is shared by ten nodes, each
      with a tenth, and an eleventh node gets what a division by 10 leaves over. */
  lemma TenNodesShare(q: Quota, kind: Kind, nodes: seq<string>, batch: int64)
    requires Sound(q) && q.Alloc(kind) == map[] && Distinct(nodes)
    requires 100 < q.Limit(kind) && 0 < batch && q.Limit(kind) / 10 <= batch
    ensures var limit, c := q.Limit(kind), Serve(q, kind, nodes, 0, batch).Alloc(kind);
            && |c| == Min(|nodes|, if limit % 10 == 0 then 10 else 11)
            && (forall k | 0 <= k < |nodes| :: Held(c, nodes[k]) == if k < 10 then limit / 10 else if k == 10 then limit % 10 else 0)
  {
    hide Serve, EffectiveBatch, Sum, Sound;
    var limit := q.Limit(kind);
    TenthOf(limit, batch);
    HoldersAndTotal(q, kind, nodes, 0, batch);
    SharesInClosedForm(q, kind, nodes, 0, batch);
    ElevenAtMost(limit);
    forall k | 0 <= k < |nodes|
      ensures Share(limit, limit / 10, k) == if k < 10 then limit / 10 else if k == 10 then limit % 10 else 0
    {
      TenthShares(limit, k);
    }
  }

  lemma TenthOf(limit: int64, batch: int64)
    requires 100 < limit && 0 < batch && limit / 10 <= batch
    ensures EffectiveBatch(0, limit, batch) == limit / 10
  {
  }

  lemma ElevenAtMost(limit: nat)
    requires 100 < limit
    ensures CeilDiv(limit, limit / 10) == if limit % 10 == 0 then 10 else 11
  {
    hide CeilDiv;
    var r := limit / 10;
    CeilDivCounts(limit, r, 9);
    CeilDivCounts(limit, r, 10);
    CeilDivCounts(limit, r, 11);
    assert limit == 10 * r + limit % 10;
    assert Demand(r, 9) == 9 * r && Demand(r, 10) == 10 * r && Demand(r, 11) == 11 * r;
  }

  lemma TenthShares(limit: nat, k: nat)
    requires 100 < limit
    ensures Share(limit, limit / 10, k) == if k < 10 then limit / 10 else if k == 10 then limit % 10 else 0
  {
    var r := limit / 10;
    assert limit == 10 * r + limit % 10;
    if k < 10 {
      TimesMonotone(k, 9, r);
    } else if k > 10 {
      TimesMonotone(11, k, r);
    }
  }

  lemma CeilDivCounts(limit: nat, r: nat, k: nat)
    requires 0 < r
    ensures Demand(r, k) < limit <==> k < CeilDiv(limit, r)
  {
    var x, c := limit + r - 1, CeilDiv(limit, r);
    assert x == c * r + x % r;
    if k < c {
      TimesMonotone(k, c - 1, r);
      assert (c - 1) * r == c * r - r;
    } else {
      TimesMonotone(c, k, r);
    }
  }

  lemma {:induction false} DistinctSize(nodes: seq<string>)
    requires Distinct(nodes)
    ensures |(set n | n in nodes)| == |nodes|
  {
    if nodes != [] {
      var init, last := nodes[..|nodes| - 1], nodes[|nodes| - 1];
      DistinctSize(init);
      assert (set n | n in nodes) == (set n | n in init) + {last};
    }
  }
}
