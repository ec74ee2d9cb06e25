/** What the kernel side keeps over whole runs of hooks and map operations. */
module EnforcerRuns {

  import opened Basics
  import opened QuotaLedger
  import opened Enforcer

  /** An install by a cgroup of the namespace. */
  predicate InstallIn(k: Kernel, e: MapEvent, ns: Namespace) {
    e.Install? && k.Bound(e.cgid, ns)
  }

  /** A close by a cgroup of the namespace. */
  predicate CloseIn(k: Kernel, e: MapEvent, ns: Namespace) {
    e.Close? && k.Bound(e.cgid, ns)
  }

  predicate Admits(k: Kernel, kind: Kind, e: MapEvent)
    requires e.Install?
  {
    OnInstall(k, kind, e.cgid, e.now).1.Admitted?
  }

  predicate Refuses(k: Kernel, kind: Kind, e: MapEvent)
    requires e.Install?
  {
    OnInstall(k, kind, e.cgid, e.now).1.Refused?
  }

  /** The namespace has the limit, and a counter just created for it. */
  predicate Fresh(k: Kernel, ns: Namespace, limit: int64) {
    && ns in k.nsLimit && k.nsLimit[ns] == limit
    && ns in k.nsCounter && k.nsCounter[ns] == CpuLease(0, FirstSlice(limit), 0, 0, 0)
  }

  /** The event keeps the namespace's limit and counter, and hands out no first
      slice again unless the limit is at most 100. */
  predicate Steady(e: MapEvent, ns: Namespace, limit: int64) {
    match e
    case SetLimit(n, l) => n != ns || l == limit
    case Reslice(n, l) => n != ns || (l == limit && limit <= 100)
    case DropLimit(n) => n != ns
    case DropCounter(n) => n != ns
    case _ => true
  }

  predicate InBudget(k: Kernel, ns: Namespace, limit: int64) {
    && ns in k.nsLimit && k.nsLimit[ns] == limit && ns in k.nsCounter
    && k.nsCounter[ns].count <= k.nsCounter[ns].leaseBudget <= limit
    && (limit <= 100 ==> k.nsCounter[ns].leaseBudget == limit)
  }

  /** Within its budget a lease admits exactly while the count is below the limit. */
  lemma AttemptInBudget(l: CpuLease, limit: int64)
    requires 0 < limit && l.count <= l.leaseBudget <= limit
    ensures var (l', admitted) := Attempt(l, limit);
            && (admitted <==> l.count < limit)
            && l'.count == l.count + (if admitted then 1 else 0)
            && l'.count <= l'.leaseBudget <= limit && l.leaseBudget <= l'.leaseBudget
  {
  }

  /** The plain quota: one comparison with the limit, and no budget. */
  function PlainCount(k: Kernel, kind: Kind, es: seq<MapEvent>, ns: Namespace, limit: int64): nat {
    if es == [] then 0 else
    var n := PlainCount(k, kind, es[..|es| - 1], ns, limit);
    var before, e := MapRun(k, kind, es[..|es| - 1]), es[|es| - 1];
    if InstallIn(before, e, ns) && n < limit then n + 1
    else if CloseIn(before, e, ns) && n > 0 then n - 1
    else n
  }

  lemma InBudgetStep(k: Kernel, kind: Kind, e: MapEvent, ns: Namespace, limit: int64)
    requires 0 < limit && InBudget(k, ns, limit) && Steady(e, ns, limit)
    ensures var k' := MapStep(k, kind, e);
            var n := k.nsCounter[ns].count;
            && InBudget(k', ns, limit)
            && k'.nsCounter[ns].count == (if InstallIn(k, e, ns) && n < limit then n + 1
                                          else if CloseIn(k, e, ns) && n > 0 then n - 1 else n)
            && (InstallIn(k, e, ns) ==> (Admits(k, kind, e) <==> n < limit) && (Refuses(k, kind, e) <==> n >= limit))
  {
    hide Attempt;
    if InstallIn(k, e, ns) {
      var noted := Noted(k.nsCounter[ns], e.cgid, k.Count(e.cgid) + 1, e.now);
      AttemptInBudget(noted, limit);
    } else {
      if e.Install? && e.cgid in k.cgroupNs { assert k.cgroupNs[e.cgid] != ns; }
      if e.Close? && e.cgid in k.cgroupNs && !CloseIn(k, e, ns) { assert k.cgroupNs[e.cgid] != ns; }
    }
  }

  /** Budget slicing is transparent: from a fresh counter with a fixed limit, and
      whatever the other namespaces do, the count stays within the budget and the
      budget within the limit, and the sliced hook counts, admits and refuses step
      for step what the plain quota does. */
  lemma {:induction false} SlicingIsTransparent(k: Kernel, kind: Kind, es: seq<MapEvent>, ns: Namespace, limit: int64)
    requires 0 < limit && Fresh(k, ns, limit)
    requires forall e | e in es :: Steady(e, ns, limit)
    ensures var t := MapRun(k, kind, es);
            var n := PlainCount(k, kind, es, ns, limit);
            && InBudget(t, ns, limit)
            && t.nsCounter[ns].count == n
            && (forall e | InstallIn(t, e, ns) :: (Admits(t, kind, e) <==> n < limit) && (Refuses(t, kind, e) <==> n >= limit))
  {
    hide MapStep, OnInstall, Attempt, Admits, Refuses;
    if es != [] {
      var prefix, e := es[..|es| - 1], es[|es| - 1];
      SlicingIsTransparent(k, kind, prefix, ns, limit);
      InBudgetStep(MapRun(k, kind, prefix), kind, e, ns, limit);
    }
    var t := MapRun(k, kind, es);
    forall e | InstallIn(t, e, ns)
      ensures (Admits(t, kind, e) <==> t.nsCounter[ns].count < limit) && (Refuses(t, kind, e) <==> t.nsCounter[ns].count >= limit)
    {
      InBudgetStep(t, kind, e, ns, limit);
    }
  }

  /** A slice in numbers: a tenth of the limit, but at least 10 and at most 100. */
  lemma SliceIsTenth(limit: nat)
    ensures limit < 100 ==> SliceStep(limit) == 10
    ensures 1000 <= limit ==> SliceStep(limit) == 100
    ensures 100 <= limit < 1000 ==> 10 * SliceStep(limit) <= limit < 10 * SliceStep(limit) + 10
  {
  }

  lemma AttemptTakesSlice(l: CpuLease, limit: int64)
    requires l.count == l.leaseBudget < limit
    ensures var slice := if limit < 100 then 10 else if limit < 1000 then limit / 10 else 100;
            Attempt(l, limit) == (l.(count := l.count + 1, leaseBudget := Min(l.leaseBudget + slice, limit)), true)
  {
  }

  /** An install that has used up the budget below the limit takes another slice, as far
      as the limit allows, and is admitted. */
  lemma InstallTakesSlice(k: Kernel, kind: Kind, cgid: CgroupId, now: nat, ns: Namespace, limit: int64)
    requires 0 < limit && k.Bound(cgid, ns) && ns in k.nsLimit && k.nsLimit[ns] == limit && ns in k.nsCounter
    requires k.nsCounter[ns].count == k.nsCounter[ns].leaseBudget < limit
    ensures var (k', v) := OnInstall(k, kind, cgid, now);
            var l, slice := k.nsCounter[ns], if limit < 100 then 10 else if limit < 1000 then limit / 10 else 100;
            && v == Admitted && ns in k'.nsCounter
            && k'.nsCounter[ns].count == l.count + 1
            && k'.nsCounter[ns].leaseBudget == Min(l.leaseBudget + slice, limit)
  {
    hide Attempt;
    AttemptTakesSlice(Noted(k.nsCounter[ns], cgid, k.Count(cgid) + 1, now), limit);
  }

  /** A negative limit is one of nearly 2^64 in the kernel, where the budget may wrap
      around: with a limit of -1, an install at a count and budget of 2^64 - 50 is left
      with a budget of 50 and refused. */
  lemma BudgetWrapsUnderNegativeLimit(l: CpuLease)
    requires l.count == l.leaseBudget == 0x1_0000_0000_0000_0000 - 50
    ensures Attempt(l, ToU64(-1)) == (l.(leaseBudget := 50), false)
  {
  }

  /** Exactly when the budget makes a difference: an install below the limit is
      refused just if the budget is at or under the count even after one slice. */
  lemma FalseRefusalExactly(k: Kernel, kind: Kind, e: MapEvent, ns: Namespace, limit: int64)
    requires 0 < limit && InstallIn(k, e, ns) && ns in k.nsCounter && ns in k.nsLimit && k.nsLimit[ns] == limit
    requires k.nsCounter[ns].count < limit
    ensures Refuses(k, kind, e) <==> k.nsCounter[ns].leaseBudget + SliceStep(limit) <= k.nsCounter[ns].count
    ensures Admits(k, kind, e) <==> !Refuses(k, kind, e)
  {
  }

  /** A re-sync is the one thing that brings this about, and only with a limit
      over 100: right after it, installs below the limit are refused exactly from
      the first slice and one step on. */
  lemma ResyncRefusesExactly(k: Kernel, kind: Kind, e: MapEvent, ns: Namespace, limit: int64)
    requires 0 < limit && InstallIn(k, e, ns) && InBudget(k, ns, limit) && k.nsCounter[ns].count < limit
    ensures Refuses(MapStep(k, kind, Reslice(ns, limit)), kind, e) <==>
            || (100 < limit < 1000 && 2 * (limit / 10) <= k.nsCounter[ns].count)
            || (1000 <= limit && limit / 10 + 100 <= k.nsCounter[ns].count)
  {
    SliceIsTenth(limit);
    var k' := MapStep(k, kind, Reslice(ns, limit));
    assert InstallIn(k', e, ns);
    FalseRefusalExactly(k', kind, e, ns, limit);
  }

  /** An install that is checked and a close that is counted are noted with their time. */
  lemma TimesAreNoted(k: Kernel, kind: Kind, e: MapEvent, ns: Namespace)
    requires ns in k.nsCounter
    ensures var k' := MapStep(k, kind, e);
            && (InstallIn(k, e, ns) && k.Enforces(ns) ==> ns in k'.nsCounter && k'.nsCounter[ns].lastUsedNs == e.now)
            && (CloseIn(k, e, ns) && k.nsCounter[ns].count > 0 ==> ns in k'.nsCounter && k'.nsCounter[ns].lastUsedNs == e.now)
  {
    hide Grown;
  }

  /** How many installs of the namespace the run makes. */
  function Installs(k: Kernel, kind: Kind, es: seq<MapEvent>, ns: Namespace): nat {
    if es == [] then 0 else
    Installs(k, kind, es[..|es| - 1], ns)
      + (if InstallIn(MapRun(k, kind, es[..|es| - 1]), es[|es| - 1], ns) then 1 else 0)
  }

  ghost predicate NoCloses(k: Kernel, kind: Kind, es: seq<MapEvent>, ns: Namespace) {
    forall i | 0 <= i < |es| :: !CloseIn(MapRun(k, kind, es[..i]), es[i], ns)
  }

  /** The event keeps the namespace's limit and counter and hands out no slice. */
  predicate NoResync(e: MapEvent, ns: Namespace, limit: int64) {
    Steady(e, ns, limit) && (e.Reslice? ==> e.ns != ns)
  }

  /** Slices handed out by a number of refusals. */
  function Slices(step: nat, n: nat): nat {
    n * step
  }

  lemma SlicesAdd(step: nat, n: nat)
    ensures Slices(step, n + 1) == Slices(step, n) + step && Slices(step, 0) == 0
  {
    assert (n + 1) * step == n * step + step;
  }

  lemma SlicesBelow(step: nat, n: nat, gap: nat)
    requires 0 < step
    ensures Slices(step, n + 1) <= gap <==> n < gap / step
    ensures n <= gap / step ==> Slices(step, n) <= gap
  {
    var q := gap / step;
    assert gap == q * step + gap % step;
    if n < q {
      TimesMonotone(n + 1, q, step);
    } else {
      TimesMonotone(q, n, step);
      SlicesAdd(step, n);
    }
  }

  /** One refused install moves the budget one step towards the limit, one step
      towards the count. */
  lemma RefusalStep(k: Kernel, kind: Kind, e: MapEvent, ns: Namespace, limit: int64)
    requires 0 < limit && ns in k.nsCounter && ns in k.nsLimit && k.nsLimit[ns] == limit
    requires k.nsCounter[ns].leaseBudget <= k.nsCounter[ns].count < limit
    requires NoResync(e, ns, limit) && !CloseIn(k, e, ns)
    requires InstallIn(k, e, ns) ==> k.nsCounter[ns].leaseBudget + SliceStep(limit) <= k.nsCounter[ns].count
    ensures var k', l := MapStep(k, kind, e), k.nsCounter[ns];
            && ns in k'.nsLimit && k'.nsLimit[ns] == limit && ns in k'.nsCounter
            && k'.nsCounter[ns].count == l.count
            && k'.nsCounter[ns].leaseBudget == l.leaseBudget + (if InstallIn(k, e, ns) then SliceStep(limit) else 0)
            && (InstallIn(k, e, ns) ==> Refuses(k, kind, e) && limit - k'.nsCounter[ns].leaseBudget < limit - l.leaseBudget)
  {
    hide SliceStep;
    SliceStepRange(limit);
    if e.Install? && e.cgid in k.cgroupNs && !InstallIn(k, e, ns) { assert k.cgroupNs[e.cgid] != ns; }
    if e.Close? && e.cgid in k.cgroupNs { assert k.cgroupNs[e.cgid] != ns; }
  }

  lemma SliceStepRange(limit: nat)
    ensures 10 <= SliceStep(limit) <= 100
  {
  }

  /** A number of refusals after a re-sync: the limit and the count are as they were, and
      the budget has moved on by so many steps, not beyond the count. */
  predicate Recovering(k: Kernel, t: Kernel, ns: Namespace, limit: int64, n: nat)
    requires ns in k.nsCounter && 0 < limit
  {
    && ns in t.nsLimit && t.nsLimit[ns] == limit && ns in t.nsCounter
    && t.nsCounter[ns].count == k.nsCounter[ns].count
    && t.nsCounter[ns].leaseBudget == k.nsCounter[ns].leaseBudget + Slices(SliceStep(limit), n) <= k.nsCounter[ns].count
  }

  lemma RecoveryStep(k: Kernel, t: Kernel, kind: Kind, e: MapEvent, ns: Namespace, limit: int64, n: nat)
    requires 0 < limit && ns in k.nsCounter && k.nsCounter[ns].leaseBudget <= k.nsCounter[ns].count < limit
    requires Recovering(k, t, ns, limit, n) && NoResync(e, ns, limit) && !CloseIn(t, e, ns)
    requires InstallIn(t, e, ns) ==> n < (k.nsCounter[ns].count - k.nsCounter[ns].leaseBudget) / SliceStep(limit)
    ensures Recovering(k, MapStep(t, kind, e), ns, limit, if InstallIn(t, e, ns) then n + 1 else n)
  {
    hide MapStep, SliceStep, Slices, Refuses;
    SliceStepRange(limit);
    SlicesAdd(SliceStep(limit), n);
    SlicesBelow(SliceStep(limit), n, k.nsCounter[ns].count - k.nsCounter[ns].leaseBudget);
    RefusalStep(t, kind, e, ns, limit);
  }

  lemma RecoveryVerdict(k: Kernel, t: Kernel, kind: Kind, e: MapEvent, ns: Namespace, limit: int64, n: nat)
    requires 0 < limit && ns in k.nsCounter && k.nsCounter[ns].leaseBudget <= k.nsCounter[ns].count < limit
    requires Recovering(k, t, ns, limit, n) && InstallIn(t, e, ns)
    requires n <= (k.nsCounter[ns].count - k.nsCounter[ns].leaseBudget) / SliceStep(limit)
    ensures var q := (k.nsCounter[ns].count - k.nsCounter[ns].leaseBudget) / SliceStep(limit);
            (Refuses(t, kind, e) <==> n < q) && (Admits(t, kind, e) <==> n == q)
  {
    hide SliceStep, Slices, Refuses, Admits;
    SliceStepRange(limit);
    SlicesAdd(SliceStep(limit), n);
    SlicesBelow(SliceStep(limit), n, k.nsCounter[ns].count - k.nsCounter[ns].leaseBudget);
    FalseRefusalExactly(t, kind, e, ns, limit);
  }

  lemma NothingRecovered(k: Kernel, ns: Namespace, limit: int64)
    requires 0 < limit && ns in k.nsCounter && ns in k.nsLimit && k.nsLimit[ns] == limit
    requires k.nsCounter[ns].leaseBudget <= k.nsCounter[ns].count
    ensures Recovering(k, k, ns, limit, 0)
  {
    SlicesAdd(SliceStep(limit), 0);
  }

  /** Exact recovery: when a re-sync has put the budget at or under the count, then
      as long as nothing is closed or re-synced, exactly (count - budget) / step
      installs are refused, each moving the budget on by one step, and the next
      one is admitted. */
  lemma {:induction false} RecoveryAfterResync(k: Kernel, kind: Kind, es: seq<MapEvent>, ns: Namespace, limit: int64)
    requires 0 < limit && ns in k.nsCounter && ns in k.nsLimit && k.nsLimit[ns] == limit
    requires k.nsCounter[ns].leaseBudget <= k.nsCounter[ns].count < limit
    requires (forall e | e in es :: NoResync(e, ns, limit)) && NoCloses(k, kind, es, ns)
    requires Installs(k, kind, es, ns) <= (k.nsCounter[ns].count - k.nsCounter[ns].leaseBudget) / SliceStep(limit)
    ensures var t, l, n := MapRun(k, kind, es), k.nsCounter[ns], Installs(k, kind, es, ns);
            && Recovering(k, t, ns, limit, n)
            && (forall e | InstallIn(t, e, ns) ::
                  && (Refuses(t, kind, e) <==> n < (l.count - l.leaseBudget) / SliceStep(limit))
                  && (Admits(t, kind, e) <==> n == (l.count - l.leaseBudget) / SliceStep(limit)))
  {
    hide MapStep, OnInstall, SliceStep, Refuses, Admits, Recovering, NoResync;
    SliceStepRange(limit);
    if es == [] {
      NothingRecovered(k, ns, limit);
    } else {
      var prefix, e := es[..|es| - 1], es[|es| - 1];
      assert e in es;
      NoClosesBefore(k, kind, es, ns);
      RecoveryAfterResync(k, kind, prefix, ns, limit);
      RecoveryStep(k, MapRun(k, kind, prefix), kind, e, ns, limit, Installs(k, kind, prefix, ns));
    }
    var t, n := MapRun(k, kind, es), Installs(k, kind, es, ns);
    forall e | InstallIn(t, e, ns)
      ensures var q := (k.nsCounter[ns].count - k.nsCounter[ns].leaseBudget) / SliceStep(limit);
              (Refuses(t, kind, e) <==> n < q) && (Admits(t, kind, e) <==> n == q)
    {
      RecoveryVerdict(k, t, kind, e, ns, limit, n);
    }
  }

  lemma NoClosesBefore(k: Kernel, kind: Kind, es: seq<MapEvent>, ns: Namespace)
    requires es != [] && NoCloses(k, kind, es, ns)
    ensures NoCloses(k, kind, es[..|es| - 1], ns) && !CloseIn(MapRun(k, kind, es[..|es| - 1]), es[|es| - 1], ns)
  {
    hide MapRun;
    var prefix := es[..|es| - 1];
    forall i | 0 <= i < |prefix| ensures !CloseIn(MapRun(k, kind, prefix[..i]), prefix[i], ns) {
      assert es[..i] == prefix[..i];
    }
    assert es[..|prefix|] == prefix;
  }

  /** How many installs of the namespace have not been closed again, whether the
      kernel counted them or not. */
  function Outstanding(k: Kernel, kind: Kind, es: seq<MapEvent>, ns: Namespace): int {
    if es == [] then 0 else
    var before, e := MapRun(k, kind, es[..|es| - 1]), es[|es| - 1];
    Outstanding(k, kind, es[..|es| - 1], ns)
      + (if InstallIn(before, e, ns) then 1 else if CloseIn(before, e, ns) then -1 else 0)
  }

  /** Every close in the namespace closes something installed in it. */
  ghost predicate Matched(k: Kernel, kind: Kind, es: seq<MapEvent>, ns: Namespace) {
    forall i | 0 <= i < |es| ::
      CloseIn(MapRun(k, kind, es[..i]), es[i], ns) ==> Outstanding(k, kind, es[..i], ns) > 0
  }

  ghost predicate NoRefusal(k: Kernel, kind: Kind, es: seq<MapEvent>, ns: Namespace) {
    forall i | 0 <= i < |es| ::
      InstallIn(MapRun(k, kind, es[..i]), es[i], ns) ==> !Refuses(MapRun(k, kind, es[..i]), kind, es[i])
  }

  /** No false breach: the count never exceeds what is truly outstanding, so an
      install is refused only when true usage has reached the limit; and until the
      first refusal the two are equal. */
  lemma {:induction false} NoFalseBreach(k: Kernel, kind: Kind, es: seq<MapEvent>, ns: Namespace, limit: int64)
    requires 0 < limit && Fresh(k, ns, limit)
    requires (forall e | e in es :: Steady(e, ns, limit)) && Matched(k, kind, es, ns)
    ensures var t, out := MapRun(k, kind, es), Outstanding(k, kind, es, ns);
            && ns in t.nsCounter && t.nsCounter[ns].count <= out
            && (NoRefusal(k, kind, es, ns) ==> t.nsCounter[ns].count == out)
            && (forall e | InstallIn(t, e, ns) :: Refuses(t, kind, e) ==> out >= limit)
  {
    hide MapStep, OnInstall, Refuses, Admits;
    SlicingIsTransparent(k, kind, es, ns, limit);
    if es != [] {
      var prefix, e := es[..|es| - 1], es[|es| - 1];
      forall i | 0 <= i < |prefix| ensures prefix[..i] == es[..i] && prefix[i] == es[i] {
      }
      assert Matched(k, kind, prefix, ns);
      NoFalseBreach(k, kind, prefix, ns, limit);
      SlicingIsTransparent(k, kind, prefix, ns, limit);
      var before := MapRun(k, kind, prefix);
      assert es[..|prefix|] == prefix;
      assert CloseIn(before, e, ns) ==> Outstanding(k, kind, prefix, ns) > 0;
      InBudgetStep(before, kind, e, ns, limit);
      if NoRefusal(k, kind, es, ns) {
        assert NoRefusal(k, kind, prefix, ns);
        assert InstallIn(MapRun(k, kind, es[..|prefix|]), es[|prefix|], ns) ==> !Refuses(MapRun(k, kind, es[..|prefix|]), kind, es[|prefix|]);
      }
    }
  }
}
