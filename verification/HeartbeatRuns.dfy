/** Timing: who keeps its credits, and who loses them. */
module HeartbeatRuns {

  import opened QuotaLedger
  import opened LeaseManager
  import opened LedgerRuns

  /** A node's heartbeat in a table: its renew time is off by at most the skew. */
  predicate Accurate(beats: Beats, node: string, skew: int) {
    node in beats.table && -skew <= beats.table[node].stamp - beats.table[node].at <= skew
  }

  /** From position `first` of the log on the node has an accurate heartbeat that
      is renewed before it is older than the period. */
  ghost predicate OnTime(s: State, node: string, first: nat, period: int, skew: int)
    requires LedgerRuns.Valid(s)
  {
    && first < |s.beats|
    && (forall i | first <= i < |s.beats| :: Accurate(s.beats[i], node, skew))
    && (forall i | first <= i < |s.beats| - 1 :: s.beats[i + 1].since - s.beats[i].table[node].at <= period)
    && s.clock - Beating(s)[node].at <= period
  }

  /** The node's heartbeat is on time, and no reclaim now in progress has derived its
      active set without the node. */
  ghost predicate Protected(s: State, node: string, first: nat, period: int, skew: int)
    requires LedgerRuns.Valid(s)
  {
    OnTime(s, node, first, period, skew) && forall w | w in s.views :: node in s.views[w]
  }

  /** What the events of a run must keep to for one node: it neither gives its
      credits back nor deletes its heartbeat, it renews the heartbeat once every
      period, all clocks are within the skew of true time, and a listing of
      heartbeats shows them as they were at most `lag` ago, and not as they were
      before the node had its own. */
  ghost predicate Punctual(s: State, e: Event, node: string, first: nat, period: int, lag: int, skew: int)
    requires LedgerRuns.Valid(s)
  {
    match e
    case Try(_, Free(_, n), _) => n != node
    case Drop(n) => n != node
    case Renew(n, stamp) => n == node ==> -skew <= stamp - s.clock <= skew
    case Pass(time) => node in Beating(s) ==> s.clock + time - Beating(s)[node].at <= period
    case List(_, snapshot, now) =>
      && -skew <= now - s.clock <= skew
      && first <= snapshot && (snapshot < |s.beats| - 1 ==> s.clock - s.beats[snapshot + 1].since <= lag)
    case _ => true
  }

  ghost predicate PunctualRun(s: State, es: seq<Event>, node: string, first: nat, period: int, lag: int, skew: int)
    requires LedgerRuns.Valid(s)
  {
    es == [] ||
    (PunctualRun(s, es[..|es| - 1], node, first, period, lag, skew)
     && Punctual(Run(s, es[..|es| - 1]), es[|es| - 1], node, first, period, lag, skew))
  }

  /** A punctual node is in every listing made while its heartbeat is on time. */
  lemma ListingHasPunctualNode(s: State, e: Event, node: string, first: nat, period: int, lag: int, skew: int)
    requires LedgerRuns.Valid(s) && e.List? && Enabled(s, e)
    requires OnTime(s, node, first, period, skew) && Punctual(s, e, node, first, period, lag, skew)
    requires 0 <= period && 0 <= lag && 0 <= skew && period + lag + 2 * skew < LEASE_DURATION
    ensures node in FreshNodes(s.beats[e.snapshot].table, e.now)
  {
    assert Accurate(s.beats[e.snapshot], node, skew);
  }

  lemma BeatStepProtects(s: State, e: Event, node: string, first: nat, period: int, lag: int, skew: int)
    requires LedgerRuns.Valid(s) && (e.Renew? || e.Drop?) && 0 <= period
    requires Protected(s, node, first, period, skew) && Punctual(s, e, node, first, period, lag, skew)
    ensures Protected(Step(s, e), node, first, period, skew)
  {
    hide Commits, Decision, Apply, FreshNodes;
    var t := Step(s, e);
    assert forall i | first <= i < |s.beats| :: t.beats[i] == s.beats[i] && Accurate(s.beats[i], node, skew);
  }

  lemma PunctualStep(s: State, e: Event, node: string, first: nat, period: int, lag: int, skew: int)
    requires LedgerRuns.Valid(s) && SoundHistory(s) && ProperRun([e])
    requires Protected(s, node, first, period, skew) && Punctual(s, e, node, first, period, lag, skew)
    requires 0 <= period && 0 <= lag && 0 <= skew && period + lag + 2 * skew < LEASE_DURATION
    ensures var t := Step(s, e);
            && Protected(t, node, first, period, skew)
            && forall kind: Kind | node in Current(s).Alloc(kind) ::
                 node in Current(t).Alloc(kind) && Current(t).Alloc(kind)[node] == Current(s).Alloc(kind)[node]
  {
    hide Apply, PlanOf, FreshNodes, Sound;
    StepIsAtomic(s, e);
    assert e in [e] && Current(s) in s.history;
    if Commits(s, e) {
      EntriesAreWrittenOnce(Current(s), Intent(s, e), FD, node);
      EntriesAreWrittenOnce(Current(s), Intent(s, e), Proc, node);
    }
    if e.List? && Enabled(s, e) {
      ListingHasPunctualNode(s, e, node, first, period, lag, skew);
    } else if e.Renew? || e.Drop? {
      BeatStepProtects(s, e, node, first, period, lag, skew);
    }
  }

  /** Heartbeat safety: while a node renews its heartbeat once a period, and the
      period, the lag of listings and twice the skew of the clocks stay below the
      lease duration, nothing any node does takes its credits away or changes
      them, on either side, in any interleaving. */
  lemma {:induction false} PunctualNodeKeepsCredits(
      s: State, es: seq<Event>, node: string, kind: Kind, first: nat, period: int, lag: int, skew: int)
    requires LedgerRuns.Valid(s) && SoundHistory(s) && ProperRun(es)
    requires Protected(s, node, first, period, skew) && node in Current(s).Alloc(kind)
    requires PunctualRun(s, es, node, first, period, lag, skew)
    requires 0 <= period && 0 <= lag && 0 <= skew && period + lag + 2 * skew < LEASE_DURATION
    ensures var t := Run(s, es);
            && Protected(t, node, first, period, skew)
            && node in Current(t).Alloc(kind)
            && Current(t).Alloc(kind)[node] == Current(s).Alloc(kind)[node]
  {
    hide Step, Protected, Punctual, SoundHistory;
    if es != [] {
      var prefix, e := es[..|es| - 1], es[|es| - 1];
      assert e in es;
      PunctualNodeKeepsCredits(s, prefix, node, kind, first, period, lag, skew);
      RunKeepsCreditsSound(s, prefix);
      PunctualStep(Run(s, prefix), e, node, first, period, lag, skew);
    }
  }

  /** Why listings must not show heartbeats from before the node had its own: a
      reclaim that lists such heartbeats, be they outdated or current, takes the
      node's credits, although the heartbeat renewed in between is as fresh as
      can be. */
  lemma LateHeartbeatLosesCredits(s: State, node: string, other: string, kind: Kind, snapshot: nat)
    requires LedgerRuns.Valid(s) && SoundHistory(s)
    requires snapshot < |s.beats| && node !in s.beats[snapshot].table
    requires node in Current(s).Alloc(kind) && other != node
    ensures var es := [Read(0, |s.history| - 1), List(0, snapshot, s.clock), Renew(node, s.clock), Try(0, Sweep(other), true)];
            var t := Run(s, es);
            && node in Beating(t) && Beating(t)[node].at == t.clock
            && node !in Current(t).Alloc(kind)
  {
    hide PlanOf, Apply, Run;
    var e1, e2, e3, e4 := Read(0, |s.history| - 1), List(0, snapshot, s.clock), Renew(node, s.clock), Try(0, Sweep(other), true);
    RunOfFour(s, e1, e2, e3, e4);
    var s3 := Step(Step(Step(s, e1), e2), e3);
    var active := FreshNodes(s.beats[snapshot].table, s.clock);
    assert Intent(s3, e4) == Reclaim(other, active);
    ReclaimTakes(Current(s), other, active, kind, node);
  }

  lemma RunOfFour(s: State, e1: Event, e2: Event, e3: Event, e4: Event)
    requires LedgerRuns.Valid(s)
    ensures Run(s, [e1, e2, e3, e4]) == Step(Step(Step(Step(s, e1), e2), e3), e4)
  {
    hide Step, LedgerRuns.Valid;
    RunExtends(s, [], e1);
    RunExtends(s, [e1], e2);
    RunExtends(s, [e1, e2], e3);
    RunExtends(s, [e1, e2, e3], e4);
    assert [] + [e1] == [e1];
    assert [e1] + [e2] == [e1, e2];
    assert [e1, e2] + [e3] == [e1, e2, e3];
    assert [e1, e2, e3] + [e4] == [e1, e2, e3, e4];
  }

  lemma ReclaimTakes(q: Quota, self: string, active: set<string>, kind: Kind, node: string)
    requires Sound(q) && node in q.Alloc(kind) && node != self && node !in active
    ensures PlanOf(q, Reclaim(self, active)).Write?
    ensures node !in PlanOf(q, Reclaim(self, active)).next.Alloc(kind)
  {
    ReclaimRemovesStale(q, self, active);
  }

  /** An active set, once derived, is what the reclaim uses, however long it takes. */
  lemma {:induction false} ViewIsKept(s: State, es: seq<Event>, w: nat)
    requires LedgerRuns.Valid(s) && w in s.views
    requires forall e | e in es :: !(e.List? && e.worker == w) && !(e.Try? && e.worker == w)
    ensures var t := Run(s, es); w in t.views && t.views[w] == s.views[w]
  {
    hide Commits, Decision, Apply;
    if es != [] {
      assert es[|es| - 1] in es;
      ViewIsKept(s, es[..|es| - 1], w);
    }
  }

  /** Recovery: a survivor lists the heartbeats, as they are or as they were before, at
      its time `now`, then anything happens elsewhere, then its reclaim commits. It
      takes exactly the entries of the other nodes whose listed heartbeat was missing
      or at least the lease duration old at `now`, on both sides, keeps every other
      entry, makes the available descriptors match, and the same reclaim again would
      write nothing. */
  lemma ReclaimRecoversStoppedNodes(s: State, w: nat, self: string, snapshot: nat, now: int, es: seq<Event>, up: bool)
    requires LedgerRuns.Valid(s) && SoundHistory(s) && ProperRun(es) && snapshot < |s.beats|
    requires forall e | e in es :: !(e.List? && e.worker == w) && !(e.Try? && e.worker == w)
    requires Commits(Run(Step(s, List(w, snapshot, now)), es), Try(w, Sweep(self), up))
    ensures var listed := s.beats[snapshot].table;
            var before := Run(Step(s, List(w, snapshot, now)), es);
            var q := Current(before);
            var t := Current(Step(before, Try(w, Sweep(self), up)));
            var gone := set n | n in q.fd.Keys + q.proc.Keys && n != self
                                && (n !in listed || now - listed[n].stamp >= LEASE_DURATION);
            && t.fd == q.fd - gone && t.proc == q.proc - gone
            && Balanced(t)
            && PlanReclaim(t, self, FreshNodes(listed, now)).Keep?
  {
    hide Run, PlanReclaim, Balanced, Apply;
    var listed := s.beats[snapshot].table;
    var s1, e := Step(s, List(w, snapshot, now)), Try(w, Sweep(self), up);
    assert SoundHistory(s1) by { hide Sound; }
    ViewIsKept(s1, es, w);
    RunKeepsCreditsSound(s1, es);
    var before := Run(s1, es);
    var q, active := Current(before), FreshNodes(listed, now);
    assert Intent(before, e) == Reclaim(self, active);
    StepIsAtomic(before, e);
    ReclaimRemovesStale(q, self, active);
    ReclaimIsIdempotent(q, self, active);
    BalanceAfterCommit(q, Reclaim(self, active));
    var gone := set n | n in q.fd.Keys + q.proc.Keys && n != self
                        && (n !in listed || now - listed[n].stamp >= LEASE_DURATION);
    assert gone == (q.fd.Keys + q.proc.Keys) - active - {self};
  }
}
