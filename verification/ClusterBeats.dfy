/** Heartbeats and limits together: nodes that keep their heartbeats on time keep the
    credits they enforce, and so the counts of all nodes stay within the limit. */
module ClusterBeats {

  import opened QuotaLedger
  import opened LedgerRuns
  import opened HeartbeatRuns
  import opened LeaseManager
  import opened Cluster
  import opened ClusterReach

  /** The node holds credits, and has a counter or a sync in progress. */
  ghost predicate Enforces(w: World, kind: Kind, n: string)
    requires LedgerRuns.Valid(w.ledger)
  {
    n in CreditsIn(w, kind) && !Quiet(w, n)
  }

  /** What one event must keep to. When heartbeats are listed, the heartbeat of every
      node that enforces is on time, and the listing is not too old. A sync asks only
      when every reclaim in progress has seen its node's heartbeat. And a node does not
      give its credits back while it enforces them. */
  ghost predicate Timely(w: World, kind: Kind, e: WorldEvent, period: int, lag: int, skew: int)
    requires LedgerRuns.Valid(w.ledger)
  {
    e.Shared? ==>
      match e.event
      case List(_, _, _) => forall n | Enforces(w, kind, n) :: exists first ::
        OnTime(w.ledger, n, first, period, skew) && Punctual(w.ledger, e.event, n, first, period, lag, skew)
      case Try(worker, Ask(k, n, _, _), _) =>
        k == kind ==> forall v | v in w.ledger.views && v != worker :: n in w.ledger.views[v]
      case Try(_, Free(k, n), _) => k == kind ==> !Enforces(w, kind, n)
      case _ => true
  }

  ghost predicate TimelyRun(w: World, kind: Kind, es: seq<WorldEvent>, period: int, lag: int, skew: int)
    requires LedgerRuns.Valid(w.ledger)
  {
    es == [] ||
    (TimelyRun(w, kind, es[..|es| - 1], period, lag, skew)
     && Timely(WorldRun(w, kind, es[..|es| - 1]), kind, es[|es| - 1], period, lag, skew))
  }

  /** Every reclaim in progress has seen every node that enforces. */
  ghost predicate AllSeen(w: World, kind: Kind)
    requires LedgerRuns.Valid(w.ledger)
  {
    forall n, v | Enforces(w, kind, n) && v in w.ledger.views :: n in w.ledger.views[v]
  }

  /** The rules that say nothing about taking credits away. */
  const GRANT_RULES: set<Rule> := {SpecFixed, GrantsOnly, HeldSince}

  /** Timely events take credits from quiet nodes only. */
  lemma TimelyWithdraws(w: World, kind: Kind, e: WorldEvent, period: int, lag: int, skew: int)
    requires LedgerRuns.Valid(w.ledger) && SoundHistory(w.ledger) && AllSeen(w, kind) && ProperEvent(e)
    requires Timely(w, kind, e, period, lag, skew)
    ensures Meets(w, kind, e, WithdrawsQuietly)
  {
    hide PlanOf, Apply, Step, Quiet, Sound, Decision, OnTime, Punctual;
    if e.Shared? {
      var s := w.ledger;
      assert e.event in [e.event] && Current(s) in s.history;
      SharedLedger(w, kind, e.event, e.spec);
      StepIsAtomic(s, e.event);
      forall n | n in CreditsIn(w, kind) && n !in CreditsIn(WorldStep(w, kind, e), kind) ensures Quiet(w, n) {
        assert Commits(s, e.event);
        EntriesAreWrittenOnce(Current(s), Intent(s, e.event), kind, n);
        assert Enforces(w, kind, n) <==> !Quiet(w, n);
      }
    } else {
      LedgerUntouched(w, kind, e);
    }
  }

  /** What a step does to the active sets of reclaims in progress. */
  lemma ViewsAfter(s: State, e: Event)
    requires LedgerRuns.Valid(s)
    ensures var t := Step(s, e);
            && (forall v | v in t.views && !(e.List? && e.worker == v) ::
                  v in s.views && t.views[v] == s.views[v] && !(e.Try? && Enabled(s, e) && e.worker == v))
            && (e.List? && e.worker in t.views && !Enabled(s, e) ==>
                  e.worker in s.views && t.views[e.worker] == s.views[e.worker])
            && (e.List? && Enabled(s, e) ==>
                  t.views == s.views[e.worker := FreshNodes(s.beats[e.snapshot].table, e.now)])
  {
    hide Commits, Decision, FreshNodes, Apply;
  }

  /** A node that enforces after a step of the ledger did so before, or has just asked. */
  lemma EnforcerAskedOrDidBefore(w: World, kind: Kind, e: Event, spec: nat, n: string)
    requires LedgerRuns.Valid(w.ledger) && SoundHistory(w.ledger) && ProperRun([e]) && OnlyHoldersEnforce(w, kind)
    requires Enforces(WorldStep(w, kind, Shared(e, spec)), kind, n)
    ensures Enforces(w, kind, n) || (SyncAsks(e, kind) && Enabled(w.ledger, e) && e.action.node == n)
  {
    hide WorldStep, Quiet;
    if !(SyncAsks(e, kind) && Enabled(w.ledger, e) && e.action.node == n) && Quiet(w, n) {
      SharedStepStaysQuiet(w, kind, e, spec, n);
    }
  }

  lemma SharedStepKeepsSeen(w: World, kind: Kind, e: Event, spec: nat, period: int, lag: int, skew: int)
    requires LedgerRuns.Valid(w.ledger) && SoundHistory(w.ledger) && ProperRun([e]) && OnlyHoldersEnforce(w, kind)
    requires AllSeen(w, kind) && Timely(w, kind, Shared(e, spec), period, lag, skew)
    requires 0 <= period && 0 <= lag && 0 <= skew && period + lag + 2 * skew < LEASE_DURATION
    ensures AllSeen(WorldStep(w, kind, Shared(e, spec)), kind)
  {
    hide WorldStep, Step, Enforces, OnTime, Punctual, FreshNodes, SoundHistory, OnlyHoldersEnforce;
    var t := WorldStep(w, kind, Shared(e, spec));
    SharedLedger(w, kind, e, spec);
    ViewsAfter(w.ledger, e);
    forall n, v | Enforces(t, kind, n) && v in t.ledger.views ensures n in t.ledger.views[v] {
      EnforcerAskedOrDidBefore(w, kind, e, spec, n);
      if e.List? && Enabled(w.ledger, e) && v == e.worker {
        assert Enforces(w, kind, n);
        var first :| OnTime(w.ledger, n, first, period, skew) && Punctual(w.ledger, e, n, first, period, lag, skew);
        ListingHasPunctualNode(w.ledger, e, n, first, period, lag, skew);
      }
    }
  }

  lemma LocalStepKeepsSeen(w: World, kind: Kind, e: WorldEvent)
    requires LedgerRuns.Valid(w.ledger) && !e.Shared? && AllSeen(w, kind)
    ensures AllSeen(WorldStep(w, kind, e), kind)
  {
    hide WorldStep, Quiet;
    var t := WorldStep(w, kind, e);
    LedgerUntouched(w, kind, e);
    forall n, v | Enforces(t, kind, n) && v in t.ledger.views ensures n in t.ledger.views[v] {
      if Quiet(w, n) {
        LocalStepStaysQuiet(w, kind, e, n);
      }
      assert Enforces(w, kind, n);
    }
  }

  lemma {:induction false} TimelyRunsFollow(w: World, kind: Kind, es: seq<WorldEvent>, period: int, lag: int, skew: int)
    requires LedgerRuns.Valid(w.ledger) && Fits(w, kind) && OnlyHoldersEnforce(w, kind) && AllSeen(w, kind)
    requires Excess(Current(w.ledger), kind) == 0
    requires RunFollows(w, kind, es, GRANT_RULES) && TimelyRun(w, kind, es, period, lag, skew)
    requires 0 <= period && 0 <= lag && 0 <= skew && period + lag + 2 * skew < LEASE_DURATION
    ensures RunFollows(w, kind, es, LIMIT_RULES) && AllSeen(WorldRun(w, kind, es), kind)
  {
    hide WorldStep, Meets, Excess, NodeFits, OnlyHoldersEnforce, AllSeen, Timely, WrittenOnce;
    if es != [] {
      var prefix, e := es[..|es| - 1], es[|es| - 1];
      TimelyRunsFollow(w, kind, prefix, period, lag, skew);
      LimitRulesSuffice(w, kind, prefix);
      RunFits(w, kind, prefix);
      var before := WorldRun(w, kind, prefix);
      TimelyWithdraws(before, kind, e, period, lag, skew);
      if e.Shared? {
        SharedStepKeepsSeen(before, kind, e.event, e.spec, period, lag, skew);
      } else {
        LocalStepKeepsSeen(before, kind, e);
      }
    }
  }

  /** From heartbeats to counts: let the spec be fixed, let nobody fall back or trust an
      outdated read, and let the period of renewals, the lag of listings and twice the
      skew of the clocks stay below the lease duration. Then in every timely run the
      counts of all nodes add up to at most the limit, whatever is reclaimed. */
  lemma TimelyClusterStaysWithinLimit(w: World, kind: Kind, es: seq<WorldEvent>, period: int, lag: int, skew: int)
    requires LedgerRuns.Valid(w.ledger) && Cluster.Fresh(w)
    requires RunFollows(w, kind, es, GRANT_RULES) && TimelyRun(w, kind, es, period, lag, skew)
    requires 0 <= period && 0 <= lag && 0 <= skew && period + lag + 2 * skew < LEASE_DURATION
    ensures var t := WorldRun(w, kind, es);
            && TotalCount(t) <= LimitIn(t, kind) == LimitIn(w, kind)
            && forall n :: t.Count(n) <= Held(CreditsIn(t, kind), n)
  {
    hide WorldRun, RunFollows, TimelyRun, Excess, Fits, OnlyHoldersEnforce, TotalCount;
    FreshWorldFits(w, kind);
    assert AllSeen(w, kind) by { FreshIsSeen(w, kind); }
    TimelyRunsFollow(w, kind, es, period, lag, skew);
    GlobalLimitHolds(w, kind, es);
  }

  lemma FreshIsSeen(w: World, kind: Kind)
    requires LedgerRuns.Valid(w.ledger) && Cluster.Fresh(w)
    ensures AllSeen(w, kind)
  {
  }
}
