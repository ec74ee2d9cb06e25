/** Many nodes working on one ObjectQuota. A worker reads the object, possibly
    a version that is no longer the current one, and later tries to write what it
    computed; heartbeats, which it lists through the same cache, and clocks run
    beside it. The position of a version in the history is its resource version.
    Steps that are not enabled change nothing, so a run is any sequence of events. */
module LedgerRuns {

  import opened Basics
  import opened MapSum
  import opened QuotaLedger
  import opened LeaseManager

  /** A heartbeat: the renew time written on it, and the true time of writing. */
  datatype Beat = Beat(stamp: int, at: int)

  /** The heartbeats of all nodes, as they were from some time on. */
  datatype Beats = Beats(table: map<string, Beat>, since: int)

  datatype Action =
    | Ask(kind: Kind, node: string, requested: int64, batch: int64)
    | Free(kind: Kind, node: string)
    | Sweep(self: string)

  datatype Event =
    | Read(worker: nat, version: nat)
    | List(worker: nat, snapshot: nat, now: int)
    | Try(worker: nat, action: Action, up: bool)
    | Renew(node: string, stamp: int)
    | Drop(node: string)
    | EditSpec(fdLimit: Option<int64>, procLimit: Option<int64>)
    | Pass(time: nat)

  datatype State = State(
    history: seq<Quota>,
    seen: map<nat, nat>,
    views: map<nat, set<string>>,
    beats: seq<Beats>,
    clock: int)

  ghost predicate Valid(s: State) {
    s.history != [] && s.beats != [] && forall w | w in s.seen :: s.seen[w] < |s.history|
  }

  ghost function Current(s: State): Quota
    requires Valid(s)
  {
    s.history[|s.history| - 1]
  }

  /** The heartbeats there are now. */
  ghost function Beating(s: State): map<string, Beat>
    requires Valid(s)
  {
    s.beats[|s.beats| - 1].table
  }

  /** The nodes whose heartbeat is younger than the lease duration at `now`. */
  function FreshNodes(beats: map<string, Beat>, now: int): set<string> {
    set n | n in beats && now - beats[n].stamp < LEASE_DURATION
  }

  /** A listing of the heartbeats as a lease manager sees it. */
  function Listing(beats: map<string, Beat>, nodes: seq<string>): seq<LeaseItem>
    requires forall i | 0 <= i < |nodes| :: nodes[i] in beats
  {
    seq(|nodes|, i requires 0 <= i < |nodes| => LeaseItem(Some(nodes[i]), Some(beats[nodes[i]].stamp)))
  }

  /** Whatever the order of the listing, the lease manager finds the fresh nodes. */
  lemma ListingShowsFreshNodes(beats: map<string, Beat>, nodes: seq<string>, now: int)
    requires forall n :: n in nodes <==> n in beats
    ensures ActiveHolders(Listing(beats, nodes), now) == FreshNodes(beats, now)
  {
    var items := Listing(beats, nodes);
    forall n | n in FreshNodes(beats, now) ensures n in ActiveHolders(items, now) {
      var i :| 0 <= i < |nodes| && nodes[i] == n;
      assert items[i].Fresh(now);
    }
  }

  ghost predicate Enabled(s: State, e: Event) {
    match e
    case Read(_, version) => version < |s.history|
    case List(_, snapshot, _) => snapshot < |s.beats|
    case Try(w, action, _) => w in s.seen && (action.Sweep? ==> w in s.views)
    case _ => true
  }

  /** The operation an event asks the object to undergo. */
  ghost function Intent(s: State, e: Event): Op
    requires (e.Try? || e.EditSpec?) && Enabled(s, e)
  {
    match e
    case Try(w, Ask(kind, node, requested, batch), _) => Request(kind, node, requested, batch)
    case Try(w, Free(kind, node), _) => Release(kind, node)
    case Try(w, Sweep(self), _) => Reclaim(self, s.views[w])
    case EditSpec(fdLimit, procLimit) => Edit(fdLimit, procLimit)
  }

  /** What a worker computes from the version it has read. */
  ghost function Decision(s: State, e: Event): Plan
    requires Valid(s) && e.Try? && Enabled(s, e)
  {
    PlanOf(s.history[s.seen[e.worker]], Intent(s, e))
  }

  /** Whether the event writes a new version: it has something to write, the
      call arrives, and nobody has written since the worker read. */
  ghost predicate Commits(s: State, e: Event)
    requires Valid(s)
  {
    match e
    case EditSpec(_, _) => true
    case Try(w, _, up) => Enabled(s, e) && Decision(s, e).Write? && up && s.seen[w] == |s.history| - 1
    case _ => false
  }

  /** What the worker's call returns. */
  ghost function Answer(s: State, e: Event): Result<int64>
    requires Valid(s) && e.Try? && Enabled(s, e)
  {
    var plan := Decision(s, e);
    if plan.Write? && !Commits(s, e) then Err(WriteFailed) else Ok(plan.result)
  }

  ghost function Step(s: State, e: Event): (t: State)
    requires Valid(s)
    ensures Valid(t)
  {
    if !Enabled(s, e) then s else
    match e
    case Read(w, version) => s.(seen := s.seen[w := version])
    case List(w, snapshot, now) => s.(views := s.views[w := FreshNodes(s.beats[snapshot].table, now)])
    case Try(w, _, _) =>
      s.(history := if Commits(s, e) then s.history + [Decision(s, e).next] else s.history,
         seen := s.seen - {w}, views := s.views - {w})
    case Renew(node, stamp) => s.(beats := s.beats + [Beats(Beating(s)[node := Beat(stamp, s.clock)], s.clock)])
    case Drop(node) => s.(beats := s.beats + [Beats(Beating(s) - {node}, s.clock)])
    case EditSpec(_, _) => s.(history := s.history + [Apply(Current(s), Intent(s, e))])
    case Pass(time) => s.(clock := s.clock + time)
  }

  ghost function Run(s: State, es: seq<Event>): (t: State)
    requires Valid(s)
    ensures Valid(t)
  {
    if es == [] then s else Step(Run(s, es[..|es| - 1]), es[|es| - 1])
  }

  lemma RunExtends(s: State, es: seq<Event>, e: Event)
    requires Valid(s)
    ensures Run(s, es + [e]) == Step(Run(s, es), e)
  {
    assert (es + [e])[..|es|] == es;
  }

  /** The operations whose writes were accepted, in the order of acceptance. */
  ghost function Committed(s: State, es: seq<Event>): seq<Op>
    requires Valid(s)
  {
    if es == [] then [] else
    var before := Run(s, es[..|es| - 1]);
    var e := es[|es| - 1];
    Committed(s, es[..|es| - 1]) + (if Commits(before, e) then [Intent(before, e)] else [])
  }

  /** The atomic allocator: one operation after the other on the object itself. */
  ghost function Replay(q: Quota, ops: seq<Op>): Quota {
    if ops == [] then q else Apply(Replay(q, ops[..|ops| - 1]), ops[|ops| - 1])
  }

  /** How many of the operations come from lease managers. */
  function Writes(ops: seq<Op>): nat {
    if ops == [] then 0 else Writes(ops[..|ops| - 1]) + (if ops[|ops| - 1].Edit? then 0 else 1)
  }

  ghost predicate ProperRun(es: seq<Event>) {
    forall e | e in es ::
      && (e.Try? && e.action.Ask? ==> 0 < e.action.batch)
      && (e.EditSpec? ==> Proper(Edit(e.fdLimit, e.procLimit)))
  }

  ghost predicate SoundHistory(s: State) {
    forall q | q in s.history :: Sound(q)
  }

  /** One step adds at most one version, by an atomic operation on the current one. */
  lemma StepIsAtomic(s: State, e: Event)
    requires Valid(s)
    ensures Commits(s, e) ==>
              && PlanOf(Current(s), Intent(s, e)).Write?
              && Step(s, e).history == s.history + [Apply(Current(s), Intent(s, e))]
    ensures !Commits(s, e) ==> Step(s, e).history == s.history
  {
  }

  /** The versions the atomic allocator goes through, each operation having
      something to write when its turn comes. */
  ghost predicate IsReplay(q: Quota, versions: seq<Quota>, ops: seq<Op>) {
    && |versions| == |ops| + 1
    && (forall i | 0 <= i <= |ops| :: versions[i] == Replay(q, ops[..i]))
    && (forall i | 0 <= i < |ops| :: PlanOf(versions[i], ops[i]).Write?)
  }

  lemma ReplayExtends(q: Quota, versions: seq<Quota>, ops: seq<Op>, op: Op)
    requires IsReplay(q, versions, ops) && PlanOf(versions[|ops|], op).Write?
    ensures IsReplay(q, versions + [Apply(versions[|ops|], op)], ops + [op])
  {
    hide Apply, PlanOf;
    var versions', ops' := versions + [Apply(versions[|ops|], op)], ops + [op];
    assert ops'[..|ops|] == ops[..|ops|] == ops && ops'[..|ops'|] == ops';
    forall i | 0 <= i <= |ops'| ensures versions'[i] == Replay(q, ops'[..i]) {
      if i < |ops'| {
        assert ops'[..i] == ops[..i];
      }
    }
  }

  /** Refinement: in every run the versions of the object are exactly those of
      the atomic allocator running the accepted operations in commit order. */
  lemma {:induction false} RunRefinesAtomic(s: State, es: seq<Event>)
    requires Valid(s)
    ensures var ops, t := Committed(s, es), Run(s, es);
            && s.history <= t.history
            && IsReplay(Current(s), t.history[|s.history| - 1..], ops)
            && Current(t) == Replay(Current(s), ops)
  {
    hide Apply, PlanOf, Step, Decision, IsReplay, Replay;
    if es == [] {
      OneVersionIsReplay(s);
    } else {
      var prefix, e := es[..|es| - 1], es[|es| - 1];
      RunRefinesAtomic(s, prefix);
      var before, done := Run(s, prefix), Committed(s, prefix);
      StepIsAtomic(before, e);
      var versions := before.history[|s.history| - 1..];
      ReplayLength(Current(s), versions, done);
      if Commits(before, e) {
        var op := Intent(before, e);
        assert Run(s, es).history[|s.history| - 1..] == versions + [Apply(Current(before), op)];
        ReplayExtends(Current(s), versions, done, op);
        ReplayLength(Current(s), versions + [Apply(Current(before), op)], done + [op]);
        assert Committed(s, es) == done + [op];
      } else {
        assert Committed(s, es) == done + [] == done;
        assert Run(s, es).history == before.history;
      }
    }
  }

  lemma OneVersionIsReplay(s: State)
    requires Valid(s)
    ensures IsReplay(Current(s), s.history[|s.history| - 1..], []) && Replay(Current(s), []) == Current(s)
  {
  }

  lemma ReplayLength(q: Quota, versions: seq<Quota>, ops: seq<Op>)
    requires IsReplay(q, versions, ops)
    ensures |versions| == |ops| + 1
    ensures versions[|ops|] == Replay(q, ops)
  {
    hide Apply, PlanOf;
    assert ops[..|ops|] == ops;
  }

  /** The lease manager's methods take exactly the steps of these runs: if the API
      server stores the current version, a call made with the version the worker
      has read leaves it storing the next one, and returns the worker's answer. */
  lemma ManagerTakesTheStep(s: State, e: Event, stored: map<string, Stored>, ns: string)
    requires Valid(s) && e.Try? && Enabled(s, e)
    requires ns in stored && stored[ns] == Stored(Current(s), |s.history| - 1)
    ensures var after := AfterWrite(stored, ns, s.seen[e.worker], Decision(s, e), e.up);
            var t := Step(s, e);
            && after == stored[ns := Stored(Current(t), |t.history| - 1)]
            && Answer(s, e) == Reply(stored, ns, s.seen[e.worker], Decision(s, e), e.up)
  {
    var plan := Decision(s, e);
    if Commits(s, e) {
      assert Current(s).WithStatus(plan.next) == plan.next;
    }
  }

  /** The stored Lease objects of a namespace are the heartbeats of these runs. */
  ghost predicate HoldsBeats(heartbeats: map<(string, string), int>, ns: string, beats: map<string, Beat>) {
    forall n :: ((ns, n) in heartbeats <==> n in beats)
                && (n in beats ==> (ns, n) in heartbeats && heartbeats[(ns, n)] == beats[n].stamp)
  }

  /** So does what they do to the node's Lease: it is renewed, dropped or left alone. */
  lemma HeartbeatsTakeTheStep(s: State, heartbeats: map<(string, string), int>, ns: string, node: string, now: int,
                              net: Net)
    requires Valid(s) && HoldsBeats(heartbeats, ns, Beating(s))
    ensures HoldsBeats(heartbeats - {(ns, node)}, ns, Beating(Step(s, Drop(node))))
    ensures var goes := net.lease && (node in Beating(s) ==> net.found);
            HoldsBeats(Renewed(heartbeats, (ns, node), now, net), ns, Beating(if goes then Step(s, Renew(node, now)) else s))
  {
    var dropped, renewed := Step(s, Drop(node)), Step(s, Renew(node, now));
    assert Beating(dropped) == Beating(s) - {node};
    assert Beating(renewed) == Beating(s)[node := Beat(now, s.clock)];
  }

  /** A worker whose version is out of date, or whose call does not arrive, never
      changes the object; it is told so exactly when it had something to write. */
  lemma StaleWritesChangeNothing(s: State, e: Event)
    requires Valid(s) && e.Try? && Enabled(s, e)
    requires s.seen[e.worker] != |s.history| - 1 || !e.up
    ensures Step(s, e).history == s.history
    ensures Answer(s, e).Err? <==> Decision(s, e).Write?
  {
  }

  /** The version number counts the accepted writes of lease managers. */
  lemma {:induction false} VersionCountsWrites(q: Quota, versions: seq<Quota>, ops: seq<Op>)
    requires IsReplay(q, versions, ops)
    ensures VersionNumber(versions[|ops|].version) == Wrap64(VersionNumber(q.version) + Writes(ops))
  {
    hide Apply, PlanOf, Wrap64;
    if ops == [] {
      WrapFits(VersionNumber(q.version));
    } else {
      var init, op := ops[..|ops| - 1], ops[|ops| - 1];
      ReplayShrinks(q, versions, ops);
      VersionCountsWrites(q, versions[..|ops|], init);
      assert ops[..|ops|] == ops;
      VersionStep(versions[|ops| - 1], op);
      WrapAdd(VersionNumber(q.version) + Writes(init), if op.Edit? then 0 else 1);
    }
  }

  lemma ReplayShrinks(q: Quota, versions: seq<Quota>, ops: seq<Op>)
    requires IsReplay(q, versions, ops) && ops != []
    ensures IsReplay(q, versions[..|ops|], ops[..|ops| - 1])
    ensures versions[|ops|] == Apply(versions[|ops| - 1], ops[|ops| - 1])
  {
    hide Apply, PlanOf;
    var init := ops[..|ops| - 1];
    assert ops[..|ops|] == ops;
    forall i | 0 <= i <= |init| ensures init[..i] == ops[..i] {
    }
  }

  /** In a run, the version number grows by one for each committed write. */
  lemma RunVersion(s: State, es: seq<Event>)
    requires Valid(s)
    ensures VersionNumber(Current(Run(s, es)).version)
         == Wrap64(VersionNumber(Current(s).version) + Writes(Committed(s, es)))
  {
    hide Apply, PlanOf, Run, Committed, Replay, Writes, Step, IsReplay;
    RunRefinesAtomic(s, es);
    var versions := Run(s, es).history[|s.history| - 1..];
    ReplayLength(Current(s), versions, Committed(s, es));
    VersionCountsWrites(Current(s), versions, Committed(s, es));
  }

  lemma {:induction false} CommittedAreProper(s: State, es: seq<Event>)
    requires Valid(s) && ProperRun(es)
    ensures forall op | op in Committed(s, es) :: Proper(op)
    ensures (forall e | e in es :: !e.EditSpec?) ==> forall op | op in Committed(s, es) :: !op.Edit?
  {
    if es != [] {
      CommittedAreProper(s, es[..|es| - 1]);
    }
  }

  /** Credit safety: whatever the interleaving, every version ever stored has
      positive entries only and sums that fit an int64. */
  lemma {:induction false} RunKeepsCreditsSound(s: State, es: seq<Event>)
    requires Valid(s) && ProperRun(es) && SoundHistory(s)
    ensures SoundHistory(Run(s, es))
  {
    hide Apply, PlanOf, Step, Decision, Sound;
    if es != [] {
      var prefix, e := es[..|es| - 1], es[|es| - 1];
      RunKeepsCreditsSound(s, prefix);
      var before := Run(s, prefix);
      StepIsAtomic(before, e);
      if Commits(before, e) {
        assert e in es;
        ApplySound(Current(before), Intent(before, e));
      }
    }
  }

  /** Over a run, over-commitment comes from spec edits only: any version that
      was not written by an edit is no further beyond its limit than the one
      before, and one written by a grant is not beyond it at all. */
  lemma RunNeverOvercommits(s: State, es: seq<Event>, kind: Kind, i: nat)
    requires Valid(s) && ProperRun(es) && SoundHistory(s)
    requires i < |Committed(s, es)| && !Committed(s, es)[i].Edit?
    ensures var h, at, op := Run(s, es).history, |s.history| + i, Committed(s, es)[i];
            && 0 < at < |h|
            && Excess(h[at], kind) <= Excess(h[at - 1], kind)
            && (op.Request? && op.kind == kind ==> Excess(h[at], kind) == 0)
  {
    hide Apply, PlanOf, Run, Committed, Step, Excess, Sound, Replay;
    RunRefinesAtomic(s, es);
    RunKeepsCreditsSound(s, es);
    CommittedAreProper(s, es);
    var h, at, ops := Run(s, es).history, |s.history| + i, Committed(s, es);
    var versions := h[|s.history| - 1..];
    assert versions[i] == h[at - 1] && h[at - 1] in h;
    ReplaySteps(Current(s), versions, ops, i);
    ApplyNeverOvercommits(h[at - 1], ops[i], kind);
  }

  lemma ReplaySteps(q: Quota, versions: seq<Quota>, ops: seq<Op>, i: nat)
    requires IsReplay(q, versions, ops) && i < |ops|
    ensures versions[i + 1] == Apply(versions[i], ops[i]) && PlanOf(versions[i], ops[i]).Write?
  {
    hide Apply, PlanOf;
    assert ops[..i + 1][..i] == ops[..i];
  }

  /** With the spec fixed, the credits of every version sum to at most the limit. */
  lemma {:induction false} RunStaysWithinLimit(s: State, es: seq<Event>, kind: Kind)
    requires Valid(s) && ProperRun(es) && SoundHistory(s)
    requires Excess(Current(s), kind) == 0
    requires forall e | e in es :: !e.EditSpec?
    ensures var t := Run(s, es);
            && Current(t).Limit(kind) == Current(s).Limit(kind)
            && Sum(Current(t).Alloc(kind)) <= Current(s).Limit(kind)
  {
    hide Apply, PlanOf, Step, Decision;
    if es != [] {
      var prefix, e := es[..|es| - 1], es[|es| - 1];
      RunStaysWithinLimit(s, prefix, kind);
      RunKeepsCreditsSound(s, prefix);
      var before := Run(s, prefix);
      StepIsAtomic(before, e);
      if Commits(before, e) {
        assert e in es;
        ApplyNeverOvercommits(Current(before), Intent(before, e), kind);
      }
    }
  }

  /** Conservation over runs: once a commit has recomputed the available
      descriptors, and until the next edit, they and the allocations add up to the
      limit. */
  lemma {:induction false} ReplayStaysBalanced(q: Quota, versions: seq<Quota>, ops: seq<Op>, at: nat)
    requires IsReplay(q, versions, ops) && (forall v | v in versions :: Sound(v))
    requires forall op | op in ops :: Proper(op)
    requires at < |ops| && RecomputesFD(ops[at])
    requires forall i | at < i < |ops| :: !ops[i].Edit?
    ensures Balanced(versions[|ops|])
  {
    hide Apply, PlanOf, Sound, Proper, Balanced, Replay;
    var init, op := ops[..|ops| - 1], ops[|ops| - 1];
    ReplayShrinks(q, versions, ops);
    var before := versions[|ops| - 1];
    assert before in versions;
    if at < |init| {
      ReplayStaysBalanced(q, versions[..|ops|], init, at);
      BalanceIsKept(before, op);
    } else {
      BalanceAfterCommit(before, op);
    }
  }

  lemma RunConservesDescriptors(s: State, es: seq<Event>, at: nat)
    requires Valid(s) && ProperRun(es) && SoundHistory(s)
    requires var ops := Committed(s, es);
             at < |ops| && RecomputesFD(ops[at]) && forall i | at < i < |ops| :: !ops[i].Edit?
    ensures Balanced(Current(Run(s, es)))
  {
    hide Apply, PlanOf, Sound, Proper, Balanced, Replay, Run, Committed, IsReplay;
    RunRefinesAtomic(s, es);
    RunKeepsCreditsSound(s, es);
    CommittedAreProper(s, es);
    var versions := Run(s, es).history[|s.history| - 1..];
    ReplayLength(Current(s), versions, Committed(s, es));
    ReplayStaysBalanced(Current(s), versions, Committed(s, es), at);
  }
}
