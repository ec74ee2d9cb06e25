/** The install hook run by N executions at once, with closes and re-syncs beside
    them. Additions and subtractions are atomic; every other load and store of the
    lease is a step of its own. */
module HookRace {

  import opened Basics
  import opened Enforcer

  /** Where an execution of the install hook stands: past the limit check; with the
      count loaded for the budget check; about to grow the budget; about to add a
      step to it, and with the budget loaded for that; about to cap it; past the
      store; with the count loaded again; about to add. */
  datatype Phase =
    | Idle
    | Checked | Counted(count: nat) | Growing | Adding | AddLoaded(budget: nat) | Capping
    | Stored | Recounted(count: nat) | Passed

  /** Where a close or a re-sync stands: past the check for 0, or with the whole lease
      loaded and about to store it with a new budget. */
  datatype Side = Free | Closing | Syncing(count: nat, budget: nat)

  datatype Shared = Shared(count: nat, budget: nat, phases: seq<Phase>, sides: seq<Side>)

  /** An install begins or takes its next step. A close or a change of the budget
      happens at once, or begins and finishes later; a re-sync that finishes later
      stores the count it has loaded as well. */
  datatype Step =
    | Go(i: nat)
    | CountDown
    | SetBudget(budget: nat)
    | Shut(j: nat)
    | Sync(j: nat, budget: nat)
    | Finish(j: nat)

  function Next(s: Shared, limit: nat, e: Step): Shared {
    match e
    case Go(i) => if i < |s.phases| then Advance(s, limit, i) else s
    case CountDown => if s.count > 0 then s.(count := s.count - 1) else s
    case SetBudget(budget) => s.(budget := budget)
    case Shut(j) => if j < |s.sides| && s.sides[j].Free? && s.count > 0 then s.(sides := s.sides[j := Closing]) else s
    case Sync(j, budget) =>
      if j < |s.sides| && s.sides[j].Free? then s.(sides := s.sides[j := Syncing(s.count, budget)]) else s
    case Finish(j) =>
      if j >= |s.sides| then s else
      match s.sides[j]
      case Free => s
      case Closing => s.(count := (s.count - 1) % TWO64, sides := s.sides[j := Free])
      case Syncing(count, budget) => s.(count := count, budget := budget, sides := s.sides[j := Free])
  }

  function Advance(s: Shared, limit: nat, i: nat): Shared
    requires i < |s.phases|
  {
    match s.phases[i]
    case Idle => if s.count >= limit then s else s.(phases := s.phases[i := Checked])
    case Checked => s.(phases := s.phases[i := Counted(s.count)])
    case Counted(count) => s.(phases := s.phases[i := if count >= s.budget then Growing else Passed])
    case Growing =>
      s.(phases := s.phases[i := if (s.budget + SliceStep(limit)) % TWO64 <= limit then Adding else Capping])
    case Adding => s.(phases := s.phases[i := AddLoaded(s.budget)])
    case AddLoaded(budget) => s.(budget := (budget + SliceStep(limit)) % TWO64, phases := s.phases[i := Stored])
    case Capping => s.(budget := limit, phases := s.phases[i := Stored])
    case Stored => s.(phases := s.phases[i := Recounted(s.count)])
    case Recounted(count) => s.(phases := s.phases[i := if count >= s.budget then Idle else Passed])
    case Passed => s.(count := (s.count + 1) % TWO64, phases := s.phases[i := Idle])
  }

  function Race(s: Shared, limit: nat, es: seq<Step>): Shared {
    if es == [] then s else Next(Race(s, limit, es[..|es| - 1]), limit, es[|es| - 1])
  }

  lemma RaceExtends(s: Shared, limit: nat, es: seq<Step>, e: Step)
    ensures Race(s, limit, es + [e]) == Next(Race(s, limit, es), limit, e)
  {
    assert (es + [e])[..|es|] == es;
  }

  lemma RaceOfTwo(s: Shared, limit: nat, e1: Step, e2: Step)
    ensures Race(s, limit, [e1, e2]) == Next(Next(s, limit, e1), limit, e2)
  {
    hide Next;
    RaceExtends(s, limit, [], e1);
    RaceExtends(s, limit, [e1], e2);
    assert [] + [e1] == [e1] && [e1] + [e2] == [e1, e2];
  }

  /** A close or a re-sync that nothing interrupts is the close, or the change of the
      budget, that happens at once. */
  lemma UninterruptedIsAtOnce(s: Shared, limit: nat, j: nat, budget: nat)
    requires j < |s.sides| && s.sides[j].Free? && s.count < TWO64
    ensures Race(s, limit, [Shut(j), Finish(j)]) == Next(s, limit, CountDown)
    ensures Race(s, limit, [Sync(j, budget), Finish(j)]) == Next(s, limit, SetBudget(budget))
  {
    RaceOfTwo(s, limit, Shut(j), Finish(j));
    RaceOfTwo(s, limit, Sync(j, budget), Finish(j));
    assert s.sides[j := Closing][j := Free] == s.sides;
    assert s.sides[j := Syncing(s.count, budget)][j := Free] == s.sides;
  }

  function Repeated(e: Step, n: nat): seq<Step> {
    if n == 0 then [] else Repeated(e, n - 1) + [e]
  }

  /** How many steps an install takes that nothing interrupts: one if the limit refuses
      it, four if the budget suffices, and, if the budget is grown, eight or nine up to
      the addition and one less up to a refusal. */
  function StepsAlone(count: nat, budget: nat, limit: nat): nat {
    if count >= limit then 1
    else if count < budget then 4
    else (if (budget + SliceStep(limit)) % TWO64 <= limit then 8 else 7)
         + (if Attempt(CpuLease(count, budget, 0, 0, 0), limit).1 then 1 else 0)
  }

  lemma RepeatedSteps(s: Shared, limit: nat, e: Step, n: nat)
    ensures Race(s, limit, Repeated(e, 0)) == s
    ensures Race(s, limit, Repeated(e, n + 1)) == Next(Race(s, limit, Repeated(e, n)), limit, e)
  {
    hide Next;
    RaceExtends(s, limit, Repeated(e, n), e);
  }

  /** The state with the execution at this place. */
  function At(s: Shared, i: nat, p: Phase): Shared
    requires i < |s.phases|
  {
    s.(phases := s.phases[i := p])
  }

  lemma AtMoves(s: Shared, limit: nat, i: nat, p: Phase)
    requires i < |s.phases|
    ensures Next(At(s, i, p), limit, Go(i))
         == match p
            case Idle => At(s, i, if s.count >= limit then Idle else Checked)
            case Checked => At(s, i, Counted(s.count))
            case Counted(count) => At(s, i, if count >= s.budget then Growing else Passed)
            case Growing => At(s, i, if (s.budget + SliceStep(limit)) % TWO64 <= limit then Adding else Capping)
            case Adding => At(s, i, AddLoaded(s.budget))
            case AddLoaded(budget) => At(s.(budget := (budget + SliceStep(limit)) % TWO64), i, Stored)
            case Capping => At(s.(budget := limit), i, Stored)
            case Stored => At(s, i, Recounted(s.count))
            case Recounted(count) => At(s, i, if count >= s.budget then Idle else Passed)
            case Passed => At(s.(count := (s.count + 1) % TWO64), i, Idle)
  {
    hide SliceStep;
    forall q ensures At(At(s, i, p), i, q) == At(s, i, q) {
      assert s.phases[i := p][i := q] == s.phases[i := q];
    }
  }

  lemma AtIdle(s: Shared, i: nat)
    requires i < |s.phases| && s.phases[i].Idle?
    ensures At(s, i, Idle) == s
  {
  }

  /** One more step of an execution that has come to a place by n steps. */
  lemma GoesOn(s: Shared, limit: nat, i: nat, n: nat, t: Shared, p: Phase)
    requires i < |t.phases| && Race(s, limit, Repeated(Go(i), n)) == At(t, i, p)
    ensures Race(s, limit, Repeated(Go(i), n + 1)) == Next(At(t, i, p), limit, Go(i))
  {
    hide Next, At;
    RepeatedSteps(s, limit, Go(i), n);
  }

  /** Up to the loaded count. */
  lemma Begins(s: Shared, limit: nat, i: nat)
    requires i < |s.phases| && s.phases[i].Idle?
    ensures s.count >= limit ==> Race(s, limit, Repeated(Go(i), 1)) == s
    ensures s.count < limit ==> Race(s, limit, Repeated(Go(i), 2)) == At(s, i, Counted(s.count))
  {
    hide Next, At, Race, Repeated;
    AtIdle(s, i);
    RepeatedSteps(s, limit, Go(i), 0);
    GoesOn(s, limit, i, 0, s, Idle);
    AtMoves(s, limit, i, Idle);
    if s.count < limit {
      GoesOn(s, limit, i, 1, s, Checked);
      AtMoves(s, limit, i, Checked);
    }
  }

  /** From there, if the budget suffices: to the addition. */
  lemma SpendsBudget(s: Shared, limit: nat, i: nat)
    requires i < |s.phases| && s.phases[i].Idle? && s.count < limit && s.count < s.budget && s.count + 1 < TWO64
    ensures Race(s, limit, Repeated(Go(i), 4)) == s.(count := s.count + 1)
  {
    hide Next, At, Race, Repeated;
    Begins(s, limit, i);
    GoesOn(s, limit, i, 2, s, Counted(s.count));
    AtMoves(s, limit, i, Counted(s.count));
    GoesOn(s, limit, i, 3, s, Passed);
    AtMoves(s, limit, i, Passed);
    AtIdle(s.(count := s.count + 1), i);
  }

  /** Otherwise: to the store of the new budget. */
  lemma GrowsBudget(s: Shared, limit: nat, i: nat)
    requires i < |s.phases| && s.phases[i].Idle? && s.budget <= s.count < limit
    ensures var n := if (s.budget + SliceStep(limit)) % TWO64 <= limit then 6 else 5;
            Race(s, limit, Repeated(Go(i), n)) == At(s.(budget := Grown(s.budget, limit)), i, Stored)
  {
    hide Next, At, Race, Repeated, SliceStep;
    Begins(s, limit, i);
    GoesOn(s, limit, i, 2, s, Counted(s.count));
    AtMoves(s, limit, i, Counted(s.count));
    GoesOn(s, limit, i, 3, s, Growing);
    AtMoves(s, limit, i, Growing);
    if (s.budget + SliceStep(limit)) % TWO64 <= limit {
      GoesOn(s, limit, i, 4, s, Adding);
      AtMoves(s, limit, i, Adding);
      GoesOn(s, limit, i, 5, s, AddLoaded(s.budget));
      AtMoves(s, limit, i, AddLoaded(s.budget));
    } else {
      GoesOn(s, limit, i, 4, s, Capping);
      AtMoves(s, limit, i, Capping);
    }
  }

  /** From there: to the refusal, or to the addition. */
  lemma ChecksAgain(s: Shared, limit: nat, i: nat, n: nat, t: Shared)
    requires i < |t.phases| && t.phases[i].Idle? && t.count + 1 < TWO64
    requires Race(s, limit, Repeated(Go(i), n)) == At(t, i, Stored)
    ensures t.count >= t.budget ==> Race(s, limit, Repeated(Go(i), n + 2)) == t
    ensures t.count < t.budget ==> Race(s, limit, Repeated(Go(i), n + 3)) == t.(count := t.count + 1)
  {
    hide Next, At, Race, Repeated;
    GoesOn(s, limit, i, n, t, Stored);
    AtMoves(t, limit, i, Stored);
    GoesOn(s, limit, i, n + 1, t, Recounted(t.count));
    AtMoves(t, limit, i, Recounted(t.count));
    if t.count >= t.budget {
      AtIdle(t, i);
    } else {
      GoesOn(s, limit, i, n + 2, t, Passed);
      AtMoves(t, limit, i, Passed);
      AtIdle(t.(count := t.count + 1), i);
    }
  }

  /** An install that nothing interrupts is the attempt that happens at once: it comes
      back to where it was, with the count and the budget of the attempt. */
  lemma UninterruptedInstall(s: Shared, limit: nat, i: nat)
    requires i < |s.phases| && s.phases[i].Idle? && s.count + 1 < TWO64
    ensures var l := Attempt(CpuLease(s.count, s.budget, 0, 0, 0), limit).0;
            Race(s, limit, Repeated(Go(i), StepsAlone(s.count, s.budget, limit))) == s.(count := l.count, budget := l.leaseBudget)
  {
    hide Next, At, Race, Repeated, SliceStep;
    if s.count >= limit {
      Begins(s, limit, i);
    } else if s.count < s.budget {
      SpendsBudget(s, limit, i);
    } else {
      GrowsBudget(s, limit, i);
      var n := if (s.budget + SliceStep(limit)) % TWO64 <= limit then 6 else 5;
      ChecksAgain(s, limit, i, n, s.(budget := Grown(s.budget, limit)));
    }
  }

  /** How many installs are past the limit check and have not added. */
  function InFlight(phases: seq<Phase>): nat {
    if phases == [] then 0
    else InFlight(phases[..|phases| - 1]) + (if phases[|phases| - 1].Idle? then 0 else 1)
  }

  lemma {:induction false} InFlightUpdate(phases: seq<Phase>, i: nat, p: Phase)
    requires i < |phases|
    ensures InFlight(phases[i := p]) == InFlight(phases) - (if phases[i].Idle? then 0 else 1) + (if p.Idle? then 0 else 1)
  {
    var last := |phases| - 1;
    if i < last {
      assert phases[i := p][..last] == phases[..last][i := p];
      InFlightUpdate(phases[..last], i, p);
    } else {
      assert phases[i := p][..last] == phases[..last];
    }
  }

  lemma {:induction false} InFlightAtMostAll(phases: seq<Phase>)
    ensures InFlight(phases) <= |phases|
    ensures (forall p | p in phases :: p.Idle?) ==> InFlight(phases) == 0
  {
    if phases != [] {
      InFlightAtMostAll(phases[..|phases| - 1]);
    }
  }

  /** With N executions of the install hook, the count and the executions past the
      check are together at most the limit and N - 1 more. */
  predicate Bounded(s: Shared, limit: nat) {
    s.count + InFlight(s.phases) <= limit + |s.phases| - 1
  }

  /** An install keeps the bound, and so do a close and a change of the budget that
      happen at once. */
  lemma StepAtOnceKeepsBound(s: Shared, limit: nat, e: Step)
    requires Bounded(s, limit) && (e.Go? || e.CountDown? || e.SetBudget?)
    ensures Bounded(Next(s, limit, e), limit)
    ensures |Next(s, limit, e).phases| == |s.phases|
  {
    hide SliceStep, InFlight;
    if e.Go? && e.i < |s.phases| {
      var t := Next(s, limit, e);
      InFlightUpdate(s.phases, e.i, t.phases[e.i]);
      assert t.phases == s.phases[e.i := t.phases[e.i]];
      InFlightAtMostAll(t.phases);
    }
  }

  /** The race bound: N executions of the install hook, any number of closes that
      happen at once and any changes of the budget keep the count and the executions
      past the check within the limit and N - 1 more, in every run. */
  lemma {:induction false} InstallsAreBounded(s: Shared, limit: nat, es: seq<Step>)
    requires Bounded(s, limit) && forall e | e in es :: e.Go? || e.CountDown? || e.SetBudget?
    ensures var t := Race(s, limit, es); Bounded(t, limit) && |t.phases| == |s.phases|
  {
    hide Next, Bounded;
    if es != [] {
      assert es[|es| - 1] in es;
      InstallsAreBounded(s, limit, es[..|es| - 1]);
      StepAtOnceKeepsBound(Race(s, limit, es[..|es| - 1]), limit, es[|es| - 1]);
    }
  }

  /** Executed one at a time, the install hook keeps the count within the limit,
      whatever is closed and however the budget is changed beside it. */
  lemma OneExecutionStaysWithinLimit(s: Shared, limit: nat, es: seq<Step>)
    requires |s.phases| == 1 && s.count + InFlight(s.phases) <= limit
    requires forall e | e in es :: e.Go? || e.CountDown? || e.SetBudget?
    ensures Race(s, limit, es).count <= limit
  {
    InstallsAreBounded(s, limit, es);
  }

  /** What can be seen before a step: a close that finishes does not subtract from a
      count that has meanwhile become 0, and a re-sync that finishes does not store a
      count so old that together with the installs past the check it is beyond the
      bound. */
  predicate Harmless(s: Shared, limit: nat, e: Step) {
    e.Finish? && e.j < |s.sides| ==>
      && (s.sides[e.j].Closing? ==> s.count > 0)
      && (s.sides[e.j].Syncing? ==> s.sides[e.j].count + InFlight(s.phases) <= limit + |s.phases| - 1)
  }

  /** One step keeps the bound exactly if it is harmless. */
  lemma StepKeepsBound(s: Shared, limit: nat, e: Step)
    requires Bounded(s, limit) && limit + |s.phases| < TWO64
    ensures |Next(s, limit, e).phases| == |s.phases|
    ensures Bounded(Next(s, limit, e), limit) <==> Harmless(s, limit, e)
  {
    hide Advance, InFlight;
    if e.Go? || e.CountDown? || e.SetBudget? {
      StepAtOnceKeepsBound(s, limit, e);
    }
  }

  predicate StaysBounded(s: Shared, limit: nat, es: seq<Step>) {
    (es == [] || StaysBounded(s, limit, es[..|es| - 1])) && Bounded(Race(s, limit, es), limit)
  }

  predicate AllHarmless(s: Shared, limit: nat, es: seq<Step>) {
    es == [] ||
    (AllHarmless(s, limit, es[..|es| - 1]) && Harmless(Race(s, limit, es[..|es| - 1]), limit, es[|es| - 1]))
  }

  /** The race bound with closes and re-syncs taken apart as well: N executions of the
      install hook, and any number of closes and re-syncs beside them, keep within
      the limit and N - 1 more at all times in exactly those runs all of whose steps
      are harmless. */
  lemma {:induction false} RaceBound(s: Shared, limit: nat, es: seq<Step>)
    requires Bounded(s, limit) && limit + |s.phases| < TWO64
    ensures |Race(s, limit, es).phases| == |s.phases|
    ensures StaysBounded(s, limit, es) <==> AllHarmless(s, limit, es)
  {
    hide Next, Bounded, Harmless;
    if es != [] {
      var init, last := es[..|es| - 1], es[|es| - 1];
      RaceBound(s, limit, init);
      NextKeepsExecutions(Race(s, limit, init), limit, last);
      if StaysBounded(s, limit, init) {
        StepKeepsBound(Race(s, limit, init), limit, last);
      }
    }
  }

  lemma NextKeepsExecutions(s: Shared, limit: nat, e: Step)
    ensures |Next(s, limit, e).phases| == |s.phases|
  {
  }

  function AllIdle(n: nat): seq<Phase> {
    seq(n, _ => Idle)
  }

  /** Each of the first n executions takes one step. */
  function EachGoes(n: nat): seq<Step> {
    seq(n, i requires 0 <= i < n => Go(i))
  }

  lemma {:induction false} RaceConcat(s: Shared, limit: nat, es: seq<Step>, fs: seq<Step>)
    ensures Race(s, limit, es + fs) == Race(Race(s, limit, es), limit, fs)
  {
    if fs == [] {
      assert es + fs == es;
    } else {
      assert (es + fs)[..|es + fs| - 1] == es + fs[..|fs| - 1];
      RaceConcat(s, limit, es, fs[..|fs| - 1]);
    }
  }

  /** Where the next step takes an execution that counts below limit and budget. */
  function Onward(p: Phase, count: nat): Phase {
    match p
    case Idle => Checked
    case Checked => Counted(count)
    case _ => Passed
  }

  /** If all executions stand at the same place, below the limit and the budget,
      one step of each takes them all to the next. */
  lemma {:induction false} AllMove(s: Shared, limit: nat, n: nat, p: Phase)
    requires n <= |s.phases| && s.count < limit && s.count < s.budget
    requires (forall q | q in s.phases :: q == p) && (p.Idle? || p.Checked? || p == Counted(s.count))
    ensures var t := Race(s, limit, EachGoes(n));
            && t.count == s.count && t.budget == s.budget && |t.phases| == |s.phases|
            && (forall i | 0 <= i < n :: t.phases[i] == Onward(p, s.count))
            && (forall i | n <= i < |s.phases| :: t.phases[i] == s.phases[i])
  {
    if n > 0 {
      assert EachGoes(n)[..n - 1] == EachGoes(n - 1);
      AllMove(s, limit, n - 1, p);
      assert s.phases[n - 1] in s.phases;
    }
  }

  lemma AddOnce(s: Shared, limit: nat, i: nat)
    requires i < |s.phases| && s.phases[i].Passed? && s.count + 1 < TWO64
    ensures Next(s, limit, Go(i)) == s.(count := s.count + 1, phases := s.phases[i := Idle])
  {
  }

  lemma {:induction false} AllAdd(s: Shared, limit: nat, n: nat)
    requires n <= |s.phases| && s.count + n < TWO64 && forall p | p in s.phases :: p.Passed?
    ensures var t := Race(s, limit, EachGoes(n));
            && t.count == s.count + n && |t.phases| == |s.phases|
            && (forall i | n <= i < |s.phases| :: t.phases[i] == s.phases[i])
  {
    hide Next;
    if n > 0 {
      assert EachGoes(n)[..n - 1] == EachGoes(n - 1);
      AllAdd(s, limit, n - 1);
      assert s.phases[n - 1] in s.phases;
      AddOnce(Race(s, limit, EachGoes(n - 1)), limit, n - 1);
    }
  }

  /** The bound is exact: N executions that all check before any of them adds reach
      limit + N - 1. */
  lemma RaceBoundIsReached(limit: nat, n: nat)
    requires 0 < limit && limit + n < TWO64
    ensures var s := Shared(limit - 1, limit, AllIdle(n), []);
            var go := EachGoes(n);
            && InFlight(s.phases) == 0
            && Race(s, limit, go + go + go + go).count == limit + n - 1
  {
    hide Race;
    var s := Shared(limit - 1, limit, AllIdle(n), []);
    InFlightAtMostAll(s.phases);
    var go := EachGoes(n);
    AllMove(s, limit, n, Idle);
    var s1 := Race(s, limit, go);
    AllMove(s1, limit, n, Checked);
    var s2 := Race(s1, limit, go);
    AllMove(s2, limit, n, Counted(limit - 1));
    var s3 := Race(s2, limit, go);
    AllAdd(s3, limit, n);
    RaceConcat(s, limit, go, go);
    RaceConcat(s, limit, go + go, go);
    RaceConcat(s, limit, go + go + go, go);
  }

  lemma RaceOfFour(s: Shared, limit: nat, e1: Step, e2: Step, e3: Step, e4: Step)
    ensures Race(s, limit, [e1, e2, e3, e4]) == Next(Next(Next(Next(s, limit, e1), limit, e2), limit, e3), limit, e4)
  {
    hide Next;
    RaceOfTwo(s, limit, e1, e2);
    RaceExtends(s, limit, [e1, e2], e3);
    RaceExtends(s, limit, [e1, e2, e3], e4);
    assert [e1, e2] + [e3] == [e1, e2, e3] && [e1, e2, e3] + [e4] == [e1, e2, e3, e4];
  }

  /** Two closes that both check a count of 1 take it below 0, to the largest 64-bit
      number; no install is admitted any more, whatever the limit. */
  lemma ClosesRaceBelowZero(limit: nat, budget: nat, n: nat)
    requires limit < TWO64
    ensures var t := Race(Shared(1, budget, AllIdle(n), [Free, Free]), limit, [Shut(0), Shut(1), Finish(0), Finish(1)]);
            && t == Shared(TWO64 - 1, budget, AllIdle(n), [Free, Free])
            && forall i :: Next(t, limit, Go(i)) == t
  {
    var s := Shared(1, budget, AllIdle(n), [Free, Free]);
    RaceOfFour(s, limit, Shut(0), Shut(1), Finish(0), Finish(1));
    var s1 := Next(s, limit, Shut(0));
    var s2 := Next(s1, limit, Shut(1));
    var s3 := Next(s2, limit, Finish(0));
    assert s1.sides == [Closing, Free] && s2.sides == [Closing, Closing] && s3.sides == [Free, Closing];
    assert s3.count == 0;
    assert Next(s3, limit, Finish(1)).sides == [Free, Free];
  }

  lemma CloseOnce(s: Shared, limit: nat)
    ensures Next(s, limit, CountDown) == s.(count := if s.count > 0 then s.count - 1 else 0)
  {
  }

  lemma {:induction false} ClosesCountDown(s: Shared, limit: nat, n: nat)
    requires n <= s.count
    ensures Race(s, limit, Repeated(CountDown, n)) == s.(count := s.count - n)
  {
    hide Next;
    if n > 0 {
      ClosesCountDown(s, limit, n - 1);
      RaceExtends(s, limit, Repeated(CountDown, n - 1), CountDown);
      CloseOnce(s.(count := s.count - (n - 1)), limit);
    }
  }

  lemma RefusedOnce(s: Shared, limit: nat)
    requires limit <= s.count && s.phases != [] && s.phases[0].Idle?
    ensures Next(s, limit, Go(0)) == s
  {
  }

  lemma {:induction false} RefusalsChangeNothing(s: Shared, limit: nat, n: nat)
    requires limit <= s.count && s.phases != [] && s.phases[0].Idle?
    ensures Race(s, limit, Repeated(Go(0), n)) == s
  {
    hide Next;
    if n > 0 {
      RefusalsChangeNothing(s, limit, n - 1);
      RaceExtends(s, limit, Repeated(Go(0), n - 1), Go(0));
      RefusedOnce(s, limit);
    }
  }

  /** At a count of n, at or above the limit, n installs are refused, which does not
      keep their files from being opened. A re-sync loads the lease, those n files are
      closed, an install passes the checks, the re-sync stores the old count, and the
      install adds to it. */
  function Round(n: nat, budget: nat): seq<Step> {
    Repeated(Go(0), n) + [Sync(0, budget)] + Repeated(CountDown, n) + [Go(0), Go(0), Go(0), Finish(0)] + [Go(0)]
  }

  lemma Reenter(s: Shared, limit: nat, count: nat, budget: nat)
    requires s.count == 0 < limit && 0 < s.budget && s.phases == [Idle] && s.sides == [Syncing(count, budget)]
    ensures Race(s, limit, [Go(0), Go(0), Go(0), Finish(0)]) == Shared(count, budget, [Passed], [Free])
  {
    RaceOfFour(s, limit, Go(0), Go(0), Go(0), Finish(0));
    var s1 := Next(s, limit, Go(0));
    var s2 := Next(s1, limit, Go(0));
    var s3 := Next(s2, limit, Go(0));
    assert s1.phases == [Checked] && s2.phases == [Counted(0)] && s3.phases == [Passed];
    assert Next(s3, limit, Finish(0)).sides == [Free];
  }

  lemma LoadAndAdd(limit: nat, n: nat, budget: nat)
    requires n + 1 < TWO64
    ensures Next(Shared(n, budget, [Idle], [Free]), limit, Sync(0, budget)) == Shared(n, budget, [Idle], [Syncing(n, budget)])
    ensures Next(Shared(n, budget, [Passed], [Free]), limit, Go(0)) == Shared(n + 1, budget, [Idle], [Free])
  {
    assert [Free][0 := Syncing(n, budget)] == [Syncing(n, budget)] && [Passed][0 := Idle] == [Idle];
  }

  lemma RoundClimbs(limit: nat, n: nat, budget: nat)
    requires 0 < limit <= n && 0 < budget && n + 1 < TWO64
    ensures Race(Shared(n, budget, [Idle], [Free]), limit, Round(n, budget)) == Shared(n + 1, budget, [Idle], [Free])
  {
    hide Next, Race, Repeated;
    var s, refusals, closes := Shared(n, budget, [Idle], [Free]), Repeated(Go(0), n), Repeated(CountDown, n);
    var loaded, enter := Shared(n, budget, [Idle], [Syncing(n, budget)]), [Go(0), Go(0), Go(0), Finish(0)];
    RefusalsChangeNothing(s, limit, n);
    LoadAndAdd(limit, n, budget);
    RaceExtends(s, limit, refusals, Sync(0, budget));
    RaceConcat(s, limit, refusals + [Sync(0, budget)], closes);
    ClosesCountDown(loaded, limit, n);
    RaceConcat(s, limit, refusals + [Sync(0, budget)] + closes, enter);
    Reenter(loaded.(count := 0), limit, n, budget);
    RaceExtends(s, limit, refusals + [Sync(0, budget)] + closes + enter, Go(0));
  }

  /** The rounds that take the count from one value to another. */
  function Climb(low: nat, high: nat, budget: nat): seq<Step>
    requires low <= high
  {
    if low == high then [] else Climb(low, high - 1, budget) + Round(high - 1, budget)
  }

  /** Re-syncs that bring back old counts have no bound: from a full namespace, with one
      install at a time and one re-sync beside it, and closing only files that the run
      itself has opened, every count from the limit on can be reached. */
  lemma {:induction false} ResyncsHaveNoBound(limit: nat, budget: nat, n: nat)
    requires 0 < limit <= n < TWO64 && 0 < budget
    ensures Race(Shared(limit, budget, [Idle], [Free]), limit, Climb(limit, n, budget)) == Shared(n, budget, [Idle], [Free])
    decreases n
  {
    hide Next, Round;
    if limit < n {
      ResyncsHaveNoBound(limit, budget, n - 1);
      RaceConcat(Shared(limit, budget, [Idle], [Free]), limit, Climb(limit, n - 1, budget), Round(n - 1, budget));
      RoundClimbs(limit, n - 1, budget);
    }
  }
}
