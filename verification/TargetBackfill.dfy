/** The queue-and-counters backfills: sector bars, sector moneyflow windows, index facts, limit events
    and north-flow windows. Workers take targets from one queue, may skip a complete one, commit its
    rows table by table (index facts have two, the others one) and count it once. */
module TargetBackfill {

  type Target = string

  datatype Key = Key(target: Target, date: int)

  /** `skips` is the append-safe rule that leaves complete targets out; `answer(t, c)` holds the dates
      the provider has for target `c` and table `t`. */
  datatype Config = Config(skips: bool, calendar: set<int>, failFast: bool, answer: (nat, Target) -> set<int>)

  datatype Phase = Ready | Fetching(target: Target, stage: nat) | Done | Died

  datatype Verdict = Completed | Skipped | Failed

  datatype Settled = Settled(target: Target, verdict: Verdict)

  datatype State = State(queue: seq<Target>, workers: seq<Phase>, tables: seq<set<Key>>, completed: nat, skipped: nat,
                         failed: nat, settled: seq<Settled>)

  datatype Step = Take(w: nat) | Commit(w: nat) | Fail(w: nat)

  function Init(tables: seq<set<Key>>, targets: seq<Target>, workers: nat): State
  {
    State(targets, seq(workers, _ => Ready), tables, 0, 0, 0, [])
  }

  predicate Enabled(s: State, step: Step)
  {
    step.w < |s.workers| &&
    match step
    case Take(w) => s.workers[w].Ready?
    case Commit(w) => s.workers[w].Fetching?
    case Fail(w) => s.workers[w].Fetching?
  }

  function Keys(target: Target, dates: set<int>): set<Key> { set d | d in dates :: Key(target, d) }

  /** Every table has every trade date of the target. */
  predicate Complete(cfg: Config, tables: seq<set<Key>>, target: Target)
  {
    forall t :: 0 <= t < |tables| ==> Keys(target, cfg.calendar) <= tables[t]
  }

  function Settle(s: State, target: Target, verdict: Verdict): State
  {
    var t := s.(settled := s.settled + [Settled(target, verdict)]);
    match verdict
    case Completed => t.(completed := s.completed + 1)
    case Skipped => t.(skipped := s.skipped + 1)
    case Failed => t.(failed := s.failed + 1)
  }

  function TakeNext(cfg: Config, s: State, w: nat): State
    requires w < |s.workers|
  {
    if s.queue == [] then s.(workers := s.workers[w := Done])
    else
      var target, t := s.queue[0], s.(queue := s.queue[1..]);
      if cfg.skips && Complete(cfg, s.tables, target) then Settle(t, target, Skipped)
      else t.(workers := s.workers[w := Fetching(target, 0)])
  }

  function CommitStage(cfg: Config, s: State, w: nat): State
    requires w < |s.workers| && s.workers[w].Fetching?
  {
    var target, stage := s.workers[w].target, s.workers[w].stage;
    var tables :=
      if stage < |s.tables| then s.tables[stage := s.tables[stage] + Keys(target, cfg.answer(stage, target))]
      else s.tables;
    if stage + 1 < |s.tables| then s.(tables := tables, workers := s.workers[w := Fetching(target, stage + 1)])
    else Settle(s.(tables := tables, workers := s.workers[w := Ready]), target, Completed)
  }

  function Apply(cfg: Config, s: State, step: Step): State
    requires Enabled(s, step)
  {
    match step
    case Take(w) => TakeNext(cfg, s, w)
    case Commit(w) => CommitStage(cfg, s, w)
    case Fail(w) =>
      Settle(s.(workers := s.workers[w := if cfg.failFast then Died else Ready]), s.workers[w].target, Failed)
  }

  // ---- where every target is

  function Count(targets: seq<Target>, c: Target): nat
  {
    if targets == [] then 0 else (if targets[0] == c then 1 else 0) + Count(targets[1..], c)
  }

  function InHand(workers: seq<Phase>, c: Target): nat
  {
    if workers == [] then 0
    else (if workers[0].Fetching? && workers[0].target == c then 1 else 0) + InHand(workers[1..], c)
  }

  function Hands(workers: seq<Phase>): nat
  {
    if workers == [] then 0 else (if workers[0].Fetching? then 1 else 0) + Hands(workers[1..])
  }

  function SettledCount(settled: seq<Settled>, c: Target): nat
  {
    if settled == [] then 0
    else SettledCount(settled[..|settled| - 1], c) + (if settled[|settled| - 1].target == c then 1 else 0)
  }

  function VerdictCount(settled: seq<Settled>, verdict: Verdict): nat
  {
    if settled == [] then 0
    else VerdictCount(settled[..|settled| - 1], verdict) + (if settled[|settled| - 1].verdict == verdict then 1 else 0)
  }

  function Places(s: State, c: Target): nat { Count(s.queue, c) + InHand(s.workers, c) + SettledCount(s.settled, c) }

  /** Each target is queued, in hand or settled, as often as it was asked for, and the counters count the
      settled ones. */
  ghost predicate Accounted(targets: seq<Target>, s: State)
  {
    && (forall c :: Places(s, c) == Count(targets, c))
    && |s.queue| + Hands(s.workers) + |s.settled| == |targets|
    && Tallied(s)
    && (forall w :: 0 <= w < |s.workers| && s.workers[w].Done? ==> s.queue == [])
  }

  lemma {:induction false} ReplaceHand(workers: seq<Phase>, w: nat, x: Phase, c: Target)
    requires w < |workers|
    ensures InHand(workers[w := x], c) + (if workers[w].Fetching? && workers[w].target == c then 1 else 0) ==
            InHand(workers, c) + (if x.Fetching? && x.target == c then 1 else 0)
    ensures Hands(workers[w := x]) + (if workers[w].Fetching? then 1 else 0) ==
            Hands(workers) + (if x.Fetching? then 1 else 0)
  {
    if w == 0 {
      assert workers[0 := x][1..] == workers[1..];
    } else {
      ReplaceHand(workers[1..], w - 1, x, c);
      assert workers[w := x][1..] == workers[1..][w - 1 := x];
    }
  }

  lemma {:induction false} SettledOneMore(settled: seq<Settled>, x: Settled)
    ensures forall c :: SettledCount(settled + [x], c) == SettledCount(settled, c) + (if x.target == c then 1 else 0)
    ensures forall v :: VerdictCount(settled + [x], v) == VerdictCount(settled, v) + (if x.verdict == v then 1 else 0)
  {
    assert (settled + [x])[..|settled|] == settled;
  }

  lemma {:induction false} VerdictsAddUp(settled: seq<Settled>)
    ensures VerdictCount(settled, Completed) + VerdictCount(settled, Skipped) + VerdictCount(settled, Failed) ==
            |settled|
  {
    if settled != [] { VerdictsAddUp(settled[..|settled| - 1]); }
  }

  lemma {:induction false} StepKeepsPlaces(cfg: Config, s: State, step: Step, c: Target)
    requires Enabled(s, step)
    ensures var t := Apply(cfg, s, step);
            Places(t, c) == Places(s, c) &&
            |t.queue| + Hands(t.workers) + |t.settled| == |s.queue| + Hands(s.workers) + |s.settled|
  {
    var t := Apply(cfg, s, step);
    ReplaceHand(s.workers, step.w, t.workers[step.w], c);
    assert s.workers[step.w := s.workers[step.w]] == s.workers;
    if t.settled != s.settled { SettledOneMore(s.settled, t.settled[|s.settled|]); }
  }

  ghost predicate Tallied(s: State)
  {
    s.completed == VerdictCount(s.settled, Completed) && s.skipped == VerdictCount(s.settled, Skipped) &&
    s.failed == VerdictCount(s.settled, Failed)
  }

  lemma {:induction false} SettleTallied(s: State, target: Target, verdict: Verdict)
    requires Tallied(s)
    ensures Tallied(Settle(s, target, verdict))
  {
    SettledOneMore(s.settled, Settled(target, verdict));
  }

  lemma {:induction false} StepTallied(cfg: Config, s: State, step: Step)
    requires Tallied(s) && Enabled(s, step)
    ensures Tallied(Apply(cfg, s, step))
  {
    match step
    case Take(w) =>
      if s.queue != [] { SettleTallied(s.(queue := s.queue[1..]), s.queue[0], Skipped); }
    case Commit(w) =>
      var target, t := s.workers[w].target, CommitStage(cfg, s, w);
      if s.workers[w].stage + 1 >= |s.tables| {
        SettleTallied(s.(tables := t.tables, workers := t.workers), target, Completed);
      }
    case Fail(w) =>
      SettleTallied(s.(workers := s.workers[w := if cfg.failFast then Died else Ready]), s.workers[w].target, Failed);
  }

  lemma {:induction false} StepAccounted(cfg: Config, targets: seq<Target>, s: State, step: Step)
    requires Accounted(targets, s) && Enabled(s, step)
    ensures Accounted(targets, Apply(cfg, s, step))
  {
    var t := Apply(cfg, s, step);
    forall c ensures Places(t, c) == Count(targets, c) { StepKeepsPlaces(cfg, s, step, c); }
    StepKeepsPlaces(cfg, s, step, "");
    StepTallied(cfg, s, step);
  }

  // ---- what a verdict means for the tables

  ghost predicate Holds(cfg: Config, tables: seq<set<Key>>, target: Target, stage: nat)
  {
    forall t :: 0 <= t < stage && t < |tables| ==> Keys(target, cfg.answer(t, target)) <= tables[t]
  }

  /** A completed target has the provider's rows in every table, a skipped one every trade date in every
      table, and a target in hand the rows of the tables already committed. */
  ghost predicate Meant(cfg: Config, s: State)
  {
    && (forall i :: 0 <= i < |s.settled| && s.settled[i].verdict == Completed ==>
        Holds(cfg, s.tables, s.settled[i].target, |s.tables|))
    && (forall i :: 0 <= i < |s.settled| && s.settled[i].verdict == Skipped ==>
        Complete(cfg, s.tables, s.settled[i].target))
    && (forall w :: 0 <= w < |s.workers| && s.workers[w].Fetching? ==>
        Holds(cfg, s.tables, s.workers[w].target, s.workers[w].stage))
  }

  ghost predicate Grows(before: seq<set<Key>>, after: seq<set<Key>>)
  {
    |before| == |after| && forall t :: 0 <= t < |before| ==> before[t] <= after[t]
  }

  lemma {:induction false} GrownHolds(cfg: Config, before: seq<set<Key>>, after: seq<set<Key>>, target: Target,
                                      stage: nat)
    requires Grows(before, after)
    ensures Holds(cfg, before, target, stage) ==> Holds(cfg, after, target, stage)
    ensures Complete(cfg, before, target) ==> Complete(cfg, after, target)
  {
  }

  lemma {:induction false} StepMeant(cfg: Config, s: State, step: Step)
    requires Meant(cfg, s) && Enabled(s, step)
    ensures Meant(cfg, Apply(cfg, s, step)) && Grows(s.tables, Apply(cfg, s, step).tables)
  {
    var t := Apply(cfg, s, step);
    assert Grows(s.tables, t.tables);
    forall target, stage
      ensures Holds(cfg, s.tables, target, stage) ==> Holds(cfg, t.tables, target, stage)
      ensures Complete(cfg, s.tables, target) ==> Complete(cfg, t.tables, target)
    {
      GrownHolds(cfg, s.tables, t.tables, target, stage);
    }
  }

  // ---- runs

  predicate Schedule(cfg: Config, s: State, steps: seq<Step>)
    decreases |steps|
  {
    steps == [] || (Enabled(s, steps[0]) && Schedule(cfg, Apply(cfg, s, steps[0]), steps[1..]))
  }

  function After(cfg: Config, s: State, steps: seq<Step>): State
    requires Schedule(cfg, s, steps)
    decreases |steps|
  {
    if steps == [] then s else After(cfg, Apply(cfg, s, steps[0]), steps[1..])
  }

  lemma {:induction false} ScheduleKeeps(cfg: Config, targets: seq<Target>, s: State, steps: seq<Step>)
    requires Accounted(targets, s) && Meant(cfg, s) && Schedule(cfg, s, steps)
    ensures var t := After(cfg, s, steps);
            Accounted(targets, t) && Meant(cfg, t) && Grows(s.tables, t.tables) && |t.workers| == |s.workers|
    decreases |steps|
  {
    if steps != [] {
      StepAccounted(cfg, targets, s, steps[0]);
      StepMeant(cfg, s, steps[0]);
      ScheduleKeeps(cfg, targets, Apply(cfg, s, steps[0]), steps[1..]);
    }
  }

  lemma {:induction false} NoHands(workers: seq<Phase>, c: Target)
    requires forall w :: 0 <= w < |workers| ==> !workers[w].Fetching?
    ensures InHand(workers, c) == 0 && Hands(workers) == 0
  {
    if workers != [] { NoHands(workers[1..], c); }
  }

  /** In every interleaving that ends normally every target is settled exactly as often as it was asked
      for, completed + skipped + failed equal the targets, completed ones have the provider's rows and
      skipped ones every trade date in every table, and no persisted key is lost. */
  lemma {:induction false} RunAccounting(cfg: Config, tables: seq<set<Key>>, targets: seq<Target>, workers: nat,
                                         steps: seq<Step>)
    requires workers > 0 && Schedule(cfg, Init(tables, targets, workers), steps)
    requires var t := After(cfg, Init(tables, targets, workers), steps);
             forall w :: 0 <= w < |t.workers| ==> t.workers[w].Done?
    ensures var t := After(cfg, Init(tables, targets, workers), steps);
            && t.completed + t.skipped + t.failed == |targets|
            && (forall c :: SettledCount(t.settled, c) == Count(targets, c))
            && Meant(cfg, t) && Grows(tables, t.tables)
  {
    var init := Init(tables, targets, workers);
    forall c ensures Places(init, c) == Count(targets, c) && Hands(init.workers) == 0 { NoHands(init.workers, c); }
    NoHands(init.workers, "");
    ScheduleKeeps(cfg, targets, init, steps);
    var t := After(cfg, init, steps);
    assert t.workers[0].Done?;
    forall c ensures SettledCount(t.settled, c) == Count(targets, c) && Hands(t.workers) == 0 {
      NoHands(t.workers, c);
      assert Places(t, c) == Count(targets, c);
    }
    NoHands(t.workers, "");
    VerdictsAddUp(t.settled);
  }

  function Fails(steps: seq<Step>): nat
  {
    if steps == [] then 0 else (if steps[0].Fail? then 1 else 0) + Fails(steps[1..])
  }

  /** In every run the failed targets are the failing steps. */
  lemma {:induction false} FailedAreFails(cfg: Config, s: State, steps: seq<Step>)
    requires Schedule(cfg, s, steps)
    ensures After(cfg, s, steps).failed == s.failed + Fails(steps)
    decreases |steps|
  {
    if steps != [] { FailedAreFails(cfg, Apply(cfg, s, steps[0]), steps[1..]); }
  }

  /** A target is skipped exactly when the rule is on and every table has every trade date of it. */
  lemma {:induction false} SkippedExactly(cfg: Config, s: State, w: nat)
    requires Enabled(s, Take(w)) && s.queue != []
    ensures var t := Apply(cfg, s, Take(w));
            t.skipped == s.skipped + 1 <==>
            cfg.skips && forall table, date :: 0 <= table < |s.tables| && date in cfg.calendar ==>
                           Key(s.queue[0], date) in s.tables[table]
  {
    if forall table, date :: 0 <= table < |s.tables| && date in cfg.calendar ==>
         Key(s.queue[0], date) in s.tables[table]
    {
      assert Complete(cfg, s.tables, s.queue[0]);
    }
    if Complete(cfg, s.tables, s.queue[0]) {
      forall table, date | 0 <= table < |s.tables| && date in cfg.calendar
        ensures Key(s.queue[0], date) in s.tables[table]
      {
        assert Key(s.queue[0], date) in Keys(s.queue[0], cfg.calendar);
      }
    }
  }

  /** A commit counts the target exactly when it is that of the last table, and then frees the worker. */
  lemma {:induction false} LastTableCompletes(cfg: Config, s: State, w: nat)
    requires Enabled(s, Commit(w)) && s.workers[w].stage < |s.tables|
    ensures var t, stage := Apply(cfg, s, Commit(w)), s.workers[w].stage;
            && (t.completed == s.completed + 1 <==> stage == |s.tables| - 1)
            && (t.workers[w].Ready? <==> stage == |s.tables| - 1)
            && (forall date :: date in cfg.answer(stage, s.workers[w].target) ==>
                  Key(s.workers[w].target, date) in t.tables[stage])
  {
    var stage, target := s.workers[w].stage, s.workers[w].target;
    forall date | date in cfg.answer(stage, target)
      ensures Key(target, date) in Apply(cfg, s, Commit(w)).tables[stage]
    {
      assert Key(target, date) in Keys(target, cfg.answer(stage, target));
    }
  }

  // ---- every run ends

  /** At most this many steps are left to a worker, given the number of tables. */
  function Weight(tables: nat, phase: Phase): nat
  {
    match phase
    case Ready => 1
    case Fetching(_, stage) => if stage < tables then 2 + tables - stage else 2
    case Done => 0
    case Died => 0
  }

  function Weights(tables: nat, workers: seq<Phase>): nat
  {
    if workers == [] then 0 else Weight(tables, workers[0]) + Weights(tables, workers[1..])
  }

  function Measure(s: State): nat { (|s.tables| + 2) * |s.queue| + Weights(|s.tables|, s.workers) }

  lemma {:induction false} ReplaceWeight(tables: nat, workers: seq<Phase>, w: nat, x: Phase)
    requires w < |workers|
    ensures Weights(tables, workers[w := x]) + Weight(tables, workers[w]) ==
            Weights(tables, workers) + Weight(tables, x)
  {
    if w == 0 {
      assert workers[0 := x][1..] == workers[1..];
    } else {
      ReplaceWeight(tables, workers[1..], w - 1, x);
      assert workers[w := x][1..] == workers[1..][w - 1 := x];
    }
  }

  /** One step fewer for a worker that keeps its target or drops it. */
  lemma {:induction false} WorkerDecreases(cfg: Config, s: State, step: Step)
    requires Enabled(s, step) && (step.Take? ==> s.queue == [])
    ensures var t := Apply(cfg, s, step);
            |t.tables| == |s.tables| && t.queue == s.queue &&
            Weights(|t.tables|, t.workers) < Weights(|s.tables|, s.workers)
  {
    var t := Apply(cfg, s, step);
    ReplaceWeight(|s.tables|, s.workers, step.w, t.workers[step.w]);
  }

  lemma {:induction false} TakeDecreases(cfg: Config, s: State, w: nat)
    requires Enabled(s, Take(w)) && s.queue != []
    ensures var t := TakeNext(cfg, s, w);
            t.tables == s.tables && |t.queue| == |s.queue| - 1 &&
            Weights(|s.tables|, t.workers) < Weights(|s.tables|, s.workers) + |s.tables| + 2
  {
    ReplaceWeight(|s.tables|, s.workers, w, Fetching(s.queue[0], 0));
  }

  lemma {:induction false} StepDecreases(cfg: Config, s: State, step: Step)
    requires Enabled(s, step)
    ensures Measure(Apply(cfg, s, step)) < Measure(s)
  {
    if step.Take? && s.queue != [] {
      TakeDecreases(cfg, s, step.w);
      var c, n := |s.tables| + 2, |s.queue|;
      assert c * n == c * (n - 1) + c;
    } else {
      WorkerDecreases(cfg, s, step);
    }
  }

  predicate Ended(s: State) { forall w :: 0 <= w < |s.workers| ==> s.workers[w].Done? || s.workers[w].Died? }

  predicate SomeDied(s: State) { exists w :: 0 <= w < |s.workers| && s.workers[w].Died? }

  /** A fail-fast failure ends its worker with the exception. */
  predicate Raises(cfg: Config, steps: seq<Step>) { cfg.failFast && exists i :: 0 <= i < |steps| && steps[i].Fail? }

  lemma {:induction false} StepExists(s: State) returns (step: Step)
    requires !Ended(s)
    ensures Enabled(s, step)
  {
    var w :| 0 <= w < |s.workers| && !s.workers[w].Done? && !s.workers[w].Died?;
    step := if s.workers[w].Ready? then Take(w) else Commit(w);
  }

  lemma {:induction false} StepDies(cfg: Config, s: State, step: Step)
    requires Enabled(s, step)
    ensures SomeDied(Apply(cfg, s, step)) <==> SomeDied(s) || (cfg.failFast && step.Fail?)
  {
    var t := Apply(cfg, s, step);
    if SomeDied(s) {
      var w :| 0 <= w < |s.workers| && s.workers[w].Died?;
      assert t.workers[w].Died?;
    }
    if cfg.failFast && step.Fail? { assert t.workers[step.w].Died?; }
  }

  /** No run is longer than the measure of its start; one that cannot go on has ended, and it ended
      normally exactly when no fail-fast failure happened. */
  lemma {:induction false} EveryRunEnds(cfg: Config, s: State, steps: seq<Step>)
    requires Schedule(cfg, s, steps)
    ensures |steps| <= Measure(s)
    ensures var t := After(cfg, s, steps);
            && ((forall step :: !Enabled(t, step)) <==> Ended(t))
            && (SomeDied(t) <==> SomeDied(s) || Raises(cfg, steps))
    decreases |steps|
  {
    if steps == [] {
      if !Ended(s) { var step := StepExists(s); }
    } else {
      var first, rest := steps[0], steps[1..];
      StepDecreases(cfg, s, first);
      StepDies(cfg, s, first);
      EveryRunEnds(cfg, Apply(cfg, s, first), rest);
      assert Raises(cfg, rest) ==> Raises(cfg, steps);
      if Raises(cfg, steps) && !first.Fail? {
        var i :| 0 <= i < |steps| && steps[i].Fail?;
        assert rest[i - 1].Fail?;
      }
    }
  }

  /** So every run has an end, and there the counters and the targets left in the queue add up to the
      targets; targets are left only when a fail-fast failure ended every worker. */
  lemma {:induction false} EndAccounting(cfg: Config, tables: seq<set<Key>>, targets: seq<Target>, workers: nat,
                                         steps: seq<Step>)
    requires workers > 0 && Schedule(cfg, Init(tables, targets, workers), steps)
    requires forall step :: !Enabled(After(cfg, Init(tables, targets, workers), steps), step)
    ensures var t := After(cfg, Init(tables, targets, workers), steps);
            && |steps| <= Measure(Init(tables, targets, workers))
            && t.completed + t.skipped + t.failed + |t.queue| == |targets|
            && (forall c :: SettledCount(t.settled, c) + Count(t.queue, c) == Count(targets, c))
            && (t.queue != [] ==> Raises(cfg, steps) && forall w :: 0 <= w < |t.workers| ==> t.workers[w].Died?)
            && Meant(cfg, t) && Grows(tables, t.tables)
  {
    var init := Init(tables, targets, workers);
    EveryRunEnds(cfg, init, steps);
    forall c ensures Places(init, c) == Count(targets, c) && Hands(init.workers) == 0 { NoHands(init.workers, c); }
    NoHands(init.workers, "");
    ScheduleKeeps(cfg, targets, init, steps);
    var t := After(cfg, init, steps);
    forall c ensures SettledCount(t.settled, c) + Count(t.queue, c) == Count(targets, c) {
      NoHands(t.workers, c);
      assert Places(t, c) == Count(targets, c);
    }
    NoHands(t.workers, "");
    VerdictsAddUp(t.settled);
    if t.queue != [] { assert t.workers[0].Died?; }
  }

  // ---- the mutable run

  class Run {
    const cfg: Config
    var queue: seq<Target>
    var workers: seq<Phase>
    var tables: seq<set<Key>>
    var completed: nat
    var skipped: nat
    var failed: nat
    ghost var settled: seq<Settled>

    ghost function Abs(): State
      reads this
    {
      State(queue, workers, tables, completed, skipped, failed, settled)
    }

    constructor (cfg: Config, tables: seq<set<Key>>, targets: seq<Target>, workers: nat)
      ensures this.cfg == cfg && Abs() == Init(tables, targets, workers)
    {
      this.cfg, this.tables, queue, this.workers := cfg, tables, targets, seq(workers, _ => Ready);
      completed, skipped, failed, settled := 0, 0, 0, [];
    }

    method TakeTarget(w: nat)
      requires Enabled(Abs(), Take(w))
      modifies this
      ensures Abs() == Apply(cfg, old(Abs()), Take(w))
    {
      if queue == [] {
        workers := workers[w := Done];
        return;
      }
      var target := queue[0];
      queue := queue[1..];
      if cfg.skips && forall t :: 0 <= t < |tables| ==> Keys(target, cfg.calendar) <= tables[t] {
        skipped := skipped + 1;
        settled := settled + [Settled(target, Skipped)];
      } else {
        workers := workers[w := Fetching(target, 0)];
      }
    }

    method CommitRows(w: nat)
      requires Enabled(Abs(), Commit(w))
      modifies this
      ensures Abs() == Apply(cfg, old(Abs()), Commit(w))
    {
      var target, stage := workers[w].target, workers[w].stage;
      if stage < |tables| {
        tables := tables[stage := tables[stage] + Keys(target, cfg.answer(stage, target))];
      }
      if stage + 1 < |tables| {
        workers := workers[w := Fetching(target, stage + 1)];
      } else {
        workers := workers[w := Ready];
        completed := completed + 1;
        settled := settled + [Settled(target, Completed)];
      }
    }

    method FailTarget(w: nat)
      requires Enabled(Abs(), Fail(w))
      modifies this
      ensures Abs() == Apply(cfg, old(Abs()), Fail(w))
    {
      settled := settled + [Settled(workers[w].target, Failed)];
      workers := workers[w := if cfg.failFast then Died else Ready];
      failed := failed + 1;
    }
  }
}
