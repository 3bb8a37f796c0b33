/** The sector factor backfill: workers drain a queue of date windows, try each at most twice, count it
    under a lock, and report progress through a callback that may itself raise. */
module SectorWindows {
  import opened FactorWindows

  type Window = seq<Date>

  datatype Attempt = Committed(rows: nat) | ConnectionLost | OtherError

  /** A lost connection is tried once more; the second attempt is final. */
  function Final(attempts: nat -> Attempt): Attempt
  {
    if attempts(0).ConnectionLost? then attempts(1) else attempts(0)
  }

  /** The retry loop; anything but a commit leaves it as an exception. */
  method RunWindow(attempts: nat -> Attempt) returns (last: Attempt, count: nat)
    ensures count == if attempts(0).ConnectionLost? then 2 else 1
    ensures last == Final(attempts) == attempts(count - 1)
  {
    count := 0;
    while true
      invariant count == 0 || (count == 1 && attempts(0).ConnectionLost?)
      decreases 2 - count
    {
      count := count + 1;
      last := attempts(count - 1);
      if last.Committed? {
        break;
      }
      if count < 2 && last.ConnectionLost? {
        continue;
      }
      break;
    }
  }

  // ---- the step machine ----

  datatype Phase =
    | Ready
    | Computing(window: Window)
    | Succeeded(window: Window, rows: nat)
    | Failing(window: Window)
    | Stopped
    | Died

  /** `twice` lists the windows counted as processed and, after their report raised, as failed too. */
  datatype State = State(queue: seq<Window>, workers: seq<Phase>, processed: nat, failed: nat, completed: nat,
                         rows: nat, twice: seq<Window>)

  datatype Step =
    | Take(w: nat)
    | Compute(w: nat, attempts: nat -> Attempt)
    | CountSuccess(w: nat, reportRaises: bool)
    | CountFailure(w: nat, reportRaises: bool)

  function Init(windows: seq<Window>, workers: nat): State { State(windows, seq(workers, _ => Ready), 0, 0, 0, 0, []) }

  predicate Enabled(s: State, step: Step)
  {
    step.w < |s.workers| &&
    match step
    case Take(w) => s.workers[w].Ready?
    case Compute(w, _) => s.workers[w].Computing?
    case CountSuccess(w, _) => s.workers[w].Succeeded?
    case CountFailure(w, _) => s.workers[w].Failing?
  }

  function Apply(failFast: bool, s: State, step: Step): State
    requires Enabled(s, step)
  {
    var phase := s.workers[step.w];
    match step
    case Take(w) =>
      if s.queue == [] then s.(workers := s.workers[w := Stopped])
      else s.(queue := s.queue[1..], workers := s.workers[w := Computing(s.queue[0])])
    case Compute(w, attempts) =>
      var last := Final(attempts);
      s.(workers := s.workers[w := if last.Committed? then Succeeded(phase.window, last.rows)
                              else Failing(phase.window)])
    case CountSuccess(w, reportRaises) =>
      s.(processed := s.processed + |phase.window|, completed := s.completed + 1, rows := s.rows + phase.rows,
         workers := s.workers[w := if reportRaises then Failing(phase.window) else Ready],
         twice := if reportRaises then s.twice + [phase.window] else s.twice)
    case CountFailure(w, reportRaises) =>
      s.(failed := s.failed + |phase.window|, completed := s.completed + 1,
         workers := s.workers[w := if reportRaises || failFast then Died else Ready])
  }

  predicate InHand(phase: Phase) { phase.Computing? || phase.Succeeded? || phase.Failing? }

  function Hands(workers: seq<Phase>): nat
  {
    if workers == [] then 0 else Hands(workers[1..]) + (if InHand(workers[0]) then 1 else 0)
  }

  function HandDates(workers: seq<Phase>): nat
  {
    if workers == [] then 0 else HandDates(workers[1..]) + (if InHand(workers[0]) then |workers[0].window| else 0)
  }

  function Dates(windows: seq<Window>): nat
  {
    if windows == [] then 0 else |windows[0]| + Dates(windows[1..])
  }

  ghost predicate Counted(windows: seq<Window>, s: State)
  {
    && s.processed + s.failed + Dates(s.queue) + HandDates(s.workers) == Dates(windows) + Dates(s.twice)
    && s.completed + |s.queue| + Hands(s.workers) == |windows| + |s.twice|
    && (forall w :: 0 <= w < |s.workers| && s.workers[w].Stopped? ==> s.queue == [])
  }

  lemma {:induction false} Replace(workers: seq<Phase>, w: nat, x: Phase)
    requires w < |workers|
    ensures Hands(workers[w := x]) + (if InHand(workers[w]) then 1 else 0) ==
            Hands(workers) + (if InHand(x) then 1 else 0)
    ensures HandDates(workers[w := x]) + (if InHand(workers[w]) then |workers[w].window| else 0) ==
            HandDates(workers) + (if InHand(x) then |x.window| else 0)
  {
    if w == 0 {
      assert workers[0 := x][1..] == workers[1..];
    } else {
      Replace(workers[1..], w - 1, x);
      assert workers[w := x][1..] == workers[1..][w - 1 := x];
    }
  }

  lemma {:induction false} DatesAppend(windows: seq<Window>, last: Window)
    ensures Dates(windows + [last]) == Dates(windows) + |last|
  {
    if windows != [] {
      DatesAppend(windows[1..], last);
      assert (windows + [last])[1..] == windows[1..] + [last];
    }
  }

  lemma {:induction false} StepCounted(failFast: bool, windows: seq<Window>, s: State, step: Step)
    requires Counted(windows, s) && Enabled(s, step)
    ensures Counted(windows, Apply(failFast, s, step))
  {
    var t := Apply(failFast, s, step);
    Replace(s.workers, step.w, t.workers[step.w]);
    if step.CountSuccess? { DatesAppend(s.twice, s.workers[step.w].window); }
  }

  predicate Schedule(failFast: bool, s: State, steps: seq<Step>)
    decreases |steps|
  {
    steps == [] || (Enabled(s, steps[0]) && Schedule(failFast, Apply(failFast, s, steps[0]), steps[1..]))
  }

  function After(failFast: bool, s: State, steps: seq<Step>): State
    requires Schedule(failFast, s, steps)
    decreases |steps|
  {
    if steps == [] then s else After(failFast, Apply(failFast, s, steps[0]), steps[1..])
  }

  /** The number of success reports that raised. */
  function RaisingReports(steps: seq<Step>): nat
  {
    if steps == [] then 0
    else (if steps[0].CountSuccess? && steps[0].reportRaises then 1 else 0) + RaisingReports(steps[1..])
  }

  ghost predicate Nonempty(windows: seq<Window>) { forall i :: 0 <= i < |windows| ==> windows[i] != [] }

  /** Every window of the run has dates. */
  ghost predicate RealWindows(s: State)
  {
    Nonempty(s.queue) && Nonempty(s.twice) &&
    forall w :: 0 <= w < |s.workers| && InHand(s.workers[w]) ==> s.workers[w].window != []
  }

  lemma {:induction false} RunCounted(failFast: bool, windows: seq<Window>, s: State, steps: seq<Step>)
    requires Counted(windows, s) && RealWindows(s) && Schedule(failFast, s, steps)
    ensures var t := After(failFast, s, steps);
            Counted(windows, t) && RealWindows(t) && |t.workers| == |s.workers| &&
            |t.twice| == |s.twice| + RaisingReports(steps)
    decreases |steps|
  {
    if steps != [] {
      StepCounted(failFast, windows, s, steps[0]);
      RunCounted(failFast, windows, Apply(failFast, s, steps[0]), steps[1..]);
    }
  }

  function HandRows(workers: seq<Phase>): nat
  {
    if workers == [] then 0 else HandRows(workers[1..]) + (if workers[0].Succeeded? then workers[0].rows else 0)
  }

  /** The rows of every window computed with success. */
  function CommittedRows(steps: seq<Step>): nat
  {
    if steps == [] then 0
    else
      (if steps[0].Compute? && Final(steps[0].attempts).Committed? then Final(steps[0].attempts).rows else 0) +
      CommittedRows(steps[1..])
  }

  lemma {:induction false} ReplaceRows(workers: seq<Phase>, w: nat, x: Phase)
    requires w < |workers|
    ensures HandRows(workers[w := x]) + (if workers[w].Succeeded? then workers[w].rows else 0) ==
            HandRows(workers) + (if x.Succeeded? then x.rows else 0)
  {
    if w == 0 {
      assert workers[0 := x][1..] == workers[1..];
    } else {
      ReplaceRows(workers[1..], w - 1, x);
      assert workers[w := x][1..] == workers[1..][w - 1 := x];
    }
  }

  lemma {:induction false} RunRows(failFast: bool, s: State, steps: seq<Step>)
    requires Schedule(failFast, s, steps)
    ensures var t := After(failFast, s, steps);
            t.rows + HandRows(t.workers) == s.rows + HandRows(s.workers) + CommittedRows(steps)
    decreases |steps|
  {
    if steps != [] {
      var t := Apply(failFast, s, steps[0]);
      ReplaceRows(s.workers, steps[0].w, t.workers[steps[0].w]);
      RunRows(failFast, t, steps[1..]);
    }
  }

  // ---- what ends in which counter ----

  /** The dates of the windows a run computes with success, and of those it does not. */
  function ComputedDates(failFast: bool, s: State, steps: seq<Step>, committed: bool): nat
    requires Schedule(failFast, s, steps)
    decreases |steps|
  {
    if steps == [] then 0
    else
      (if steps[0].Compute? && Final(steps[0].attempts).Committed? == committed
       then |s.workers[steps[0].w].window| else 0) +
      ComputedDates(failFast, Apply(failFast, s, steps[0]), steps[1..], committed)
  }

  function SucceededDates(workers: seq<Phase>): nat
  {
    if workers == [] then 0
    else SucceededDates(workers[1..]) + (if workers[0].Succeeded? then |workers[0].window| else 0)
  }

  function FailingDates(workers: seq<Phase>): nat
  {
    if workers == [] then 0
    else FailingDates(workers[1..]) + (if workers[0].Failing? then |workers[0].window| else 0)
  }

  lemma {:induction false} ReplaceOutcomes(workers: seq<Phase>, w: nat, x: Phase)
    requires w < |workers|
    ensures SucceededDates(workers[w := x]) + (if workers[w].Succeeded? then |workers[w].window| else 0) ==
            SucceededDates(workers) + (if x.Succeeded? then |x.window| else 0)
    ensures FailingDates(workers[w := x]) + (if workers[w].Failing? then |workers[w].window| else 0) ==
            FailingDates(workers) + (if x.Failing? then |x.window| else 0)
  {
    if w == 0 {
      assert workers[0 := x][1..] == workers[1..];
    } else {
      ReplaceOutcomes(workers[1..], w - 1, x);
      assert workers[w := x][1..] == workers[1..][w - 1 := x];
    }
  }

  lemma {:induction false} StepOutcomes(failFast: bool, s: State, step: Step)
    requires Enabled(s, step)
    ensures var t := Apply(failFast, s, step);
            && t.processed + SucceededDates(t.workers) ==
               s.processed + SucceededDates(s.workers) + ComputedDates(failFast, s, [step], true)
            && t.failed + FailingDates(t.workers) + Dates(s.twice) ==
               s.failed + FailingDates(s.workers) + Dates(t.twice) + ComputedDates(failFast, s, [step], false)
  {
    var t := Apply(failFast, s, step);
    assert [step][1..] == [];
    ReplaceOutcomes(s.workers, step.w, t.workers[step.w]);
    assert s.workers[step.w := s.workers[step.w]] == s.workers;
    if step.CountSuccess? { DatesAppend(s.twice, s.workers[step.w].window); }
  }

  lemma {:induction false} RunOutcomes(failFast: bool, s: State, steps: seq<Step>)
    requires Schedule(failFast, s, steps)
    ensures var t := After(failFast, s, steps);
            && t.processed + SucceededDates(t.workers) ==
               s.processed + SucceededDates(s.workers) + ComputedDates(failFast, s, steps, true)
            && t.failed + FailingDates(t.workers) + Dates(s.twice) ==
               s.failed + FailingDates(s.workers) + Dates(t.twice) + ComputedDates(failFast, s, steps, false)
    decreases |steps|
  {
    if steps != [] {
      StepOutcomes(failFast, s, steps[0]);
      RunOutcomes(failFast, Apply(failFast, s, steps[0]), steps[1..]);
      assert [steps[0]][1..] == [];
    }
  }

  lemma {:induction false} NoOutcomes(workers: seq<Phase>)
    requires forall w :: 0 <= w < |workers| ==> !InHand(workers[w])
    ensures SucceededDates(workers) == 0 && FailingDates(workers) == 0
  {
    if workers != [] { NoOutcomes(workers[1..]); }
  }

  /** At the end of any run, normal or not, the processed dates are those of the windows whose final
      attempt committed, and the failed ones those of the windows whose final attempt did not and of the
      windows whose success report raised. */
  lemma {:induction false} CountersTellOutcomes(failFast: bool, windows: seq<Window>, workers: nat, steps: seq<Step>)
    requires Schedule(failFast, Init(windows, workers), steps)
    requires var t := After(failFast, Init(windows, workers), steps);
             forall w :: 0 <= w < |t.workers| ==> t.workers[w].Stopped? || t.workers[w].Died?
    ensures var t := After(failFast, Init(windows, workers), steps);
            && t.processed == ComputedDates(failFast, Init(windows, workers), steps, true)
            && t.failed == ComputedDates(failFast, Init(windows, workers), steps, false) + Dates(t.twice)
  {
    RunOutcomes(failFast, Init(windows, workers), steps);
    NoOutcomes(Init(windows, workers).workers);
    NoOutcomes(After(failFast, Init(windows, workers), steps).workers);
  }

  lemma {:induction false} NoHands(workers: seq<Phase>)
    requires forall w :: 0 <= w < |workers| ==> !InHand(workers[w])
    ensures Hands(workers) == 0 && HandDates(workers) == 0 && HandRows(workers) == 0
  {
    if workers != [] { NoHands(workers[1..]); }
  }

  lemma {:induction false} SomeDates(windows: seq<Window>)
    requires Nonempty(windows)
    ensures Dates(windows) >= |windows|
  {
    if windows != [] {
      assert windows[0] != [];
      forall i | 0 <= i < |windows| - 1 ensures windows[1..][i] != [] { assert windows[i + 1] != []; }
      SomeDates(windows[1..]);
    }
  }

  /** In every interleaving of a run that ends normally, each raising success report counts its window
      once more; processed and failed dates add up to the trade dates, and completed windows to the
      windows, exactly when no success report raised. */
  lemma {:induction false} RunAccounting(failFast: bool, windows: seq<Window>, workers: nat, steps: seq<Step>)
    requires Nonempty(windows) && workers > 0 && Schedule(failFast, Init(windows, workers), steps)
    requires var t := After(failFast, Init(windows, workers), steps);
             forall w :: 0 <= w < |t.workers| ==> t.workers[w].Stopped?
    ensures var t := After(failFast, Init(windows, workers), steps);
            && t.processed + t.failed == Dates(windows) + Dates(t.twice)
            && t.completed == |windows| + RaisingReports(steps)
            && (t.processed + t.failed == Dates(windows) <==> RaisingReports(steps) == 0)
            && (t.completed == |windows| <==> RaisingReports(steps) == 0)
            && t.rows == CommittedRows(steps)
  {
    var init := Init(windows, workers);
    NoHands(init.workers);
    RunCounted(failFast, windows, init, steps);
    RunRows(failFast, init, steps);
    var t := After(failFast, init, steps);
    assert t.workers[0].Stopped?;
    NoHands(t.workers);
    SomeDates(t.twice);
  }

  /** Such a run, for every window: its success is recorded, the report raises, the failure branch
      counts it once more, and the run still ends normally. */
  lemma {:induction false} RaisingReportCountsTwice(window: Window, rows: nat)
    requires window != []
    ensures var steps := [Take(0), Compute(0, _ => Committed(rows)), CountSuccess(0, true), CountFailure(0, false),
                          Take(0)];
            Schedule(false, Init([window], 1), steps) &&
            var t := After(false, Init([window], 1), steps);
            t.workers == [Stopped] && t.processed == |window| && t.failed == |window| && t.completed == 2
  {
    var attempts: nat -> Attempt := _ => Committed(rows);
    var steps := [Take(0), Compute(0, attempts), CountSuccess(0, true), CountFailure(0, false), Take(0)];
    var s0 := Init([window], 1);
    var s1 := Apply(false, s0, steps[0]);
    var s2 := Apply(false, s1, steps[1]);
    var s3 := Apply(false, s2, steps[2]);
    var s4 := Apply(false, s3, steps[3]);
    var s5 := Apply(false, s4, steps[4]);
    RunOne(false, s4, steps[4..], s5);
    assert steps[3..][1..] == steps[4..] && steps[2..][1..] == steps[3..] && steps[1..][1..] == steps[2..];
    assert Schedule(false, s3, steps[3..]) && After(false, s3, steps[3..]) == s5;
    assert Schedule(false, s2, steps[2..]) && After(false, s2, steps[2..]) == s5;
    assert Schedule(false, s1, steps[1..]) && After(false, s1, steps[1..]) == s5;
  }

  lemma {:induction false} RunOne(failFast: bool, s: State, steps: seq<Step>, t: State)
    requires |steps| == 1 && Enabled(s, steps[0]) && t == Apply(failFast, s, steps[0])
    ensures Schedule(failFast, s, steps) && After(failFast, s, steps) == t
  {
    assert steps[1..] == [];
  }

  /** The windows cut from the trade dates hold exactly those dates. */
  lemma {:induction false} DatesOfWindows(windows: seq<Window>)
    ensures Dates(windows) == |Flatten(windows)|
  {
    if windows != [] {
      var front, last := windows[..|windows| - 1], windows[|windows| - 1];
      assert windows == front + [last];
      DatesAppend(front, last);
      DatesOfWindows(front);
    }
  }

  // ---- every run ends ----

  /** At most this many steps are left to a worker until it looks for the next window. */
  function Weight(phase: Phase): nat
  {
    match phase
    case Ready => 1
    case Computing(_) => 4
    case Succeeded(_, _) => 3
    case Failing(_) => 2
    case Stopped => 0
    case Died => 0
  }

  function Weights(workers: seq<Phase>): nat
  {
    if workers == [] then 0 else Weight(workers[0]) + Weights(workers[1..])
  }

  function Measure(s: State): nat { 4 * |s.queue| + Weights(s.workers) }

  lemma {:induction false} ReplaceWeight(workers: seq<Phase>, w: nat, x: Phase)
    requires w < |workers|
    ensures Weights(workers[w := x]) + Weight(workers[w]) == Weights(workers) + Weight(x)
  {
    if w == 0 {
      assert workers[0 := x][1..] == workers[1..];
    } else {
      ReplaceWeight(workers[1..], w - 1, x);
      assert workers[w := x][1..] == workers[1..][w - 1 := x];
    }
  }

  lemma {:induction false} StepDecreases(failFast: bool, s: State, step: Step)
    requires Enabled(s, step)
    ensures Measure(Apply(failFast, s, step)) < Measure(s)
  {
    ReplaceWeight(s.workers, step.w, Apply(failFast, s, step).workers[step.w]);
  }

  predicate Ended(s: State) { forall w :: 0 <= w < |s.workers| ==> s.workers[w].Stopped? || s.workers[w].Died? }

  predicate SomeDied(s: State) { exists w :: 0 <= w < |s.workers| && s.workers[w].Died? }

  /** A failure ends its worker when the run is fail-fast or the failure report itself raises. */
  predicate Kills(failFast: bool, step: Step) { step.CountFailure? && (failFast || step.reportRaises) }

  predicate Raises(failFast: bool, steps: seq<Step>) { exists i :: 0 <= i < |steps| && Kills(failFast, steps[i]) }

  lemma {:induction false} StepExists(s: State) returns (step: Step)
    requires !Ended(s)
    ensures Enabled(s, step)
  {
    var w :| 0 <= w < |s.workers| && !s.workers[w].Stopped? && !s.workers[w].Died?;
    match s.workers[w]
    case Ready => step := Take(w);
    case Computing(_) => step := Compute(w, _ => OtherError);
    case Succeeded(_, _) => step := CountSuccess(w, false);
    case Failing(_) => step := CountFailure(w, false);
  }

  lemma {:induction false} StepDies(failFast: bool, s: State, step: Step)
    requires Enabled(s, step)
    ensures SomeDied(Apply(failFast, s, step)) <==> SomeDied(s) || Kills(failFast, step)
  {
    var t := Apply(failFast, s, step);
    if SomeDied(s) {
      var w :| 0 <= w < |s.workers| && s.workers[w].Died?;
      assert t.workers[w].Died?;
    }
    if Kills(failFast, step) { assert t.workers[step.w].Died?; }
  }

  /** No run is longer than the measure of its start; one that cannot go on has ended, and it ended
      normally exactly when no failure killed a worker. */
  lemma {:induction false} EveryRunEnds(failFast: bool, s: State, steps: seq<Step>)
    requires Schedule(failFast, s, steps)
    ensures |steps| <= Measure(s)
    ensures var t := After(failFast, s, steps);
            && ((forall step :: !Enabled(t, step)) <==> Ended(t))
            && (SomeDied(t) <==> SomeDied(s) || Raises(failFast, steps))
    decreases |steps|
  {
    if steps == [] {
      if !Ended(s) { var step := StepExists(s); }
    } else {
      var first, rest := steps[0], steps[1..];
      StepDecreases(failFast, s, first);
      StepDies(failFast, s, first);
      EveryRunEnds(failFast, Apply(failFast, s, first), rest);
      if Raises(failFast, rest) {
        var i :| 0 <= i < |rest| && Kills(failFast, rest[i]);
        assert Kills(failFast, steps[i + 1]);
      }
      if Raises(failFast, steps) && !Kills(failFast, first) {
        var i :| 0 <= i < |steps| && Kills(failFast, steps[i]);
        assert Kills(failFast, rest[i - 1]);
      }
    }
  }

  /** So every run has an end, and there the counted windows and the windows left in the queue are all
      windows and one more for each raising success report; windows are left only when every worker
      was killed. */
  lemma {:induction false} EndAccounting(failFast: bool, windows: seq<Window>, workers: nat, steps: seq<Step>)
    requires workers > 0 && Nonempty(windows) && Schedule(failFast, Init(windows, workers), steps)
    requires forall step :: !Enabled(After(failFast, Init(windows, workers), steps), step)
    ensures var t := After(failFast, Init(windows, workers), steps);
            && |steps| <= Measure(Init(windows, workers))
            && t.completed + |t.queue| == |windows| + RaisingReports(steps)
            && t.processed + t.failed + Dates(t.queue) == Dates(windows) + Dates(t.twice)
            && t.rows == CommittedRows(steps)
            && (t.queue != [] ==> Raises(failFast, steps) && forall w :: 0 <= w < |t.workers| ==> t.workers[w].Died?)
  {
    var init := Init(windows, workers);
    EveryRunEnds(failFast, init, steps);
    NoHands(init.workers);
    RunCounted(failFast, windows, init, steps);
    RunRows(failFast, init, steps);
    var t := After(failFast, init, steps);
    NoHands(t.workers);
    if t.queue != [] { assert t.workers[0].Died?; }
  }

  // ---- the mutable run ----

  class Run {
    const failFast: bool
    var queue: seq<Window>
    var workers: seq<Phase>
    var processed: nat
    var failed: nat
    var completedWindows: nat
    var rows: nat
    ghost var twice: seq<Window>

    ghost function Abs(): State
      reads this
    {
      State(queue, workers, processed, failed, completedWindows, rows, twice)
    }

    constructor (windows: seq<Window>, workers: nat, failFast: bool)
      ensures this.failFast == failFast && Abs() == Init(windows, workers)
    {
      this.failFast, queue, this.workers := failFast, windows, seq(workers, _ => Ready);
      processed, failed, completedWindows, rows, twice := 0, 0, 0, 0, [];
    }

    method TakeWindow(w: nat)
      requires Enabled(Abs(), Take(w))
      modifies this
      ensures Abs() == Apply(failFast, old(Abs()), Take(w))
    {
      if queue == [] {
        workers := workers[w := Stopped];
      } else {
        workers := workers[w := Computing(queue[0])];
        queue := queue[1..];
      }
    }

    method ComputeWindow(w: nat, attempts: nat -> Attempt)
      requires Enabled(Abs(), Compute(w, attempts))
      modifies this
      ensures Abs() == Apply(failFast, old(Abs()), Compute(w, attempts))
    {
      var last, _ := RunWindow(attempts);
      var window := workers[w].window;
      workers := workers[w := if last.Committed? then Succeeded(window, last.rows) else Failing(window)];
    }

    /** Under the lock; a raising report drops into the failure branch of the same window. */
    method RecordSuccess(w: nat, reportRaises: bool)
      requires Enabled(Abs(), CountSuccess(w, reportRaises))
      modifies this
      ensures Abs() == Apply(failFast, old(Abs()), CountSuccess(w, reportRaises))
    {
      var window, count := workers[w].window, workers[w].rows;
      completedWindows := completedWindows + 1;
      processed := processed + |window|;
      rows := rows + count;
      if reportRaises {
        twice := twice + [window];
        workers := workers[w := Failing(window)];
      } else {
        workers := workers[w := Ready];
      }
    }

    method RecordFailure(w: nat, reportRaises: bool)
      requires Enabled(Abs(), CountFailure(w, reportRaises))
      modifies this
      ensures Abs() == Apply(failFast, old(Abs()), CountFailure(w, reportRaises))
    {
      completedWindows := completedWindows + 1;
      failed := failed + |workers[w].window|;
      workers := workers[w := if reportRaises || failFast then Died else Ready];
    }
  }
}
