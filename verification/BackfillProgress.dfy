/** The history backfill always ends: some step is enabled until every worker is done, each step lowers
    a measure, and a failure-free run to the end exists whenever the provider answers for every stock. */
module BackfillProgress {
  import opened BackfillConvergence
  import opened HistoryBackfill

  function Weight(phase: Phase): nat
  {
    match phase
    case Ready => 2
    case Holding(_, _) => 4
    case Full => 3
    case Drained => 1
    case Done => 0
  }

  function Weights(workers: seq<Worker>): nat
  {
    if workers == [] then 0 else Weight(workers[0].phase) + Weights(workers[1..])
  }

  function Measure(s: State): nat { 4 * |s.queue| + Weights(s.workers) }

  lemma {:induction false} ReplaceWeight(workers: seq<Worker>, w: nat, x: Worker)
    requires w < |workers|
    ensures Weights(workers[w := x]) + Weight(workers[w].phase) == Weights(workers) + Weight(x.phase)
  {
    if w == 0 {
      assert workers[0 := x][1..] == workers[1..];
    } else {
      ReplaceWeight(workers[1..], w - 1, x);
      assert workers[w := x][1..] == workers[1..][w - 1 := x];
    }
  }

  /** Every step, failing or not, lowers the measure. */
  lemma {:induction false} StepDecreases(cfg: Config, s: State, step: Step)
    requires Enabled(s, step)
    ensures Measure(Apply(cfg, s, step)) < Measure(s)
  {
    ReplaceWeight(s.workers, step.w, Apply(cfg, s, step).workers[step.w]);
    assert s.workers[step.w := s.workers[step.w]] == s.workers;
  }

  lemma {:induction false} StepExists(s: State) returns (step: Step)
    requires !AllDone(s)
    ensures Enabled(s, step)
  {
    var w :| 0 <= w < |s.workers| && !s.workers[w].phase.Done?;
    match s.workers[w].phase
    case Ready => step := Take(w, true);
    case Holding(_, _) => step := Fail(w);
    case Full => step := FlushOk(w);
    case Drained => step := Finish(w);
  }

  /** So no run is longer than the measure of its start, and a run that cannot go on is complete. */
  lemma {:induction false} EveryRunEnds(cfg: Config, s: State, steps: seq<Step>)
    requires Schedule(cfg, s, steps)
    ensures |steps| <= Measure(s)
    ensures (forall step :: !Enabled(After(cfg, s, steps), step)) ==> AllDone(After(cfg, s, steps))
    decreases |steps|
  {
    if steps == [] {
      if !AllDone(s) { var step := StepExists(s); }
    } else {
      StepDecreases(cfg, s, steps[0]);
      EveryRunEnds(cfg, Apply(cfg, s, steps[0]), steps[1..]);
    }
  }

  /** The rows of a stock in some order. */
  lemma {:induction false} RowsInSomeOrder(facts: map<int, Fact>) returns (response: seq<DayRow>)
    ensures forall r :: r in response <==> r.date in facts && facts[r.date] == r.fact
    decreases |facts|
  {
    if date :| date in facts {
      var rest := facts - {date};
      assert rest.Keys == facts.Keys - {date};
      assert |rest.Keys| == |rest| && |facts.Keys| == |facts|;
      var others := RowsInSomeOrder(rest);
      response := others + [DayRow(date, facts[date])];
    } else {
      response := [];
    }
  }

  ghost predicate Answerable(provider: Provider, s: State)
  {
    (forall q :: q in s.queue ==> q in provider) &&
    (forall w :: 0 <= w < |s.workers| && s.workers[w].phase.Holding? ==> s.workers[w].phase.stock in provider)
  }

  lemma {:induction false} CleanStepExists(provider: Provider, cfg: Config, s: State) returns (step: Step)
    requires Answerable(provider, s) && !AllDone(s)
    ensures Enabled(s, step) && FailureFree(provider, s, step) && Answerable(provider, Apply(cfg, s, step))
  {
    var w :| 0 <= w < |s.workers| && !s.workers[w].phase.Done?;
    match s.workers[w].phase
    case Ready =>
      step := Take(w, true);
      if s.queue != [] { assert s.queue[0] in s.queue && forall q :: q in s.queue[1..] ==> q in s.queue; }
    case Holding(stock, _) =>
      var response := RowsInSomeOrder(provider[stock]);
      step := Deliver(w, response);
    case Full => step := FlushOk(w);
    case Drained => step := Finish(w);
  }

  /** From any state the run can be completed without a failure. */
  lemma {:induction false} CleanRunExists(provider: Provider, cfg: Config, s: State) returns (steps: seq<Step>)
    requires Answerable(provider, s)
    ensures CleanSchedule(provider, cfg, s, steps) && Schedule(cfg, s, steps) && AllDone(After(cfg, s, steps))
    decreases Measure(s)
  {
    if AllDone(s) {
      steps := [];
    } else {
      var step := CleanStepExists(provider, cfg, s);
      StepDecreases(cfg, s, step);
      var rest := CleanRunExists(provider, cfg, Apply(cfg, s, step));
      steps := [step] + rest;
      assert steps[1..] == rest;
    }
  }

  // ----- a full reload

  lemma {:induction false} UpsertCarriesNewest(table: map<Key, Fact>, rows: seq<Row>, i: nat)
    requires i < |rows| && forall j :: i < j < |rows| ==> rows[j].key != rows[i].key
    ensures rows[i].key in Upsert(table, rows) && Upsert(table, rows)[rows[i].key] == rows[i].fact
  {
    var n := |rows| - 1;
    if i < n {
      UpsertCarriesNewest(table, rows[..n], i);
      assert rows[n].key != rows[i].key;
    }
  }

  /** After a flush every buffered key carries its newest buffered fact, whatever was persisted. */
  lemma {:induction false} FlushCarriesNewest(s: State, w: nat, phase: Phase, i: nat)
    requires w < |s.workers| && i < |s.workers[w].buffer|
    requires forall j :: i < j < |s.workers[w].buffer| ==> s.workers[w].buffer[j].key != s.workers[w].buffer[i].key
    ensures var row := s.workers[w].buffer[i];
            row.key in Persist(s, w, phase).table && Persist(s, w, phase).table[row.key] == row.fact
  {
    UpsertCarriesNewest(s.table, s.workers[w].buffer, i);
  }

  lemma {:induction false} NothingMissing(stock: Stock, response: seq<DayRow>)
    ensures |Missing(stock, response, {})| == |response|
    ensures forall i :: 0 <= i < |response| ==>
            Missing(stock, response, {})[i] == Row(Key(stock, response[i].date), response[i].fact)
  {
    if response != [] { NothingMissing(stock, response[..|response| - 1]); }
  }

  lemma {:induction false} ReloadCarriesNewest(table: map<Key, Fact>, stock: Stock, response: seq<DayRow>, i: nat)
    requires i < |response| && forall j :: i < j < |response| ==> response[j].date != response[i].date
    ensures var after := Upsert(table, Missing(stock, response, {})); var key := Key(stock, response[i].date);
            key in after && after[key] == response[i].fact
  {
    NothingMissing(stock, response);
    var rows := Missing(stock, response, {});
    forall j | i < j < |rows| ensures rows[j].key != rows[i].key { assert response[j].date != response[i].date; }
    UpsertCarriesNewest(table, rows, i);
  }

  lemma {:induction false} TwoStepsFirst(cfg: Config, s: State, a: Step, b: Step, rest: seq<Step>)
    requires Enabled(s, a) && Enabled(Apply(cfg, s, a), b) && Schedule(cfg, Apply(cfg, Apply(cfg, s, a), b), rest)
    ensures Schedule(cfg, s, [a, b] + rest) &&
            After(cfg, s, [a, b] + rest) == After(cfg, Apply(cfg, Apply(cfg, s, a), b), rest)
  {
    var steps := [a, b] + rest;
    assert steps[1..] == [b] + rest && ([b] + rest)[1..] == rest;
    assert Schedule(cfg, Apply(cfg, s, a), steps[1..]);
  }

  /** Without only_missing a run from the start fetches a stock whatever is persisted and upserts the
      whole response. */
  lemma {:induction false} FullReload(cfg: Config, table: map<Key, Fact>, stock: Stock, response: seq<DayRow>)
    returns (steps: seq<Step>)
    requires !cfg.onlyMissing
    ensures Schedule(cfg, Init(table, [stock], 1), steps) && AllDone(After(cfg, Init(table, [stock], 1), steps))
    ensures After(cfg, Init(table, [stock], 1), steps).table == Upsert(table, Missing(stock, response, {}))
  {
    var init := Init(table, [stock], 1);
    var taken := Apply(cfg, init, Take(0, true));
    assert taken.workers == [Worker(Holding(stock, {}), [], 0)] && taken.queue == [];
    var delivered := Apply(cfg, taken, Deliver(0, response));
    assert delivered.workers[0].buffer == Missing(stock, response, {});
    var rest := ToTheEnd(cfg, delivered);
    TwoStepsFirst(cfg, init, Take(0, true), Deliver(0, response), rest);
    steps := [Take(0, true), Deliver(0, response)] + rest;
  }

  /** So each date ends with the newest fact of the response, whatever was persisted. */
  lemma {:induction false} FullReloadRewrites(cfg: Config, table: map<Key, Fact>, stock: Stock, response: seq<DayRow>)
    returns (steps: seq<Step>)
    requires !cfg.onlyMissing
    ensures Schedule(cfg, Init(table, [stock], 1), steps) && AllDone(After(cfg, Init(table, [stock], 1), steps))
    ensures var after := After(cfg, Init(table, [stock], 1), steps).table;
            forall i :: 0 <= i < |response| &&
                        (forall j :: i < j < |response| ==> response[j].date != response[i].date) ==>
              Key(stock, response[i].date) in after && after[Key(stock, response[i].date)] == response[i].fact
  {
    steps := FullReload(cfg, table, stock, response);
    forall i | 0 <= i < |response| && (forall j :: i < j < |response| ==> response[j].date != response[i].date)
      ensures var after := Upsert(table, Missing(stock, response, {}));
              Key(stock, response[i].date) in after && after[Key(stock, response[i].date)] == response[i].fact
    {
      ReloadCarriesNewest(table, stock, response, i);
    }
  }

  /** One worker with an empty queue flushes, if it has to, and finishes. */
  lemma {:induction false} ToTheEnd(cfg: Config, s: State) returns (steps: seq<Step>)
    requires |s.workers| == 1 && s.queue == [] && (s.workers[0].phase.Ready? || s.workers[0].phase.Full?)
    ensures Schedule(cfg, s, steps) && AllDone(After(cfg, s, steps)) &&
            After(cfg, s, steps).table == Upsert(s.table, s.workers[0].buffer)
  {
    if s.workers[0].phase.Full? {
      var flushed := Apply(cfg, s, FlushOk(0));
      steps := [FlushOk(0)] + Drain();
      assert steps[1..] == Drain();
      Drained(cfg, flushed);
      assert Upsert(flushed.table, []) == flushed.table;
    } else {
      steps := Drain();
      Drained(cfg, s);
    }
  }

  function Drain(): seq<Step> { [Take(0, true), Finish(0)] }

  lemma {:induction false} Drained(cfg: Config, s: State)
    requires |s.workers| == 1 && s.queue == [] && s.workers[0].phase.Ready?
    ensures Schedule(cfg, s, Drain()) && AllDone(After(cfg, s, Drain())) &&
            After(cfg, s, Drain()).table == Upsert(s.table, s.workers[0].buffer)
    ensures var t := After(cfg, s, Drain());
            t.completed == s.completed && t.failed == s.failed && t.flushFailures == s.flushFailures
  {
    var t := Apply(cfg, s, Take(0, true));
    assert Drain()[1..] == [Finish(0)] && [Finish(0)][1..] == [];
    var u := Apply(cfg, t, Finish(0));
    assert After(cfg, t, [Finish(0)]) == After(cfg, u, []) == u;
  }

  // ----- the double count

  /** A flush that fails counts its stock as completed and as failed: such a run, for every stock and
      response, from the start to the end. */
  lemma {:induction false} FailedFlushCountsTwice(cfg: Config, table: map<Key, Fact>, stock: Stock,
                                                  response: seq<DayRow>) returns (steps: seq<Step>)
    requires cfg.stockBatch == 1 && cfg.maxRows >= 1 &&
             !(cfg.onlyMissing && cfg.calendar <= ExistingDates(table, stock))
    ensures Schedule(cfg, Init(table, [stock], 1), steps)
    ensures var s := After(cfg, Init(table, [stock], 1), steps);
            AllDone(s) && s.completed == 1 && s.failed == 1 && s.flushFailures == 1 && s.table == table
  {
    var init := Init(table, [stock], 1);
    var taken := Apply(cfg, init, Take(0, true));
    assert taken.queue == [] && taken.workers[0].phase.Holding? && taken.workers[0].buffer == [];
    var delivered := Apply(cfg, taken, Deliver(0, response));
    var failed := Apply(cfg, delivered, FlushFail(0));
    assert failed.workers == [Worker(Ready, [], 0)] && failed.queue == [];
    Drained(cfg, failed);
    TwoStepsFirst(cfg, taken, Deliver(0, response), FlushFail(0), Drain());
    steps := [Take(0, true)] + ([Deliver(0, response), FlushFail(0)] + Drain());
    assert steps[1..] == [Deliver(0, response), FlushFail(0)] + Drain();
  }
}
