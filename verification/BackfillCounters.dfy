/** The counters and thresholds of a history backfill run, told from its events alone: what was
    answered, what failed and when a worker flushes. */
module BackfillCounters {
  import opened HistoryBackfill

  /** Stocks worker `w` has answered since it last flushed, failed or could not read, starting from
      `n`. */
  function StocksSince(n: nat, steps: seq<Step>, w: nat): nat
    decreases |steps|
  {
    if steps == [] then n
    else if steps[0].w != w then StocksSince(n, steps[1..], w)
    else
      var next := match steps[0]
                  case Deliver(_, _) => n + 1
                  case Take(_, readOk) => if readOk then n else 0
                  case _ => 0;
      StocksSince(next, steps[1..], w)
  }

  predicate Working(w: Worker) { w.phase.Ready? || w.phase.Holding? || w.phase.Full? }

  lemma {:induction false} StepStocks(cfg: Config, s: State, step: Step, w: nat)
    requires Enabled(s, step) && w < |s.workers| && Working(Apply(cfg, s, step).workers[w])
    ensures Working(s.workers[w])
    ensures Apply(cfg, s, step).workers[w].stocks == StocksSince(s.workers[w].stocks, [step], w)
  {
    assert [step][1..] == [];
  }

  lemma {:induction false} StocksFromFirst(n: nat, steps: seq<Step>, w: nat)
    requires steps != []
    ensures StocksSince(n, steps, w) == StocksSince(StocksSince(n, [steps[0]], w), steps[1..], w)
  {
    assert [steps[0]][1..] == [];
  }

  lemma {:induction false} RunStocks(cfg: Config, s: State, steps: seq<Step>, w: nat)
    requires Schedule(cfg, s, steps) && w < |s.workers| && |After(cfg, s, steps).workers| == |s.workers|
    requires Working(After(cfg, s, steps).workers[w])
    ensures Working(s.workers[w])
    ensures After(cfg, s, steps).workers[w].stocks == StocksSince(s.workers[w].stocks, steps, w)
    decreases |steps|
  {
    if steps != [] {
      RunStocks(cfg, Apply(cfg, s, steps[0]), steps[1..], w);
      StepStocks(cfg, s, steps[0], w);
      StocksFromFirst(s.workers[w].stocks, steps, w);
    }
  }

  lemma {:induction false} SameWorkers(cfg: Config, s: State, steps: seq<Step>)
    requires Schedule(cfg, s, steps)
    ensures |After(cfg, s, steps).workers| == |s.workers|
    decreases |steps|
  {
    if steps != [] { SameWorkers(cfg, Apply(cfg, s, steps[0]), steps[1..]); }
  }

  /** At every point of every run a working worker flushes next exactly when it has answered the batch
      number of stocks since its last flush or failure, or holds the maximum number of rows. */
  lemma {:induction false} FlushesWhenDue(cfg: Config, table: map<Key, Fact>, stocks: seq<Stock>, workers: nat,
                                          steps: seq<Step>, w: nat)
    requires cfg.stockBatch >= 1 && cfg.maxRows >= 1 && Schedule(cfg, Init(table, stocks, workers), steps)
    requires w < |After(cfg, Init(table, stocks, workers), steps).workers|
    requires Working(After(cfg, Init(table, stocks, workers), steps).workers[w])
    ensures var worker := After(cfg, Init(table, stocks, workers), steps).workers[w];
            worker.phase.Full? <==> StocksSince(0, steps, w) >= cfg.stockBatch || |worker.buffer| >= cfg.maxRows
  {
    var init := Init(table, stocks, workers);
    SameWorkers(cfg, init, steps);
    RunStocks(cfg, init, steps, w);
    FreshTotals(init.workers);
    ScheduleAccounted(cfg, stocks, init, steps);
  }

  // ----- the counters

  function Delivers(steps: seq<Step>): nat
  {
    if steps == [] then 0 else (if steps[0].Deliver? then 1 else 0) + Delivers(steps[1..])
  }

  function Fails(steps: seq<Step>): nat
  {
    if steps == [] then 0 else (if steps[0].Fail? then 1 else 0) + Fails(steps[1..])
  }

  function FailedFlushes(steps: seq<Step>): nat
  {
    if steps == [] then 0 else (if steps[0].FlushFail? then 1 else 0) + FailedFlushes(steps[1..])
  }

  /** A stock was there to take and its persisted dates could not be read. */
  predicate FailedRead(s: State, step: Step) { step.Take? && !step.readOk && s.queue != [] }

  /** The stock taken has every date of the calendar persisted already. */
  ghost predicate TakenComplete(cfg: Config, s: State, step: Step)
  {
    step.Take? && step.readOk && s.queue != [] && cfg.onlyMissing &&
    forall date :: date in cfg.calendar ==> Key(s.queue[0], date) in s.table
  }

  ghost function FailedReads(cfg: Config, s: State, steps: seq<Step>): nat
    requires Schedule(cfg, s, steps)
    decreases |steps|
  {
    if steps == [] then 0
    else (if FailedRead(s, steps[0]) then 1 else 0) + FailedReads(cfg, Apply(cfg, s, steps[0]), steps[1..])
  }

  ghost function CompleteOnes(cfg: Config, s: State, steps: seq<Step>): nat
    requires Schedule(cfg, s, steps)
    decreases |steps|
  {
    if steps == [] then 0
    else (if TakenComplete(cfg, s, steps[0]) then 1 else 0) + CompleteOnes(cfg, Apply(cfg, s, steps[0]), steps[1..])
  }

  lemma {:induction false} CompleteDates(cfg: Config, table: map<Key, Fact>, stock: Stock)
    ensures cfg.calendar <= ExistingDates(table, stock) <==>
            forall date :: date in cfg.calendar ==> Key(stock, date) in table
  {
    var existing := ExistingDates(table, stock);
    forall date ensures Key(stock, date) in table <==> date in existing {
      if Key(stock, date) in table.Keys { assert Key(stock, date).stock == stock && Key(stock, date).date == date; }
    }
    if forall date :: date in cfg.calendar ==> Key(stock, date) in table {
      forall date | date in cfg.calendar ensures date in existing { assert Key(stock, date) in table; }
    }
  }

  lemma {:induction false} StepCounters(cfg: Config, s: State, step: Step)
    requires Enabled(s, step)
    ensures var t := Apply(cfg, s, step);
            && t.completed == s.completed + (if step.Deliver? then 1 else 0)
            && t.flushFailures == s.flushFailures + (if step.FlushFail? then 1 else 0)
            && t.failed == s.failed + (if step.Fail? || step.FlushFail? || FailedRead(s, step) then 1 else 0)
            && t.skipped == s.skipped + (if TakenComplete(cfg, s, step) then 1 else 0)
  {
    if s.queue != [] { CompleteDates(cfg, s.table, s.queue[0]); }
  }

  /** In every run the completed stocks are the answered ones, the skipped ones those that had every
      date, and the failed ones the failed reads, requests and flushes. */
  lemma {:induction false} RunCounters(cfg: Config, s: State, steps: seq<Step>)
    requires Schedule(cfg, s, steps)
    ensures var t := After(cfg, s, steps);
            && t.completed == s.completed + Delivers(steps)
            && t.flushFailures == s.flushFailures + FailedFlushes(steps)
            && t.failed == s.failed + Fails(steps) + FailedFlushes(steps) + FailedReads(cfg, s, steps)
            && t.skipped == s.skipped + CompleteOnes(cfg, s, steps)
    decreases |steps|
  {
    if steps != [] {
      StepCounters(cfg, s, steps[0]);
      RunCounters(cfg, Apply(cfg, s, steps[0]), steps[1..]);
    }
  }

  // ----- buffers and table

  /** The rows of the dates not persisted before that worker `w` has been answered since it last flushed
      or failed, starting from `rows`. */
  function RowsSince(cfg: Config, s: State, steps: seq<Step>, w: nat, rows: seq<Row>): seq<Row>
    requires Schedule(cfg, s, steps)
    decreases |steps|
  {
    if steps == [] then rows
    else
      RowsSince(cfg, Apply(cfg, s, steps[0]), steps[1..], w, RowsAfter(s, steps[0], w, rows))
  }

  function RowsAfter(s: State, step: Step, w: nat, rows: seq<Row>): seq<Row>
    requires Enabled(s, step)
  {
    if step.w != w then rows
    else
      match step
      case Deliver(_, response) =>
        rows + Missing(s.workers[w].phase.stock, response, s.workers[w].phase.existing)
      case Take(_, readOk) => if readOk || s.queue == [] then rows else []
      case _ => []
  }

  /** A worker buffers exactly those rows: an answer adds its rows, a failed read, fetch or flush loses
      every row since the last flush. */
  lemma {:induction false} RunBuffers(cfg: Config, s: State, steps: seq<Step>, w: nat)
    requires Schedule(cfg, s, steps) && w < |s.workers| && |After(cfg, s, steps).workers| == |s.workers|
    ensures After(cfg, s, steps).workers[w].buffer == RowsSince(cfg, s, steps, w, s.workers[w].buffer)
    decreases |steps|
  {
    if steps != [] {
      SameWorkers(cfg, Apply(cfg, s, steps[0]), steps[1..]);
      RunBuffers(cfg, Apply(cfg, s, steps[0]), steps[1..], w);
    }
  }

  /** The rows flushed in a run, in order: the buffer of the worker at each flush that succeeds. */
  function FlushedRows(cfg: Config, s: State, steps: seq<Step>): seq<Row>
    requires Schedule(cfg, s, steps)
    decreases |steps|
  {
    if steps == [] then []
    else
      (if steps[0].FlushOk? || steps[0].Finish? then s.workers[steps[0].w].buffer else []) +
      FlushedRows(cfg, Apply(cfg, s, steps[0]), steps[1..])
  }

  lemma {:induction false} UpsertOneMore(table: map<Key, Fact>, rows: seq<Row>, last: Row)
    ensures Upsert(table, rows + [last]) == Upsert(table, rows)[last.key := last.fact]
  {
    assert (rows + [last])[..|rows|] == rows;
  }

  lemma {:induction false} UpsertTwice(table: map<Key, Fact>, first: seq<Row>, second: seq<Row>)
    ensures Upsert(Upsert(table, first), second) == Upsert(table, first + second)
  {
    if second == [] {
      assert first + second == first;
    } else {
      var front, last := second[..|second| - 1], second[|second| - 1];
      UpsertTwice(table, first, front);
      UpsertOneMore(Upsert(table, first), front, last);
      UpsertOneMore(table, first + front, last);
      assert second == front + [last] && first + second == (first + front) + [last];
    }
  }

  /** Nothing but a flush that succeeds writes the table: after any run it is the old one with the flushed
      rows upserted in order, and the upserted count is their number. */
  lemma {:induction false} TableHoldsFlushedRows(cfg: Config, s: State, steps: seq<Step>)
    requires Schedule(cfg, s, steps)
    ensures var t, rows := After(cfg, s, steps), FlushedRows(cfg, s, steps);
            t.table == Upsert(s.table, rows) && t.upserted == s.upserted + |rows|
    decreases |steps|
  {
    if steps != [] {
      var t, rest := Apply(cfg, s, steps[0]), steps[1..];
      TableHoldsFlushedRows(cfg, t, rest);
      var now := if steps[0].FlushOk? || steps[0].Finish? then s.workers[steps[0].w].buffer else [];
      assert t.table == Upsert(s.table, now);
      UpsertTwice(s.table, now, FlushedRows(cfg, t, rest));
    }
  }

  // ----- the start of a run

  /** Codes are distinct exactly when there are as many of them as entries. */
  lemma {:induction false} DistinctExactly(stocks: seq<Stock>)
    ensures |set q | q in stocks| <= |stocks|
    ensures Distinct(stocks) <==> |set q | q in stocks| == |stocks|
  {
    if stocks != [] {
      var n, front := |stocks| - 1, stocks[..|stocks| - 1];
      DistinctExactly(front);
      assert stocks == front + [stocks[n]];
      assert (set q | q in stocks) == (set q | q in front) + {stocks[n]};
      if Distinct(front) && stocks[n] !in front {
        forall i, j | 0 <= i < j < |stocks| ensures stocks[i] != stocks[j] {
          if j == n { assert front[i] == stocks[i]; } else { assert front[i] != front[j]; }
        }
      }
      if Distinct(stocks) {
        forall i, j | 0 <= i < j < n ensures front[i] != front[j] { assert stocks[i] != stocks[j]; }
        assert stocks[n] !in front;
      }
    }
  }

  /** A run starts with as many workers as were asked for, but no more than stocks, all ready, and with
      nothing counted. */
  lemma {:induction false} StartOfRun(table: map<Key, Fact>, stocks: seq<Stock>, workers: nat)
    ensures var s := Init(table, stocks, workers);
            && |s.workers| <= workers && |s.workers| <= |stocks| && |s.workers| in {workers, |stocks|}
            && (forall w :: 0 <= w < |s.workers| ==> s.workers[w].phase.Ready? && s.workers[w].buffer == [])
            && s.queue == stocks && s.table == table
            && s.completed == s.skipped == s.failed == s.upserted == s.discarded == s.flushFailures == 0
  {
  }
}
