/** The mutable state of `_run_fact`: the shared queue and result counters and each worker's buffer,
    updated in place by each step and proved to follow the step machine. */
module HistoryRun {
  import opened HistoryBackfill

  /** `[row for row in rows if row["trade_date"] not in existing_dates]`. */
  method FilterRows(stock: Stock, response: seq<DayRow>, existing: set<int>) returns (rows: seq<Row>)
    ensures rows == Missing(stock, response, existing)
  {
    rows := [];
    for i := 0 to |response|
      invariant rows == Missing(stock, response[..i], existing)
    {
      assert response[..i + 1][..i] == response[..i];
      if response[i].date !in existing {
        rows := rows + [Row(Key(stock, response[i].date), response[i].fact)];
      }
    }
    assert response[..|response|] == response;
  }

  class Run {
    const cfg: Config
    var queue: seq<Stock>
    var workers: seq<Worker>
    var table: map<Key, Fact>
    var completed: nat
    var skipped: nat
    var failed: nat
    var upserted: nat
    var flushFailures: nat
    ghost var filtered: nat
    ghost var discarded: nat

    ghost function Abs(): State
      reads this
    {
      State(queue, workers, table, completed, skipped, failed, filtered, upserted, discarded, flushFailures)
    }

    constructor (cfg: Config, table: map<Key, Fact>, stocks: seq<Stock>, workers: nat)
      ensures this.cfg == cfg && Abs() == Init(table, stocks, workers)
    {
      this.cfg, this.table, queue := cfg, table, stocks;
      this.workers := seq(if workers < |stocks| then workers else |stocks|, _ => Worker(Ready, [], 0));
      completed, skipped, failed, upserted, flushFailures := 0, 0, 0, 0, 0;
      filtered, discarded := 0, 0;
    }

    /** The head of one iteration: the next stock, its persisted dates, and the skip rule. */
    method TakeStock(w: nat, readOk: bool)
      requires Enabled(Abs(), Take(w, readOk))
      modifies this
      ensures Abs() == Apply(cfg, old(Abs()), Take(w, readOk))
    {
      if queue == [] {
        workers := workers[w := workers[w].(phase := Drained)];
        return;
      }
      var stock := queue[0];
      queue := queue[1..];
      if !readOk {
        Rollback(w);
        return;
      }
      var existing := {};
      if cfg.onlyMissing {
        existing := set k | k in table.Keys && k.stock == stock :: k.date;
        if cfg.calendar <= existing {
          skipped := skipped + 1;
          return;
        }
      }
      workers := workers[w := workers[w].(phase := Holding(stock, existing))];
    }

    method DeliverResponse(w: nat, response: seq<DayRow>)
      requires Enabled(Abs(), Deliver(w, response))
      modifies this
      ensures Abs() == Apply(cfg, old(Abs()), Deliver(w, response))
    {
      var worker := workers[w];
      var rows := FilterRows(worker.phase.stock, response, worker.phase.existing);
      var buffer, stocks := worker.buffer + rows, worker.stocks + 1;
      completed, filtered := completed + 1, filtered + |rows|;
      if stocks >= cfg.stockBatch || |buffer| >= cfg.maxRows {
        workers := workers[w := Worker(Full, buffer, stocks)];
      } else {
        workers := workers[w := Worker(Ready, buffer, stocks)];
      }
    }

    /** The exception branch. */
    method Rollback(w: nat)
      requires w < |workers|
      modifies this`workers, this`failed, this`discarded
      ensures Abs() == Discard(old(Abs()), w)
    {
      discarded := discarded + |workers[w].buffer|;
      workers := workers[w := Worker(Ready, [], 0)];
      failed := failed + 1;
    }

    method FailStock(w: nat)
      requires Enabled(Abs(), Fail(w))
      modifies this
      ensures Abs() == Apply(cfg, old(Abs()), Fail(w))
    {
      Rollback(w);
    }

    /** `_flush`: the rows of the buffer in order, later ones win. */
    method UpsertBuffer(rows: seq<Row>)
      modifies this`table, this`upserted
      ensures table == Upsert(old(table), rows) && upserted == old(upserted) + |rows|
    {
      ghost var before := table;
      for i := 0 to |rows|
        invariant table == Upsert(before, rows[..i]) && upserted == old(upserted)
      {
        assert rows[..i + 1][..i] == rows[..i];
        table := table[rows[i].key := rows[i].fact];
      }
      assert rows[..|rows|] == rows;
      upserted := upserted + |rows|;
    }

    method FlushBuffer(w: nat, ok: bool)
      requires Enabled(Abs(), if ok then FlushOk(w) else FlushFail(w))
      modifies this
      ensures Abs() == Apply(cfg, old(Abs()), if ok then FlushOk(w) else FlushFail(w))
    {
      if ok {
        UpsertBuffer(workers[w].buffer);
        workers := workers[w := Worker(Ready, [], 0)];
      } else {
        Rollback(w);
        flushFailures := flushFailures + 1;
      }
    }

    /** After the queue is drained: the rest of the buffer, if any. */
    method FinishWorker(w: nat)
      requires Enabled(Abs(), Finish(w))
      modifies this
      ensures Abs() == Apply(cfg, old(Abs()), Finish(w))
    {
      if workers[w].buffer != [] {
        UpsertBuffer(workers[w].buffer);
      }
      workers := workers[w := Worker(Done, [], 0)];
    }
  }
}
