/** The history backfill worker pool as a step machine: workers drain a queue of stocks, keep their
    rows in a private buffer, flush at two thresholds, discard the buffer when a stock fails, and a
    later run resumes from the dates already persisted. */
module HistoryBackfill {

  type Stock = string
  type Fact = string

  datatype Key = Key(stock: Stock, date: int)

  datatype DayRow = DayRow(date: int, fact: Fact)

  datatype Row = Row(key: Key, fact: Fact)

  datatype Phase = Ready | Holding(stock: Stock, existing: set<int>) | Full | Drained | Done

  datatype Worker = Worker(phase: Phase, buffer: seq<Row>, stocks: nat)

  /** `onlyMissing` is `ingest_mode == "append_safe" and only_missing`. */
  datatype Config = Config(onlyMissing: bool, calendar: set<int>, stockBatch: nat, maxRows: nat)

  datatype State = State(queue: seq<Stock>, workers: seq<Worker>, table: map<Key, Fact>,
                         completed: nat, skipped: nat, failed: nat, filtered: nat, upserted: nat,
                         discarded: nat, flushFailures: nat)

  datatype Step =
    | Take(w: nat, readOk: bool)
    | Deliver(w: nat, response: seq<DayRow>)
    | Fail(w: nat)
    | FlushOk(w: nat)
    | FlushFail(w: nat)
    | Finish(w: nat)

  function ExistingDates(table: map<Key, Fact>, stock: Stock): set<int>
  {
    set k | k in table.Keys && k.stock == stock :: k.date
  }

  /** The response rows whose date is not already persisted, tagged with their stock. */
  function Missing(stock: Stock, response: seq<DayRow>, existing: set<int>): seq<Row>
  {
    if response == [] then []
    else
      var last := response[|response| - 1];
      Missing(stock, response[..|response| - 1], existing) +
      (if last.date in existing then [] else [Row(Key(stock, last.date), last.fact)])
  }

  /** The upsert of a batch: later rows win. */
  function Upsert(table: map<Key, Fact>, rows: seq<Row>): map<Key, Fact>
  {
    if rows == [] then table
    else Upsert(table, rows[..|rows| - 1])[rows[|rows| - 1].key := rows[|rows| - 1].fact]
  }

  function Init(table: map<Key, Fact>, stocks: seq<Stock>, workers: nat): State
  {
    var n := if workers < |stocks| then workers else |stocks|;
    State(stocks, seq(n, _ => Worker(Ready, [], 0)), table, 0, 0, 0, 0, 0, 0, 0)
  }

  predicate Enabled(s: State, step: Step)
  {
    step.w < |s.workers| &&
    var phase := s.workers[step.w].phase;
    match step
    case Take(_, _) => phase.Ready?
    case Deliver(_, _) => phase.Holding?
    case Fail(_) => phase.Holding?
    case FlushOk(_) => phase.Full?
    case FlushFail(_) => phase.Full?
    case Finish(_) => phase.Drained?
  }

  predicate AtThreshold(cfg: Config, w: Worker) { w.stocks >= cfg.stockBatch || |w.buffer| >= cfg.maxRows }

  /** The exception branch: roll back, clear the buffer, count the stock as failed. */
  function Discard(s: State, w: nat): State
    requires w < |s.workers|
  {
    s.(workers := s.workers[w := Worker(Ready, [], 0)], failed := s.failed + 1,
       discarded := s.discarded + |s.workers[w].buffer|)
  }

  function TakeNext(cfg: Config, s: State, w: nat, readOk: bool): State
    requires w < |s.workers|
  {
    var worker := s.workers[w];
    if s.queue == [] then s.(workers := s.workers[w := worker.(phase := Drained)])
    else
      var stock, rest := s.queue[0], s.queue[1..];
      var existing := if cfg.onlyMissing then ExistingDates(s.table, stock) else {};
      if !readOk then Discard(s.(queue := rest), w)
      else if cfg.onlyMissing && cfg.calendar <= existing then s.(queue := rest, skipped := s.skipped + 1)
      else s.(queue := rest, workers := s.workers[w := worker.(phase := Holding(stock, existing))])
  }

  function DeliverRows(cfg: Config, s: State, w: nat, response: seq<DayRow>): State
    requires w < |s.workers| && s.workers[w].phase.Holding?
  {
    var worker := s.workers[w];
    var rows := Missing(worker.phase.stock, response, worker.phase.existing);
    var filled := Worker(Ready, worker.buffer + rows, worker.stocks + 1);
    s.(workers := s.workers[w := if AtThreshold(cfg, filled) then filled.(phase := Full) else filled],
       completed := s.completed + 1, filtered := s.filtered + |rows|)
  }

  function Persist(s: State, w: nat, phase: Phase): State
    requires w < |s.workers|
  {
    var rows := s.workers[w].buffer;
    s.(workers := s.workers[w := Worker(phase, [], 0)], table := Upsert(s.table, rows), upserted := s.upserted + |rows|)
  }

  function Apply(cfg: Config, s: State, step: Step): State
    requires Enabled(s, step)
  {
    match step
    case Take(w, readOk) => TakeNext(cfg, s, w, readOk)
    case Deliver(w, response) => DeliverRows(cfg, s, w, response)
    case Fail(w) => Discard(s, w)
    case FlushOk(w) => Persist(s, w, Ready)
    case FlushFail(w) => Discard(s, w).(flushFailures := s.flushFailures + 1)
    case Finish(w) => Persist(s, w, Done)
  }

  // ----- accounting

  function Held(workers: seq<Worker>): nat
  {
    if workers == [] then 0 else (if workers[0].phase.Holding? then 1 else 0) + Held(workers[1..])
  }

  function Buffered(workers: seq<Worker>): nat
  {
    if workers == [] then 0 else |workers[0].buffer| + Buffered(workers[1..])
  }

  /** Counted stocks are the handled ones plus one per failed flush; every filtered row is upserted,
      buffered or discarded; a worker is about to flush exactly when it has reached a threshold. */
  ghost predicate Accounted(cfg: Config, stocks: seq<Stock>, s: State)
  {
    && s.completed + s.skipped + s.failed + |s.queue| + Held(s.workers) == |stocks| + s.flushFailures
    && s.filtered == s.upserted + Buffered(s.workers) + s.discarded
    && (forall w :: 0 <= w < |s.workers| ==> (s.workers[w].phase.Full? <==> AtThreshold(cfg, s.workers[w])))
    && (forall w :: 0 <= w < |s.workers| && s.workers[w].phase.Done? ==> s.workers[w].buffer == [])
    && (forall w :: 0 <= w < |s.workers| && (s.workers[w].phase.Drained? || s.workers[w].phase.Done?) ==> s.queue == [])
  }

  lemma {:induction false} ReplaceTotals(workers: seq<Worker>, w: nat, x: Worker)
    requires w < |workers|
    ensures Held(workers[w := x]) + (if workers[w].phase.Holding? then 1 else 0) ==
            Held(workers) + (if x.phase.Holding? then 1 else 0)
    ensures Buffered(workers[w := x]) + |workers[w].buffer| == Buffered(workers) + |x.buffer|
  {
    if w == 0 {
      assert workers[0 := x][1..] == workers[1..];
    } else {
      ReplaceTotals(workers[1..], w - 1, x);
      assert workers[w := x][1..] == workers[1..][w - 1 := x];
    }
  }

  lemma {:induction false} TakeAccounted(cfg: Config, stocks: seq<Stock>, s: State, w: nat, readOk: bool)
    requires cfg.stockBatch >= 1 && cfg.maxRows >= 1 && Accounted(cfg, stocks, s) && Enabled(s, Take(w, readOk))
    ensures Accounted(cfg, stocks, TakeNext(cfg, s, w, readOk))
  {
    ReplaceTotals(s.workers, w, TakeNext(cfg, s, w, readOk).workers[w]);
    assert s.workers[w := s.workers[w]] == s.workers;
  }

  lemma {:induction false} StepAccounted(cfg: Config, stocks: seq<Stock>, s: State, step: Step)
    requires cfg.stockBatch >= 1 && cfg.maxRows >= 1 && Accounted(cfg, stocks, s) && Enabled(s, step)
    ensures Accounted(cfg, stocks, Apply(cfg, s, step))
  {
    if step.Take? {
      TakeAccounted(cfg, stocks, s, step.w, step.readOk);
    } else {
      ReplaceTotals(s.workers, step.w, Apply(cfg, s, step).workers[step.w]);
    }
  }

  lemma {:induction false} FreshTotals(workers: seq<Worker>)
    requires forall w :: 0 <= w < |workers| ==> workers[w] == Worker(Ready, [], 0)
    ensures Held(workers) == 0 && Buffered(workers) == 0
  {
    if workers != [] { FreshTotals(workers[1..]); }
  }

  lemma {:induction false} DoneTotals(workers: seq<Worker>)
    requires forall w :: 0 <= w < |workers| ==> workers[w].phase.Done? && workers[w].buffer == []
    ensures Held(workers) == 0 && Buffered(workers) == 0
  {
    if workers != [] { DoneTotals(workers[1..]); }
  }

  // ----- ownership: who may still write a stock

  function StocksOf(rows: seq<Row>): set<Stock> { set r | r in rows :: r.key.stock }

  function Hand(w: Worker): set<Stock> { if w.phase.Holding? then {w.phase.stock} else {} }

  function Owned(w: Worker): set<Stock> { StocksOf(w.buffer) + Hand(w) }

  predicate Distinct(stocks: seq<Stock>) { forall i, j :: 0 <= i < j < |stocks| ==> stocks[i] != stocks[j] }

  /** The queue and the workers own disjoint stocks; a buffered row is not persisted yet; the dates a
      worker has read are still the persisted dates of its stock. */
  ghost predicate Owning(s: State)
  {
    && Distinct(s.queue)
    && (forall w, q :: 0 <= w < |s.workers| && q in s.queue ==> q !in Owned(s.workers[w]))
    && (forall v, w :: 0 <= v < |s.workers| && 0 <= w < |s.workers| && v != w ==>
        Owned(s.workers[v]) !! Owned(s.workers[w]))
    && (forall w :: 0 <= w < |s.workers| ==> Hand(s.workers[w]) !! StocksOf(s.workers[w].buffer))
    && (forall w, r :: 0 <= w < |s.workers| && r in s.workers[w].buffer ==> r.key !in s.table)
    && (forall w :: 0 <= w < |s.workers| && s.workers[w].phase.Holding? ==>
          s.workers[w].phase.existing == ExistingDates(s.table, s.workers[w].phase.stock))
  }

  lemma {:induction false} UpsertFacts(table: map<Key, Fact>, rows: seq<Row>)
    ensures forall k :: k in Upsert(table, rows) <==> k in table || exists r :: r in rows && r.key == k
    ensures forall k :: k in table && (forall r :: r in rows ==> r.key != k) ==> Upsert(table, rows)[k] == table[k]
    ensures forall k :: k in Upsert(table, rows) && k !in table ==> Row(k, Upsert(table, rows)[k]) in rows
  {
    if rows != [] {
      var front, last := rows[..|rows| - 1], rows[|rows| - 1];
      UpsertFacts(table, front);
      assert rows == front + [last];
      assert forall r :: r in rows <==> r in front || r == last;
    }
  }

  lemma {:induction false} MissingFacts(stock: Stock, response: seq<DayRow>, existing: set<int>)
    ensures forall r :: r in Missing(stock, response, existing) <==>
      r.key.stock == stock && r.key.date !in existing && DayRow(r.key.date, r.fact) in response
  {
    if response != [] {
      var front, last := response[..|response| - 1], response[|response| - 1];
      MissingFacts(stock, front, existing);
      assert response == front + [last];
    }
  }

  lemma {:induction false} SameDates(table: map<Key, Fact>, table': map<Key, Fact>, stock: Stock)
    requires forall k: Key :: k.stock == stock ==> (k in table <==> k in table')
    ensures ExistingDates(table', stock) == ExistingDates(table, stock)
  {
  }

  lemma {:induction false} PersistOwning(cfg: Config, s: State, w: nat, phase: Phase)
    requires Owning(s) && w < |s.workers| && !s.workers[w].phase.Holding? && !phase.Holding?
    ensures Owning(Persist(s, w, phase))
    ensures forall k :: k in s.table ==> k in Persist(s, w, phase).table && Persist(s, w, phase).table[k] == s.table[k]
  {
    var t := Persist(s, w, phase);
    UpsertFacts(s.table, s.workers[w].buffer);
    forall v | 0 <= v < |t.workers| && t.workers[v].phase.Holding?
      ensures t.workers[v].phase.existing == ExistingDates(t.table, t.workers[v].phase.stock)
    {
      var stock := t.workers[v].phase.stock;
      assert stock in Owned(s.workers[v]);
      assert forall r :: r in s.workers[w].buffer ==> r.key.stock in Owned(s.workers[w]);
      SameDates(s.table, t.table, stock);
    }
    forall v, r | 0 <= v < |t.workers| && r in t.workers[v].buffer ensures r.key !in t.table {
      assert r.key.stock in Owned(s.workers[v]);
      assert forall r' :: r' in s.workers[w].buffer ==> r'.key.stock in Owned(s.workers[w]);
    }
  }

  lemma {:induction false} DeliverOwning(cfg: Config, s: State, w: nat, response: seq<DayRow>)
    requires Owning(s) && w < |s.workers| && s.workers[w].phase.Holding?
    ensures Owning(DeliverRows(cfg, s, w, response))
  {
    var stock, existing := s.workers[w].phase.stock, s.workers[w].phase.existing;
    var rows := Missing(stock, response, existing);
    MissingFacts(stock, response, existing);
    var t := DeliverRows(cfg, s, w, response);
    assert t.workers[w].buffer == s.workers[w].buffer + rows;
    assert Owned(t.workers[w]) <= Owned(s.workers[w]);
    assert forall k :: k in s.table && k.stock == stock ==> k.date in ExistingDates(s.table, stock);
  }

  lemma {:induction false} TakeOwning(cfg: Config, s: State, w: nat, readOk: bool)
    requires cfg.onlyMissing && Owning(s) && w < |s.workers| && s.workers[w].phase.Ready?
    ensures Owning(TakeNext(cfg, s, w, readOk))
  {
    var t := TakeNext(cfg, s, w, readOk);
    if s.queue != [] {
      var head := s.queue[0];
      assert head in s.queue;
      assert forall v :: 0 <= v < |s.workers| ==> head !in Owned(s.workers[v]);
      assert Owned(t.workers[w]) <= Owned(s.workers[w]) + {head};
      assert forall q :: q in s.queue[1..] ==> q in s.queue && q != head;
    }
  }

  /** Every step of a run that loads only missing dates keeps every persisted row as it is. */
  lemma {:induction false} StepOwning(cfg: Config, s: State, step: Step)
    requires cfg.onlyMissing && Owning(s) && Enabled(s, step)
    ensures Owning(Apply(cfg, s, step))
    ensures forall k :: k in s.table ==> k in Apply(cfg, s, step).table && Apply(cfg, s, step).table[k] == s.table[k]
  {
    match step
    case Take(w, readOk) => TakeOwning(cfg, s, w, readOk);
    case Deliver(w, response) => DeliverOwning(cfg, s, w, response);
    case Fail(w) =>
    case FlushOk(w) => PersistOwning(cfg, s, w, Ready);
    case FlushFail(w) =>
    case Finish(w) => PersistOwning(cfg, s, w, Done);
  }

  // ----- runs

  predicate Schedule(cfg: Config, s: State, steps: seq<Step>)
    decreases |steps|
  {
    steps == [] || (Enabled(s, steps[0]) && Schedule(cfg, Apply(cfg, s, steps[0]), steps[1..]))
  }

  function After(cfg: Config, s: State, steps: seq<Step>): State
    requires Schedule(cfg, s, steps)
    decreases |steps|
  {
    if steps == [] then s else After(cfg, Apply(cfg, s, steps[0]), steps[1..])
  }

  lemma {:induction false} ScheduleAccounted(cfg: Config, stocks: seq<Stock>, s: State, steps: seq<Step>)
    requires cfg.stockBatch >= 1 && cfg.maxRows >= 1 && Accounted(cfg, stocks, s) && Schedule(cfg, s, steps)
    ensures Accounted(cfg, stocks, After(cfg, s, steps))
    decreases |steps|
  {
    if steps != [] {
      StepAccounted(cfg, stocks, s, steps[0]);
      ScheduleAccounted(cfg, stocks, Apply(cfg, s, steps[0]), steps[1..]);
    }
  }

  ghost predicate AllDone(s: State)
  {
    forall w :: 0 <= w < |s.workers| ==> s.workers[w].phase.Done?
  }

  /** At every point of every run the accounting holds; when all workers are done it reads
      completed + skipped + failed = stocks + failed flushes, filtered = upserted + discarded. */
  lemma {:induction false} RunAccounting(cfg: Config, table: map<Key, Fact>, stocks: seq<Stock>, workers: nat,
                                         steps: seq<Step>)
    requires cfg.stockBatch >= 1 && cfg.maxRows >= 1 && workers >= 1 && stocks != []
    requires Schedule(cfg, Init(table, stocks, workers), steps)
    ensures var s := After(cfg, Init(table, stocks, workers), steps);
            && Accounted(cfg, stocks, s)
            && (AllDone(s) ==> s.completed + s.skipped + s.failed == |stocks| + s.flushFailures
                               && s.filtered == s.upserted + s.discarded)
  {
    var init := Init(table, stocks, workers);
    FreshTotals(init.workers);
    ScheduleAccounted(cfg, stocks, init, steps);
    WorkersKept(cfg, init, steps);
    var s := After(cfg, init, steps);
    if AllDone(s) {
      DoneTotals(s.workers);
      assert s.workers[0].phase.Done?;
    }
  }

  lemma {:induction false} WorkersKept(cfg: Config, s: State, steps: seq<Step>)
    requires Schedule(cfg, s, steps)
    ensures |After(cfg, s, steps).workers| == |s.workers|
    decreases |steps|
  {
    if steps != [] { WorkersKept(cfg, Apply(cfg, s, steps[0]), steps[1..]); }
  }

  ghost predicate Extends(table': map<Key, Fact>, table: map<Key, Fact>)
  {
    forall k :: k in table ==> k in table' && table'[k] == table[k]
  }

  lemma {:induction false} ScheduleOwning(cfg: Config, s: State, steps: seq<Step>)
    requires cfg.onlyMissing && Owning(s) && Schedule(cfg, s, steps)
    ensures Owning(After(cfg, s, steps)) && Extends(After(cfg, s, steps).table, s.table)
    decreases |steps|
  {
    if steps != [] {
      StepOwning(cfg, s, steps[0]);
      ScheduleOwning(cfg, Apply(cfg, s, steps[0]), steps[1..]);
    }
  }

  /** Whatever fails and wherever the run is cut off, persisted rows only accumulate. */
  lemma {:induction false} RunOnlyAdds(cfg: Config, table: map<Key, Fact>, stocks: seq<Stock>, workers: nat,
                                       steps: seq<Step>)
    requires cfg.onlyMissing && Distinct(stocks) && Schedule(cfg, Init(table, stocks, workers), steps)
    ensures Owning(Init(table, stocks, workers))
    ensures Extends(After(cfg, Init(table, stocks, workers), steps).table, table)
  {
    ScheduleOwning(cfg, Init(table, stocks, workers), steps);
  }
}
