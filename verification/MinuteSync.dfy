/** The mutable state of `_sync_intraday`: the queues, the workers, the writer's running batch and the
    recorded batches, updated in place by each step and proved to follow the step machine. */
module MinuteSync {
  import opened Wrappers
  import opened MinutePipeline

  datatype BatchRecord = BatchRecord(batchNo: nat, targets: nat, fetched: nat, failed: nat, rows: nat)

  predicate HasRows(item: Item) { item.outcome.Rows? && item.outcome.rows != [] }

  function RowsOf(items: seq<Item>): seq<Row>
  {
    if items == [] then []
    else
      var last := items[|items| - 1];
      RowsOf(items[..|items| - 1]) + (if HasRows(last) then last.outcome.rows else [])
  }

  function FetchedOf(items: seq<Item>): set<Code>
  {
    if items == [] then {}
    else
      var last := items[|items| - 1];
      FetchedOf(items[..|items| - 1]) + (if HasRows(last) then {last.code} else {})
  }

  function FailedOf(items: seq<Item>): nat
  {
    if items == [] then 0
    else FailedOf(items[..|items| - 1]) + (if HasRows(items[|items| - 1]) then 0 else 1)
  }

  function Record(batchNo: nat, items: seq<Item>): BatchRecord
  {
    BatchRecord(batchNo, |items|, |FetchedOf(items)|, FailedOf(items), |RowsOf(items)|)
  }

  /** The records of the flushed batches, numbered from 1. */
  function Records(flushed: seq<seq<Item>>): seq<BatchRecord>
  {
    if flushed == [] then []
    else Records(flushed[..|flushed| - 1]) + [Record(|flushed|, flushed[|flushed| - 1])]
  }

  /** What the writer does with one received item. */
  method AddToBatch(codes: seq<Code>, rows: seq<Row>, fetched: set<Code>, failed: nat, item: Item,
                    ghost batch: seq<Item>)
    returns (codes': seq<Code>, rows': seq<Row>, fetched': set<Code>, failed': nat)
    requires codes == Codes(batch) && rows == RowsOf(batch) && fetched == FetchedOf(batch) && failed == FailedOf(batch)
    ensures codes' == Codes(batch + [item]) && rows' == RowsOf(batch + [item])
    ensures fetched' == FetchedOf(batch + [item]) && failed' == FailedOf(batch + [item])
  {
    OneMore(batch, item);
    codes', rows', fetched', failed' := codes + [item.code], rows, fetched, failed;
    if item.outcome.Error? {
      failed' := failed + 1;
    } else if item.outcome.rows != [] {
      fetched' := fetched + {item.code};
      rows' := rows + item.outcome.rows;
    } else {
      failed' := failed + 1;
    }
  }

  /** The local variables of `minute_writer`. */
  class MinuteWriter {
    var batchNo: nat
    var batchCodes: seq<Code>
    var batchRows: seq<Row>
    var batchFetchedCodes: set<Code>
    var batchFailed: nat
    var minuteBatches: seq<BatchRecord>
    var minuteTable: seq<Row>
    ghost var batch: seq<Item>
    ghost var flushed: seq<seq<Item>>

    /** The accumulators describe the open batch. */
    ghost predicate Accumulates()
      reads this
    {
      && batchCodes == Codes(batch) && batchRows == RowsOf(batch)
      && batchFetchedCodes == FetchedOf(batch) && batchFailed == FailedOf(batch)
    }

    /** The records and the table describe the flushed batches. */
    ghost predicate Recorded()
      reads this
    {
      batchNo == |flushed| && minuteBatches == Records(flushed) && minuteTable == RowsOf(Concat(flushed))
    }

    constructor ()
      ensures Accumulates() && Recorded() && batch == [] && flushed == []
    {
      batchNo, batchCodes, batchRows, batchFetchedCodes, batchFailed := 0, [], [], {}, 0;
      minuteBatches, minuteTable := [], [];
      batch, flushed := [], [];
    }

    method Add(item: Item)
      requires Accumulates()
      modifies this`batchCodes, this`batchRows, this`batchFetchedCodes, this`batchFailed, this`batch
      ensures Accumulates() && batch == old(batch) + [item]
    {
      batchCodes, batchRows, batchFetchedCodes, batchFailed :=
        AddToBatch(batchCodes, batchRows, batchFetchedCodes, batchFailed, item, batch);
      batch := batch + [item];
    }

    method RecordBatch()
      requires Accumulates() && Recorded()
      modifies this`batchNo, this`minuteTable, this`minuteBatches, this`flushed
      ensures Recorded() && flushed == old(flushed) + [batch]
    {
      FlushedOneMore(flushed, batch);
      batchNo := batchNo + 1;
      if batchRows != [] {
        minuteTable := minuteTable + batchRows;
      }
      minuteBatches := minuteBatches +
        [BatchRecord(batchNo, |batchCodes|, |batchFetchedCodes|, batchFailed, |batchRows|)];
      flushed := flushed + [batch];
    }

    method Flush()
      requires Accumulates() && Recorded()
      modifies this
      ensures Accumulates() && Recorded() && batch == []
      ensures flushed == if old(batch) == [] then old(flushed) else old(flushed) + [old(batch)]
    {
      if batchCodes == [] {
        return;
      }
      RecordBatch();
      batchCodes, batchRows, batchFetchedCodes, batchFailed := [], [], {}, 0;
      batch := [];
    }
  }

  /** The queues and tasks of `_sync_intraday`. */
  class Sync {
    const cfg: Config
    const minuteWriter: MinuteWriter
    var fetchQueue: seq<Code>
    var minuteAttempted: set<Code>
    var workers: seq<Worker>
    var writeQueue: seq<Option<Item>>
    var writer: Writer
    var completedWorkers: nat

    ghost function Abs(): State
      reads this, minuteWriter
    {
      State(fetchQueue, minuteAttempted, workers, writeQueue, writer, completedWorkers, minuteWriter.batch,
            minuteWriter.flushed)
    }

    ghost predicate Valid()
      reads minuteWriter
    {
      minuteWriter.Accumulates() && minuteWriter.Recorded()
    }

    constructor (cfg: Config, needed: seq<Code>)
      ensures Valid() && fresh(minuteWriter) && this.cfg == cfg && Abs() == Init(cfg, needed)
    {
      this.cfg := cfg;
      minuteWriter := new MinuteWriter();
      fetchQueue, minuteAttempted := needed, {};
      workers := seq(if cfg.maxConcurrency < |needed| then cfg.maxConcurrency else |needed|, _ => Idle);
      writeQueue, writer, completedWorkers := [], Receiving, 0;
    }

    method TakeCode(w: nat)
      requires Enabled(cfg, Abs(), Take(w))
      modifies this
      ensures Abs() == Apply(cfg, old(Abs()), Take(w))
    {
      if fetchQueue == [] {
        workers := workers[w := Closing];
      } else {
        var stockCode := fetchQueue[0];
        fetchQueue := fetchQueue[1..];
        minuteAttempted := minuteAttempted + {stockCode};
        workers := workers[w := Fetching(stockCode)];
      }
    }

    method ProvideBars(w: nat, outcome: Outcome)
      requires Enabled(cfg, Abs(), Produce(w, outcome))
      modifies this
      ensures Abs() == Apply(cfg, old(Abs()), Produce(w, outcome))
    {
      workers := workers[w := Putting(Some(Item(workers[w].code, outcome)))];
    }

    method PutMessage(w: nat)
      requires Enabled(cfg, Abs(), Put(w))
      modifies this
      ensures Abs() == Apply(cfg, old(Abs()), Put(w))
    {
      var message := workers[w].message;
      writeQueue := writeQueue + [message];
      workers := workers[w := if message.None? then Finished else Idle];
    }

    method CloseProvider(w: nat)
      requires Enabled(cfg, Abs(), Close(w))
      modifies this
      ensures Abs() == Apply(cfg, old(Abs()), Close(w))
    {
      workers := workers[w := Putting(None)];
    }

    method ReceiveMessage()
      requires Valid() && Enabled(cfg, Abs(), Receive)
      modifies this, minuteWriter
      ensures Valid()
      ensures Abs() == Apply(cfg, old(Abs()), Receive)
    {
      var message := writeQueue[0];
      writeQueue := writeQueue[1..];
      if message == None {
        completedWorkers := completedWorkers + 1;
        return;
      }
      minuteWriter.Add(message.value);
      if |minuteWriter.batchCodes| >= cfg.batchSize {
        writer := Flushing;
      }
    }

    method FlushBatch()
      requires Valid() && Enabled(cfg, Abs(), Flush)
      modifies this, minuteWriter
      ensures Valid()
      ensures Abs() == Apply(cfg, old(Abs()), Flush)
    {
      ghost var s := Abs();
      minuteWriter.Flush();
      writer := if writer.Flushing? then Receiving else Exited;
      assert Abs() == Apply(cfg, s, MinutePipeline.Flush);
    }
  }

  lemma {:induction false} OneMore(items: seq<Item>, item: Item)
    ensures Codes(items + [item]) == Codes(items) + [item.code]
    ensures RowsOf(items + [item]) == RowsOf(items) + (if HasRows(item) then item.outcome.rows else [])
    ensures FetchedOf(items + [item]) == FetchedOf(items) + (if HasRows(item) then {item.code} else {})
    ensures FailedOf(items + [item]) == FailedOf(items) + (if HasRows(item) then 0 else 1)
  {
    assert (items + [item])[..|items|] == items;
  }

  lemma {:induction false} FlushedOneMore(flushed: seq<seq<Item>>, batch: seq<Item>)
    ensures Records(flushed + [batch]) == Records(flushed) + [Record(|flushed| + 1, batch)]
    ensures RowsOf(Concat(flushed + [batch])) == RowsOf(Concat(flushed)) + RowsOf(batch)
  {
    RecordsAppend(flushed, batch);
    RowsOfAppend(Concat(flushed), batch);
  }

  lemma {:induction false} RecordsAppend(flushed: seq<seq<Item>>, batch: seq<Item>)
    ensures Records(flushed + [batch]) == Records(flushed) + [Record(|flushed| + 1, batch)]
    ensures Concat(flushed + [batch]) == Concat(flushed) + batch
  {
    assert (flushed + [batch])[..|flushed|] == flushed;
  }

  lemma {:induction false} RowsOfAppend(a: seq<Item>, b: seq<Item>)
    ensures RowsOf(a + b) == RowsOf(a) + RowsOf(b)
  {
    if b == [] {
      assert a + b == a;
    } else {
      RowsOfAppend(a, b[..|b| - 1]);
      assert (a + b)[..|a| + |b| - 1] == a + b[..|b| - 1];
    }
  }

  // ----- what the recorded batches add up to

  function TotalTargets(records: seq<BatchRecord>): nat
  {
    if records == [] then 0 else TotalTargets(records[..|records| - 1]) + records[|records| - 1].targets
  }

  function TotalRows(records: seq<BatchRecord>): nat
  {
    if records == [] then 0 else TotalRows(records[..|records| - 1]) + records[|records| - 1].rows
  }

  lemma {:induction false} RecordTotals(flushed: seq<seq<Item>>)
    ensures TotalTargets(Records(flushed)) == |Concat(flushed)| &&
            TotalRows(Records(flushed)) == |RowsOf(Concat(flushed))|
  {
    if flushed != [] {
      var front, last := flushed[..|flushed| - 1], flushed[|flushed| - 1];
      assert flushed == front + [last];
      RecordTotals(front);
      RecordsAppend(front, last);
      assert Records(flushed)[..|Records(front)|] == Records(front);
      RowsOfAppend(Concat(front), last);
    }
  }

  /** Within a batch of distinct codes every target is either fetched or failed, never both. */
  lemma {:induction false} FetchedAndFailed(items: seq<Item>)
    ensures |FetchedOf(items)| + FailedOf(items) <= |items|
    ensures forall c :: c in FetchedOf(items) ==> exists i :: 0 <= i < |items| && items[i].code == c
    ensures (forall i, j :: 0 <= i < j < |items| ==> items[i].code != items[j].code) ==>
            |FetchedOf(items)| + FailedOf(items) == |items|
  {
    if items != [] {
      var front, last := items[..|items| - 1], items[|items| - 1];
      FetchedAndFailed(front);
      forall c | c in FetchedOf(front) ensures exists i :: 0 <= i < |items| && items[i].code == c {
        var i :| 0 <= i < |front| && front[i].code == c;
        assert items[i].code == c;
      }
    }
  }

  /** When the writer has exited, the recorded targets add up to the needed codes and the recorded
      rows to the rows upserted. */
  lemma {:induction false} RecordsAccountForRun(cfg: Config, needed: seq<Code>, s: State)
    requires Inv(cfg, needed, s) && s.writer.Exited?
    ensures TotalTargets(Records(s.flushed)) == |needed|
    ensures TotalRows(Records(s.flushed)) == |RowsOf(Concat(s.flushed))|
  {
    WriterExit(cfg, needed, s);
    RecordTotals(s.flushed);
    assert |multiset(Codes(Concat(s.flushed)))| == |Concat(s.flushed)| && |multiset(needed)| == |needed|;
  }
}
