/** What the writer of the minute pipeline does with the answers themselves: every row of every answer
    reaches the table, every stock is counted as fetched or failed by what it answered, and over a
    whole run the table holds exactly the rows the provider gave. */
module MinuteAnswers {
  import opened Wrappers
  import opened MinutePipeline
  import opened MinuteSync

  // ----- one list of items

  /** Lists joined in order. */
  function Joined(lists: seq<seq<Row>>): seq<Row>
  {
    if lists == [] then [] else lists[0] + Joined(lists[1..])
  }

  lemma {:induction false} JoinedOneMore(lists: seq<seq<Row>>, last: seq<Row>)
    ensures Joined(lists + [last]) == Joined(lists) + last
  {
    if lists == [] {
      assert lists + [last] == [last];
    } else {
      JoinedOneMore(lists[1..], last);
      assert (lists + [last])[1..] == lists[1..] + [last];
    }
  }

  function Answers(items: seq<Item>): (lists: seq<seq<Row>>)
    ensures |lists| == |items|
    ensures forall i :: 0 <= i < |items| ==> lists[i] == match items[i].outcome case Rows(rows) => rows case Error => []
  {
    seq(|items|, i requires 0 <= i < |items| => match items[i].outcome case Rows(rows) => rows case Error => [])
  }

  lemma {:induction false} AnswersOneMore(items: seq<Item>)
    requires items != []
    ensures Answers(items) == Answers(items[..|items| - 1]) + [Answers(items)[|items| - 1]]
  {
    var n, answers, front := |items| - 1, Answers(items), Answers(items[..|items| - 1]);
    forall i | 0 <= i < n ensures answers[i] == front[i] { assert items[..n][i] == items[i]; }
    assert answers == front + [answers[n]];
  }

  /** The rows upserted for a list of items are all the rows answered, in order. */
  lemma {:induction false} RowsAreAnswers(items: seq<Item>)
    ensures RowsOf(items) == Joined(Answers(items))
  {
    if items != [] {
      var n := |items| - 1;
      RowsAreAnswers(items[..n]);
      AnswersOneMore(items);
      JoinedOneMore(Answers(items[..n]), Answers(items)[n]);
    }
  }

  lemma {:induction false} InJoined(lists: seq<seq<Row>>, i: nat, row: Row)
    requires i < |lists| && row in lists[i]
    ensures row in Joined(lists)
  {
    if i > 0 { InJoined(lists[1..], i - 1, row); }
  }

  /** No row of any answer is dropped. */
  lemma {:induction false} EveryRowIsUpserted(items: seq<Item>, i: nat, row: Row)
    requires i < |items| && items[i].outcome.Rows? && row in items[i].outcome.rows
    ensures row in RowsOf(items)
  {
    RowsAreAnswers(items);
    InJoined(Answers(items), i, row);
  }

  /** A stock is counted as fetched exactly when some item of it answered with a row. */
  lemma {:induction false} FetchedExactly(items: seq<Item>, code: Code)
    ensures code in FetchedOf(items) <==>
            exists i :: 0 <= i < |items| && items[i].code == code &&
                        items[i].outcome.Rows? && items[i].outcome.rows != []
  {
    if items != [] {
      var front, n := items[..|items| - 1], |items| - 1;
      FetchedExactly(front, code);
      if i :| 0 <= i < |front| && front[i].code == code && front[i].outcome.Rows? && front[i].outcome.rows != [] {
        assert items[i] == front[i];
      }
      if i :| 0 <= i < |items| && items[i].code == code && items[i].outcome.Rows? && items[i].outcome.rows != [] {
        if i < n { assert front[i] == items[i]; }
      }
    }
  }

  /** The items that failed: an error, or an answer without rows. */
  ghost function FailedIndices(items: seq<Item>): set<int>
  {
    set i | 0 <= i < |items| && (items[i].outcome.Error? || items[i].outcome.rows == [])
  }

  lemma {:induction false} OneMoreFailed(items: seq<Item>)
    requires items != []
    ensures var n := |items| - 1;
            |FailedIndices(items)| ==
            |FailedIndices(items[..n])| + (if items[n].outcome.Error? || items[n].outcome.rows == [] then 1 else 0)
  {
    var n, front := |items| - 1, items[..|items| - 1];
    var last := if items[n].outcome.Error? || items[n].outcome.rows == [] then {n} else {};
    forall i ensures i in FailedIndices(items) <==> i in FailedIndices(front) + last {
      if 0 <= i < n { assert items[i] == front[i]; }
    }
    assert FailedIndices(items) == FailedIndices(front) + last;
  }

  lemma {:induction false} FailedAreTheOthers(items: seq<Item>)
    ensures FailedOf(items) == |FailedIndices(items)|
  {
    if items != [] {
      FailedAreTheOthers(items[..|items| - 1]);
      OneMoreFailed(items);
    }
  }

  // ----- a whole run

  /** The items the workers produce in a run, in order. */
  function Produced(cfg: Config, s: State, steps: seq<Step>): seq<Item>
    requires Schedule(cfg, s, steps)
    decreases |steps|
  {
    if steps == [] then []
    else
      (match steps[0] case Produce(w, outcome) => [Item(s.workers[w].code, outcome)] case _ => []) +
      Produced(cfg, Apply(cfg, s, steps[0]), steps[1..])
  }

  function MessageItems(m: Option<Item>): multiset<Item> { if m.Some? then multiset{m.value} else multiset{} }

  function HandItem(w: Worker): multiset<Item> { if w.Putting? then MessageItems(w.message) else multiset{} }

  function HandItems(workers: seq<Worker>): multiset<Item>
  {
    if workers == [] then multiset{}
    else HandItems(workers[1..]) + HandItem(workers[0])
  }

  function QueueItems(queue: seq<Option<Item>>): multiset<Item>
  {
    if queue == [] then multiset{} else MessageItems(queue[0]) + QueueItems(queue[1..])
  }

  /** All the items under way or flushed. */
  function Items(s: State): multiset<Item>
  {
    HandItems(s.workers) + QueueItems(s.writeQueue) + multiset(s.batch) + multiset(Concat(s.flushed))
  }

  lemma {:induction false} Exchange(a: multiset<Item>, x: multiset<Item>, b: multiset<Item>, y: multiset<Item>,
                                    more: multiset<Item>)
    requires a + x == b + y
    ensures (a + more) + x == (b + more) + y
  {
    assert (a + more) + x == (a + x) + more;
    assert (b + more) + y == (b + y) + more;
  }

  lemma {:induction false} ReplaceHandItem(workers: seq<Worker>, w: nat, x: Worker)
    requires w < |workers|
    ensures HandItems(workers[w := x]) + HandItem(workers[w]) == HandItems(workers) + HandItem(x)
  {
    if w == 0 {
      assert workers[0 := x][1..] == workers[1..];
    } else {
      var rest := workers[1..];
      ReplaceHandItem(rest, w - 1, x);
      assert workers[w := x][1..] == rest[w - 1 := x];
      Exchange(HandItems(rest[w - 1 := x]), HandItem(workers[w]), HandItems(rest), HandItem(x), HandItem(workers[0]));
    }
  }

  lemma {:induction false} QueueOneMore(queue: seq<Option<Item>>, m: Option<Item>)
    ensures QueueItems(queue + [m]) == QueueItems(queue) + MessageItems(m)
  {
    if queue == [] {
      assert queue + [m] == [m];
    } else {
      QueueOneMore(queue[1..], m);
      assert (queue + [m])[1..] == queue[1..] + [m];
    }
  }

  /** The item an answer adds. */
  function Added(s: State, step: Step): multiset<Item>
    requires step.Produce? ==> step.w < |s.workers| && s.workers[step.w].Fetching?
  {
    if step.Produce? then multiset{Item(s.workers[step.w].code, step.outcome)} else multiset{}
  }

  lemma {:induction false} EmptyHand(workers: seq<Worker>, w: nat, x: Worker)
    requires w < |workers| && HandItem(workers[w]) == multiset{}
    ensures HandItems(workers[w := x]) == HandItems(workers) + HandItem(x)
  {
    ReplaceHandItem(workers, w, x);
  }

  lemma {:induction false} WorkerStepKeepsItems(cfg: Config, s: State, step: Step)
    requires Enabled(cfg, s, step) && (step.Take? || step.Produce? || step.Close?)
    ensures HandItems(Apply(cfg, s, step).workers) == HandItems(s.workers) + Added(s, step)
  {
    EmptyHand(s.workers, step.w, Apply(cfg, s, step).workers[step.w]);
  }

  lemma {:induction false} PutKeepsItems(cfg: Config, s: State, w: nat)
    requires Enabled(cfg, s, Put(w))
    ensures var t := Apply(cfg, s, Put(w));
            HandItems(t.workers) + QueueItems(t.writeQueue) == HandItems(s.workers) + QueueItems(s.writeQueue)
  {
    var t, m := Apply(cfg, s, Put(w)), s.workers[w].message;
    ReplaceHandItem(s.workers, w, t.workers[w]);
    QueueOneMore(s.writeQueue, m);
    assert HandItems(t.workers) + MessageItems(m) == HandItems(s.workers);
  }

  lemma {:induction false} ReceiveKeepsItem(cfg: Config, s: State, item: Item)
    requires Enabled(cfg, s, Receive)
    ensures Items(Apply(cfg, s, Receive))[item] == Items(s)[item]
  {
    var t, m := Apply(cfg, s, Receive), s.writeQueue[0];
    assert QueueItems(s.writeQueue)[item] == MessageItems(m)[item] + QueueItems(t.writeQueue)[item];
    assert multiset(t.batch)[item] == multiset(s.batch)[item] + MessageItems(m)[item];
  }

  lemma {:induction false} FlushKeepsItem(cfg: Config, s: State, item: Item)
    requires Enabled(cfg, s, MinutePipeline.Flush)
    ensures Items(Apply(cfg, s, MinutePipeline.Flush))[item] == Items(s)[item]
  {
    var t := Apply(cfg, s, MinutePipeline.Flush);
    if s.batch != [] {
      assert t.flushed[..|s.flushed|] == s.flushed;
      assert Concat(t.flushed) == Concat(s.flushed) + s.batch;
    }
    assert multiset(Concat(t.flushed))[item] == multiset(Concat(s.flushed))[item] + multiset(s.batch)[item];
  }

  lemma {:induction false} StepKeepsItem(cfg: Config, s: State, step: Step, item: Item)
    requires Enabled(cfg, s, step)
    ensures Items(Apply(cfg, s, step))[item] == Items(s)[item] + Added(s, step)[item]
  {
    var t := Apply(cfg, s, step);
    match step
    case Put(w) =>
      PutKeepsItems(cfg, s, w);
      assert (HandItems(t.workers) + QueueItems(t.writeQueue))[item] ==
             (HandItems(s.workers) + QueueItems(s.writeQueue))[item];
    case Receive => ReceiveKeepsItem(cfg, s, item);
    case Flush => FlushKeepsItem(cfg, s, item);
    case Take(_) => WorkerStepKeepsItems(cfg, s, step);
    case Produce(_, _) => WorkerStepKeepsItems(cfg, s, step);
    case Close(_) => WorkerStepKeepsItems(cfg, s, step);
  }

  /** A step keeps every item as it is; only an answer adds one. */
  lemma {:induction false} StepKeepsItems(cfg: Config, s: State, step: Step)
    requires Enabled(cfg, s, step)
    ensures Items(Apply(cfg, s, step)) == Items(s) + Added(s, step)
  {
    var after, before := Items(Apply(cfg, s, step)), Items(s) + Added(s, step);
    forall item ensures after[item] == before[item] { StepKeepsItem(cfg, s, step, item); }
  }

  lemma {:induction false} RunKeepsItems(cfg: Config, s: State, steps: seq<Step>)
    requires Schedule(cfg, s, steps)
    ensures Items(After(cfg, s, steps)) == Items(s) + multiset(Produced(cfg, s, steps))
    decreases |steps|
  {
    if steps != [] {
      StepKeepsItems(cfg, s, steps[0]);
      RunKeepsItems(cfg, Apply(cfg, s, steps[0]), steps[1..]);
    }
  }

  lemma {:induction false} NoHandItems(workers: seq<Worker>)
    requires forall w :: 0 <= w < |workers| ==> !workers[w].Putting?
    ensures HandItems(workers) == multiset{}
  {
    if workers != [] { NoHandItems(workers[1..]); }
  }

  // ----- the order in which items are flushed does not matter

  lemma {:induction false} CountsOfParts(a: seq<Item>, b: seq<Item>)
    ensures FetchedOf(a + b) == FetchedOf(a) + FetchedOf(b) && FailedOf(a + b) == FailedOf(a) + FailedOf(b)
  {
    if b == [] {
      assert a + b == a;
    } else {
      var front, last := b[..|b| - 1], b[|b| - 1];
      CountsOfParts(a, front);
      assert a + b == (a + front) + [last] && b == front + [last];
      OneMore(a + front, last);
      OneMore(front, last);
    }
  }

  lemma {:induction false} RowsFromTheMiddle(a: seq<Item>, x: Item, b: seq<Item>)
    ensures multiset(RowsOf(a + [x] + b)) == multiset(RowsOf(a + b + [x]))
  {
    RowsOfAppend(a + [x], b);
    RowsOfAppend(a, [x]);
    RowsOfAppend(a + b, [x]);
    RowsOfAppend(a, b);
    var r, y, t := RowsOf(a), RowsOf([x]), RowsOf(b);
    assert multiset((r + y) + t) == multiset(r) + multiset(y) + multiset(t);
    assert multiset((r + t) + y) == multiset(r) + multiset(t) + multiset(y);
  }

  lemma {:induction false} CountsFromTheMiddle(a: seq<Item>, x: Item, b: seq<Item>)
    ensures FetchedOf(a + [x] + b) == FetchedOf(a + b + [x]) && FailedOf(a + [x] + b) == FailedOf(a + b + [x])
  {
    CountsOfParts(a + [x], b);
    CountsOfParts(a, [x]);
    CountsOfParts(a + b, [x]);
    CountsOfParts(a, b);
  }

  lemma {:induction false} TakenOut(front: seq<Item>, last: Item, b: seq<Item>) returns (i: nat)
    requires multiset(front + [last]) == multiset(b)
    ensures i < |b| && b == b[..i] + [last] + b[i + 1..] && multiset(front) == multiset(b[..i] + b[i + 1..])
  {
    assert (front + [last])[|front|] == last && last in multiset(front + [last]);
    assert last in multiset(b);
    i :| 0 <= i < |b| && b[i] == last;
    assert b == b[..i] + [last] + b[i + 1..];
    assert multiset(b) == multiset(b[..i] + b[i + 1..]) + multiset{last};
    assert multiset(front) == multiset(b) - multiset{last};
  }

  lemma {:induction false} OrderDoesNotMatter(a: seq<Item>, b: seq<Item>)
    requires multiset(a) == multiset(b)
    ensures multiset(RowsOf(a)) == multiset(RowsOf(b)) && FetchedOf(a) == FetchedOf(b) && FailedOf(a) == FailedOf(b)
  {
    assert |multiset(a)| == |a| && |multiset(b)| == |b|;
    if a != [] {
      var front, last := a[..|a| - 1], a[|a| - 1];
      assert a == front + [last];
      var i := TakenOut(front, last, b);
      var rest := b[..i] + b[i + 1..];
      OrderDoesNotMatter(front, rest);
      RowsFromTheMiddle(b[..i], last, b[i + 1..]);
      CountsFromTheMiddle(b[..i], last, b[i + 1..]);
      OneMore(front, last);
      OneMore(rest, last);
    }
  }

  /** No answer is lost, repeated or altered: when the writer has exited, the flushed items are those
      the workers produced, for exactly the needed codes, and the rows flushed are the rows answered. */
  lemma {:induction false} EveryAnswerIsFlushed(cfg: Config, needed: seq<Code>, steps: seq<Step>)
    requires Runnable(cfg, needed) && Schedule(cfg, Init(cfg, needed), steps)
    requires After(cfg, Init(cfg, needed), steps).writer.Exited?
    ensures var s, answers := After(cfg, Init(cfg, needed), steps), Produced(cfg, Init(cfg, needed), steps);
            && multiset(Concat(s.flushed)) == multiset(answers)
            && multiset(Codes(Concat(s.flushed))) == multiset(needed)
            && multiset(RowsOf(Concat(s.flushed))) == multiset(Joined(Answers(answers)))
            && FetchedOf(Concat(s.flushed)) == FetchedOf(answers)
            && FailedOf(Concat(s.flushed)) == |FailedIndices(answers)|
  {
    var init := Init(cfg, needed);
    InitInv(cfg, needed);
    ScheduleInv(cfg, needed, init, steps);
    var s, answers := After(cfg, init, steps), Produced(cfg, init, steps);
    WriterExit(cfg, needed, s);
    RunKeepsItems(cfg, init, steps);
    NoHandItems(init.workers);
    NoHandItems(s.workers);
    assert Items(init) == multiset{} && Items(s) == multiset(Concat(s.flushed));
    assert multiset(Concat(s.flushed)) == multiset(answers);
    OrderDoesNotMatter(Concat(s.flushed), answers);
    RowsAreAnswers(answers);
    FailedAreTheOthers(answers);
  }

  /** So the minute table of a synchronisation that has run to its end holds every row of every answer,
      as often as it was given. */
  lemma {:induction false} TableHoldsEveryAnswer(sync: Sync, needed: seq<Code>, steps: seq<Step>, i: nat)
    requires sync.Valid() && Runnable(sync.cfg, needed) && Schedule(sync.cfg, Init(sync.cfg, needed), steps)
    requires sync.Abs() == After(sync.cfg, Init(sync.cfg, needed), steps) && sync.writer.Exited?
    ensures multiset(sync.minuteWriter.minuteTable) ==
            multiset(Joined(Answers(Produced(sync.cfg, Init(sync.cfg, needed), steps))))
    ensures i < |steps| && steps[i].Produce? && steps[i].outcome.Rows? ==>
              forall row :: row in steps[i].outcome.rows ==> row in sync.minuteWriter.minuteTable
  {
    EveryAnswerIsFlushed(sync.cfg, needed, steps);
    var answers := Produced(sync.cfg, Init(sync.cfg, needed), steps);
    if i < |steps| && steps[i].Produce? && steps[i].outcome.Rows? {
      var j := ProducedAt(sync.cfg, Init(sync.cfg, needed), steps, i);
      forall row | row in steps[i].outcome.rows ensures row in sync.minuteWriter.minuteTable {
        InJoined(Answers(answers), j, row);
        assert row in multiset(Joined(Answers(answers)));
      }
    }
  }

  lemma {:induction false} ProducedAt(cfg: Config, s: State, steps: seq<Step>, i: nat) returns (j: nat)
    requires Schedule(cfg, s, steps) && i < |steps| && steps[i].Produce?
    ensures j < |Produced(cfg, s, steps)| && Produced(cfg, s, steps)[j].outcome == steps[i].outcome
    decreases |steps|
  {
    if i == 0 {
      j := 0;
    } else {
      j := ProducedAt(cfg, Apply(cfg, s, steps[0]), steps[1..], i - 1);
      if steps[0].Produce? { j := j + 1; }
    }
  }
}
