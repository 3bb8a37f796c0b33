/** The minute fetch pipeline as a step machine: N workers drain a fetch queue into a bounded write
    queue, each ends with one `None` sentinel, and one writer batches what it receives. Steps are
    the stretches between two awaits, so every interleaving of the tasks is a sequence of steps. */
module MinutePipeline {
  import opened Wrappers

  type Code = string
  type Row = string

  datatype Outcome = Rows(rows: seq<Row>) | Error

  datatype Item = Item(code: Code, outcome: Outcome)

  datatype Worker =
    | Idle
    | Fetching(code: Code)
    | Putting(message: Option<Item>)
    | Closing
    | Finished

  datatype Writer = Receiving | Flushing | Exited

  datatype Config = Config(maxConcurrency: nat, batchSize: nat)

  datatype State = State(fetchQueue: seq<Code>, attempted: set<Code>, workers: seq<Worker>,
                         writeQueue: seq<Option<Item>>, writer: Writer, completed: nat,
                         batch: seq<Item>, flushed: seq<seq<Item>>)

  datatype Step = Take(w: nat) | Produce(w: nat, outcome: Outcome) | Put(w: nat) | Close(w: nat) | Receive | Flush

  function Capacity(cfg: Config): nat { cfg.maxConcurrency * 2 }

  predicate Runnable(cfg: Config, needed: seq<Code>)
  {
    cfg.maxConcurrency >= 1 && cfg.batchSize >= 1 && needed != []
  }

  function Init(cfg: Config, needed: seq<Code>): State
  {
    var n := if cfg.maxConcurrency < |needed| then cfg.maxConcurrency else |needed|;
    State(needed, {}, seq(n, _ => Idle), [], Receiving, 0, [], [])
  }

  predicate Enabled(cfg: Config, s: State, step: Step)
  {
    match step
    case Take(w) => w < |s.workers| && s.workers[w].Idle?
    case Produce(w, _) => w < |s.workers| && s.workers[w].Fetching?
    case Put(w) => w < |s.workers| && s.workers[w].Putting? && |s.writeQueue| < Capacity(cfg)
    case Close(w) => w < |s.workers| && s.workers[w].Closing?
    case Receive => s.writer.Receiving? && s.completed < |s.workers| && s.writeQueue != []
    case Flush => s.writer.Flushing? || (s.writer.Receiving? && s.completed == |s.workers|)
  }

  function Apply(cfg: Config, s: State, step: Step): State
    requires Enabled(cfg, s, step)
  {
    match step
    case Take(w) =>
      if s.fetchQueue == [] then s.(workers := s.workers[w := Closing])
      else
        var code := s.fetchQueue[0];
        s.(fetchQueue := s.fetchQueue[1..], attempted := s.attempted + {code},
           workers := s.workers[w := Fetching(code)])
    case Produce(w, outcome) =>
      s.(workers := s.workers[w := Putting(Some(Item(s.workers[w].code, outcome)))])
    case Put(w) =>
      var m := s.workers[w].message;
      s.(writeQueue := s.writeQueue + [m], workers := s.workers[w := if m.None? then Finished else Idle])
    case Close(w) => s.(workers := s.workers[w := Putting(None)])
    case Receive =>
      var m, rest := s.writeQueue[0], s.writeQueue[1..];
      if m.None? then s.(writeQueue := rest, completed := s.completed + 1)
      else
        var batch := s.batch + [m.value];
        s.(writeQueue := rest, batch := batch, writer := if |batch| >= cfg.batchSize then Flushing else Receiving)
    case Flush =>
      s.(batch := [], flushed := if s.batch == [] then s.flushed else s.flushed + [s.batch],
         writer := if s.writer.Flushing? then Receiving else Exited)
  }

  // ----- where the codes are

  function Codes(items: seq<Item>): (codes: seq<Code>) ensures |codes| == |items|
  { seq(|items|, i requires 0 <= i < |items| => items[i].code) }

  function Concat(batches: seq<seq<Item>>): seq<Item>
  {
    if batches == [] then [] else Concat(batches[..|batches| - 1]) + batches[|batches| - 1]
  }

  function Count(codes: seq<Code>, c: Code): nat
  {
    if codes == [] then 0 else (if codes[0] == c then 1 else 0) + Count(codes[1..], c)
  }

  function MessageCount(m: Option<Item>, c: Code): nat { if m.Some? && m.value.code == c then 1 else 0 }

  function QueueCount(queue: seq<Option<Item>>, c: Code): nat
  {
    if queue == [] then 0 else MessageCount(queue[0], c) + QueueCount(queue[1..], c)
  }

  function HandCount(w: Worker, c: Code): nat
  {
    match w
    case Fetching(code) => if code == c then 1 else 0
    case Putting(m) => MessageCount(m, c)
    case _ => 0
  }

  function HandsCount(workers: seq<Worker>, c: Code): nat
  {
    if workers == [] then 0 else HandCount(workers[0], c) + HandsCount(workers[1..], c)
  }

  function Sentinels(queue: seq<Option<Item>>): nat
  {
    if queue == [] then 0 else (if queue[0].None? then 1 else 0) + Sentinels(queue[1..])
  }

  function FinishedCount(workers: seq<Worker>): (n: nat)
    ensures n <= |workers|
  {
    if workers == [] then 0 else (if workers[0].Finished? then 1 else 0) + FinishedCount(workers[1..])
  }

  /** How often `c` occurs in the fetch queue, the workers' hands, the write queue, the open batch
      and the flushed batches together. */
  function Places(s: State, c: Code): nat
  {
    Count(s.fetchQueue, c) + HandsCount(s.workers, c) + QueueCount(s.writeQueue, c) +
    Count(Codes(s.batch), c) + Count(Codes(Concat(s.flushed)), c)
  }

  ghost predicate Conserved(needed: seq<Code>, s: State)
  {
    forall c :: Places(s, c) == Count(needed, c)
  }

  predicate Draining(w: Worker) { w.Closing? || w.Finished? || w == Putting(None) }

  predicate FullBatches(cfg: Config, batches: seq<seq<Item>>)
  {
    forall i :: 0 <= i < |batches| ==> |batches[i]| == cfg.batchSize
  }

  /** All batches are full except possibly the last, which is not empty. */
  predicate BatchShape(cfg: Config, batches: seq<seq<Item>>)
  {
    FullBatches(cfg, batches) ||
    (batches != [] && FullBatches(cfg, batches[..|batches| - 1]) && 0 < |batches[|batches| - 1]| <= cfg.batchSize)
  }

  ghost predicate Inv(cfg: Config, needed: seq<Code>, s: State)
  {
    && s.workers != []
    && Conserved(needed, s)
    && Sentinels(s.writeQueue) + s.completed == FinishedCount(s.workers)
    && (forall w :: 0 <= w < |s.workers| && Draining(s.workers[w]) ==> s.fetchQueue == [])
    && (FinishedCount(s.workers) == |s.workers| && s.writeQueue != [] ==> s.writeQueue[|s.writeQueue| - 1] == None)
    && |s.writeQueue| <= Capacity(cfg)
    && (forall c :: c in needed ==> c in s.attempted || c in s.fetchQueue)
    && (forall c :: c in s.attempted || c in s.fetchQueue ==> c in needed)
    && match s.writer
       case Receiving => |s.batch| < cfg.batchSize && FullBatches(cfg, s.flushed)
       case Flushing => |s.batch| == cfg.batchSize && FullBatches(cfg, s.flushed)
       case Exited => s.batch == [] && s.completed == |s.workers| && BatchShape(cfg, s.flushed)
  }

  // ----- one step

  lemma {:induction false} ReplaceHand(workers: seq<Worker>, w: nat, x: Worker, c: Code)
    requires w < |workers|
    ensures HandsCount(workers[w := x], c) + HandCount(workers[w], c) == HandsCount(workers, c) + HandCount(x, c)
  {
    if w == 0 {
      assert workers[0 := x][1..] == workers[1..];
    } else {
      ReplaceHand(workers[1..], w - 1, x, c);
      assert workers[w := x][1..] == workers[1..][w - 1 := x];
    }
  }

  lemma {:induction false} ReplaceFinished(workers: seq<Worker>, w: nat, x: Worker)
    requires w < |workers|
    ensures FinishedCount(workers[w := x]) + (if workers[w].Finished? then 1 else 0)
         == FinishedCount(workers) + (if x.Finished? then 1 else 0)
  {
    if w == 0 {
      assert workers[0 := x][1..] == workers[1..];
    } else {
      ReplaceFinished(workers[1..], w - 1, x);
      assert workers[w := x][1..] == workers[1..][w - 1 := x];
    }
  }

  lemma {:induction false} QueueAppend(queue: seq<Option<Item>>, m: Option<Item>, c: Code)
    ensures QueueCount(queue + [m], c) == QueueCount(queue, c) + MessageCount(m, c)
    ensures Sentinels(queue + [m]) == Sentinels(queue) + (if m.None? then 1 else 0)
  {
    if queue == [] {
      assert queue + [m] == [m];
    } else {
      QueueAppend(queue[1..], m, c);
      assert (queue + [m])[1..] == queue[1..] + [m];
    }
  }

  lemma {:induction false} CountAppend(a: seq<Code>, b: seq<Code>, c: Code)
    ensures Count(a + b, c) == Count(a, c) + Count(b, c)
  {
    if a == [] {
      assert a + b == b;
    } else {
      CountAppend(a[1..], b, c);
      assert (a + b)[1..] == a[1..] + b;
    }
  }

  lemma {:induction false} CodesAppend(a: seq<Item>, b: seq<Item>, c: Code)
    ensures Count(Codes(a + b), c) == Count(Codes(a), c) + Count(Codes(b), c)
  {
    assert Codes(a + b) == Codes(a) + Codes(b);
    CountAppend(Codes(a), Codes(b), c);
  }

  lemma {:induction false} CountIsMultiplicity(codes: seq<Code>, c: Code)
    ensures Count(codes, c) == multiset(codes)[c]
  {
    if codes != [] {
      CountIsMultiplicity(codes[1..], c);
      assert codes == [codes[0]] + codes[1..];
    }
  }

  /** No step loses or duplicates a code. */
  lemma {:induction false} StepKeepsPlaces(cfg: Config, s: State, step: Step, c: Code)
    requires Enabled(cfg, s, step)
    ensures Places(Apply(cfg, s, step), c) == Places(s, c)
  {
    var t := Apply(cfg, s, step);
    if step.Receive? {
      var m := s.writeQueue[0];
      if m.Some? { CodesAppend(s.batch, [m.value], c); }
    } else if step.Flush? {
      if s.batch != [] {
        assert t.flushed[..|s.flushed|] == s.flushed;
        CodesAppend(Concat(s.flushed), s.batch, c);
      }
    } else {
      ReplaceHand(s.workers, step.w, t.workers[step.w], c);
      if step.Put? { QueueAppend(s.writeQueue, s.workers[step.w].message, c); }
    }
  }

  lemma {:induction false} PutInv(cfg: Config, needed: seq<Code>, s: State, w: nat)
    requires Inv(cfg, needed, s) && Enabled(cfg, s, Put(w)) && Conserved(needed, Apply(cfg, s, Put(w)))
    ensures Inv(cfg, needed, Apply(cfg, s, Put(w)))
  {
    var t := Apply(cfg, s, Put(w));
    ReplaceFinished(s.workers, w, t.workers[w]);
    QueueAppend(s.writeQueue, s.workers[w].message, "");
    if !t.workers[w].Finished? { OneUnfinished(t.workers, w); }
  }

  lemma {:induction false} WorkerStepInv(cfg: Config, needed: seq<Code>, s: State, step: Step)
    requires Inv(cfg, needed, s) && Enabled(cfg, s, step) && (step.Take? || step.Produce? || step.Close?)
    requires Conserved(needed, Apply(cfg, s, step))
    ensures Inv(cfg, needed, Apply(cfg, s, step))
  {
    var t := Apply(cfg, s, step);
    ReplaceFinished(s.workers, step.w, t.workers[step.w]);
    OneUnfinished(t.workers, step.w);
  }

  lemma {:induction false} OneUnfinished(workers: seq<Worker>, w: nat)
    requires w < |workers| && !workers[w].Finished?
    ensures FinishedCount(workers) < |workers|
  {
    if w > 0 { OneUnfinished(workers[1..], w - 1); }
  }

  lemma {:induction false} FlushInv(cfg: Config, needed: seq<Code>, s: State)
    requires Runnable(cfg, needed) && Inv(cfg, needed, s) && Enabled(cfg, s, Flush)
    requires Conserved(needed, Apply(cfg, s, Flush))
    ensures Inv(cfg, needed, Apply(cfg, s, Flush))
  {
    var t := Apply(cfg, s, Flush);
    if s.batch != [] { assert t.flushed[..|s.flushed|] == s.flushed; }
  }

  lemma {:induction false} StepInv(cfg: Config, needed: seq<Code>, s: State, step: Step)
    requires Runnable(cfg, needed) && Inv(cfg, needed, s) && Enabled(cfg, s, step)
    ensures Inv(cfg, needed, Apply(cfg, s, step))
  {
    forall c ensures Places(Apply(cfg, s, step), c) == Count(needed, c) { StepKeepsPlaces(cfg, s, step, c); }
    match step
    case Receive =>
    case Flush => FlushInv(cfg, needed, s);
    case Put(w) => PutInv(cfg, needed, s, w);
    case Take(_) => WorkerStepInv(cfg, needed, s, step);
    case Produce(_, _) => WorkerStepInv(cfg, needed, s, step);
    case Close(_) => WorkerStepInv(cfg, needed, s, step);
  }

  lemma {:induction false} InitInv(cfg: Config, needed: seq<Code>)
    requires Runnable(cfg, needed)
    ensures Inv(cfg, needed, Init(cfg, needed))
  {
    var s := Init(cfg, needed);
    forall c ensures Places(s, c) == Count(needed, c) { IdleWorkers(s.workers, c); }
    IdleWorkers(s.workers, "");
  }

  lemma {:induction false} IdleWorkers(workers: seq<Worker>, c: Code)
    requires forall w :: 0 <= w < |workers| ==> workers[w].Idle?
    ensures HandsCount(workers, c) == 0 && FinishedCount(workers) == 0
  {
    if workers != [] { IdleWorkers(workers[1..], c); }
  }

  lemma {:induction false} AllFinished(workers: seq<Worker>)
    requires FinishedCount(workers) == |workers|
    ensures forall w :: 0 <= w < |workers| ==> workers[w].Finished?
    ensures forall c :: HandsCount(workers, c) == 0
  {
    if workers != [] { AllFinished(workers[1..]); }
  }

  // ----- the writer's exit

  lemma {:induction false} NoSentinel(queue: seq<Option<Item>>)
    requires Sentinels(queue) == 0
    ensures forall i :: 0 <= i < |queue| ==> queue[i].Some?
  {
    if queue != [] { NoSentinel(queue[1..]); }
  }

  /** When the writer has exited nothing is queued or in hand, every needed code was attempted, and
      the codes are, with multiplicity, exactly those of the flushed batches. */
  lemma {:induction false} WriterExit(cfg: Config, needed: seq<Code>, s: State)
    requires Inv(cfg, needed, s) && s.writer.Exited?
    ensures s.writeQueue == [] && s.fetchQueue == [] && s.batch == []
    ensures forall w :: 0 <= w < |s.workers| ==> s.workers[w].Finished?
    ensures multiset(Codes(Concat(s.flushed))) == multiset(needed)
    ensures BatchShape(cfg, s.flushed)
    ensures forall c :: c in s.attempted <==> c in needed
  {
    AllFinished(s.workers);
    NoSentinel(s.writeQueue);
    assert Draining(s.workers[0]);
    forall c ensures multiset(Codes(Concat(s.flushed)))[c] == multiset(needed)[c] {
      assert Places(s, c) == Count(needed, c);
      CountIsMultiplicity(Codes(Concat(s.flushed)), c);
      CountIsMultiplicity(needed, c);
    }
  }

  // ----- progress and termination

  lemma {:induction false} SomeUnfinished(workers: seq<Worker>) returns (w: nat)
    requires FinishedCount(workers) < |workers|
    ensures w < |workers| && !workers[w].Finished?
  {
    if !workers[0].Finished? {
      w := 0;
    } else {
      w := SomeUnfinished(workers[1..]);
      w := w + 1;
    }
  }

  /** No deadlock: until the writer exits some step is enabled. The writer itself can go on when it has
      to flush or when the write queue holds anything, so always when the bounded queue is full;
      otherwise the queue is empty and an unfinished worker can go on, whatever it is doing. */
  lemma {:induction false} NoDeadlock(cfg: Config, needed: seq<Code>, s: State) returns (step: Step)
    requires Runnable(cfg, needed) && Inv(cfg, needed, s) && !s.writer.Exited?
    ensures Enabled(cfg, s, step)
    ensures s.writer.Flushing? || s.completed == |s.workers| ==> step == Flush
    ensures s.writer.Receiving? && s.completed < |s.workers| && s.writeQueue != [] ==> step == Receive
    ensures s.writer.Receiving? && s.completed < |s.workers| && s.writeQueue == [] ==>
              !step.Receive? && !step.Flush? && !s.workers[step.w].Finished?
  {
    if s.writer.Flushing? || s.completed == |s.workers| {
      step := Flush;
    } else if s.writeQueue != [] {
      step := Receive;
    } else {
      var w := SomeUnfinished(s.workers);
      match s.workers[w]
      case Idle => step := Take(w);
      case Fetching(_) => step := Produce(w, Error);
      case Putting(_) => step := Put(w);
      case Closing => step := Close(w);
    }
  }

  function WorkerWeight(w: Worker): nat
  {
    match w
    case Idle => 4
    case Fetching(_) => 8
    case Putting(m) => if m.None? then 2 else 7
    case Closing => 3
    case Finished => 0
  }

  function WorkersWeight(workers: seq<Worker>): nat
  {
    if workers == [] then 0 else WorkerWeight(workers[0]) + WorkersWeight(workers[1..])
  }

  function QueueWeight(queue: seq<Option<Item>>): nat
  {
    if queue == [] then 0 else (if queue[0].None? then 1 else 2) + QueueWeight(queue[1..])
  }

  function Measure(s: State): nat
  {
    5 * |s.fetchQueue| + WorkersWeight(s.workers) + QueueWeight(s.writeQueue) + |s.batch| +
      (if s.writer.Exited? then 0 else 1)
  }

  lemma {:induction false} ReplaceWeight(workers: seq<Worker>, w: nat, x: Worker)
    requires w < |workers|
    ensures WorkersWeight(workers[w := x]) + WorkerWeight(workers[w]) == WorkersWeight(workers) + WorkerWeight(x)
  {
    if w == 0 {
      assert workers[0 := x][1..] == workers[1..];
    } else {
      ReplaceWeight(workers[1..], w - 1, x);
      assert workers[w := x][1..] == workers[1..][w - 1 := x];
    }
  }

  lemma {:induction false} AppendWeight(queue: seq<Option<Item>>, m: Option<Item>)
    ensures QueueWeight(queue + [m]) == QueueWeight(queue) + (if m.None? then 1 else 2)
  {
    if queue == [] {
      assert queue + [m] == [m];
    } else {
      AppendWeight(queue[1..], m);
      assert (queue + [m])[1..] == queue[1..] + [m];
    }
  }

  lemma {:induction false} StepDecreases(cfg: Config, needed: seq<Code>, s: State, step: Step)
    requires Runnable(cfg, needed) && Inv(cfg, needed, s) && Enabled(cfg, s, step)
    ensures Measure(Apply(cfg, s, step)) < Measure(s)
  {
    var t := Apply(cfg, s, step);
    if !step.Receive? && !step.Flush? {
      ReplaceWeight(s.workers, step.w, t.workers[step.w]);
      if step.Put? { AppendWeight(s.writeQueue, s.workers[step.w].message); }
    }
  }

  // ----- whole runs

  /** `steps` is a schedule of the pipeline from `s`. */
  predicate Schedule(cfg: Config, s: State, steps: seq<Step>)
    decreases |steps|
  {
    steps == [] || (Enabled(cfg, s, steps[0]) && Schedule(cfg, Apply(cfg, s, steps[0]), steps[1..]))
  }

  function After(cfg: Config, s: State, steps: seq<Step>): State
    requires Schedule(cfg, s, steps)
    decreases |steps|
  {
    if steps == [] then s else After(cfg, Apply(cfg, s, steps[0]), steps[1..])
  }

  lemma {:induction false} ScheduleInv(cfg: Config, needed: seq<Code>, s: State, steps: seq<Step>)
    requires Runnable(cfg, needed) && Inv(cfg, needed, s) && Schedule(cfg, s, steps)
    ensures Inv(cfg, needed, After(cfg, s, steps))
    ensures Measure(After(cfg, s, steps)) + |steps| <= Measure(s)
    decreases |steps|
  {
    if steps != [] {
      StepInv(cfg, needed, s, steps[0]);
      StepDecreases(cfg, needed, s, steps[0]);
      ScheduleInv(cfg, needed, Apply(cfg, s, steps[0]), steps[1..]);
    }
  }

  /** In every interleaving no code is lost or duplicated, and the run is bounded. */
  lemma {:induction false} EveryInterleaving(cfg: Config, needed: seq<Code>, steps: seq<Step>)
    requires Runnable(cfg, needed) && Schedule(cfg, Init(cfg, needed), steps)
    ensures forall c :: Places(After(cfg, Init(cfg, needed), steps), c) == Count(needed, c)
    ensures |steps| <= 9 * |needed| + 1
  {
    InitInv(cfg, needed);
    ScheduleInv(cfg, needed, Init(cfg, needed), steps);
    IdleWeight(Init(cfg, needed).workers);
  }

  lemma {:induction false} IdleWeight(workers: seq<Worker>)
    requires forall w :: 0 <= w < |workers| ==> workers[w].Idle?
    ensures WorkersWeight(workers) == 4 * |workers|
  {
    if workers != [] { IdleWeight(workers[1..]); }
  }

  /** A run that can take no further step has flushed every needed code, each exactly once. */
  lemma {:induction false} StuckMeansComplete(cfg: Config, needed: seq<Code>, steps: seq<Step>)
    requires Runnable(cfg, needed) && Schedule(cfg, Init(cfg, needed), steps)
    requires forall step :: !Enabled(cfg, After(cfg, Init(cfg, needed), steps), step)
    ensures var s := After(cfg, Init(cfg, needed), steps);
            s.writer.Exited? && multiset(Codes(Concat(s.flushed))) == multiset(needed) && BatchShape(cfg, s.flushed)
  {
    InitInv(cfg, needed);
    ScheduleInv(cfg, needed, Init(cfg, needed), steps);
    var s := After(cfg, Init(cfg, needed), steps);
    if !s.writer.Exited? {
      var step := NoDeadlock(cfg, needed, s);
      assert false;
    }
    WriterExit(cfg, needed, s);
  }

  // ----- in numbers

  /** With at least one worker, batches of at least one and at least one needed code: in every run the
      write queue holds at most twice the worker limit and a message can be put exactly below that; a run
      that can take no further step has flushed the needed codes in batches that are all full but the
      last, which is not empty. */
  lemma {:induction false} PipelineInNumbers(cfg: Config, needed: seq<Code>, steps: seq<Step>, w: nat)
    requires cfg.maxConcurrency >= 1 && cfg.batchSize >= 1 && |needed| >= 1 && Schedule(cfg, Init(cfg, needed), steps)
    ensures var s := After(cfg, Init(cfg, needed), steps);
            && |s.writeQueue| <= 2 * cfg.maxConcurrency
            && (w < |s.workers| && s.workers[w].Putting? ==>
                  (Enabled(cfg, s, Put(w)) <==> |s.writeQueue| < 2 * cfg.maxConcurrency))
            && ((forall step :: !Enabled(cfg, s, step)) ==>
                  && multiset(Codes(Concat(s.flushed))) == multiset(needed)
                  && (forall i :: 0 <= i < |s.flushed| - 1 ==> |s.flushed[i]| == cfg.batchSize)
                  && s.flushed != [] && 0 < |s.flushed[|s.flushed| - 1]| <= cfg.batchSize)
  {
    InitInv(cfg, needed);
    ScheduleInv(cfg, needed, Init(cfg, needed), steps);
    var s := After(cfg, Init(cfg, needed), steps);
    if forall step :: !Enabled(cfg, s, step) {
      StuckMeansComplete(cfg, needed, steps);
      assert |multiset(Codes(Concat(s.flushed)))| == |multiset(needed)| == |needed|;
    }
  }

  /** The pool has as many workers as the limit and the needed codes allow. */
  lemma {:induction false} PoolSize(cfg: Config, needed: seq<Code>)
    ensures |Init(cfg, needed).workers| <= cfg.maxConcurrency && |Init(cfg, needed).workers| <= |needed|
    ensures |Init(cfg, needed).workers| in {cfg.maxConcurrency, |needed|}
  {
  }
}
