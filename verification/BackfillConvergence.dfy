/** Resuming converges: after any number of runs with arbitrary failures, one failure-free run ends in
    a table that depends only on what was persisted before and on the provider, not on the schedule,
    the worker count or the flush thresholds; running it again changes nothing. */
module BackfillConvergence {
  import opened HistoryBackfill

  /** What the provider holds in the requested range. */
  type Provider = map<Stock, map<int, Fact>>

  ghost predicate FailureFree(provider: Provider, s: State, step: Step)
    requires Enabled(s, step)
  {
    match step
    case Take(_, readOk) => readOk
    case Deliver(w, response) => Answers(provider, s.workers[w].phase.stock, response)
    case Fail(_) => false
    case FlushOk(_) => true
    case FlushFail(_) => false
    case Finish(_) => true
  }

  /** The response is exactly the provider's rows of the stock, in any order. */
  ghost predicate Answers(provider: Provider, stock: Stock, response: seq<DayRow>)
  {
    stock in provider &&
    (forall r :: r in response <==> r.date in provider[stock] && provider[stock][r.date] == r.fact)
  }

  ghost predicate CleanSchedule(provider: Provider, cfg: Config, s: State, steps: seq<Step>)
    decreases |steps|
  {
    steps == [] ||
    (Enabled(s, steps[0]) && FailureFree(provider, s, steps[0]) &&
     CleanSchedule(provider, cfg, Apply(cfg, s, steps[0]), steps[1..]))
  }

  /** A stock whose calendar is not yet complete is the one a run fetches. */
  ghost predicate Fetches(cfg: Config, table: map<Key, Fact>, stock: Stock)
  {
    !(cfg.calendar <= ExistingDates(table, stock))
  }

  ghost predicate Supplied(provider: Provider, cfg: Config, stocks: seq<Stock>, table: map<Key, Fact>, k: Key,
                           fact: Fact)
  {
    k.stock in stocks && Fetches(cfg, table, k.stock) && k.stock in provider && k.date in provider[k.stock] &&
    provider[k.stock][k.date] == fact
  }

  ghost predicate InBuffer(s: State, k: Key)
  {
    exists w, r :: 0 <= w < |s.workers| && r in s.workers[w].buffer && r.key == k
  }

  ghost predicate HeldBySome(s: State, stock: Stock)
  {
    exists w :: 0 <= w < |s.workers| && s.workers[w].phase.Holding? && s.workers[w].phase.stock == stock
  }

  /** The stock was skipped, or all of its provider dates are persisted or buffered. */
  ghost predicate Settled(provider: Provider, cfg: Config, table: map<Key, Fact>, s: State, stock: Stock)
  {
    Fetches(cfg, table, stock) ==>
      stock in provider && forall d :: d in provider[stock] ==> Key(stock, d) in s.table || InBuffer(s, Key(stock, d))
  }

  ghost predicate Converging(provider: Provider, cfg: Config, stocks: seq<Stock>, table: map<Key, Fact>, s: State)
  {
    && Owning(s) && Extends(s.table, table)
    && (forall w, r :: 0 <= w < |s.workers| && r in s.workers[w].buffer ==>
        Supplied(provider, cfg, stocks, table, r.key, r.fact))
    && (forall k :: k in s.table && k !in table ==> Supplied(provider, cfg, stocks, table, k, s.table[k]))
    && (forall q :: q in s.queue ==> q in stocks && ExistingDates(s.table, q) == ExistingDates(table, q))
    && (forall w :: 0 <= w < |s.workers| && s.workers[w].phase.Holding? ==>
          s.workers[w].phase.stock in stocks && Fetches(cfg, table, s.workers[w].phase.stock))
    && (forall q :: q in stocks ==> q in s.queue || HeldBySome(s, q) || Settled(provider, cfg, table, s, q))
  }

  lemma {:induction false} TakeKeepsRows(provider: Provider, cfg: Config, stocks: seq<Stock>, table: map<Key, Fact>,
                                         s: State, w: nat)
    requires cfg.onlyMissing && Converging(provider, cfg, stocks, table, s) && Enabled(s, Take(w, true))
    ensures var t := TakeNext(cfg, s, w, true);
            && t.table == s.table
            && (forall v, r :: 0 <= v < |t.workers| && r in t.workers[v].buffer ==>
                Supplied(provider, cfg, stocks, table, r.key, r.fact))
  {
    var t := TakeNext(cfg, s, w, true);
    assert forall v :: 0 <= v < |s.workers| ==> t.workers[v].buffer == s.workers[v].buffer;
  }

  lemma {:induction false} TakeKeepsStocks(provider: Provider, cfg: Config, stocks: seq<Stock>, table: map<Key, Fact>,
                                           s: State, w: nat)
    requires cfg.onlyMissing && Converging(provider, cfg, stocks, table, s) && Enabled(s, Take(w, true))
    ensures var t := TakeNext(cfg, s, w, true);
            && (forall q :: q in t.queue ==> q in stocks && ExistingDates(t.table, q) == ExistingDates(table, q))
            && (forall v :: 0 <= v < |t.workers| && t.workers[v].phase.Holding? ==>
                  t.workers[v].phase.stock in stocks && Fetches(cfg, table, t.workers[v].phase.stock))
  {
    if s.queue != [] { assert s.queue[0] in s.queue && forall q :: q in s.queue[1..] ==> q in s.queue; }
  }

  lemma {:induction false} TakeConverging(provider: Provider, cfg: Config, stocks: seq<Stock>, table: map<Key, Fact>,
                                          s: State, w: nat)
    requires cfg.onlyMissing && Converging(provider, cfg, stocks, table, s) && Enabled(s, Take(w, true))
    ensures Converging(provider, cfg, stocks, table, TakeNext(cfg, s, w, true))
  {
    var t := TakeNext(cfg, s, w, true);
    TakeOwning(cfg, s, w, true);
    TakeKeepsRows(provider, cfg, stocks, table, s, w);
    TakeKeepsStocks(provider, cfg, stocks, table, s, w);
    forall q | q in stocks ensures q in t.queue || HeldBySome(t, q) || Settled(provider, cfg, table, t, q) {
      TakeTracks(provider, cfg, table, s, w, q);
    }
  }

  /** Taking from the queue moves at most the head stock: into a hand, or into the skipped ones. */
  lemma {:induction false} TakeTracks(provider: Provider, cfg: Config, table: map<Key, Fact>, s: State, w: nat,
                                      q: Stock)
    requires cfg.onlyMissing && Enabled(s, Take(w, true))
    requires forall x :: x in s.queue ==> ExistingDates(s.table, x) == ExistingDates(table, x)
    requires q in s.queue || HeldBySome(s, q) || Settled(provider, cfg, table, s, q)
    ensures var t := TakeNext(cfg, s, w, true); q in t.queue || HeldBySome(t, q) || Settled(provider, cfg, table, t, q)
  {
    var t := TakeNext(cfg, s, w, true);
    SameBuffers(s, t);
    if HeldBySome(s, q) {
      var v :| 0 <= v < |s.workers| && s.workers[v].phase.Holding? && s.workers[v].phase.stock == q;
      assert t.workers[v] == s.workers[v];
    } else if q in s.queue && q !in t.queue && Fetches(cfg, table, q) {
      assert t.workers[w].phase.Holding? && t.workers[w].phase.stock == q;
    }
  }

  lemma {:induction false} SameBuffers(s: State, t: State)
    requires |t.workers| == |s.workers|
    requires forall v :: 0 <= v < |s.workers| ==> t.workers[v].buffer == s.workers[v].buffer
    ensures forall k :: InBuffer(s, k) ==> InBuffer(t, k)
  {
    forall k | InBuffer(s, k) ensures InBuffer(t, k) {
      var v, r :| 0 <= v < |s.workers| && r in s.workers[v].buffer && r.key == k;
      assert r in t.workers[v].buffer;
    }
  }

  lemma {:induction false} DeliverConverging(provider: Provider, cfg: Config, stocks: seq<Stock>, table: map<Key, Fact>,
                                             s: State, w: nat, response: seq<DayRow>)
    requires cfg.onlyMissing && Converging(provider, cfg, stocks, table, s) && Enabled(s, Deliver(w, response))
    requires Answers(provider, s.workers[w].phase.stock, response)
    ensures Converging(provider, cfg, stocks, table, DeliverRows(cfg, s, w, response))
  {
    var t := DeliverRows(cfg, s, w, response);
    var stock, existing := s.workers[w].phase.stock, s.workers[w].phase.existing;
    StepOwning(cfg, s, Deliver(w, response));
    MissingFacts(stock, response, existing);
    assert t.workers[w].buffer == s.workers[w].buffer + Missing(stock, response, existing);
    GrownBuffer(s, t, w);
    forall q | q in stocks ensures q in t.queue || HeldBySome(t, q) || Settled(provider, cfg, table, t, q) {
      if q == stock {
        forall d | d in provider[stock] ensures Key(stock, d) in t.table || InBuffer(t, Key(stock, d)) {
          if d !in existing {
            var r := Row(Key(stock, d), provider[stock][d]);
            assert DayRow(d, provider[stock][d]) in response;
            assert r in t.workers[w].buffer;
          }
        }
      } else if HeldBySome(s, q) {
        var v :| 0 <= v < |s.workers| && s.workers[v].phase.Holding? && s.workers[v].phase.stock == q;
        assert t.workers[v] == s.workers[v];
      }
    }
  }

  lemma {:induction false} GrownBuffer(s: State, t: State, w: nat)
    requires |t.workers| == |s.workers| && w < |s.workers|
    requires forall v :: 0 <= v < |s.workers| && v != w ==> t.workers[v] == s.workers[v]
    requires forall r :: r in s.workers[w].buffer ==> r in t.workers[w].buffer
    ensures forall k :: InBuffer(s, k) ==> InBuffer(t, k)
  {
    forall k | InBuffer(s, k) ensures InBuffer(t, k) {
      var v, r :| 0 <= v < |s.workers| && r in s.workers[v].buffer && r.key == k;
      assert r in t.workers[v].buffer;
    }
  }

  lemma {:induction false} PersistConverging(provider: Provider, cfg: Config, stocks: seq<Stock>, table: map<Key, Fact>,
                                             s: State, w: nat, phase: Phase)
    requires cfg.onlyMissing && Converging(provider, cfg, stocks, table, s)
    requires w < |s.workers| && !s.workers[w].phase.Holding? && !phase.Holding?
    ensures Converging(provider, cfg, stocks, table, Persist(s, w, phase))
  {
    var t := Persist(s, w, phase);
    PersistOwning(cfg, s, w, phase);
    UpsertFacts(s.table, s.workers[w].buffer);
    forall q | q in s.queue ensures ExistingDates(t.table, q) == ExistingDates(table, q) {
      assert q !in Owned(s.workers[w]);
      assert forall r :: r in s.workers[w].buffer ==> r.key.stock in Owned(s.workers[w]);
      SameDates(s.table, t.table, q);
    }
    forall k | InBuffer(s, k) ensures k in t.table || InBuffer(t, k) {
      var v, r :| 0 <= v < |s.workers| && r in s.workers[v].buffer && r.key == k;
      if v != w { assert r in t.workers[v].buffer; }
    }
    forall q | q in stocks ensures q in t.queue || HeldBySome(t, q) || Settled(provider, cfg, table, t, q) {
      if HeldBySome(s, q) {
        var v :| 0 <= v < |s.workers| && s.workers[v].phase.Holding? && s.workers[v].phase.stock == q;
        assert t.workers[v] == s.workers[v];
      }
    }
  }

  lemma {:induction false} StepConverging(provider: Provider, cfg: Config, stocks: seq<Stock>, table: map<Key, Fact>,
                                          s: State, step: Step)
    requires cfg.onlyMissing && Converging(provider, cfg, stocks, table, s) && Enabled(s, step) &&
             FailureFree(provider, s, step)
    ensures Converging(provider, cfg, stocks, table, Apply(cfg, s, step))
  {
    match step
    case Take(w, _) => TakeConverging(provider, cfg, stocks, table, s, w);
    case Deliver(w, response) => DeliverConverging(provider, cfg, stocks, table, s, w, response);
    case FlushOk(w) => PersistConverging(provider, cfg, stocks, table, s, w, Ready);
    case Finish(w) => PersistConverging(provider, cfg, stocks, table, s, w, Done);
  }

  lemma {:induction false} CleanRun(provider: Provider, cfg: Config, stocks: seq<Stock>, table: map<Key, Fact>,
                                    s: State, steps: seq<Step>)
    requires cfg.onlyMissing && Converging(provider, cfg, stocks, table, s) && CleanSchedule(provider, cfg, s, steps)
    ensures Schedule(cfg, s, steps) && Converging(provider, cfg, stocks, table, After(cfg, s, steps))
    decreases |steps|
  {
    if steps != [] {
      StepConverging(provider, cfg, stocks, table, s, steps[0]);
      CleanRun(provider, cfg, stocks, table, Apply(cfg, s, steps[0]), steps[1..]);
    }
  }

  /** A failure-free run that ends persists exactly the old rows and, for every stock it fetches, all
      provider rows: new keys carry the provider's facts, old keys their old ones. */
  lemma {:induction false} CleanRunIsDetermined(provider: Provider, cfg: Config, stocks: seq<Stock>,
                                                table: map<Key, Fact>, workers: nat, steps: seq<Step>)
    requires cfg.onlyMissing && cfg.stockBatch >= 1 && cfg.maxRows >= 1 && Distinct(stocks) && stocks != [] &&
             workers >= 1
    requires CleanSchedule(provider, cfg, Init(table, stocks, workers), steps)
    ensures Schedule(cfg, Init(table, stocks, workers), steps)
    ensures var s := After(cfg, Init(table, stocks, workers), steps);
            AllDone(s) ==>
              && Extends(s.table, table)
              && (forall k :: k in s.table && k !in table ==> Supplied(provider, cfg, stocks, table, k, s.table[k]))
              && Covers(provider, cfg, stocks, table, s.table)
  {
    var init := Init(table, stocks, workers);
    CleanRun(provider, cfg, stocks, table, init, steps);
    var s := After(cfg, init, steps);
    RunAccounting(cfg, table, stocks, workers, steps);
    WorkersKept(cfg, init, steps);
    if AllDone(s) {
      assert s.workers[0].phase.Done?;
      DoneCovers(provider, cfg, stocks, table, s);
    }
  }

  lemma {:induction false} DoneCovers(provider: Provider, cfg: Config, stocks: seq<Stock>, table: map<Key, Fact>,
                                      s: State)
    requires Converging(provider, cfg, stocks, table, s) && AllDone(s) && s.queue == []
    requires forall w :: 0 <= w < |s.workers| ==> s.workers[w].buffer == []
    ensures Covers(provider, cfg, stocks, table, s.table)
  {
    forall q | q in stocks && Fetches(cfg, table, q)
      ensures q in provider && forall d :: d in provider[q] ==> Key(q, d) in s.table
    {
      assert Settled(provider, cfg, table, s, q);
    }
  }

  /** Two failure-free runs over the same table and provider persist the same table, however they
      were scheduled and whatever their worker counts and thresholds. */
  lemma {:induction false} SchedulesAgree(provider: Provider, cfg: Config, cfg': Config, stocks: seq<Stock>,
                                          table: map<Key, Fact>, workers: nat, workers': nat,
                                          steps: seq<Step>, steps': seq<Step>)
    requires cfg.onlyMissing && cfg.stockBatch >= 1 && cfg.maxRows >= 1 && workers >= 1
    requires cfg'.onlyMissing && cfg'.stockBatch >= 1 && cfg'.maxRows >= 1 && workers' >= 1 &&
             cfg'.calendar == cfg.calendar
    requires Distinct(stocks) && stocks != []
    requires CleanSchedule(provider, cfg, Init(table, stocks, workers), steps)
    requires CleanSchedule(provider, cfg', Init(table, stocks, workers'), steps')
    ensures Schedule(cfg, Init(table, stocks, workers), steps) && Schedule(cfg', Init(table, stocks, workers'), steps')
    ensures var s := After(cfg, Init(table, stocks, workers), steps);
            var s' := After(cfg', Init(table, stocks, workers'), steps');
            AllDone(s) && AllDone(s') ==> s.table == s'.table
  {
    CleanRunIsDetermined(provider, cfg, stocks, table, workers, steps);
    CleanRunIsDetermined(provider, cfg', stocks, table, workers', steps');
    var s, s' := After(cfg, Init(table, stocks, workers), steps), After(cfg', Init(table, stocks, workers'), steps');
    if AllDone(s) && AllDone(s') {
      forall k ensures k in s.table <==> k in s'.table {
        if k !in table {
          assert k in s.table ==> Supplied(provider, cfg, stocks, table, k, s.table[k]);
          assert k in s'.table ==> Supplied(provider, cfg', stocks, table, k, s'.table[k]);
          assert k == Key(k.stock, k.date);
        }
      }
    }
  }

  // ----- many runs

  /** Any number of runs, each with arbitrary failures and cut off anywhere. */
  ghost predicate Runs(cfg: Config, table: map<Key, Fact>, stocks: seq<Stock>, workers: nat, runs: seq<seq<Step>>)
    decreases |runs|
  {
    runs == [] ||
    (Schedule(cfg, Init(table, stocks, workers), runs[0]) &&
     Runs(cfg, After(cfg, Init(table, stocks, workers), runs[0]).table, stocks, workers, runs[1..]))
  }

  ghost function AfterRuns(cfg: Config, table: map<Key, Fact>, stocks: seq<Stock>, workers: nat,
                           runs: seq<seq<Step>>): map<Key, Fact>
    requires Runs(cfg, table, stocks, workers, runs)
    decreases |runs|
  {
    if runs == [] then table
    else AfterRuns(cfg, After(cfg, Init(table, stocks, workers), runs[0]).table, stocks, workers, runs[1..])
  }

  lemma {:induction false} RunsOnlyAdd(cfg: Config, table: map<Key, Fact>, stocks: seq<Stock>, workers: nat,
                                       runs: seq<seq<Step>>)
    requires cfg.onlyMissing && Distinct(stocks) && Runs(cfg, table, stocks, workers, runs)
    ensures Extends(AfterRuns(cfg, table, stocks, workers, runs), table)
    decreases |runs|
  {
    if runs != [] {
      RunOnlyAdds(cfg, table, stocks, workers, runs[0]);
      RunsOnlyAdd(cfg, After(cfg, Init(table, stocks, workers), runs[0]).table, stocks, workers, runs[1..]);
    }
  }

  lemma {:induction false} DatesOnlyAdd(table: map<Key, Fact>, table': map<Key, Fact>, stock: Stock)
    requires Extends(table', table)
    ensures ExistingDates(table, stock) <= ExistingDates(table', stock)
  {
    forall d | d in ExistingDates(table, stock) ensures d in ExistingDates(table', stock) {
      assert Key(stock, d) in table';
    }
  }

  /** Every stock that is fetched from `table` has all its provider dates in `table'`. */
  ghost predicate Covers(provider: Provider, cfg: Config, stocks: seq<Stock>, table: map<Key, Fact>,
                         table': map<Key, Fact>)
  {
    forall q :: q in stocks && Fetches(cfg, table, q) ==>
      q in provider && forall d :: d in provider[q] ==> Key(q, d) in table'
  }

  /** A failure-free run over a table that already covers the provider persists nothing. */
  lemma {:induction false} CoveredTableIsFixed(provider: Provider, cfg: Config, stocks: seq<Stock>,
                                               before: map<Key, Fact>, table: map<Key, Fact>,
                                               workers: nat, steps: seq<Step>)
    requires cfg.onlyMissing && cfg.stockBatch >= 1 && cfg.maxRows >= 1 && Distinct(stocks) && stocks != [] &&
             workers >= 1
    requires Extends(table, before) && Covers(provider, cfg, stocks, before, table)
    requires CleanSchedule(provider, cfg, Init(table, stocks, workers), steps)
    ensures Schedule(cfg, Init(table, stocks, workers), steps)
    ensures var s := After(cfg, Init(table, stocks, workers), steps); AllDone(s) ==> s.table == table
  {
    CleanRunIsDetermined(provider, cfg, stocks, table, workers, steps);
    var s := After(cfg, Init(table, stocks, workers), steps);
    if AllDone(s) {
      forall k | k in s.table ensures k in table {
        assert k !in table ==> Supplied(provider, cfg, stocks, table, k, s.table[k]);
        DatesOnlyAdd(before, table, k.stock);
        assert Fetches(cfg, table, k.stock) ==> Fetches(cfg, before, k.stock);
        assert k == Key(k.stock, k.date);
      }
    }
  }

  /** After any history of failing runs a failure-free run covers every stock it fetches and keeps
      every row ever persisted; a further failure-free run changes nothing. */
  lemma {:induction false} ResumeConverges(provider: Provider, cfg: Config, stocks: seq<Stock>, table: map<Key, Fact>,
                                           workers: nat, runs: seq<seq<Step>>, steps: seq<Step>, again: seq<Step>)
    requires cfg.onlyMissing && cfg.stockBatch >= 1 && cfg.maxRows >= 1 && Distinct(stocks) && stocks != [] &&
             workers >= 1
    requires Runs(cfg, table, stocks, workers, runs)
    requires CleanSchedule(provider, cfg, Init(AfterRuns(cfg, table, stocks, workers, runs), stocks, workers), steps)
    requires Schedule(cfg, Init(AfterRuns(cfg, table, stocks, workers, runs), stocks, workers), steps)
    requires AllDone(After(cfg, Init(AfterRuns(cfg, table, stocks, workers, runs), stocks, workers), steps))
    ensures var before := AfterRuns(cfg, table, stocks, workers, runs);
            var final := After(cfg, Init(before, stocks, workers), steps).table;
            && Extends(final, table) && Covers(provider, cfg, stocks, before, final)
            && (CleanSchedule(provider, cfg, Init(final, stocks, workers), again) ==>
                  Schedule(cfg, Init(final, stocks, workers), again) &&
                  (AllDone(After(cfg, Init(final, stocks, workers), again)) ==>
                     After(cfg, Init(final, stocks, workers), again).table == final))
  {
    var before := AfterRuns(cfg, table, stocks, workers, runs);
    var final := After(cfg, Init(before, stocks, workers), steps).table;
    RunsOnlyAdd(cfg, table, stocks, workers, runs);
    CleanRunIsDetermined(provider, cfg, stocks, before, workers, steps);
    if CleanSchedule(provider, cfg, Init(final, stocks, workers), again) {
      CoveredTableIsFixed(provider, cfg, stocks, before, final, workers, again);
    }
  }
}
