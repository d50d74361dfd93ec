/** The daily statistics against the full history of committed events.

    The statistics are recomputed from a table that is being deleted behind
    them. With a clock that never goes back and a retention of at least two
    days, every counter is the exact count at the last rollup that covered its
    day; with less retention it is not. */
module RollupTheorems {
  import opened Metrics
  import opened Counting
  import opened Selections
  import opened Pipeline
  import opened Conservation

  // ------------------------------------------------------- counting facts --

  lemma {:induction false} TallyPrefix(events: seq<Event>, n: nat, day: int, item: int)
    requires n <= |events|
    ensures AtMost(Tally(events[..n], day, item), Tally(events, day, item))
    decreases |events|
  {
    if n == |events| {
      assert events[..n] == events;
    } else {
      var shorter := events[..|events| - 1];
      TallyPrefix(shorter, n, day, item);
      assert shorter[..n] == events[..n];
    }
  }

  /** An event that carries one of the three counted types. */
  predicate Adds(e: Event, day: int, item: int) {
    CountedUnder(e, day, item) && e.kind != Search
  }

  /** Two prefixes have the same counters exactly when no counted event lies between. */
  lemma {:induction false} TallyUnchanged(events: seq<Event>, n: nat, day: int, item: int)
    requires n <= |events|
    ensures Tally(events[..n], day, item) == Tally(events, day, item) <==>
            forall i :: n <= i < |events| ==> !Adds(events[i], day, item)
    decreases |events|
  {
    if n == |events| {
      assert events[..n] == events;
    } else {
      var m := |events| - 1;
      var shorter := events[..m];
      TallyUnchanged(shorter, n, day, item);
      TallyPrefix(shorter, n, day, item);
      assert shorter[..n] == events[..n];
      assert forall i :: n <= i < m ==> shorter[i] == events[i];
      if Adds(events[m], day, item) {
        assert Tally(events, day, item) == AddEvent(Tally(shorter, day, item), events[m].kind);
      }
    }
  }

  lemma {:induction false} NoGroupNoTally(events: seq<Event>, day: int, item: int)
    requires forall e :: e in events ==> !CountedUnder(e, day, item)
    ensures Tally(events, day, item) == ZERO
  {
    if events != [] {
      NoGroupNoTally(events[..|events| - 1], day, item);
    }
  }

  /** While nothing of a day has been pruned, the table counts like the history. */
  lemma {:induction false} LiveTally(log: seq<Entry>, day: int, item: int)
    requires forall i :: 0 <= i < |log| && log[i].pruned ==> Day(log[i].ev.ts) != day
    ensures Tally(Live(log), day, item) == Tally(History(log), day, item)
  {
    if log != [] {
      var n := |log| - 1;
      LiveTally(log[..n], day, item);
      assert History(log)[..n] == History(log[..n]);
      if !log[n].pruned {
        assert Live(log)[..|Live(log)| - 1] == Live(log[..n]);
      } else {
        assert Live(log) == Live(log[..n]);
      }
    }
  }

  // ---------------------------------------------------- division by days --

  /** With two days of retention a prune reaches no day that this maintenance,
      or any later one, rolls up. */
  lemma PruneIsBehindRollup(cfg: Config, now: int, ts: int)
    requires cfg.retentionDays >= 2 && ts >= 0 && ts < Cutoff(cfg, now)
    ensures Day(ts) <= Day(now) - 2
  {
    assert now - ts > 2 * DAY_MS;
  }

  lemma DayMonotone(a: int, b: int)
    requires 0 <= a <= b
    ensures Day(a) <= Day(b)
  {}

  // ------------------------------------------------------------ invariant --

  /** How much of the log the last rollup covering a day has seen. */
  function Seen(rolled: map<int, nat>, day: int): nat {
    if day in rolled then rolled[day] else 0
  }

  ghost predicate StampedBy(events: seq<Event>, clock: int) {
    forall i :: 0 <= i < |events| ==> 0 <= events[i].ts <= clock
  }

  /** What has been pruned is at least two days older than `today`. */
  ghost predicate Distant(log: seq<Entry>, today: int) {
    forall i :: 0 <= i < |log| && log[i].pruned ==> Day(log[i].ev.ts) <= today - 2
  }

  /** All times lie between the epoch and the clock, and no prune has come near
      the days of the last maintenance. */
  ghost predicate Timely(s: State) {
    var sys, u := s.sys, s.audit;
    && 0 <= u.lastMaintenance <= sys.clock
    && StampedBy(sys.pending, sys.clock)
    && StampedBy(InFlight(sys.pc), sys.clock)
    && StampedBy(History(u.log), sys.clock)
    && (sys.pc.Maintaining? || sys.pc.Rolled? ==> sys.pc.now == u.lastMaintenance)
    && Distant(u.log, Day(u.lastMaintenance))
  }

  /** Every counter is the true count over the part of the history that the last
      covering rollup saw. */
  ghost predicate CountersExact(stats: Stats, history: seq<Event>, rolled: map<int, nat>) {
    && (forall day :: Seen(rolled, day) <= |history|)
    && forall day, item :: Stat(stats, day, item) == Tally(history[..Seen(rolled, day)], day, item)
  }

  ghost predicate Faithful(s: State) {
    && Timely(s)
    && CountersExact(s.sys.stats, History(s.audit.log), s.audit.rolled)
  }

  lemma TimelyPrune(cfg: Config, s: State, a: Action)
    requires cfg.retentionDays >= 2 && Timely(s) && Enabled(s.sys, a) && a.Prune?
    ensures Timely(Next(cfg, s, a))
  {
    var log, now := s.audit.log, s.sys.pc.now;
    var cutoff := Cutoff(cfg, now);
    HistoryPruned(log, cutoff);
    forall i | 0 <= i < |log| && log[i].ev.ts < cutoff
      ensures Day(log[i].ev.ts) <= Day(now) - 2
    {
      assert History(log)[i] == log[i].ev;
      PruneIsBehindRollup(cfg, now, log[i].ev.ts);
    }
  }

  lemma TimelyInsert(cfg: Config, s: State, a: Action)
    requires Timely(s) && Enabled(s.sys, a) && a.InsertBatch?
    ensures Timely(Next(cfg, s, a))
  {
    HistoryAppend(s.audit.log, s.sys.pc.batch);
  }

  lemma TimelyRecord(cfg: Config, s: State, a: Action)
    requires Timely(s) && Enabled(s.sys, a) && a.RecordOne?
    ensures Timely(Next(cfg, s, a))
  {
    if RecordOutcome(s.sys.events, s.sys.pc.left[0], a.fault).Lost? {} else {}
  }

  lemma TimelyQuiet(cfg: Config, s: State, a: Action)
    requires Timely(s) && Enabled(s.sys, a) && Forward(a)
    requires !a.Prune? && !a.InsertBatch?
    ensures Timely(Next(cfg, s, a))
  {
    if a.RecordOne? {
      TimelyRecord(cfg, s, a);
    } else if a.StartMaintenance? {
      DayMonotone(s.audit.lastMaintenance, s.sys.clock);
    } else if a.Rollup? {
    } else if a.Postback? {
    } else {
    }
  }

  lemma TimelyStep(cfg: Config, s: State, a: Action)
    requires cfg.retentionDays >= 2 && Timely(s) && Enabled(s.sys, a) && Forward(a)
    ensures Timely(Next(cfg, s, a))
  {
    if a.Prune? { TimelyPrune(cfg, s, a); }
    else if a.InsertBatch? { TimelyInsert(cfg, s, a); }
    else { TimelyQuiet(cfg, s, a); }
  }

  lemma ExactInsert(stats: Stats, history: seq<Event>, rolled: map<int, nat>, batch: seq<Event>)
    requires CountersExact(stats, history, rolled)
    ensures CountersExact(stats, history + batch, rolled)
  {
    forall day, item
      ensures Stat(stats, day, item) == Tally((history + batch)[..Seen(rolled, day)], day, item)
    {
      assert (history + batch)[..Seen(rolled, day)] == history[..Seen(rolled, day)];
    }
  }

  /** The heart of the matter: the rollup reads a pruned table and still writes
      the counts of the full history. */
  lemma RollupCountsHistory(stats: Stats, log: seq<Entry>, n: nat, today: int, day: int, item: int)
    requires Distant(log, today) && today - 1 <= day <= today
    requires n <= |log| && Stat(stats, day, item) == Tally(History(log)[..n], day, item)
    ensures Stat(RolledUp(Live(log), stats, today - 1, today), day, item) == Tally(History(log), day, item)
  {
    RolledStat(Live(log), stats, today - 1, today, day, item);
    LiveTally(log, day, item);
    if !exists e :: e in Live(log) && CountedUnder(e, day, item) {
      NoGroupNoTally(Live(log), day, item);
      TallyPrefix(History(log), n, day, item);
    }
  }

  lemma ExactRollupAt(stats: Stats, log: seq<Entry>, rolled: map<int, nat>, today: int, day: int, item: int)
    requires Distant(log, today)
    requires Seen(rolled, day) <= |log|
    requires Stat(stats, day, item) == Tally(History(log)[..Seen(rolled, day)], day, item)
    ensures Seen(MarkRolled(rolled, today, |log|), day) <= |log|
    ensures Stat(RolledUp(Live(log), stats, today - 1, today), day, item) ==
            Tally(History(log)[..Seen(MarkRolled(rolled, today, |log|), day)], day, item)
  {
    if today - 1 <= day <= today {
      RollupCountsHistory(stats, log, Seen(rolled, day), today, day, item);
      assert History(log)[..|log|] == History(log);
    } else {
      RolledStat(Live(log), stats, today - 1, today, day, item);
    }
  }

  lemma ExactRollup(stats: Stats, log: seq<Entry>, rolled: map<int, nat>, today: int)
    requires CountersExact(stats, History(log), rolled) && Distant(log, today)
    ensures CountersExact(RolledUp(Live(log), stats, today - 1, today), History(log),
                          MarkRolled(rolled, today, |log|))
  {
    forall day ensures Seen(MarkRolled(rolled, today, |log|), day) <= |History(log)| {
      assert Seen(rolled, day) <= |History(log)|;
    }
    forall day, item
      ensures Stat(RolledUp(Live(log), stats, today - 1, today), day, item) ==
              Tally(History(log)[..Seen(MarkRolled(rolled, today, |log|), day)], day, item)
    {
      ExactRollupAt(stats, log, rolled, today, day, item);
    }
  }

  lemma ExactInsertStep(cfg: Config, s: State, a: Action)
    requires Faithful(s) && Enabled(s.sys, a) && a.InsertBatch?
    ensures var s' := Next(cfg, s, a);
            CountersExact(s'.sys.stats, History(s'.audit.log), s'.audit.rolled)
  {
    if Commits(s.sys, a.fault) {
      HistoryAppend(s.audit.log, s.sys.pc.batch);
      ExactInsert(s.sys.stats, History(s.audit.log), s.audit.rolled, s.sys.pc.batch);
    }
  }

  lemma ExactStep(cfg: Config, s: State, a: Action)
    requires Conserved(cfg, s) && Faithful(s) && Enabled(s.sys, a)
    ensures var s' := Next(cfg, s, a);
            CountersExact(s'.sys.stats, History(s'.audit.log), s'.audit.rolled)
  {
    var sys, u := s.sys, s.audit;
    if a.InsertBatch? {
      ExactInsertStep(cfg, s, a);
    } else if a.Rollup? {
      if !a.fault { ExactRollup(sys.stats, u.log, u.rolled, Day(sys.pc.now)); }
    } else if a.Prune? {
      HistoryPruned(u.log, Cutoff(cfg, sys.pc.now));
    } else {
      UntouchedStep(cfg, s, a);
    }
  }

  lemma UntouchedStep(cfg: Config, s: State, a: Action)
    requires Enabled(s.sys, a) && !a.InsertBatch? && !a.Rollup? && !a.Prune?
    ensures var s' := Next(cfg, s, a);
            s'.sys.stats == s.sys.stats && s'.audit.log == s.audit.log && s'.audit.rolled == s.audit.rolled
  {}

  // ------------------------------------------------------------- theorems --

  /** In every state of every forward run each counter is the exact count over
      what the last covering rollup saw of the full history. */
  lemma {:induction false} CountersAreExact(cfg: Config, tr: seq<State>, acts: seq<Action>, i: nat)
    requires Run(cfg, tr, acts) && ForwardClock(tr, acts) && cfg.retentionDays >= 2 && i < |tr|
    ensures Faithful(tr[i])
  {
    if i != 0 {
      CountersAreExact(cfg, tr, acts, i - 1);
      FaithfulNext(cfg, tr, acts, i - 1);
    }
  }

  lemma FaithfulNext(cfg: Config, tr: seq<State>, acts: seq<Action>, i: nat)
    requires Run(cfg, tr, acts) && ForwardClock(tr, acts) && cfg.retentionDays >= 2 && i < |acts|
    requires Faithful(tr[i])
    ensures Faithful(tr[i + 1])
  {
    EveryPushIsAccountedFor(cfg, tr, acts, i);
    assert Taken(cfg, tr[i], acts[i], tr[i + 1]) && Forward(acts[i]);
    TimelyStep(cfg, tr[i], acts[i]);
    ExactStep(cfg, tr[i], acts[i]);
  }

  /** Read as numbers of events of each type. */
  lemma CountersCountEvents(cfg: Config, tr: seq<State>, acts: seq<Action>, i: nat, day: int, item: int)
    requires Run(cfg, tr, acts) && ForwardClock(tr, acts) && cfg.retentionDays >= 2 && i < |tr|
    ensures Seen(tr[i].audit.rolled, day) <= |History(tr[i].audit.log)|
    ensures Stat(tr[i].sys.stats, day, item) ==
            CountsOf(History(tr[i].audit.log)[..Seen(tr[i].audit.rolled, day)], day, item)
  {
    CountersAreExact(cfg, tr, acts, i);
    TallyCounts(History(tr[i].audit.log)[..Seen(tr[i].audit.rolled, day)], day, item);
  }

  /** No counter ever exceeds the true count. */
  lemma CountersNeverOvercount(cfg: Config, tr: seq<State>, acts: seq<Action>, i: nat, day: int, item: int)
    requires Run(cfg, tr, acts) && ForwardClock(tr, acts) && cfg.retentionDays >= 2 && i < |tr|
    ensures AtMost(Stat(tr[i].sys.stats, day, item), CountsOf(History(tr[i].audit.log), day, item))
  {
    CountersAreExact(cfg, tr, acts, i);
    TallyCounts(History(tr[i].audit.log), day, item);
    TallyPrefix(History(tr[i].audit.log), Seen(tr[i].audit.rolled, day), day, item);
  }

  /** A counter is exact if and only if nothing counted by it was committed after
      the last rollup that covered its day. */
  lemma CounterIsExactIff(cfg: Config, tr: seq<State>, acts: seq<Action>, i: nat, day: int, item: int)
    requires Run(cfg, tr, acts) && ForwardClock(tr, acts) && cfg.retentionDays >= 2 && i < |tr|
    ensures var history := History(tr[i].audit.log);
            Stat(tr[i].sys.stats, day, item) == CountsOf(history, day, item) <==>
            forall k :: Seen(tr[i].audit.rolled, day) <= k < |history| ==> !Adds(history[k], day, item)
  {
    CountersAreExact(cfg, tr, acts, i);
    TallyCounts(History(tr[i].audit.log), day, item);
    TallyUnchanged(History(tr[i].audit.log), Seen(tr[i].audit.rolled, day), day, item);
  }

  /** The history only grows, and each day's rollup mark only moves forward. */
  lemma GrowthStep(cfg: Config, s: State, a: Action, day: int)
    requires Enabled(s.sys, a) && Seen(s.audit.rolled, day) <= |s.audit.log|
    ensures var s' := Next(cfg, s, a);
            && History(s.audit.log) <= History(s'.audit.log)
            && Seen(s.audit.rolled, day) <= Seen(s'.audit.rolled, day)
  {
    if a.InsertBatch? {
      HistoryAppend(s.audit.log, s.sys.pc.batch);
    } else if a.Prune? {
      HistoryPruned(s.audit.log, Cutoff(cfg, s.sys.pc.now));
    } else if a.Rollup? {
    } else {
      UntouchedStep(cfg, s, a);
    }
  }

  lemma {:induction false} Growth(cfg: Config, tr: seq<State>, acts: seq<Action>, i: nat, j: nat, day: int)
    requires Run(cfg, tr, acts) && ForwardClock(tr, acts) && cfg.retentionDays >= 2 && i <= j < |tr|
    ensures History(tr[i].audit.log) <= History(tr[j].audit.log)
    ensures Seen(tr[i].audit.rolled, day) <= Seen(tr[j].audit.rolled, day)
  {
    if i != j {
      Growth(cfg, tr, acts, i, j - 1, day);
      GrowthNext(cfg, tr, acts, j - 1, day);
    }
  }

  lemma GrowthNext(cfg: Config, tr: seq<State>, acts: seq<Action>, i: nat, day: int)
    requires Run(cfg, tr, acts) && ForwardClock(tr, acts) && cfg.retentionDays >= 2 && i < |acts|
    ensures History(tr[i].audit.log) <= History(tr[i + 1].audit.log)
    ensures Seen(tr[i].audit.rolled, day) <= Seen(tr[i + 1].audit.rolled, day)
  {
    CountersAreExact(cfg, tr, acts, i);
    assert Taken(cfg, tr[i], acts[i], tr[i + 1]);
    GrowthStep(cfg, tr[i], acts[i], day);
  }

  /** No counter ever falls. */
  lemma CountersNeverFall(cfg: Config, tr: seq<State>, acts: seq<Action>, i: nat, j: nat, day: int, item: int)
    requires Run(cfg, tr, acts) && ForwardClock(tr, acts) && cfg.retentionDays >= 2 && i <= j < |tr|
    ensures AtMost(Stat(tr[i].sys.stats, day, item), Stat(tr[j].sys.stats, day, item))
  {
    CountersAreExact(cfg, tr, acts, i);
    CountersAreExact(cfg, tr, acts, j);
    Growth(cfg, tr, acts, i, j, day);
    var n, m := Seen(tr[i].audit.rolled, day), Seen(tr[j].audit.rolled, day);
    var history := History(tr[j].audit.log);
    assert history[..m][..n] == History(tr[i].audit.log)[..n];
    TallyPrefix(history[..m], n, day, item);
  }

  /** Once a maintenance of day d or d+1 has run after the last counted event of
      day d was committed, the counters of day d equal the counts over the full
      history in every later state, although the events are deleted meanwhile. */
  lemma ExactForever(cfg: Config, tr: seq<State>, acts: seq<Action>, i: nat, j: nat, day: int, item: int)
    requires Run(cfg, tr, acts) && ForwardClock(tr, acts) && cfg.retentionDays >= 2
    requires i < j < |tr| && acts[i] == Rollup(false) && tr[i].sys.pc.Maintaining?
    requires Day(tr[i].sys.pc.now) == day || Day(tr[i].sys.pc.now) == day + 1
    requires forall k :: |tr[i].audit.log| <= k < |tr[j].audit.log| ==>
               !Adds(tr[j].audit.log[k].ev, day, item)
    ensures Stat(tr[j].sys.stats, day, item) == CountsOf(History(tr[j].audit.log), day, item)
  {
    assert Taken(cfg, tr[i], acts[i], tr[i + 1]);
    assert Seen(tr[i + 1].audit.rolled, day) == |tr[i].audit.log|;
    Growth(cfg, tr, acts, i + 1, j, day);
    CounterIsExactIff(cfg, tr, acts, j, day, item);
  }

  /** A prune that does not fault leaves exactly the rows of the last retentionDays
      times 24 hours before the time of its maintenance, in order. */
  lemma PruneLeaves(cfg: Config, s: State) returns (at: seq<nat>)
    requires Enabled(s.sys, Prune(false))
    ensures Selects(s.sys.events,
                    (e: Event) => if e.ts >= s.sys.pc.now - cfg.retentionDays * 86_400_000 then Some(e) else None,
                    Next(cfg, s, Prune(false)).sys.events, at)
  {
    at := KeepSelects(s.sys.events, Cutoff(cfg, s.sys.pc.now));
  }
}
