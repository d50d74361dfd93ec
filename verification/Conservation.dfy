/** No event is lost, duplicated or reordered unaccounted: every push of a run is
    in exactly one place, whatever interleaving, fault or restart happened. */
module Conservation {
  import opened Metrics
  import opened Pipeline

  // ------------------------------------------------------- reading audits --

  /** The accepted events, in push order. */
  function Accepted(pushes: seq<Push>): seq<Event> {
    if pushes == [] then []
    else
      var last := pushes[|pushes| - 1];
      Accepted(pushes[..|pushes| - 1]) + if last.accepted then [last.ev] else []
  }

  function Rejected(pushes: seq<Push>): nat {
    if pushes == [] then 0
    else Rejected(pushes[..|pushes| - 1]) + if pushes[|pushes| - 1].accepted then 0 else 1
  }

  /** All events of all batches, in order. */
  function Inserted(batches: seq<Batch>): seq<Event> {
    if batches == [] then []
    else Inserted(batches[..|batches| - 1]) + batches[|batches| - 1].events
  }

  /** The events of the committed batches only: whole batches are left out. */
  function Saved(batches: seq<Batch>): seq<Event> {
    if batches == [] then []
    else
      var last := batches[|batches| - 1];
      Saved(batches[..|batches| - 1]) + if last.fate.Committed? then last.events else []
  }

  /** The log entries no prune has deleted. */
  function Live(log: seq<Entry>): seq<Event> {
    if log == [] then []
    else
      var last := log[|log| - 1];
      Live(log[..|log| - 1]) + if last.pruned then [] else [last.ev]
  }

  // ------------------------------------------------------------ invariant --

  /** Push order: finished batches, then the batch in flight, then the queue. */
  ghost predicate PushesAccounted(pushes: seq<Push>, batches: seq<Batch>, inFlight: seq<Event>,
                                  pending: seq<Event>, dropped: nat)
  {
    && Accepted(pushes) == Inserted(batches) + inFlight + pending
    && dropped == Rejected(pushes)
  }

  /** The log is the committed batches; the table is the log without what was
      pruned. */
  ghost predicate LogAccounted(batches: seq<Batch>, log: seq<Entry>, events: seq<Event>) {
    && History(log) == Saved(batches)
    && events == Live(log)
  }

  /** Empty batches are never inserted, and once the database thread is past its
      loop nothing can be pushed any more. */
  predicate Orderly(s: Sys) {
    && (s.pc.Exiting? || s.pc.FinalDrained? || s.pc.Done? ==> !s.running)
    && (!s.running ==> !s.httpOpen)
    && (s.pc.FinalDrained? || s.pc.Done? ==> s.pending == [])
    && (s.pc.Drained? || s.pc.FinalDrained? ==> s.pc.batch != [])
  }

  ghost predicate NoEmptyBatch(batches: seq<Batch>) {
    forall i :: 0 <= i < |batches| ==> batches[i].events != []
  }

  ghost predicate Conserved(cfg: Config, s: State) {
    var sys, u := s.sys, s.audit;
    && PushesAccounted(u.pushes, u.batches, InFlight(sys.pc), sys.pending, u.droppedBefore + sys.dropped)
    && |sys.pending| <= cfg.capacity
    && LogAccounted(u.batches, u.log, sys.events)
    && Orderly(sys)
    && NoEmptyBatch(u.batches)
  }

  lemma LiveAppend(log: seq<Entry>, batch: seq<Event>)
    ensures Live(log + Entries(batch)) == Live(log) + batch
  {
    if batch == [] {
      assert log + Entries(batch) == log;
    } else {
      var n := |batch| - 1;
      var whole := log + Entries(batch);
      assert whole[..|whole| - 1] == log + Entries(batch[..n]);
      LiveAppend(log, batch[..n]);
      assert batch == batch[..n] + [batch[n]];
    }
  }

  lemma {:induction false} LivePruned(log: seq<Entry>, cutoff: int)
    ensures Live(MarkPruned(log, cutoff)) == Keep(Live(log), cutoff)
  {
    if log != [] {
      var n := |log| - 1;
      var marked := MarkPruned(log, cutoff);
      assert marked[..n] == MarkPruned(log[..n], cutoff);
      LivePruned(log[..n], cutoff);
      if !log[n].pruned {
        assert Live(log)[..|Live(log)| - 1] == Live(log[..n]);
      } else {
        assert Live(log) == Live(log[..n]);
      }
    }
  }

  lemma {:induction false} LiveIsCommitted(log: seq<Entry>, e: Event)
    requires e in Live(log)
    ensures e in History(log)
  {
    var n := |log| - 1;
    assert History(log)[..n] == History(log[..n]);
    assert History(log)[n] == log[n].ev;
    if log[n].pruned || e != log[n].ev {
      LiveIsCommitted(log[..n], e);
    }
  }

  lemma HistoryAppend(log: seq<Entry>, batch: seq<Event>)
    ensures History(log + Entries(batch)) == History(log) + batch
  {}

  lemma HistoryPruned(log: seq<Entry>, cutoff: int)
    ensures History(MarkPruned(log, cutoff)) == History(log)
  {}

  lemma PushOne(pushes: seq<Push>, p: Push)
    ensures Accepted(pushes + [p]) == Accepted(pushes) + if p.accepted then [p.ev] else []
    ensures Rejected(pushes + [p]) == Rejected(pushes) + if p.accepted then 0 else 1
  {
    assert (pushes + [p])[..|pushes|] == pushes;
  }

  lemma BatchOne(batches: seq<Batch>, b: Batch)
    ensures Inserted(batches + [b]) == Inserted(batches) + b.events
    ensures Saved(batches + [b]) == Saved(batches) + if b.fate.Committed? then b.events else []
  {
    assert (batches + [b])[..|batches|] == batches;
  }

  lemma PushAccounted(pushes: seq<Push>, batches: seq<Batch>, inFlight: seq<Event>,
                      pending: seq<Event>, dropped: nat, p: Push)
    requires PushesAccounted(pushes, batches, inFlight, pending, dropped)
    ensures PushesAccounted(pushes + [p], batches, inFlight,
                            if p.accepted then pending + [p.ev] else pending,
                            if p.accepted then dropped else dropped + 1)
  {
    PushOne(pushes, p);
    var before := Inserted(batches) + inFlight;
    assert (before + pending) + [p.ev] == before + (pending + [p.ev]);
  }

  lemma CommitAccounted(pushes: seq<Push>, batches: seq<Batch>, log: seq<Entry>, events: seq<Event>,
                        pending: seq<Event>, dropped: nat, batch: seq<Event>)
    requires PushesAccounted(pushes, batches, batch, pending, dropped)
    requires LogAccounted(batches, log, events)
    ensures PushesAccounted(pushes, batches + [Batch(batch, Committed)], [], pending, dropped)
    ensures LogAccounted(batches + [Batch(batch, Committed)], log + Entries(batch), events + batch)
  {
    var b := Batch(batch, Committed);
    BatchOne(batches, b);
    LiveAppend(log, batch);
    HistoryAppend(log, batch);
    assert Inserted(batches + [b]) + [] == Inserted(batches) + batch;
  }

  lemma LossAccounted(pushes: seq<Push>, batches: seq<Batch>, log: seq<Entry>, events: seq<Event>,
                      pending: seq<Event>, dropped: nat, b: Batch)
    requires PushesAccounted(pushes, batches, b.events, pending, dropped)
    requires LogAccounted(batches, log, events) && !b.fate.Committed?
    ensures PushesAccounted(pushes, batches + [b], [], pending, dropped)
    ensures LogAccounted(batches + [b], log, events)
  {
    BatchOne(batches, b);
    assert Inserted(batches + [b]) + [] == Inserted(batches) + b.events;
    assert Saved(batches + [b]) == Saved(batches);
  }

  lemma PruneAccounted(batches: seq<Batch>, log: seq<Entry>, events: seq<Event>, cutoff: int)
    requires LogAccounted(batches, log, events)
    ensures LogAccounted(batches, MarkPruned(log, cutoff), Keep(events, cutoff))
  {
    LivePruned(log, cutoff);
    HistoryPruned(log, cutoff);
  }

  /** A kill takes the batch in flight and the queue with it. */
  lemma KillAccounted(pushes: seq<Push>, batches: seq<Batch>, inFlight: seq<Event>, pending: seq<Event>,
                      dropped: nat, log: seq<Entry>, events: seq<Event>)
    requires PushesAccounted(pushes, batches, inFlight, pending, dropped)
    requires LogAccounted(batches, log, events)
    ensures PushesAccounted(pushes, batches + KilledBatch(inFlight + pending), [], [], dropped)
    ensures LogAccounted(batches + KilledBatch(inFlight + pending), log, events)
  {
    var gone := inFlight + pending;
    assert Inserted(batches) + inFlight + pending == Inserted(batches) + gone + [];
    if gone == [] {
      assert batches + KilledBatch(gone) == batches;
    } else {
      LossAccounted(pushes, batches, log, events, [], dropped, Batch(gone, Killed));
    }
  }

  lemma DrainAccounted(pushes: seq<Push>, batches: seq<Batch>, pending: seq<Event>, dropped: nat)
    requires PushesAccounted(pushes, batches, [], pending, dropped)
    ensures PushesAccounted(pushes, batches, pending, [], dropped)
  {
    assert Inserted(batches) + [] + pending == Inserted(batches) + pending + [];
  }

  lemma LogStep(cfg: Config, s: State, a: Action)
    requires Conserved(cfg, s) && Enabled(s.sys, a) && a.Log?
    ensures Conserved(cfg, Next(cfg, s, a))
  {
    var sys, u := s.sys, s.audit;
    PushAccounted(u.pushes, u.batches, InFlight(sys.pc), sys.pending, u.droppedBefore + sys.dropped,
                  Push(LoggedEvent(a.who, a.visit, sys.clock), |sys.pending| < cfg.capacity));
  }

  /** What an insert changes, apart from the tables. */
  ghost predicate BatchFinished(s: State, s': State, b: Batch) {
    && s'.audit.pushes == s.audit.pushes && s'.audit.droppedBefore == s.audit.droppedBefore
    && s'.audit.batches == s.audit.batches + [b]
    && s'.sys.pending == s.sys.pending && s'.sys.dropped == s.sys.dropped
    && InFlight(s'.sys.pc) == [] && Orderly(s'.sys)
  }

  lemma CommitKeeps(cfg: Config, s: State, s': State, batch: seq<Event>)
    requires Conserved(cfg, s) && batch != [] && InFlight(s.sys.pc) == batch
    requires BatchFinished(s, s', Batch(batch, Committed))
    requires s'.audit.log == s.audit.log + Entries(batch) && s'.sys.events == s.sys.events + batch
    ensures Conserved(cfg, s')
  {
    var sys, u := s.sys, s.audit;
    CommitAccounted(u.pushes, u.batches, u.log, sys.events, sys.pending, u.droppedBefore + sys.dropped, batch);
  }

  lemma RollbackKeeps(cfg: Config, s: State, s': State, batch: seq<Event>)
    requires Conserved(cfg, s) && batch != [] && InFlight(s.sys.pc) == batch
    requires BatchFinished(s, s', Batch(batch, RolledBack))
    requires s'.audit.log == s.audit.log && s'.sys.events == s.sys.events
    ensures Conserved(cfg, s')
  {
    var sys, u := s.sys, s.audit;
    LossAccounted(u.pushes, u.batches, u.log, sys.events, sys.pending, u.droppedBefore + sys.dropped,
                  Batch(batch, RolledBack));
  }

  lemma InsertEffect(cfg: Config, s: State, fault: bool)
    requires Enabled(s.sys, InsertBatch(fault)) && Orderly(s.sys)
    ensures var s', ok := Next(cfg, s, InsertBatch(fault)), Commits(s.sys, fault);
            && BatchFinished(s, s', Batch(s.sys.pc.batch, if ok then Committed else RolledBack))
            && s'.audit.log == (if ok then s.audit.log + Entries(s.sys.pc.batch) else s.audit.log)
            && s'.sys.events == (if ok then s.sys.events + s.sys.pc.batch else s.sys.events)
  {
    if s.sys.pc.FinalDrained? {} else {}
  }

  lemma InsertStep(cfg: Config, s: State, a: Action)
    requires Conserved(cfg, s) && Enabled(s.sys, a) && a.InsertBatch?
    ensures Conserved(cfg, Next(cfg, s, a))
  {
    InsertEffect(cfg, s, a.fault);
    if Commits(s.sys, a.fault) {
      CommitKeeps(cfg, s, Next(cfg, s, a), s.sys.pc.batch);
    } else {
      RollbackKeeps(cfg, s, Next(cfg, s, a), s.sys.pc.batch);
    }
  }

  lemma PruneStep(cfg: Config, s: State, a: Action)
    requires Conserved(cfg, s) && Enabled(s.sys, a) && a.Prune?
    ensures Conserved(cfg, Next(cfg, s, a))
  {
    PruneAccounted(s.audit.batches, s.audit.log, s.sys.events, Cutoff(cfg, s.sys.pc.now));
  }

  lemma KillKeeps(cfg: Config, s: State, s': State)
    requires Conserved(cfg, s)
    requires s'.audit.pushes == s.audit.pushes && s'.audit.log == s.audit.log
    requires s'.audit.droppedBefore == s.audit.droppedBefore + s.sys.dropped && s'.sys.dropped == 0
    requires s'.audit.batches == s.audit.batches + KilledBatch(InFlight(s.sys.pc) + s.sys.pending)
    requires s'.sys.pending == [] && s'.sys.events == s.sys.events
    requires InFlight(s'.sys.pc) == [] && Orderly(s'.sys)
    ensures Conserved(cfg, s')
  {
    var sys, u := s.sys, s.audit;
    KillAccounted(u.pushes, u.batches, InFlight(sys.pc), sys.pending, u.droppedBefore + sys.dropped,
                  u.log, sys.events);
    NoEmptyKill(u.batches, InFlight(sys.pc) + sys.pending);
  }

  lemma NoEmptyKill(batches: seq<Batch>, gone: seq<Event>)
    requires NoEmptyBatch(batches)
    ensures NoEmptyBatch(batches + KilledBatch(gone))
  {}

  lemma RestartStep(cfg: Config, s: State, a: Action)
    requires Conserved(cfg, s) && Enabled(s.sys, a) && a.Restart?
    ensures Conserved(cfg, Next(cfg, s, a))
  {
    KillKeeps(cfg, s, Next(cfg, s, a));
  }

  lemma DrainStep(cfg: Config, s: State, a: Action)
    requires Conserved(cfg, s) && Enabled(s.sys, a) && a.DrainEvents?
    ensures Conserved(cfg, Next(cfg, s, a))
  {
    DrainAccounted(s.audit.pushes, s.audit.batches, s.sys.pending, s.audit.droppedBefore + s.sys.dropped);
  }

  lemma QuietStep(cfg: Config, s: State, a: Action)
    requires Conserved(cfg, s) && Enabled(s.sys, a)
    requires !a.Log? && !a.InsertBatch? && !a.Prune? && !a.Restart? && !a.DrainEvents?
    ensures Conserved(cfg, Next(cfg, s, a))
  {
    var outcome := if a.RecordOne? then RecordOutcome(s.sys.events, s.sys.pc.left[0], a.fault) else Lost;
    if a.RecordOne? {
      if outcome.Lost? {} else if outcome.Recorded? {} else {}
    } else if a.Rollup? {
    } else if a.Postback? {
    } else {
    }
  }

  /** Every step keeps the accounts. */
  lemma ConservedStep(cfg: Config, s: State, a: Action)
    requires Conserved(cfg, s) && Enabled(s.sys, a)
    ensures Conserved(cfg, Next(cfg, s, a))
  {
    if a.Log? { LogStep(cfg, s, a); }
    else if a.InsertBatch? { InsertStep(cfg, s, a); }
    else if a.Prune? { PruneStep(cfg, s, a); }
    else if a.Restart? { RestartStep(cfg, s, a); }
    else if a.DrainEvents? { DrainStep(cfg, s, a); }
    else { QuietStep(cfg, s, a); }
  }

  // ------------------------------------------------------------- theorems --

  /** Conservation in every state of every run. */
  lemma {:induction false} EveryPushIsAccountedFor(cfg: Config, tr: seq<State>, acts: seq<Action>, i: nat)
    requires Run(cfg, tr, acts) && i < |tr|
    ensures Conserved(cfg, tr[i])
  {
    if i != 0 {
      EveryPushIsAccountedFor(cfg, tr, acts, i - 1);
      ConservedNext(cfg, tr, acts, i - 1);
    }
  }

  lemma ConservedNext(cfg: Config, tr: seq<State>, acts: seq<Action>, i: nat)
    requires Run(cfg, tr, acts) && i < |acts| && Conserved(cfg, tr[i])
    ensures Conserved(cfg, tr[i + 1])
  {
    assert Taken(cfg, tr[i], acts[i], tr[i + 1]);
    ConservedStep(cfg, tr[i], acts[i]);
  }
}
