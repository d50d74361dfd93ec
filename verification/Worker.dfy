/** The database thread's own procedures over the queues and the connection. Each
    is proved to do, taken without interruption and at one reading of the clock,
    exactly what the corresponding actions of the transition system do. What may
    happen between those actions is the business of the transition system. */
module Worker {
  import opened Metrics
  import opened Pipeline
  import opened Queues
  import opened Database

  /** Several actions in a row. */
  ghost predicate Allowed(cfg: Config, s: Sys, acts: seq<Action>)
    decreases |acts|
  {
    acts == [] || (Enabled(s, acts[0]) && Allowed(cfg, Step(cfg, s, acts[0]), acts[1..]))
  }

  ghost function Steps(cfg: Config, s: Sys, acts: seq<Action>): Sys
    requires Allowed(cfg, s, acts)
    decreases |acts|
  {
    if acts == [] then s else Steps(cfg, Step(cfg, s, acts[0]), acts[1..])
  }

  lemma {:induction false} OneMore(cfg: Config, s: Sys, acts: seq<Action>, a: Action)
    requires Allowed(cfg, s, acts) && Enabled(Steps(cfg, s, acts), a)
    ensures Allowed(cfg, s, acts + [a])
    ensures Steps(cfg, s, acts + [a]) == Step(cfg, Steps(cfg, s, acts), a)
    decreases |acts|
  {
    if acts == [] {
      assert acts + [a] == [a] && [a][1..] == [];
    } else {
      OneMore(cfg, Step(cfg, s, acts[0]), acts[1..], a);
      assert (acts + [a])[1..] == acts[1..] + [a];
    }
  }

  /** Two stretches one after the other. */
  lemma {:induction false} Then(cfg: Config, s: Sys, a: seq<Action>, b: seq<Action>)
    requires Allowed(cfg, s, a) && Allowed(cfg, Steps(cfg, s, a), b)
    ensures Allowed(cfg, s, a + b)
    ensures Steps(cfg, s, a + b) == Steps(cfg, Steps(cfg, s, a), b)
    decreases |a|
  {
    if a == [] {
      assert a + b == b;
    } else {
      assert (a + b)[1..] == a[1..] + b && (a + b)[0] == a[0];
      Then(cfg, Step(cfg, s, a[0]), a[1..], b);
    }
  }

  lemma One(cfg: Config, s: Sys, a: Action)
    requires Enabled(s, a)
    ensures Allowed(cfg, s, [a]) && Steps(cfg, s, [a]) == Step(cfg, s, a)
  {
    assert [a][1..] == [];
  }

  lemma Two(cfg: Config, s: Sys, a: Action, b: Action)
    requires Enabled(s, a) && Enabled(Step(cfg, s, a), b)
    ensures Allowed(cfg, s, [a, b]) && Steps(cfg, s, [a, b]) == Step(cfg, Step(cfg, s, a), b)
  {
    assert [a, b][1..] == [b];
    One(cfg, Step(cfg, s, a), b);
  }

  lemma Three(cfg: Config, s: Sys, a: Action, b: Action, c: Action)
    requires Enabled(s, a) && Enabled(Step(cfg, s, a), b) && Enabled(Step(cfg, Step(cfg, s, a), b), c)
    ensures Allowed(cfg, s, [a, b, c])
    ensures Steps(cfg, s, [a, b, c]) == Step(cfg, Step(cfg, Step(cfg, s, a), b), c)
  {
    assert [a, b, c][1..] == [b, c];
    Two(cfg, Step(cfg, s, a), b, c);
  }

  lemma FirstDrain(cfg: Config, s: Sys)
    requires s.pc == EventsFlushed
    ensures Allowed(cfg, s, [DrainPostbacks])
    ensures Steps(cfg, s, [DrainPostbacks]) == s.(postbacks := [], pc := Recording(s.postbacks))
  {
    OneMore(cfg, s, [], DrainPostbacks);
    assert [] + [DrainPostbacks] == [DrainPostbacks];
  }

  lemma LastEnd(cfg: Config, s: Sys, acts: seq<Action>, t: Sys)
    requires Allowed(cfg, s, acts) && t == Steps(cfg, s, acts) && t.pc == Recording([])
    ensures Allowed(cfg, s, acts + [EndPostbacks])
    ensures Steps(cfg, s, acts + [EndPostbacks]) == t.(pc := Flushed)
  {
    OneMore(cfg, s, acts, EndPostbacks);
  }

  /** Does an insert of n rows reach the statement that faults? */
  predicate InsertFault(failAt: Option<nat>, n: nat) {
    failAt.Some? && failAt.value <= n + 1
  }

  /** Does one of the two statements of a record fault? The second is reached only
      for a known click. */
  predicate RecordFault(events: seq<Event>, c: Conversion, selectFails: bool, upsertFails: bool) {
    selectFails || (HasClick(events, c.clickToken) && upsertFails)
  }

  function EventActions(pending: seq<Event>, fault: bool): seq<Action> {
    if pending == [] then [DrainEvents] else [DrainEvents, InsertBatch(fault)]
  }

  function LastActions(maintenanceDue: bool, rollupFails: bool, pruneFails: bool): seq<Action> {
    if !maintenanceDue then [SkipMaintenance]
    else if rollupFails then [StartMaintenance, Rollup(true)]
    else [StartMaintenance, Rollup(false), Prune(pruneFails)]
  }

  /** The faults of a flush of postbacks, one pair of answers per postback. */
  datatype RecordFaults = RecordFaults(selectFails: nat -> bool, upsertFails: nat -> bool) {
    function At(events: seq<Event>, batch: seq<Conversion>, k: nat): bool
      requires k < |batch|
    {
      RecordFault(events, batch[k], selectFails(k), upsertFails(k))
    }
  }

  /** The i-th action of a flush of postbacks that goes on that far. */
  function RecordingAction(events: seq<Event>, batch: seq<Conversion>, f: RecordFaults, i: nat): Action {
    if i == 0 then DrainPostbacks
    else if i <= |batch| then RecordOne(f.At(events, batch, i - 1))
    else EndPostbacks
  }

  /** The actions of a flush of postbacks, up to where it ended. */
  ghost predicate RecordingStretch(acts: seq<Action>, events: seq<Event>, batch: seq<Conversion>, f: RecordFaults) {
    0 < |acts| <= |batch| + 2 &&
    forall i :: 0 <= i < |acts| ==> acts[i] == RecordingAction(events, batch, f, i)
  }

  lemma StretchMore(acts: seq<Action>, events: seq<Event>, batch: seq<Conversion>, f: RecordFaults)
    requires RecordingStretch(acts, events, batch, f) && |acts| <= |batch| + 1
    ensures RecordingStretch(acts + [RecordingAction(events, batch, f, |acts|)], events, batch, f)
  {}

  /** What the environment contributes to a system state. */
  datatype Env = Env(clock: int, httpOpen: bool, running: bool)

  class DbWorker {
    const cfg: Config
    const events: EventQueue
    const conversions: ConversionQueue
    const conn: DbConn

    constructor (cfg: Config, events: EventQueue, conversions: ConversionQueue, conn: DbConn)
      ensures this.cfg == cfg && this.events == events && this.conversions == conversions && this.conn == conn
    {
      this.cfg, this.events, this.conversions, this.conn := cfg, events, conversions, conn;
    }

    ghost predicate Valid() reads events, conn {
      events.Valid() && conn.Valid() && events.maxPending == cfg.capacity
    }

    ghost function View(env: Env, pc: Pc): Sys reads events, conversions, conn {
      Sys(env.clock, env.httpOpen, env.running, events.pending, events.dropped, conversions.pending, pc,
          conn.events, conn.conversions, conn.stats)
    }

    /** Called in every pass and once more after the loop. It throws exactly when a
        statement faults or two tokens clash; the batch is then gone. */
    method FlushEvents(failAt: Option<nat>, ghost env: Env) returns (threw: bool)
      requires Valid()
      modifies events, conn
      ensures Valid() && conversions.pending == old(conversions.pending)
      ensures threw <==> old(events.pending) != [] && (InsertFault(failAt, |old(events.pending)|) ||
                           !TokensDistinct(old(conn.events) + old(events.pending)))
      ensures var drained := Step(cfg, old(View(env, Flushing)), DrainEvents);
              var fault := InsertFault(failAt, |old(events.pending)|);
              View(env, if threw then Flushed else EventsFlushed) ==
              if drained.pc.Drained? then Step(cfg, drained, InsertBatch(fault)) else drained
      ensures var drained := Step(cfg, old(View(env, Exiting)), DrainEvents);
              var fault := InsertFault(failAt, |old(events.pending)|);
              View(env, Done) == if drained.pc.FinalDrained? then Step(cfg, drained, InsertBatch(fault)) else drained
    {
      var batch := events.Drain();
      if batch == [] { return false; }
      var ok := conn.InsertEvents(batch, failAt);
      threw := !ok;
    }

    /** Takes up the first postback left. */
    method RecordNext(left: seq<Conversion>, selectFails: bool, upsertFails: bool, ghost env: Env)
      returns (outcome: Outcome)
      requires Valid() && left != []
      modifies conn`conversions
      ensures Valid()
      ensures var fault := RecordFault(conn.events, left[0], selectFails, upsertFails);
              && outcome == RecordOutcome(conn.events, left[0], fault)
              && View(env, if outcome.Lost? then Flushed else Recording(left[1..])) ==
                 Step(cfg, old(View(env, Recording(left))), RecordOne(fault))
    {
      outcome := conn.RecordConversion(left[0], selectFails, upsertFails);
    }

    /** The first fault, or refused status, throws and ends the batch. */
    method FlushConversions(f: RecordFaults, ghost env: Env) returns (ghost acts: seq<Action>)
      requires Valid()
      modifies conversions, conn`conversions
      ensures Valid()
      ensures Allowed(cfg, old(View(env, EventsFlushed)), acts)
      ensures View(env, Flushed) == Steps(cfg, old(View(env, EventsFlushed)), acts)
      ensures RecordingStretch(acts, conn.events, old(conversions.pending), f)
    {
      ghost var s := View(env, EventsFlushed);
      var batch := conversions.Drain();
      FirstDrain(cfg, s);
      acts := [DrainPostbacks];
      var i := 0;
      while i < |batch|
        invariant 0 <= i <= |batch| && Valid()
        invariant Allowed(cfg, s, acts)
        invariant View(env, Recording(batch[i..])) == Steps(cfg, s, acts)
        invariant |acts| == i + 1 && RecordingStretch(acts, conn.events, batch, f)
      {
        var outcome := RecordNext(batch[i..], f.selectFails(i), f.upsertFails(i), env);
        assert batch[i..][0] == batch[i] && batch[i..][1..] == batch[i + 1..];
        OneMore(cfg, s, acts, RecordOne(f.At(conn.events, batch, i)));
        StretchMore(acts, conn.events, batch, f);
        acts := acts + [RecordOne(f.At(conn.events, batch, i))];
        if outcome.Lost? { return acts; }
        i := i + 1;
      }
      assert batch[i..] == [];
      LastEnd(cfg, s, acts, View(env, Recording([])));
      StretchMore(acts, conn.events, batch, f);
      return acts + [EndPostbacks];
    }

    /** Rolls up yesterday and today, then prunes; a failed rollup skips the prune. */
    method Maintenance(now: int, rollupFails: bool, pruneFails: bool, ghost env: Env)
      requires Valid() && env.clock == now
      modifies conn
      ensures Valid()
      ensures var rolled := Step(cfg, Step(cfg, old(View(env, Flushed)), StartMaintenance), Rollup(rollupFails));
              View(env, Top) == if rollupFails then rolled else Step(cfg, rolled, Prune(pruneFails))
      ensures rollupFails ==> conn.stats == old(conn.stats) && conn.events == old(conn.events)
    {
      ghost var s := View(env, Flushed);
      MaintenanceEffect(s, now, rollupFails, pruneFails);
      if rollupFails {
        assert View(env, Top) == s.(pc := Top);
        return;
      }
      var today := Day(now);
      conn.RollupDaily(today - 1, today);
      if !pruneFails { var removed := conn.PruneEvents(Cutoff(cfg, now)); }
      assert View(env, Top) == s.(pc := Top, stats := conn.stats, events := conn.events);
    }

    lemma MaintenanceEffect(s: Sys, now: int, rollupFails: bool, pruneFails: bool)
      requires s.pc == Flushed && s.clock == now
      ensures var rolled := Step(cfg, Step(cfg, s, StartMaintenance), Rollup(rollupFails));
              var kept := if pruneFails then s.events else Keep(s.events, Cutoff(cfg, now));
              var stats := RolledUp(s.events, s.stats, Day(now) - 1, Day(now));
              if rollupFails then rolled == s.(pc := Top)
              else Step(cfg, rolled, Prune(pruneFails)) == s.(pc := Top, stats := stats, events := kept)
    {}

    lemma FlushActions(s: Sys, fault: bool)
      requires s.pc == Flushing
      ensures Allowed(cfg, s, EventActions(s.pending, fault))
      ensures var drained := Step(cfg, s, DrainEvents);
              Steps(cfg, s, EventActions(s.pending, fault)) ==
              if drained.pc.Drained? then Step(cfg, drained, InsertBatch(fault)) else drained
    {
      if s.pending == [] { One(cfg, s, DrainEvents); } else { Two(cfg, s, DrainEvents, InsertBatch(fault)); }
    }

    lemma MaintenanceActions(s: Sys, rollupFails: bool, pruneFails: bool)
      requires s.pc == Flushed
      ensures Allowed(cfg, s, LastActions(true, rollupFails, pruneFails))
      ensures var rolled := Step(cfg, Step(cfg, s, StartMaintenance), Rollup(rollupFails));
              Steps(cfg, s, LastActions(true, rollupFails, pruneFails)) ==
              if rollupFails then rolled else Step(cfg, rolled, Prune(pruneFails))
    {
      if rollupFails {
        Two(cfg, s, StartMaintenance, Rollup(true));
      } else {
        Three(cfg, s, StartMaintenance, Rollup(false), Prune(pruneFails));
      }
    }

    /** The flushes of one pass: postbacks only after the events went through. */
    method FlushBoth(failAt: Option<nat>, f: RecordFaults, ghost env: Env)
      returns (threw: bool, ghost recording: seq<Action>)
      requires Valid()
      modifies events, conversions, conn
      ensures Valid()
      ensures threw <==> old(events.pending) != [] && (InsertFault(failAt, |old(events.pending)|) ||
                           !TokensDistinct(old(conn.events) + old(events.pending)))
      ensures threw ==> recording == []
      ensures !threw ==> RecordingStretch(recording, old(conn.events) + old(events.pending),
                                          old(conversions.pending), f)
      ensures var s := old(View(env, Flushing));
              var acts := EventActions(s.pending, InsertFault(failAt, |s.pending|)) + recording;
              Allowed(cfg, s, acts) && View(env, Flushed) == Steps(cfg, s, acts)
    {
      ghost var s := View(env, Flushing);
      ghost var fault := InsertFault(failAt, |s.pending|);
      threw := FlushEvents(failAt, env);
      FlushActions(s, fault);
      if threw {
        recording := [];
        assert EventActions(s.pending, fault) + [] == EventActions(s.pending, fault);
      } else {
        assert conn.events == s.events + s.pending;
        recording := FlushConversions(f, env);
        Then(cfg, s, EventActions(s.pending, fault), recording);
      }
    }

    method FinishPass(maintenanceDue: bool, now: int, rollupFails: bool, pruneFails: bool, ghost env: Env)
      requires Valid() && env.clock == now
      modifies conn
      ensures Valid()
      ensures var s, acts := old(View(env, Flushed)), LastActions(maintenanceDue, rollupFails, pruneFails);
              Allowed(cfg, s, acts) && View(env, Top) == Steps(cfg, s, acts)
    {
      ghost var s := View(env, Flushed);
      if maintenanceDue {
        Maintenance(now, rollupFails, pruneFails, env);
        MaintenanceActions(s, rollupFails, pruneFails);
      } else {
        One(cfg, s, SkipMaintenance);
      }
    }

    /** One pass of the thread's loop, without the snapshot refresh: exactly the
        actions of the transition system that the pending work and the given faults
        determine, from the top of the loop back to the top. */
    method Pass(failAt: Option<nat>, f: RecordFaults, maintenanceDue: bool, now: int,
                rollupFails: bool, pruneFails: bool, ghost env: Env)
      returns (threw: bool, ghost recording: seq<Action>)
      requires Valid() && env.running && env.clock == now
      modifies events, conversions, conn
      ensures Valid()
      ensures threw <==> old(events.pending) != [] && (InsertFault(failAt, |old(events.pending)|) ||
                           !TokensDistinct(old(conn.events) + old(events.pending)))
      ensures threw ==> recording == []
      ensures !threw ==> RecordingStretch(recording, old(conn.events) + old(events.pending),
                                          old(conversions.pending), f)
      ensures var s := old(View(env, Top));
              var acts := [LoopTest] + (EventActions(s.pending, InsertFault(failAt, |s.pending|)) + recording) +
                          LastActions(maintenanceDue, rollupFails, pruneFails);
              Allowed(cfg, s, acts) && View(env, Top) == Steps(cfg, s, acts)
    {
      ghost var s := View(env, Top);
      One(cfg, s, LoopTest);
      threw, recording := FlushBoth(failAt, f, env);
      ghost var flushes := EventActions(s.pending, InsertFault(failAt, |s.pending|)) + recording;
      Then(cfg, s, [LoopTest], flushes);
      FinishPass(maintenanceDue, now, rollupFails, pruneFails, env);
      Then(cfg, s, [LoopTest] + flushes, LastActions(maintenanceDue, rollupFails, pruneFails));
    }
  }
}
