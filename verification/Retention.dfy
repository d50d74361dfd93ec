/** Two days of retention are needed: with less, a counter can fall. */
module Retention {
  import opened Metrics
  import opened Pipeline
  import opened RollupTheorems

  /** No counter falls in any run whose clock never goes back. */
  ghost predicate NeverFalls(cfg: Config) {
    forall tr: seq<State>, acts: seq<Action>, i: nat, j: nat, day: int, item: int ::
      Run(cfg, tr, acts) && ForwardClock(tr, acts) && i <= j < |tr| ==>
      AtMost(Stat(tr[i].sys.stats, day, item), Stat(tr[j].sys.stats, day, item))
  }

  const SOMEONE := Visitor("a", "s", "mobile", [])

  /** An impression at the epoch and a card click at the end of the same day. */
  const SEEN := LoggedEvent(SOMEONE, SeeCard(1, None, "feed"), 0)
  const OPENED := LoggedEvent(SOMEONE, OpenCard(1, None, "feed", ""), DAY_MS - 1)

  lemma CountOne(e: Event, from: int, to: int, stats: Stats)
    requires Rollable(e, from, to)
    ensures RolledUp([e], stats, from, to) == stats[GroupOf(e) := AddEvent(ZERO, e.kind)]
  {
    assert [e][..0] == [];
    assert Grouped([e], from, to) == map[GroupOf(e) := AddEvent(ZERO, e.kind)];
  }

  /** The impression is committed, and a click of day zero waits in the queue. */
  lemma BothLogged(cfg: Config) returns (tr: seq<State>, acts: seq<Action>)
    requires cfg.capacity > 0
    ensures Run(cfg, tr, acts) && ForwardClock(tr, acts)
    ensures tr[|acts|].sys == Sys(DAY_MS + 1, true, true, [OPENED], 0, [], Flushed, [SEEN], [], map[])
  {
    tr, acts := [Start(0)], [];
    tr, acts := Go(cfg, tr, acts, Log(SOMEONE, SeeCard(1, None, "feed")));
    tr, acts := FlushPass(cfg, tr, acts);
    assert tr[|acts|].sys == Start(0).sys.(events := [SEEN], pc := Flushed);
    tr, acts := Go(cfg, tr, acts, Tick(DAY_MS - 1));
    tr, acts := Go(cfg, tr, acts, Log(SOMEONE, OpenCard(1, None, "feed", "")));
    tr, acts := Go(cfg, tr, acts, Tick(2));
  }

  /** Maintenance over a table holding one event of the two days it covers. */
  lemma RollOne(cfg: Config, tr: seq<State>, acts: seq<Action>, e: Event)
    returns (tr': seq<State>, acts': seq<Action>)
    requires Run(cfg, tr, acts) && ForwardClock(tr, acts)
    requires tr[|acts|].sys.pc == Flushed && tr[|acts|].sys.events == [e]
    requires Rollable(e, Day(tr[|acts|].sys.clock) - 1, Day(tr[|acts|].sys.clock))
    ensures Run(cfg, tr', acts') && ForwardClock(tr', acts') && tr <= tr'
    ensures var s := tr[|acts|].sys;
            tr'[|acts'|].sys == s.(pc := Rolled(s.clock),
                                   stats := s.stats[GroupOf(e) := AddEvent(ZERO, e.kind)])
  {
    var s := tr[|acts|].sys;
    tr', acts' := Go(cfg, tr, acts, StartMaintenance);
    CountOne(e, Day(s.clock) - 1, Day(s.clock), s.stats);
    tr', acts' := Go(cfg, tr', acts', Rollup(false));
  }

  /** Prune away the single event, then commit what waits. */
  lemma PruneThenFlush(cfg: Config, tr: seq<State>, acts: seq<Action>)
    returns (tr': seq<State>, acts': seq<Action>)
    requires Run(cfg, tr, acts) && ForwardClock(tr, acts)
    requires var s := tr[|acts|].sys;
             && s.pc.Rolled? && s.running && s.postbacks == []
             && |s.events| == 1 && s.events[0].ts < Cutoff(cfg, s.pc.now)
             && |s.pending| == 1
    ensures Run(cfg, tr', acts') && ForwardClock(tr', acts') && tr <= tr'
    ensures var s := tr[|acts|].sys;
            tr'[|acts'|].sys == s.(pc := Flushed, events := s.pending, pending := [])
  {
    var s := tr[|acts|].sys;
    assert Keep(s.events, Cutoff(cfg, s.pc.now)) == [];
    tr', acts' := Go(cfg, tr, acts, Prune(false));
    tr', acts' := FlushPass(cfg, tr', acts');
    assert [] + s.pending == s.pending;
  }

  /** Early in day one the impression is rolled up and pruned; then the click is
      committed and day zero is rolled up again. */
  lemma FallingRun(cfg: Config) returns (tr: seq<State>, acts: seq<Action>, i: nat)
    requires cfg.retentionDays <= 1 && cfg.capacity > 0
    ensures Run(cfg, tr, acts) && ForwardClock(tr, acts) && i < |tr|
    ensures Stat(tr[i].sys.stats, 0, 1) == Counts(1, 0, 0)
    ensures Stat(tr[|acts|].sys.stats, 0, 1) == Counts(0, 1, 0)
  {
    tr, acts := BothLogged(cfg);
    assert Day(tr[|acts|].sys.clock) == 1;
    tr, acts := RollOne(cfg, tr, acts, SEEN);
    i := |acts|;
    tr, acts := PruneThenFlush(cfg, tr, acts);
    tr, acts := RollOne(cfg, tr, acts, OPENED);
  }

  /** Without room in the queue nothing is ever stored or counted. */
  ghost predicate Silent(s: Sys) {
    && s.pending == [] && s.events == [] && s.stats == map[]
    && !s.pc.Drained? && !s.pc.FinalDrained?
  }

  lemma SilentStep(cfg: Config, s: State, a: Action)
    requires cfg.capacity == 0 && Silent(s.sys) && Enabled(s.sys, a)
    ensures Silent(Next(cfg, s, a).sys)
  {
    if a.RecordOne? {
    } else if a.Rollup? {
      assert Grouped([], Day(s.sys.pc.now) - 1, Day(s.sys.pc.now)) == map[];
    } else if a.Prune? {
    } else {
    }
  }

  lemma {:induction false} NoRoomNoCounts(cfg: Config, tr: seq<State>, acts: seq<Action>, i: nat)
    requires cfg.capacity == 0 && Run(cfg, tr, acts) && i < |tr|
    ensures Silent(tr[i].sys)
  {
    if i > 0 {
      NoRoomNoCounts(cfg, tr, acts, i - 1);
      assert Taken(cfg, tr[i - 1], acts[i - 1], tr[i]);
      SilentStep(cfg, tr[i - 1], acts[i - 1]);
    }
  }

  /** Counters never fall if and only if events are kept for at least two days, or
      the queue has no room at all. */
  lemma RetentionBoundIsTight(cfg: Config)
    ensures NeverFalls(cfg) <==> cfg.retentionDays >= 2 || cfg.capacity == 0
  {
    if cfg.retentionDays >= 2 || cfg.capacity == 0 {
      forall tr: seq<State>, acts: seq<Action>, i: nat, j: nat, day: int, item: int
        | Run(cfg, tr, acts) && ForwardClock(tr, acts) && i <= j < |tr|
        ensures AtMost(Stat(tr[i].sys.stats, day, item), Stat(tr[j].sys.stats, day, item))
      {
        if cfg.retentionDays >= 2 {
          CountersNeverFall(cfg, tr, acts, i, j, day, item);
        } else {
          NoRoomNoCounts(cfg, tr, acts, i);
          NoRoomNoCounts(cfg, tr, acts, j);
        }
      }
    } else {
      var tr, acts, i := FallingRun(cfg);
      assert !AtMost(Stat(tr[i].sys.stats, 0, 1), Stat(tr[|acts|].sys.stats, 0, 1));
    }
  }
}
