/** What a clean shutdown keeps: everything accepted, unless a step lost events, and
    no step does while the database does not fault, the process is not killed and
    the click tokens are distinct. */
module Shutdown {
  import opened Metrics
  import opened Pipeline
  import opened Conservation
  import opened Selections

  /** A step that loses accepted events: an insert that does not commit, or a kill
      that catches events outside the database. */
  ghost predicate LosesEvents(s: State, a: Action) {
    || (a.InsertBatch? && Enabled(s.sys, a) && !Commits(s.sys, a.fault))
    || (a.Restart? && InFlight(s.sys.pc) + s.sys.pending != [])
  }

  ghost predicate AllCommitted(batches: seq<Batch>) {
    forall i :: 0 <= i < |batches| ==> batches[i].fate.Committed?
  }

  lemma CommittedMore(batches: seq<Batch>, b: Batch)
    ensures AllCommitted(batches + [b]) <==> AllCommitted(batches) && b.fate.Committed?
  {
    if AllCommitted(batches + [b]) {
      assert (batches + [b])[|batches|] == b;
      assert forall i :: 0 <= i < |batches| ==> (batches + [b])[i] == batches[i];
    }
  }

  lemma LossStep(cfg: Config, s: State, a: Action)
    requires Enabled(s.sys, a)
    ensures AllCommitted(Next(cfg, s, a).audit.batches) <==> AllCommitted(s.audit.batches) && !LosesEvents(s, a)
  {
    var u := s.audit;
    if a.InsertBatch? {
      CommittedMore(u.batches, Batch(s.sys.pc.batch, if Commits(s.sys, a.fault) then Committed else RolledBack));
    } else if a.Restart? {
      var gone := InFlight(s.sys.pc) + s.sys.pending;
      if gone == [] {
        assert u.batches + KilledBatch(gone) == u.batches;
      } else {
        CommittedMore(u.batches, Batch(gone, Killed));
      }
    } else {
      BatchesUntouched(cfg, s, a);
    }
  }

  lemma BatchesUntouched(cfg: Config, s: State, a: Action)
    requires Enabled(s.sys, a) && !a.InsertBatch? && !a.Restart?
    ensures Next(cfg, s, a).audit.batches == s.audit.batches
  {}

  /** No step before i loses events. */
  ghost predicate Lossless(tr: seq<State>, acts: seq<Action>, i: nat)
    requires i <= |acts| < |tr|
  {
    forall k :: 0 <= k < i ==> !LosesEvents(tr[k], acts[k])
  }

  lemma LossNext(cfg: Config, tr: seq<State>, acts: seq<Action>, i: nat)
    requires Run(cfg, tr, acts) && i < |acts|
    ensures AllCommitted(tr[i + 1].audit.batches) <==>
            AllCommitted(tr[i].audit.batches) && !LosesEvents(tr[i], acts[i])
  {
    assert Taken(cfg, tr[i], acts[i], tr[i + 1]);
    LossStep(cfg, tr[i], acts[i]);
  }

  lemma {:induction false} CommittedIffLossless(cfg: Config, tr: seq<State>, acts: seq<Action>, i: nat)
    requires Run(cfg, tr, acts) && i <= |acts|
    ensures AllCommitted(tr[i].audit.batches) <==> Lossless(tr, acts, i)
  {
    if i > 0 {
      CommittedIffLossless(cfg, tr, acts, i - 1);
      LossNext(cfg, tr, acts, i - 1);
    }
  }

  lemma {:induction false} SavedIsInserted(batches: seq<Batch>)
    requires NoEmptyBatch(batches)
    ensures Saved(batches) == Inserted(batches) <==> AllCommitted(batches)
    ensures |Saved(batches)| <= |Inserted(batches)|
  {
    if batches != [] {
      var n := |batches| - 1;
      var before := batches[..n];
      SavedIsInserted(before);
      assert batches == before + [batches[n]];
      CommittedMore(before, batches[n]);
      if Saved(batches) == Inserted(batches) {
        assert Saved(before) == Saved(batches)[..|Saved(before)|];
        assert Inserted(before) == Inserted(batches)[..|Inserted(before)|];
      }
    }
  }

  /** After the server stopped and the database thread finished, the log holds
      exactly the accepted events, in push order, if and only if no step of the run
      was an insert that faulted or met a clash, or a kill that caught events. */
  lemma ShutdownLosesNothing(cfg: Config, tr: seq<State>, acts: seq<Action>, i: nat)
    requires Run(cfg, tr, acts) && i < |tr| && tr[i].sys.pc.Done?
    ensures History(tr[i].audit.log) == Accepted(tr[i].audit.pushes) <==> Lossless(tr, acts, i)
  {
    EveryPushIsAccountedFor(cfg, tr, acts, i);
    SavedIsInserted(tr[i].audit.batches);
    CommittedIffLossless(cfg, tr, acts, i);
    assert Accepted(tr[i].audit.pushes) == Inserted(tr[i].audit.batches);
  }

  // ------------------------------------------------------ without faults --

  lemma PushStep(cfg: Config, s: State, a: Action)
    requires Enabled(s.sys, a)
    ensures Accepted(s.audit.pushes) <= Accepted(Next(cfg, s, a).audit.pushes)
  {
    if a.Log? {
      PushOne(s.audit.pushes, Push(LoggedEvent(a.who, a.visit, s.sys.clock), |s.sys.pending| < cfg.capacity));
    } else {
      PushesUntouched(cfg, s, a);
    }
  }

  lemma PushesUntouched(cfg: Config, s: State, a: Action)
    requires Enabled(s.sys, a) && !a.Log?
    ensures Next(cfg, s, a).audit.pushes == s.audit.pushes
  {}

  lemma PushNext(cfg: Config, tr: seq<State>, acts: seq<Action>, i: nat)
    requires Run(cfg, tr, acts) && i < |acts|
    ensures Accepted(tr[i].audit.pushes) <= Accepted(tr[i + 1].audit.pushes)
  {
    assert Taken(cfg, tr[i], acts[i], tr[i + 1]);
    PushStep(cfg, tr[i], acts[i]);
  }

  lemma {:induction false} AcceptedGrows(cfg: Config, tr: seq<State>, acts: seq<Action>, k: nat, i: nat)
    requires Run(cfg, tr, acts) && k <= i < |tr|
    ensures Accepted(tr[k].audit.pushes) <= Accepted(tr[i].audit.pushes)
  {
    if k < i {
      AcceptedGrows(cfg, tr, acts, k, i - 1);
      PushNext(cfg, tr, acts, i - 1);
      PrefixThrough(Accepted(tr[k].audit.pushes), Accepted(tr[i - 1].audit.pushes), Accepted(tr[i].audit.pushes));
    }
  }

  lemma DistinctPrefix(a: seq<Event>, b: seq<Event>)
    requires a <= b && TokensDistinct(b)
    ensures TokensDistinct(a)
  {
    assert forall i :: 0 <= i < |a| ==> a[i] == b[i];
  }

  /** Pruning cannot make tokens clash. */
  lemma {:induction false} LiveDistinct(log: seq<Entry>, batch: seq<Event>)
    requires TokensDistinct(History(log) + batch)
    ensures TokensDistinct(Live(log) + batch)
  {
    if log == [] {
      assert History(log) + batch == batch && Live(log) + batch == batch;
    } else {
      var n := |log| - 1;
      var rest := [log[n].ev] + batch;
      assert History(log) + batch == History(log[..n]) + rest;
      LiveDistinct(log[..n], rest);
      if log[n].pruned {
        assert Live(log) == Live(log[..n]);
        DropDistinct(Live(log[..n]), log[n].ev, batch);
      } else {
        assert Live(log) + batch == Live(log[..n]) + rest;
      }
    }
  }

  lemma DropDistinct(a: seq<Event>, e: Event, b: seq<Event>)
    requires TokensDistinct(a + ([e] + b))
    ensures TokensDistinct(a + b)
  {
    var all := a + ([e] + b);
    assert forall i :: 0 <= i < |a| ==> (a + b)[i] == all[i];
    assert forall i :: |a| <= i < |a + b| ==> (a + b)[i] == all[i + 1];
  }

  /** A faultless insert commits if everything so far did and no accepted tokens
      clash. */
  lemma DistinctCommits(cfg: Config, s: State)
    requires Conserved(cfg, s) && Enabled(s.sys, InsertBatch(false))
    requires AllCommitted(s.audit.batches) && TokensDistinct(Accepted(s.audit.pushes))
    ensures Commits(s.sys, false)
  {
    var batch := s.sys.pc.batch;
    SavedIsInserted(s.audit.batches);
    DistinctPrefix(Inserted(s.audit.batches) + batch, Accepted(s.audit.pushes));
    LiveDistinct(s.audit.log, batch);
  }

  /** No database fault and no kill before i. */
  ghost predicate Undisturbed(acts: seq<Action>, i: nat)
    requires i <= |acts|
  {
    forall k :: 0 <= k < i ==> acts[k] != InsertBatch(true) && !acts[k].Restart?
  }

  lemma {:induction false} UndisturbedIsLossless(cfg: Config, tr: seq<State>, acts: seq<Action>, k: nat, i: nat)
    requires Run(cfg, tr, acts) && k <= i <= |acts| && Undisturbed(acts, i)
    requires TokensDistinct(Accepted(tr[i].audit.pushes))
    ensures Lossless(tr, acts, k)
  {
    if k > 0 {
      UndisturbedIsLossless(cfg, tr, acts, k - 1, i);
      var s, a := tr[k - 1], acts[k - 1];
      assert a != InsertBatch(true) && !a.Restart?;
      if a.InsertBatch? && Enabled(s.sys, a) {
        EveryPushIsAccountedFor(cfg, tr, acts, k - 1);
        CommittedIffLossless(cfg, tr, acts, k - 1);
        AcceptedGrows(cfg, tr, acts, k - 1, i);
        DistinctPrefix(Accepted(s.audit.pushes), Accepted(tr[i].audit.pushes));
        DistinctCommits(cfg, s);
      }
    }
  }

  /** Without a database fault, without a kill and with distinct click tokens,
      nothing accepted is missing after shutdown. */
  lemma NoFaultNoLoss(cfg: Config, tr: seq<State>, acts: seq<Action>, i: nat)
    requires Run(cfg, tr, acts) && i < |tr| && tr[i].sys.pc.Done?
    requires Undisturbed(acts, i) && TokensDistinct(Accepted(tr[i].audit.pushes))
    ensures History(tr[i].audit.log) == Accepted(tr[i].audit.pushes)
  {
    UndisturbedIsLossless(cfg, tr, acts, i, i);
    ShutdownLosesNothing(cfg, tr, acts, i);
  }

  // ----------------------------------------------------------- the clash --

  const TOKEN := "abcdefghijkl"
  const SHOPPER := Visitor("a", "s", "mobile", [])
  const CLICK := Redirect(1, None, "feed", TOKEN, "")
  const GLANCE := SeeCard(2, None, "feed")

  /** Two clicks that drew the same token, and an impression, wait at shutdown. */
  lemma ThreeWaiting(cfg: Config) returns (tr: seq<State>, acts: seq<Action>)
    requires cfg.capacity >= 3
    ensures Run(cfg, tr, acts) && ForwardClock(tr, acts) && |acts| == 3 && Undisturbed(acts, 3)
    ensures tr[3].sys == Start(0).sys.(pending := [LoggedEvent(SHOPPER, CLICK, 0), LoggedEvent(SHOPPER, CLICK, 0),
                                                   LoggedEvent(SHOPPER, GLANCE, 0)])
    ensures tr[3].audit.batches == [] && tr[3].audit.log == []
  {
    tr, acts := [Start(0)], [];
    assert Pipeline.ClickTokens.IsClickToken(TOKEN);
    tr, acts := Go(cfg, tr, acts, Log(SHOPPER, CLICK));
    tr, acts := Go(cfg, tr, acts, Log(SHOPPER, CLICK));
    tr, acts := Go(cfg, tr, acts, Log(SHOPPER, GLANCE));
  }

  lemma FinalDrain(cfg: Config, tr: seq<State>, acts: seq<Action>)
    returns (tr': seq<State>, acts': seq<Action>)
    requires Run(cfg, tr, acts) && ForwardClock(tr, acts) && Undisturbed(acts, |acts|)
    requires tr[|acts|].sys.pc == Top && tr[|acts|].sys.pending != []
    ensures Run(cfg, tr', acts') && ForwardClock(tr', acts') && Undisturbed(acts', |acts'|)
    ensures var s := tr[|acts|].sys;
            tr'[|acts'|].sys == s.(httpOpen := false, running := false, pending := [], pc := FinalDrained(s.pending))
    ensures tr'[|acts'|].audit == tr[|acts|].audit
  {
    tr', acts' := Go(cfg, tr, acts, StopHttp);
    tr', acts' := Go(cfg, tr', acts', StopWorker);
    tr', acts' := Go(cfg, tr', acts', LoopTest);
    tr', acts' := Go(cfg, tr', acts', DrainEvents);
  }

  /** One repeated token loses the whole batch, the innocent impression included,
      although nothing faults. */
  lemma ClashLosesBatch(cfg: Config) returns (tr: seq<State>, acts: seq<Action>)
    requires cfg.capacity >= 3
    ensures Run(cfg, tr, acts) && Undisturbed(acts, |acts|) && tr[|acts|].sys.pc.Done?
    ensures |Accepted(tr[|acts|].audit.pushes)| == 3 && History(tr[|acts|].audit.log) == []
  {
    tr, acts := ThreeWaiting(cfg);
    tr, acts := FinalDrain(cfg, tr, acts);
    var s := tr[|acts|].sys;
    var all := s.events + s.pc.batch;
    assert all[0].clickToken == TOKEN == all[1].clickToken;
    assert !Commits(s, false);
    EveryPushIsAccountedFor(cfg, tr, acts, |acts|);
    assert Accepted(tr[|acts|].audit.pushes) == [] + s.pc.batch + [];
    tr, acts := Go(cfg, tr, acts, InsertBatch(false));
  }
}
