/** Postbacks over whole runs: every recorded conversion refers to a click that
    was really committed, and every postback for a committed, unpruned click is
    recorded. */
module Postbacks {
  import opened Metrics
  import opened Pipeline
  import opened Conservation
  import opened Conversions

  // ----------------------------------------------------------- soundness --

  /** Only outbound clicks carry a token. */
  ghost predicate TokensAreClicks(events: seq<Event>) {
    forall i :: 0 <= i < |events| && events[i].clickToken != "" ==> events[i].kind == Outbound
  }

  ghost predicate ClickCommitted(history: seq<Event>, token: string) {
    exists i :: 0 <= i < |history| && history[i].kind == Outbound && history[i].clickToken == token
  }

  ghost predicate Presentable(cs: seq<Conversion>) {
    forall i :: 0 <= i < |cs| ==> cs[i].clickToken != "" && ValidStatus(cs[i].status)
  }

  /** Every row names a committed click and satisfies the CHECK constraint. */
  ghost predicate RowsSound(rows: seq<ConversionRow>, history: seq<Event>) {
    forall i :: 0 <= i < |rows| ==>
      rows[i].clickToken != "" && ValidStatus(rows[i].status) && ClickCommitted(history, rows[i].clickToken)
  }

  ghost predicate Sound(s: State) {
    var sys, u := s.sys, s.audit;
    && TokensAreClicks(sys.pending)
    && TokensAreClicks(InFlight(sys.pc))
    && TokensAreClicks(History(u.log))
    && TokensDistinct(sys.events)
    && Presentable(sys.postbacks)
    && Presentable(Waiting(sys.pc))
    && RowsSound(sys.conversions, History(u.log))
  }

  lemma RowsSoundGrow(rows: seq<ConversionRow>, history: seq<Event>, batch: seq<Event>)
    requires RowsSound(rows, history)
    ensures RowsSound(rows, history + batch)
  {
    forall i | 0 <= i < |rows| ensures ClickCommitted(history + batch, rows[i].clickToken) {
      assert ClickCommitted(history, rows[i].clickToken);
      var k :| 0 <= k < |history| && history[k].kind == Outbound && history[k].clickToken == rows[i].clickToken;
      assert (history + batch)[k] == history[k];
    }
  }

  lemma RowsSoundUpsert(rows: seq<ConversionRow>, history: seq<Event>, c: Conversion)
    requires RowsSound(rows, history) && ValidStatus(c.status)
    requires c.clickToken != "" && ClickCommitted(history, c.clickToken)
    ensures RowsSound(Upsert(rows, c), history)
  {}

  lemma MatchIsCommitted(log: seq<Entry>, token: string)
    requires HasClick(Live(log), token) && TokensAreClicks(History(log))
    ensures ClickCommitted(History(log), token)
  {
    var i :| 0 <= i < |Live(log)| && Live(log)[i].clickToken != "" && Live(log)[i].clickToken == token;
    LiveIsCommitted(log, Live(log)[i]);
    var k :| 0 <= k < |log| && History(log)[k] == Live(log)[i];
  }

  lemma SoundInsert(cfg: Config, s: State, a: Action)
    requires Sound(s) && Enabled(s.sys, a) && a.InsertBatch?
    ensures Sound(Next(cfg, s, a))
  {
    if Commits(s.sys, a.fault) {
      HistoryAppend(s.audit.log, s.sys.pc.batch);
      RowsSoundGrow(s.sys.conversions, History(s.audit.log), s.sys.pc.batch);
    }
  }

  lemma SoundPrune(cfg: Config, s: State, a: Action)
    requires Sound(s) && Enabled(s.sys, a) && a.Prune?
    ensures Sound(Next(cfg, s, a))
  {
    HistoryPruned(s.audit.log, Cutoff(cfg, s.sys.pc.now));
    KeepDistinct(s.sys.events, Cutoff(cfg, s.sys.pc.now));
  }

  lemma SoundRecord(cfg: Config, s: State, a: Action)
    requires Conserved(cfg, s) && Sound(s) && Enabled(s.sys, a) && a.RecordOne?
    ensures Sound(Next(cfg, s, a))
  {
    var c := s.sys.pc.left[0];
    var outcome := RecordOutcome(s.sys.events, c, a.fault);
    assert Presentable(s.sys.pc.left[1..]);
    if outcome.Recorded? {
      MatchIsCommitted(s.audit.log, c.clickToken);
      RowsSoundUpsert(s.sys.conversions, History(s.audit.log), c);
    } else if outcome.Lost? {
    } else {
    }
  }

  lemma SoundRequest(cfg: Config, s: State, a: Action)
    requires Sound(s) && Enabled(s.sys, a) && (a.Log? || a.Postback? || a.Restart?)
    ensures Sound(Next(cfg, s, a))
  {
    if a.Postback? {
    } else if a.Log? {
    } else {
    }
  }

  lemma SoundQuiet(cfg: Config, s: State, a: Action)
    requires Sound(s) && Enabled(s.sys, a) && !a.InsertBatch? && !a.Prune? && !a.RecordOne?
    requires !a.Log? && !a.Postback? && !a.Restart?
    ensures Sound(Next(cfg, s, a))
  {
    if a.Rollup? {
    } else if a.DrainEvents? {
    } else {
    }
  }

  lemma SoundStep(cfg: Config, s: State, a: Action)
    requires Conserved(cfg, s) && Sound(s) && Enabled(s.sys, a)
    ensures Sound(Next(cfg, s, a))
  {
    if a.InsertBatch? { SoundInsert(cfg, s, a); }
    else if a.Prune? { SoundPrune(cfg, s, a); }
    else if a.RecordOne? { SoundRecord(cfg, s, a); }
    else if a.Log? || a.Postback? || a.Restart? { SoundRequest(cfg, s, a); }
    else { SoundQuiet(cfg, s, a); }
  }

  /** In every state of every run, whatever prunes, retries, faults and restarts
      happened, each conversion carries the non-empty token of an outbound click
      that was committed, and stored tokens are pairwise distinct. */
  lemma {:induction false} ConversionsAreSound(cfg: Config, tr: seq<State>, acts: seq<Action>, i: nat)
    requires Run(cfg, tr, acts) && i < |tr|
    ensures Sound(tr[i])
  {
    if i != 0 {
      ConversionsAreSound(cfg, tr, acts, i - 1);
      SoundNext(cfg, tr, acts, i - 1);
    }
  }

  lemma SoundNext(cfg: Config, tr: seq<State>, acts: seq<Action>, i: nat)
    requires Run(cfg, tr, acts) && i < |acts| && Sound(tr[i])
    ensures Sound(tr[i + 1])
  {
    EveryPushIsAccountedFor(cfg, tr, acts, i);
    assert Taken(cfg, tr[i], acts[i], tr[i + 1]);
    SoundStep(cfg, tr[i], acts[i]);
  }

  /** A queued postback never trips the CHECK constraint: without a fault it is
      recorded or reported as unmatched, and the batch goes on. */
  lemma StatusNeverRefused(cfg: Config, tr: seq<State>, acts: seq<Action>, i: nat)
    requires Run(cfg, tr, acts) && i < |acts| && acts[i] == RecordOne(false)
    ensures tr[i].sys.pc.Recording? && tr[i].sys.pc.left != []
    ensures tr[i + 1].sys.pc == Recording(tr[i].sys.pc.left[1..])
  {
    ConversionsAreSound(cfg, tr, acts, i);
    assert Taken(cfg, tr[i], acts[i], tr[i + 1]);
    assert ValidStatus(Waiting(tr[i].sys.pc)[0].status);
  }

  // -------------------------------------------------------- the fold law --

  function Convs(settled: seq<Settled>): seq<Conversion> {
    seq(|settled|, i requires 0 <= i < |settled| => settled[i].conv)
  }

  function RecordedOf(settled: seq<Settled>): seq<Conversion> {
    if settled == [] then []
    else
      var last := settled[|settled| - 1];
      RecordedOf(settled[..|settled| - 1]) + if last.outcome.Recorded? then [last.conv] else []
  }

  /** Every accepted postback is settled, in work or queued, in order of arrival,
      and the table is the fold of the recorded ones. */
  ghost predicate Ledger(queued: seq<Conversion>, settled: seq<Settled>, waiting: seq<Conversion>,
                         postbacks: seq<Conversion>, rows: seq<ConversionRow>)
  {
    && queued == Convs(settled) + waiting + postbacks
    && rows == Fold(RecordedOf(settled))
  }

  ghost predicate LedgerKept(s: State) {
    Ledger(s.audit.queued, s.audit.settled, Waiting(s.sys.pc), s.sys.postbacks, s.sys.conversions)
  }

  lemma {:induction false} RecordedUnchanged(settled: seq<Settled>, cs: seq<Conversion>)
    ensures RecordedOf(settled + Settle(cs, Lost)) == RecordedOf(settled)
    ensures Convs(settled + Settle(cs, Lost)) == Convs(settled) + cs
  {
    if cs == [] {
      assert settled + Settle(cs, Lost) == settled;
    } else {
      var n := |cs| - 1;
      RecordedUnchanged(settled, cs[..n]);
      assert (settled + Settle(cs, Lost))[..|settled| + n] == settled + Settle(cs[..n], Lost);
    }
  }

  lemma SettleOne(settled: seq<Settled>, c: Conversion, outcome: Outcome)
    ensures Convs(settled + [Settled(c, outcome)]) == Convs(settled) + [c]
    ensures RecordedOf(settled + [Settled(c, outcome)]) ==
            if outcome.Recorded? then RecordedOf(settled) + [c] else RecordedOf(settled)
  {
    assert (settled + [Settled(c, outcome)])[..|settled|] == settled;
  }

  lemma FoldOne(cs: seq<Conversion>, c: Conversion)
    ensures Fold(cs + [c]) == Upsert(Fold(cs), c)
  {
    assert (cs + [c])[..|cs|] == cs;
  }

  lemma MoveOne<T>(done: seq<T>, todo: seq<T>)
    requires todo != []
    ensures (done + [todo[0]]) + todo[1..] == done + todo
  {}

  lemma LedgerSettle(queued: seq<Conversion>, settled: seq<Settled>, waiting: seq<Conversion>,
                     postbacks: seq<Conversion>, rows: seq<ConversionRow>, outcome: Outcome)
    requires Ledger(queued, settled, waiting, postbacks, rows) && waiting != []
    ensures Ledger(queued, settled + [Settled(waiting[0], outcome)], waiting[1..], postbacks,
                   if outcome.Recorded? then Upsert(rows, waiting[0]) else rows)
  {
    SettleOne(settled, waiting[0], outcome);
    FoldOne(RecordedOf(settled), waiting[0]);
    MoveOne(Convs(settled), waiting);
  }

  lemma LedgerLose(queued: seq<Conversion>, settled: seq<Settled>, waiting: seq<Conversion>,
                   postbacks: seq<Conversion>, rows: seq<ConversionRow>)
    requires Ledger(queued, settled, waiting, postbacks, rows)
    ensures Ledger(queued, settled + Settle(waiting, Lost), [], postbacks, rows)
  {
    RecordedUnchanged(settled, waiting);
    assert Convs(settled) + waiting + [] == Convs(settled) + waiting;
  }

  lemma LedgerTake(queued: seq<Conversion>, settled: seq<Settled>, waiting: seq<Conversion>,
                   postbacks: seq<Conversion>, rows: seq<ConversionRow>)
    requires Ledger(queued, settled, waiting, postbacks, rows)
    ensures Ledger(queued, settled, waiting + postbacks, [], rows)
  {
    assert Convs(settled) + waiting + postbacks == Convs(settled) + (waiting + postbacks) + [];
  }

  lemma LedgerAccept(queued: seq<Conversion>, settled: seq<Settled>, waiting: seq<Conversion>,
                     postbacks: seq<Conversion>, rows: seq<ConversionRow>, c: Conversion)
    requires Ledger(queued, settled, waiting, postbacks, rows)
    ensures Ledger(queued + [c], settled, waiting, postbacks + [c], rows)
  {
    assert (Convs(settled) + waiting + postbacks) + [c] == Convs(settled) + waiting + (postbacks + [c]);
  }

  lemma LedgerRecord(cfg: Config, s: State, a: Action)
    requires LedgerKept(s) && Enabled(s.sys, a) && a.RecordOne?
    ensures LedgerKept(Next(cfg, s, a))
  {
    var sys, u := s.sys, s.audit;
    var outcome := RecordOutcome(sys.events, sys.pc.left[0], a.fault);
    if outcome.Lost? {
      LedgerLose(u.queued, u.settled, sys.pc.left, sys.postbacks, sys.conversions);
    } else {
      LedgerSettle(u.queued, u.settled, sys.pc.left, sys.postbacks, sys.conversions, outcome);
    }
  }

  lemma LedgerStep(cfg: Config, s: State, a: Action)
    requires LedgerKept(s) && Enabled(s.sys, a)
    ensures LedgerKept(Next(cfg, s, a))
  {
    var sys, u := s.sys, s.audit;
    if a.RecordOne? {
      LedgerRecord(cfg, s, a);
    } else if a.Restart? || a.DrainPostbacks? {
      LedgerTake(u.queued, u.settled, Waiting(sys.pc), sys.postbacks, sys.conversions);
      if a.Restart? {
        LedgerLose(u.queued, u.settled, Waiting(sys.pc) + sys.postbacks, [], sys.conversions);
      } else {
        assert [] + sys.postbacks == sys.postbacks;
      }
    } else if a.Postback? {
      var reply := HandlePostback(cfg.postbackSecret, a.q, a.amount, sys.clock);
      if reply.Queued? {
        LedgerAccept(u.queued, u.settled, Waiting(sys.pc), sys.postbacks, sys.conversions, reply.conv);
      }
    } else {
      LedgerQuiet(cfg, s, a);
    }
  }

  lemma LedgerQuiet(cfg: Config, s: State, a: Action)
    requires LedgerKept(s) && Enabled(s.sys, a)
    requires !a.RecordOne? && !a.Restart? && !a.Postback? && !a.DrainPostbacks?
    ensures LedgerKept(Next(cfg, s, a))
  {
    if a.Rollup? {} else {}
  }

  /** In every state of every run the conversions table is the fold of the
      recorded postbacks, and no accepted postback is unaccounted for. */
  lemma {:induction false} TableIsFold(cfg: Config, tr: seq<State>, acts: seq<Action>, i: nat)
    requires Run(cfg, tr, acts) && i < |tr|
    ensures LedgerKept(tr[i])
  {
    if i != 0 {
      TableIsFold(cfg, tr, acts, i - 1);
      LedgerNext(cfg, tr, acts, i - 1);
    }
  }

  lemma LedgerNext(cfg: Config, tr: seq<State>, acts: seq<Action>, i: nat)
    requires Run(cfg, tr, acts) && i < |acts| && LedgerKept(tr[i])
    ensures LedgerKept(tr[i + 1])
  {
    assert Taken(cfg, tr[i], acts[i], tr[i + 1]);
    LedgerStep(cfg, tr[i], acts[i]);
  }

  // -------------------------------------------------------- lost postbacks --

  /** What a step settles: the postback it takes up, or, on a fault or a kill, every
      postback it still held. */
  lemma SettledByStep(cfg: Config, s: State, a: Action)
    requires Sound(s) && Enabled(s.sys, a)
    ensures var before, after := s.audit.settled, Next(cfg, s, a).audit.settled;
            match a
            case RecordOne(fault) =>
              if fault then after == before + Settle(s.sys.pc.left, Lost)
              else after == before + [Settled(s.sys.pc.left[0], RecordOutcome(s.sys.events, s.sys.pc.left[0], false))] &&
                   !RecordOutcome(s.sys.events, s.sys.pc.left[0], false).Lost?
            case Restart => after == before + Settle(Waiting(s.sys.pc) + s.sys.postbacks, Lost)
            case _ => after == before
  {
    if a.RecordOne? {
      assert ValidStatus(Waiting(s.sys.pc)[0].status);
    }
  }

  /** Every settled postback was settled by one step, out of those the system held
      then, in order; it was lost if and only if that step was a record that faulted
      - on it or on an earlier one of its batch - or a kill. */
  lemma {:induction false} LostIffFaultOrKill(cfg: Config, tr: seq<State>, acts: seq<Action>, i: nat, p: nat)
    returns (k: nat)
    requires Run(cfg, tr, acts) && i < |tr| && p < |tr[i].audit.settled|
    ensures k < i && |tr[k].audit.settled| <= p < |tr[k + 1].audit.settled|
    ensures var held := Waiting(tr[k].sys.pc) + tr[k].sys.postbacks;
            var n := p - |tr[k].audit.settled|;
            n < |held| && tr[i].audit.settled[p].conv == held[n]
    ensures tr[i].audit.settled[p].outcome.Lost? <==> acts[k] == RecordOne(true) || acts[k].Restart?
    decreases i
  {
    assert i > 0;
    ConversionsAreSound(cfg, tr, acts, i - 1);
    assert Taken(cfg, tr[i - 1], acts[i - 1], tr[i]);
    SettledByStep(cfg, tr[i - 1], acts[i - 1]);
    if p < |tr[i - 1].audit.settled| {
      k := LostIffFaultOrKill(cfg, tr, acts, i - 1, p);
    } else {
      k := i - 1;
    }
  }
}
