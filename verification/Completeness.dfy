/** Which postbacks get recorded: exactly those whose click is committed and not
    yet pruned when the postback is taken up. In terms of arrival: those whose click
    was accepted before an event drain that precedes the postback's turn, and no
    others. The two drains of a pass are separate, and a click and its postback can
    both arrive between them. */
module Completeness {
  import opened Metrics
  import opened Pipeline
  import opened Conservation
  import opened Postbacks

  /** A committed, unpruned click with this token. */
  ghost predicate ClickStands(log: seq<Entry>, token: string) {
    exists k :: 0 <= k < |log| && !log[k].pruned && log[k].ev.clickToken == token
  }

  lemma {:induction false} StandingIsLive(log: seq<Entry>, token: string)
    requires token != ""
    ensures HasClick(Live(log), token) <==> ClickStands(log, token)
  {
    if log != [] {
      var n := |log| - 1;
      StandingIsLive(log[..n], token);
      LiveGrows(log, token);
      assert ClickStands(log, token) <==>
             ClickStands(log[..n], token) || (!log[n].pruned && log[n].ev.clickToken == token) by {
        if ClickStands(log[..n], token) {
          var k :| 0 <= k < n && !log[..n][k].pruned && log[..n][k].ev.clickToken == token;
          assert !log[k].pruned;
        }
        if ClickStands(log, token) {
          var k :| 0 <= k < |log| && !log[k].pruned && log[k].ev.clickToken == token;
          assert k == n || !log[..n][k].pruned;
        }
      }
    }
  }

  lemma LiveGrows(log: seq<Entry>, token: string)
    requires log != [] && token != ""
    ensures var n := |log| - 1;
            HasClick(Live(log), token) <==>
            HasClick(Live(log[..n]), token) || (!log[n].pruned && log[n].ev.clickToken == token)
  {
    var n := |log| - 1;
    var before := Live(log[..n]);
    if !log[n].pruned {
      assert Live(log) == before + [log[n].ev];
      assert Live(log)[|before|] == log[n].ev;
    }
    if HasClick(before, token) {
      var i :| 0 <= i < |before| && before[i].clickToken != "" && before[i].clickToken == token;
      assert Live(log)[i] == before[i];
    }
  }

  /** Without a fault, a postback is recorded if and only if its click stands. */
  lemma RecordedIffClickStands(cfg: Config, tr: seq<State>, acts: seq<Action>, i: nat)
    requires Run(cfg, tr, acts) && i < |acts| && acts[i] == RecordOne(false)
    ensures tr[i].sys.pc.Recording? && tr[i].sys.pc.left != []
    ensures var c, u := tr[i].sys.pc.left[0], tr[i].audit;
            tr[i + 1].audit.settled ==
            u.settled + [Settled(c, if ClickStands(u.log, c.clickToken) then Recorded else Unmatched)]
  {
    ConversionsAreSound(cfg, tr, acts, i);
    EveryPushIsAccountedFor(cfg, tr, acts, i);
    assert Taken(cfg, tr[i], acts[i], tr[i + 1]);
    var c := Waiting(tr[i].sys.pc)[0];
    assert c.clickToken != "" && ValidStatus(c.status);
    StandingIsLive(tr[i].audit.log, c.clickToken);
  }

  // --------------------------------------------- from acceptance to table --

  /** No step before `to` drains the event queue or restarts the process. */
  ghost predicate NoDrain(acts: seq<Action>, from: nat, to: nat)
    requires to <= |acts|
  {
    forall k :: from <= k < to ==> !acts[k].DrainEvents? && !acts[k].Restart?
  }

  ghost predicate NoInsert(acts: seq<Action>, from: nat, to: nat)
    requires to <= |acts|
  {
    forall k :: from <= k < to ==> !acts[k].InsertBatch? && !acts[k].Restart?
  }

  /** This step commits, or loses, the batch in flight. */
  ghost predicate CommitsAt(s: State, a: Action) {
    a.InsertBatch? && Enabled(s.sys, a) && Commits(s.sys, a.fault)
  }

  ghost predicate LosesBatch(s: State, a: Action) {
    a.InsertBatch? && Enabled(s.sys, a) && !Commits(s.sys, a.fault)
  }

  /** Does this step delete events of the given time? */
  ghost predicate PrunesAt(cfg: Config, s: State, a: Action, ts: int) {
    a == Prune(false) && s.sys.pc.Rolled? && ts < Cutoff(cfg, s.sys.pc.now)
  }

  ghost predicate NoPrune(cfg: Config, tr: seq<State>, acts: seq<Action>, from: nat, to: nat, ts: int)
    requires to <= |acts| < |tr|
  {
    forall k :: from <= k < to ==> !PrunesAt(cfg, tr[k], acts[k], ts)
  }

  lemma {:induction false} StaysPending(cfg: Config, tr: seq<State>, acts: seq<Action>, i: nat, j: nat, e: Event)
    requires Run(cfg, tr, acts) && i <= j <= |acts| && NoDrain(acts, i, j)
    requires e in tr[i].sys.pending
    ensures e in tr[j].sys.pending
  {
    if i != j {
      StaysPending(cfg, tr, acts, i, j - 1, e);
      assert Taken(cfg, tr[j - 1], acts[j - 1], tr[j]);
      PendingStep(cfg, tr[j - 1], acts[j - 1], e);
    }
  }

  lemma PendingStep(cfg: Config, s: State, a: Action, e: Event)
    requires Enabled(s.sys, a) && !a.DrainEvents? && !a.Restart? && e in s.sys.pending
    ensures e in Next(cfg, s, a).sys.pending
  {
    if a.Log? {} else if a.RecordOne? {} else {}
  }

  lemma {:induction false} StaysInFlight(cfg: Config, tr: seq<State>, acts: seq<Action>, i: nat, j: nat, e: Event)
    requires Run(cfg, tr, acts) && i <= j <= |acts| && NoInsert(acts, i, j)
    requires e in InFlight(tr[i].sys.pc)
    ensures e in InFlight(tr[j].sys.pc)
  {
    if i != j {
      StaysInFlight(cfg, tr, acts, i, j - 1, e);
      assert Taken(cfg, tr[j - 1], acts[j - 1], tr[j]);
    }
  }

  lemma {:induction false} Kept(events: seq<Event>, cutoff: int, e: Event)
    requires e in events && cutoff <= e.ts
    ensures e in Keep(events, cutoff)
  {
    var n := |events| - 1;
    if e != events[n] {
      assert events == events[..n] + [events[n]];
      Kept(events[..n], cutoff, e);
    }
  }

  lemma StoredStep(cfg: Config, s: State, a: Action, e: Event)
    requires Enabled(s.sys, a) && e in s.sys.events && !PrunesAt(cfg, s, a, e.ts)
    ensures e in Next(cfg, s, a).sys.events
  {
    if a.Prune? {
      if !a.fault {
        Kept(s.sys.events, Cutoff(cfg, s.sys.pc.now), e);
      }
    } else if a.InsertBatch? {
    } else {
      EventsUntouched(cfg, s, a);
    }
  }

  lemma EventsUntouched(cfg: Config, s: State, a: Action)
    requires Enabled(s.sys, a) && !a.Prune? && !a.InsertBatch?
    ensures Next(cfg, s, a).sys.events == s.sys.events
  {}

  lemma {:induction false} StaysStored(cfg: Config, tr: seq<State>, acts: seq<Action>, i: nat, j: nat, e: Event)
    requires Run(cfg, tr, acts) && i <= j <= |acts| && NoPrune(cfg, tr, acts, i, j, e.ts)
    requires e in tr[i].sys.events
    ensures e in tr[j].sys.events
  {
    if i != j {
      StaysStored(cfg, tr, acts, i, j - 1, e);
      assert Taken(cfg, tr[j - 1], acts[j - 1], tr[j]);
      StoredStep(cfg, tr[j - 1], acts[j - 1], e);
    }
  }

  /** The first drain after its acceptance puts a click in flight; if that batch
      commits, the click is stored. */
  lemma AcceptedClickIsStored(cfg: Config, tr: seq<State>, acts: seq<Action>, click: nat, drain: nat, insert: nat)
    requires Run(cfg, tr, acts) && click < drain < insert < |acts|
    requires acts[click].Log? && |tr[click].sys.pending| < cfg.capacity
    requires acts[drain] == DrainEvents && NoDrain(acts, click + 1, drain)
    requires CommitsAt(tr[insert], acts[insert]) && NoInsert(acts, drain + 1, insert)
    ensures LoggedEvent(acts[click].who, acts[click].visit, tr[click].sys.clock) in tr[insert + 1].sys.events
  {
    var e := LoggedEvent(acts[click].who, acts[click].visit, tr[click].sys.clock);
    assert Taken(cfg, tr[click], acts[click], tr[click + 1]);
    StaysPending(cfg, tr, acts, click + 1, drain, e);
    assert Taken(cfg, tr[drain], acts[drain], tr[drain + 1]);
    StaysInFlight(cfg, tr, acts, drain + 1, insert, e);
    assert Taken(cfg, tr[insert], acts[insert], tr[insert + 1]);
  }

  /** The row a recorded postback leaves behind. */
  ghost predicate RowOf(rows: seq<ConversionRow>, c: Conversion) {
    exists i :: 0 <= i < |rows| && rows[i].orderRef == ToRow(c).orderRef &&
      rows[i].ts == c.ts && rows[i].status == c.status && rows[i].amount == c.amount
  }

  lemma UpsertLeavesRow(rows: seq<ConversionRow>, c: Conversion)
    ensures RowOf(Upsert(rows, c), c)
  {
    var i := OrderIndex(rows, c.orderRef);
    var k := if c.orderRef != "" && i < |rows| then i else |rows|;
    assert Upsert(rows, c)[k].orderRef == ToRow(c).orderRef;
  }

  /** Completeness: a click accepted before a drain whose insert commits is matched
      by every postback for its token taken up from then on, unless a prune has
      deleted it or a fault interrupts the batch. */
  lemma PostbackIsRecorded(cfg: Config, tr: seq<State>, acts: seq<Action>,
                           click: nat, drain: nat, insert: nat, record: nat)
    requires Run(cfg, tr, acts) && click < drain < insert < record < |acts|
    requires acts[click].Log? && acts[click].visit.Redirect? && |tr[click].sys.pending| < cfg.capacity
    requires acts[drain] == DrainEvents && NoDrain(acts, click + 1, drain)
    requires CommitsAt(tr[insert], acts[insert]) && NoInsert(acts, drain + 1, insert)
    requires acts[record] == RecordOne(false) && tr[record].sys.pc.Recording? && tr[record].sys.pc.left != []
    requires tr[record].sys.pc.left[0].clickToken == acts[click].visit.token
    requires NoPrune(cfg, tr, acts, insert + 1, record, tr[click].sys.clock)
    ensures var c := tr[record].sys.pc.left[0];
            && tr[record + 1].audit.settled == tr[record].audit.settled + [Settled(c, Recorded)]
            && RowOf(tr[record + 1].sys.conversions, c)
  {
    var e := LoggedEvent(acts[click].who, acts[click].visit, tr[click].sys.clock);
    var c := tr[record].sys.pc.left[0];
    AcceptedClickIsStored(cfg, tr, acts, click, drain, insert);
    StaysStored(cfg, tr, acts, insert + 1, record, e);
    ConversionsAreSound(cfg, tr, acts, record);
    assert ValidStatus(Waiting(tr[record].sys.pc)[0].status) && c.clickToken != "";
    assert HasClick(tr[record].sys.events, c.clickToken);
    assert Taken(cfg, tr[record], acts[record], tr[record + 1]);
    UpsertLeavesRow(tr[record].sys.conversions, c);
  }

  /** From a failed flush on, until events are drained again. */
  predicate BetweenFlushes(pc: Pc) {
    pc.Flushed? || pc.Maintaining? || pc.Rolled? || pc.Top? || pc.Flushing? || pc.Exiting? || pc.Done?
  }

  lemma BetweenFlushesStep(cfg: Config, s: State, a: Action)
    requires Enabled(s.sys, a) && BetweenFlushes(s.sys.pc) && !a.DrainEvents? && !a.Restart?
    ensures var s' := Next(cfg, s, a); BetweenFlushes(s'.sys.pc) && s.sys.postbacks <= s'.sys.postbacks
  {
    if a.Rollup? {} else if a.Postback? {} else {}
  }

  /** After a rolled-back event batch no postback is taken up before events are
      drained again: the postback queue can only grow. */
  lemma {:induction false} FailedFlushKeepsPostbacks(cfg: Config, tr: seq<State>, acts: seq<Action>, i: nat, j: nat)
    requires Run(cfg, tr, acts) && i < j < |tr|
    requires LosesBatch(tr[i], acts[i]) && NoDrain(acts, i + 1, j)
    ensures BetweenFlushes(tr[j].sys.pc) && tr[i].sys.postbacks <= tr[j].sys.postbacks
  {
    assert Taken(cfg, tr[j - 1], acts[j - 1], tr[j]);
    if j > i + 1 {
      FailedFlushKeepsPostbacks(cfg, tr, acts, i, j - 1);
      BetweenFlushesStep(cfg, tr[j - 1], acts[j - 1]);
    }
  }

  // ------------------------------------------------- order of arrival --

  /** No event of the sequence carries the token. */
  ghost predicate NotIn(events: seq<Event>, token: string) {
    forall i :: 0 <= i < |events| ==> events[i].clickToken != token
  }

  /** The token has left the queue on no event so far. */
  ghost predicate Undrained(s: Sys, token: string) {
    NotIn(InFlight(s.pc), token) && NotIn(s.events, token)
  }

  /** A visit that draws this token. */
  predicate Draws(a: Action, token: string) {
    a.Log? && a.visit.Redirect? && a.visit.token == token
  }

  lemma {:induction false} KeepNotIn(events: seq<Event>, cutoff: int, token: string)
    requires NotIn(events, token)
    ensures NotIn(Keep(events, cutoff), token)
  {
    if events != [] { KeepNotIn(events[..|events| - 1], cutoff, token); }
  }

  /** Only a drain puts a queued token in flight. */
  lemma UndrainedStep(cfg: Config, s: State, a: Action, token: string)
    requires Enabled(s.sys, a) && Undrained(s.sys, token)
    requires a.DrainEvents? ==> NotIn(s.sys.pending, token)
    ensures Undrained(Next(cfg, s, a).sys, token)
  {
    if a.Prune? {
      KeepNotIn(s.sys.events, Cutoff(cfg, s.sys.pc.now), token);
    } else if a.InsertBatch? {
    } else if a.RecordOne? {
    } else if a.Rollup? {
    } else {
    }
  }

  lemma UnqueuedStep(cfg: Config, s: State, a: Action, token: string)
    requires Enabled(s.sys, a) && token != "" && NotIn(s.sys.pending, token) && !Draws(a, token)
    ensures NotIn(Next(cfg, s, a).sys.pending, token)
  {
    if a.Log? {} else if a.RecordOne? {} else if a.Rollup? {} else {}
  }

  /** No step before i draws the token. */
  ghost predicate Undrawn(acts: seq<Action>, i: nat, token: string)
    requires i <= |acts|
  {
    forall k :: 0 <= k < i ==> !Draws(acts[k], token)
  }

  lemma {:induction false} UndrawnIsNowhere(cfg: Config, tr: seq<State>, acts: seq<Action>, i: nat, token: string)
    requires Run(cfg, tr, acts) && i <= |acts| && token != "" && Undrawn(acts, i, token)
    ensures NotIn(tr[i].sys.pending, token) && Undrained(tr[i].sys, token)
  {
    if i > 0 {
      UndrawnIsNowhere(cfg, tr, acts, i - 1, token);
      assert Taken(cfg, tr[i - 1], acts[i - 1], tr[i]);
      UndrainedStep(cfg, tr[i - 1], acts[i - 1], token);
      UnqueuedStep(cfg, tr[i - 1], acts[i - 1], token);
    }
  }

  lemma {:induction false} StaysUndrained(cfg: Config, tr: seq<State>, acts: seq<Action>, i: nat, j: nat, token: string)
    requires Run(cfg, tr, acts) && i <= j <= |acts| && NoDrain(acts, i, j)
    requires Undrained(tr[i].sys, token)
    ensures Undrained(tr[j].sys, token)
  {
    if i < j {
      StaysUndrained(cfg, tr, acts, i, j - 1, token);
      assert Taken(cfg, tr[j - 1], acts[j - 1], tr[j]);
      UndrainedStep(cfg, tr[j - 1], acts[j - 1], token);
    }
  }

  /** An unfaulted step that takes up a postback with this token. */
  ghost predicate TakesUp(s: State, a: Action, token: string) {
    a == RecordOne(false) && Enabled(s.sys, a) && s.sys.pc.left[0].clickToken == token
  }

  /** How the step at i settled the postback it took up. */
  ghost predicate SettledAs(tr: seq<State>, i: nat, outcome: Outcome)
    requires i + 1 < |tr|
  {
    && tr[i].sys.pc.Recording? && tr[i].sys.pc.left != []
    && tr[i + 1].audit.settled == tr[i].audit.settled + [Settled(tr[i].sys.pc.left[0], outcome)]
  }

  /** A postback taken up before any event drain since its click was logged is
      settled as unmatched, in every run. */
  lemma EarlyPostbackIsUnmatched(cfg: Config, tr: seq<State>, acts: seq<Action>, click: nat, record: nat)
    requires Run(cfg, tr, acts) && click < record < |acts|
    requires acts[click].Log? && acts[click].visit.Redirect?
    requires Undrawn(acts, click, acts[click].visit.token)
    requires NoDrain(acts, click + 1, record) && TakesUp(tr[record], acts[record], acts[click].visit.token)
    ensures SettledAs(tr, record, Unmatched)
  {
    var token := acts[click].visit.token;
    assert Taken(cfg, tr[click], acts[click], tr[click + 1]);
    UndrawnIsNowhere(cfg, tr, acts, click, token);
    UndrainedStep(cfg, tr[click], acts[click], token);
    StaysUndrained(cfg, tr, acts, click + 1, record, token);
    assert !HasClick(tr[record].sys.events, token);
    assert Taken(cfg, tr[record], acts[record], tr[record + 1]);
  }

  /** The first drain, and the first insert, of a stretch. */
  lemma FirstDrainIn(acts: seq<Action>, from: nat, to: nat) returns (d: nat)
    requires from <= to <= |acts| && (exists k :: from <= k < to && acts[k].DrainEvents?)
    requires forall k :: from <= k < to ==> !acts[k].Restart?
    ensures from <= d < to && acts[d].DrainEvents? && NoDrain(acts, from, d)
  {
    d := to - 1;
    if exists k :: from <= k < to - 1 && acts[k].DrainEvents? { d := FirstDrainIn(acts, from, to - 1); }
  }

  lemma FirstInsertIn(cfg: Config, tr: seq<State>, acts: seq<Action>, from: nat, to: nat, e: Event)
    returns (j: nat)
    requires Run(cfg, tr, acts) && from <= to <= |acts|
    requires forall k :: from <= k < to ==> !acts[k].Restart?
    requires e in InFlight(tr[from].sys.pc) && InFlight(tr[to].sys.pc) == []
    ensures from <= j < to && acts[j].InsertBatch? && NoInsert(acts, from, j)
  {
    j := from;
    while j < to && !acts[j].InsertBatch?
      invariant from <= j <= to && NoInsert(acts, from, j)
    {
      j := j + 1;
    }
    StaysInFlight(cfg, tr, acts, from, j, e);
  }

  /** The first drain after a click takes it up. */
  lemma DrawnAt(cfg: Config, tr: seq<State>, acts: seq<Action>, click: nat, drain: nat) returns (e: Event)
    requires Run(cfg, tr, acts) && click < drain < |acts| && acts[drain].DrainEvents?
    requires acts[click].Log? && |tr[click].sys.pending| < cfg.capacity && NoDrain(acts, click + 1, drain)
    ensures e in InFlight(tr[drain + 1].sys.pc)
  {
    e := LoggedEvent(acts[click].who, acts[click].visit, tr[click].sys.clock);
    assert Taken(cfg, tr[click], acts[click], tr[click + 1]);
    StaysPending(cfg, tr, acts, click + 1, drain, e);
    assert Taken(cfg, tr[drain], acts[drain], tr[drain + 1]);
  }

  /** Order of arrival decides. Between a click's acceptance and the unfaulted turn
      of a postback for its token, with no kill, no lost batch and no prune of the
      click, the postback is recorded if and only if the event queue was drained in
      between, and otherwise settled as unmatched. */
  lemma ArrivalOrderDecides(cfg: Config, tr: seq<State>, acts: seq<Action>, click: nat, record: nat)
    requires Run(cfg, tr, acts) && click < record < |acts|
    requires acts[click].Log? && acts[click].visit.Redirect? && |tr[click].sys.pending| < cfg.capacity
    requires Undrawn(acts, click, acts[click].visit.token)
    requires TakesUp(tr[record], acts[record], acts[click].visit.token)
    requires forall k :: click < k < record ==> !acts[k].Restart? && !LosesBatch(tr[k], acts[k])
    requires NoPrune(cfg, tr, acts, click + 1, record, tr[click].sys.clock)
    ensures var drained := exists k :: click < k < record && acts[k].DrainEvents?;
            SettledAs(tr, record, if drained then Recorded else Unmatched)
  {
    if exists k :: click < k < record && acts[k].DrainEvents? {
      var drain := FirstDrainIn(acts, click + 1, record);
      var e := DrawnAt(cfg, tr, acts, click, drain);
      var insert := FirstInsertIn(cfg, tr, acts, drain + 1, record, e);
      assert Taken(cfg, tr[insert], acts[insert], tr[insert + 1]);
      assert !LosesBatch(tr[insert], acts[insert]);
      PostbackIsRecorded(cfg, tr, acts, click, drain, insert, record);
    } else {
      EarlyPostbackIsUnmatched(cfg, tr, acts, click, record);
    }
  }

  // ------------------------------------------------------------- the race --

  const TOKEN := "abcdefghijkl"
  const SHOPPER := Visitor("a", "s", "mobile", [])
  const CLICK := Redirect(1, None, "feed", TOKEN, "")

  /** Between the two drains of a pass a click arrives, then its postback. */
  lemma BothArrive(cfg: Config) returns (tr: seq<State>, acts: seq<Action>)
    requires cfg.capacity > 0 && cfg.postbackSecret != ""
    ensures Run(cfg, tr, acts) && ForwardClock(tr, acts) && |acts| == 4
    ensures acts[2] == Log(SHOPPER, CLICK) && acts[3].Postback?
    ensures tr[4].sys == Start(0).sys.(pc := EventsFlushed, pending := [LoggedEvent(SHOPPER, CLICK, 0)],
                                       postbacks := [Conversion(TOKEN, 0, "", None, "pending", "")])
    ensures tr[4].audit.settled == []
  {
    tr, acts := [Start(0)], [];
    tr, acts := Go(cfg, tr, acts, LoopTest);
    tr, acts := Go(cfg, tr, acts, DrainEvents);
    assert Pipeline.ClickTokens.IsClickToken(TOKEN);
    tr, acts := Go(cfg, tr, acts, Log(SHOPPER, CLICK));
    var q := map["sign" := cfg.postbackSecret, "subid" := TOKEN];
    SubidOnly(cfg.postbackSecret, q);
    tr, acts := Go(cfg, tr, acts, Postback(q, None));
  }

  lemma SubidOnly(secret: string, q: map<string, string>)
    requires secret != "" && q == map["sign" := secret, "subid" := TOKEN]
    ensures HandlePostback(secret, q, None, 0) == Queued(Conversion(TOKEN, 0, "", None, "pending", ""))
  {
    assert |"sign"| == 4 && |"subid"| == 5 && |"order"| == 5 && |"amount"| == 6 && |"status"| == 6;
    assert "subid"[0] == 's' && "order"[0] == 'o';
  }

  /** The postback follows its click, no call faults, no step prunes, the click is
      committed in the next pass - and the postback is lost as unmatched. */
  lemma PostbackBetweenDrainsIsLost(cfg: Config)
    returns (tr: seq<State>, acts: seq<Action>, click: nat, postback: nat)
    requires cfg.capacity > 0 && cfg.postbackSecret != ""
    ensures Run(cfg, tr, acts) && click < postback < |acts|
    ensures acts[click] == Log(SHOPPER, CLICK) && acts[postback].Postback?
    ensures var s := tr[|acts|];
            && s.sys.events == [LoggedEvent(SHOPPER, CLICK, 0)]
            && s.sys.conversions == [] && s.sys.postbacks == []
            && |s.audit.settled| == 1 && s.audit.settled[0].conv.clickToken == TOKEN
            && s.audit.settled[0].outcome == Unmatched
  {
    tr, acts := BothArrive(cfg);
    click, postback := 2, 3;
    tr, acts := UnmatchedPass(cfg, tr, acts);
    tr, acts := FlushPass(cfg, tr, acts);
  }

  /** Taking up a single postback while the events table is empty. */
  lemma UnmatchedPass(cfg: Config, tr: seq<State>, acts: seq<Action>)
    returns (tr': seq<State>, acts': seq<Action>)
    requires Run(cfg, tr, acts) && ForwardClock(tr, acts)
    requires var s := tr[|acts|].sys;
             s.pc == EventsFlushed && s.events == [] && |s.postbacks| == 1
    ensures Run(cfg, tr', acts') && ForwardClock(tr', acts') && tr <= tr' && acts <= acts'
    ensures var s := tr[|acts|];
            && tr'[|acts'|].sys == s.sys.(postbacks := [], pc := Top)
            && tr'[|acts'|].audit ==
               s.audit.(settled := s.audit.settled + [Settled(s.sys.postbacks[0], Unmatched)])
  {
    var s := tr[|acts|];
    tr', acts' := Go(cfg, tr, acts, DrainPostbacks);
    tr', acts' := Go(cfg, tr', acts', RecordOne(false));
    assert s.sys.postbacks[1..] == [];
    assert tr'[|acts'|].sys == s.sys.(postbacks := [], pc := Recording([]));
    tr', acts' := Go(cfg, tr', acts', EndPostbacks);
    tr', acts' := Go(cfg, tr', acts', SkipMaintenance);
  }
}
