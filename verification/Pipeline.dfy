/** The metrics and conversion pipeline as one transition system.

    The HTTP thread pushes events and postbacks, the database thread walks
    through its loop, the clock moves, and the process may be killed and
    started again between any two steps. Every database call may fault.

    `Sys` is the program's state. `Audit` is bookkeeping that no step reads; it
    remembers what a run did so that properties of whole runs can be stated. */
module Pipeline {
  import opened Metrics
  import ClickTokens

  datatype Config = Config(capacity: nat, retentionDays: int, postbackSecret: string)

  /** Where the database thread stands. */
  datatype Pc =
    | Top                                // at the loop condition
    | Flushing                           // about to drain the event queue
    | Drained(batch: seq<Event>)         // batch taken from the queue, not yet inserted
    | EventsFlushed                      // about to drain the postback queue
    | Recording(left: seq<Conversion>)   // postbacks still to record
    | Flushed                            // about to ask whether maintenance is due
    | Maintaining(now: int)              // maintenance has read the clock
    | Rolled(now: int)                   // rollup done, prune to come
    | Exiting                            // left the loop, final flush to come
    | FinalDrained(batch: seq<Event>)
    | Done

  datatype Sys = Sys(
    clock: int,
    httpOpen: bool,
    running: bool,
    pending: seq<Event>,
    dropped: nat,
    postbacks: seq<Conversion>,
    pc: Pc,
    events: seq<Event>,
    conversions: seq<ConversionRow>,
    stats: Stats)

  datatype Push = Push(ev: Event, accepted: bool)
  datatype Fate = Committed | RolledBack | Killed
  datatype Batch = Batch(events: seq<Event>, fate: Fate)
  datatype Entry = Entry(ev: Event, pruned: bool)
  datatype Outcome = Recorded | Unmatched | Lost
  datatype Settled = Settled(conv: Conversion, outcome: Outcome)

  datatype Audit = Audit(
    pushes: seq<Push>,          // every push
    droppedBefore: nat,         // drops counted by earlier processes
    batches: seq<Batch>,        // every finished insert, and what a kill took
    log: seq<Entry>,            // every event ever committed
    queued: seq<Conversion>,    // every postback ever accepted
    settled: seq<Settled>,      // every postback no longer waiting
    rolled: map<int, nat>,      // day -> |log| when a rollup last covered it
    lastMaintenance: int)

  datatype State = State(sys: Sys, audit: Audit)

  // ------------------------------------------------------------ requests --

  datatype Visitor = Visitor(anonId: string, sessionId: string, uaClass: string, ipHash: seq<nat>)

  datatype Visit =
    | Redirect(item: int, position: Option<int>, surface: string, token: string, source: string)
    | OpenCard(item: int, position: Option<int>, surface: string, source: string)
    | SeeCard(item: int, position: Option<int>, surface: string)

  /** The event a handler logs for a visit. */
  function LoggedEvent(who: Visitor, v: Visit, now: int): Event {
    match v
    case Redirect(item, position, surface, token, source) =>
      Event(now, who.anonId, who.sessionId, Outbound, Some(item), position, surface, token,
            source, who.uaClass, who.ipHash, "")
    case OpenCard(item, position, surface, source) =>
      Event(now, who.anonId, who.sessionId, CardClick, Some(item), position, surface, "",
            source, who.uaClass, who.ipHash, "")
    case SeeCard(item, position, surface) =>
      Event(now, who.anonId, who.sessionId, Impression, Some(item), position, surface, "",
            "", who.uaClass, who.ipHash, "")
  }

  datatype PostbackReply =
    | NotConfigured | BadSignature | MissingSubid | BadAmount | BadStatus
    | Queued(conv: Conversion)

  /** `amount` is what reading the "amount" parameter as rubles gives, in kopecks. */
  function HandlePostback(secret: string, q: map<string, string>, amount: Option<int>, now: int)
    : (r: PostbackReply)
    ensures r.NotConfigured? <==> secret == ""
    ensures r.BadSignature? <==> secret != "" && !("sign" in q && q["sign"] == secret)
    ensures r.MissingSubid? ==> "subid" in q ==> q["subid"] == ""
    ensures r.BadAmount? ==> "amount" in q && amount.None?
    ensures r.BadStatus? ==> "status" in q && !ValidStatus(q["status"])
    ensures r.Queued? <==> && secret != ""
                           && "sign" in q && q["sign"] == secret
                           && "subid" in q && q["subid"] != ""
                           && ("amount" in q ==> amount.Some?)
                           && ("status" in q ==> q["status"] == "pending" || q["status"] == "approved" || q["status"] == "rejected")
    ensures r.Queued? ==> && ValidStatus(r.conv.status) && r.conv.clickToken == q["subid"] != "" && r.conv.ts == now
                          && r.conv.orderRef == (if "order" in q then q["order"] else "")
                          && (r.conv.amount.Some? <==> "amount" in q) && (r.conv.amount.Some? ==> r.conv.amount == amount)
                          && r.conv.status == (if "status" in q then q["status"] else "pending")
  {
    if secret == "" then NotConfigured
    else if "sign" !in q || q["sign"] != secret then BadSignature
    else if "subid" !in q || q["subid"] == "" then MissingSubid
    else if "amount" in q && amount.None? then BadAmount
    else
      var conv := Conversion(q["subid"], now,
                             if "order" in q then q["order"] else "",
                             if "amount" in q then amount else None,
                             if "status" in q then q["status"] else "pending",
                             "");
      if !ValidStatus(conv.status) then BadStatus else Queued(conv)
  }

  // --------------------------------------------------------------- steps --

  datatype Action =
    | Tick(delta: int)
    | Log(who: Visitor, visit: Visit)
    | Postback(q: map<string, string>, amount: Option<int>)
    | StopHttp
    | StopWorker
    | Restart
    | LoopTest
    | DrainEvents
    | InsertBatch(fault: bool)
    | DrainPostbacks
    | RecordOne(fault: bool)
    | EndPostbacks
    | SkipMaintenance
    | StartMaintenance
    | Rollup(fault: bool)
    | Prune(fault: bool)

  predicate Enabled(s: Sys, a: Action) {
    match a
    case Tick(_) => true
    case Log(_, visit) => s.httpOpen && (visit.Redirect? ==> ClickTokens.IsClickToken(visit.token))
    case Postback(_, _) => s.httpOpen
    case StopHttp => true
    case StopWorker => !s.httpOpen
    case Restart => true
    case LoopTest => s.pc.Top?
    case DrainEvents => s.pc.Flushing? || s.pc.Exiting?
    case InsertBatch(_) => s.pc.Drained? || s.pc.FinalDrained?
    case DrainPostbacks => s.pc.EventsFlushed?
    case RecordOne(_) => s.pc.Recording? && s.pc.left != []
    case EndPostbacks => s.pc.Recording? && s.pc.left == []
    case SkipMaintenance => s.pc.Flushed?
    case StartMaintenance => s.pc.Flushed?
    case Rollup(_) => s.pc.Maintaining?
    case Prune(_) => s.pc.Rolled?
  }

  /** A batch commits unless the database faults or two click tokens clash. */
  ghost predicate Commits(s: Sys, fault: bool)
    requires s.pc.Drained? || s.pc.FinalDrained?
  {
    !fault && TokensDistinct(s.events + s.pc.batch)
  }

  /** What record_conversion makes of a postback. A fault, or a status the CHECK
      constraint refuses, throws and takes the rest of the batch with it. */
  function RecordOutcome(events: seq<Event>, c: Conversion, fault: bool): Outcome {
    if fault then Lost
    else if !HasClick(events, c.clickToken) then Unmatched
    else if !ValidStatus(c.status) then Lost
    else Recorded
  }

  function Cutoff(cfg: Config, now: int): int { now - cfg.retentionDays * DAY_MS }

  /** One step of the program. */
  ghost function Step(cfg: Config, s: Sys, a: Action): Sys
    requires Enabled(s, a)
  {
    match a
    case Tick(delta) => s.(clock := s.clock + delta)
    case Log(who, visit) =>
      if |s.pending| >= cfg.capacity then s.(dropped := s.dropped + 1)
      else s.(pending := s.pending + [LoggedEvent(who, visit, s.clock)])
    case Postback(q, amount) =>
      var reply := HandlePostback(cfg.postbackSecret, q, amount, s.clock);
      if reply.Queued? then s.(postbacks := s.postbacks + [reply.conv]) else s
    case StopHttp => s.(httpOpen := false)
    case StopWorker => s.(running := false)
    case Restart =>
      s.(httpOpen := true, running := true, pending := [], dropped := 0, postbacks := [], pc := Top)
    case LoopTest => s.(pc := if s.running then Flushing else Exiting)
    case DrainEvents =>
      var batch := s.pending;
      s.(pending := [],
         pc := if s.pc.Flushing? then (if batch == [] then EventsFlushed else Drained(batch))
               else (if batch == [] then Done else FinalDrained(batch)))
    case InsertBatch(fault) =>
      var ok := Commits(s, fault);
      s.(events := if ok then s.events + s.pc.batch else s.events,
         pc := if s.pc.FinalDrained? then Done else if ok then EventsFlushed else Flushed)
    case DrainPostbacks => s.(postbacks := [], pc := Recording(s.postbacks))
    case RecordOne(fault) =>
      var c := s.pc.left[0];
      var outcome := RecordOutcome(s.events, c, fault);
      s.(conversions := if outcome.Recorded? then Upsert(s.conversions, c) else s.conversions,
         pc := if outcome.Lost? then Flushed else Recording(s.pc.left[1..]))
    case EndPostbacks => s.(pc := Flushed)
    case SkipMaintenance => s.(pc := Top)
    case StartMaintenance => s.(pc := Maintaining(s.clock))
    case Rollup(fault) =>
      if fault then s.(pc := Top)
      else
        var today := Day(s.pc.now);
        s.(stats := RolledUp(s.events, s.stats, today - 1, today), pc := Rolled(s.pc.now))
    case Prune(fault) =>
      if fault then s.(pc := Top)
      else s.(events := Keep(s.events, Cutoff(cfg, s.pc.now)), pc := Top)
  }

  function InFlight(pc: Pc): seq<Event> {
    if pc.Drained? || pc.FinalDrained? then pc.batch else []
  }

  function Waiting(pc: Pc): seq<Conversion> {
    if pc.Recording? then pc.left else []
  }

  function Settle(cs: seq<Conversion>, outcome: Outcome): seq<Settled> {
    seq(|cs|, i requires 0 <= i < |cs| => Settled(cs[i], outcome))
  }

  /** The events a kill takes with it, if any. */
  function KilledBatch(events: seq<Event>): seq<Batch> {
    if events == [] then [] else [Batch(events, Killed)]
  }

  /** Committed events enter the log unpruned. */
  function Entries(events: seq<Event>): seq<Entry> {
    seq(|events|, i requires 0 <= i < |events| => Entry(events[i], false))
  }

  function MarkPruned(log: seq<Entry>, cutoff: int): seq<Entry> {
    seq(|log|, i requires 0 <= i < |log| => log[i].(pruned := log[i].pruned || log[i].ev.ts < cutoff))
  }

  function History(log: seq<Entry>): seq<Event> {
    seq(|log|, i requires 0 <= i < |log| => log[i].ev)
  }

  function MarkRolled(rolled: map<int, nat>, today: int, n: nat): map<int, nat> {
    rolled[today - 1 := n][today := n]
  }

  /** What a step adds to the bookkeeping. */
  ghost function Observe(cfg: Config, s: Sys, u: Audit, a: Action): Audit
    requires Enabled(s, a)
  {
    match a
    case Log(who, visit) =>
      u.(pushes := u.pushes + [Push(LoggedEvent(who, visit, s.clock), |s.pending| < cfg.capacity)])
    case Postback(q, amount) =>
      var reply := HandlePostback(cfg.postbackSecret, q, amount, s.clock);
      if reply.Queued? then u.(queued := u.queued + [reply.conv]) else u
    case Restart =>
      u.(droppedBefore := u.droppedBefore + s.dropped,
         batches := u.batches + KilledBatch(InFlight(s.pc) + s.pending),
         settled := u.settled + Settle(Waiting(s.pc) + s.postbacks, Lost))
    case InsertBatch(fault) =>
      var ok := Commits(s, fault);
      u.(batches := u.batches + [Batch(s.pc.batch, if ok then Committed else RolledBack)],
         log := if ok then u.log + Entries(s.pc.batch) else u.log)
    case RecordOne(fault) =>
      var outcome := RecordOutcome(s.events, s.pc.left[0], fault);
      u.(settled := u.settled +
         if outcome.Lost? then Settle(s.pc.left, Lost) else [Settled(s.pc.left[0], outcome)])
    case StartMaintenance => u.(lastMaintenance := s.clock)
    case Rollup(fault) =>
      if fault then u
      else
        u.(rolled := MarkRolled(u.rolled, Day(s.pc.now), |u.log|))
    case Prune(fault) =>
      if fault then u else u.(log := MarkPruned(u.log, Cutoff(cfg, s.pc.now)))
    case _ => u
  }

  ghost function Next(cfg: Config, s: State, a: Action): State
    requires Enabled(s.sys, a)
  {
    State(Step(cfg, s.sys, a), Observe(cfg, s.sys, s.audit, a))
  }

  // ---------------------------------------------------------------- runs --

  /** A first start on an empty database. */
  function Start(clock: int): State {
    State(Sys(clock, true, true, [], 0, [], Top, [], [], map[]),
          Audit([], 0, [], [], [], [], map[], clock))
  }

  /** A run visits the states `tr` by the actions `acts`. */
  ghost predicate Run(cfg: Config, tr: seq<State>, acts: seq<Action>) {
    && |tr| == |acts| + 1
    && tr[0] == Start(tr[0].sys.clock)
    && forall i :: 0 <= i < |acts| ==> Taken(cfg, tr[i], acts[i], tr[i + 1])
  }

  ghost predicate Taken(cfg: Config, s: State, a: Action, s': State) {
    Enabled(s.sys, a) && s' == Next(cfg, s, a)
  }

  /** The clock starts at or after the epoch and never goes back. */
  ghost predicate ForwardClock(tr: seq<State>, acts: seq<Action>)
    requires tr != []
  {
    && tr[0].sys.clock >= 0
    && forall i :: 0 <= i < |acts| ==> Forward(acts[i])
  }

  predicate Forward(a: Action) { a.Tick? ==> a.delta >= 0 }

  /** Any run can be continued by an enabled action. */
  lemma Extend(cfg: Config, tr: seq<State>, acts: seq<Action>, a: Action)
    returns (tr': seq<State>, acts': seq<Action>)
    requires Run(cfg, tr, acts) && Enabled(tr[|acts|].sys, a)
    ensures tr' == tr + [Next(cfg, tr[|acts|], a)] && acts' == acts + [a]
    ensures Run(cfg, tr', acts')
  {
    tr', acts' := tr + [Next(cfg, tr[|acts|], a)], acts + [a];
    forall i | 0 <= i < |acts'| ensures Taken(cfg, tr'[i], acts'[i], tr'[i + 1]) {
      if i < |acts| {
        assert Taken(cfg, tr[i], acts[i], tr[i + 1]);
      }
    }
  }

  // ------------------------------------------------------- building runs --

  /** A run that has not moved the clock back can go on by a forward action. */
  lemma Go(cfg: Config, tr: seq<State>, acts: seq<Action>, a: Action)
    returns (tr': seq<State>, acts': seq<Action>)
    requires Run(cfg, tr, acts) && ForwardClock(tr, acts)
    requires Enabled(tr[|acts|].sys, a) && Forward(a)
    ensures tr' == tr + [Next(cfg, tr[|acts|], a)] && acts' == acts + [a]
    ensures Run(cfg, tr', acts') && ForwardClock(tr', acts')
  {
    tr', acts' := Extend(cfg, tr, acts, a);
  }

  /** A fault-free flush commits all that is pending. */
  lemma CommitPass(cfg: Config, tr: seq<State>, acts: seq<Action>)
    returns (tr': seq<State>, acts': seq<Action>)
    requires Run(cfg, tr, acts) && ForwardClock(tr, acts)
    requires var s := tr[|acts|].sys;
             s.pc == Top && s.running && s.pending != [] && TokensDistinct(s.events + s.pending)
    ensures Run(cfg, tr', acts') && ForwardClock(tr', acts') && tr <= tr' && acts <= acts'
    ensures var s := tr[|acts|].sys;
            tr'[|acts'|].sys == s.(pending := [], events := s.events + s.pending, pc := EventsFlushed)
    ensures tr'[|acts'|].audit.settled == tr[|acts|].audit.settled
  {
    tr', acts' := Go(cfg, tr, acts, LoopTest);
    tr', acts' := Go(cfg, tr', acts', DrainEvents);
    tr', acts' := Go(cfg, tr', acts', InsertBatch(false));
  }

  /** A fault-free pass of the worker without postbacks. */
  lemma FlushPass(cfg: Config, tr: seq<State>, acts: seq<Action>)
    returns (tr': seq<State>, acts': seq<Action>)
    requires Run(cfg, tr, acts) && ForwardClock(tr, acts)
    requires var s := tr[|acts|].sys;
             s.pc == Top && s.running && s.pending != [] && s.postbacks == [] &&
             TokensDistinct(s.events + s.pending)
    ensures Run(cfg, tr', acts') && ForwardClock(tr', acts') && tr <= tr' && acts <= acts'
    ensures var s := tr[|acts|].sys;
            tr'[|acts'|].sys == s.(pending := [], events := s.events + s.pending, pc := Flushed)
    ensures tr'[|acts'|].audit.settled == tr[|acts|].audit.settled
  {
    tr', acts' := CommitPass(cfg, tr, acts);
    tr', acts' := Go(cfg, tr', acts', DrainPostbacks);
    tr', acts' := Go(cfg, tr', acts', EndPostbacks);
  }
}
