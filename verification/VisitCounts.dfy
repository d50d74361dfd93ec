/** From a visit to its counter: what is stored for a visit, which counter it adds
    to, and that it shows there after the next rollup of its day. */
module VisitCounts {
  import opened Metrics
  import opened Counting
  import opened Pipeline
  import opened Conservation
  import opened RollupTheorems
  import opened Completeness

  function KindOf(v: Visit): EventType {
    match v
    case Redirect(_, _, _, _, _) => Outbound
    case OpenCard(_, _, _, _) => CardClick
    case SeeCard(_, _, _) => Impression
  }

  /** The row tells who did what with which item, where and when; only a redirect
      carries a token, and an impression has no source. */
  ghost predicate Tells(e: Event, who: Visitor, v: Visit, now: int) {
    && e.ts == now && e.anonId == who.anonId && e.sessionId == who.sessionId
    && e.uaClass == who.uaClass && e.ipHash == who.ipHash
    && e.kind == KindOf(v) && e.itemId == Some(v.item) && e.position == v.position && e.surface == v.surface
    && e.clickToken == (if v.Redirect? then v.token else "")
    && e.source == (if v.SeeCard? then "" else v.source)
  }

  /** An accepted visit whose batch commits is stored as it happened. */
  lemma VisitIsStored(cfg: Config, tr: seq<State>, acts: seq<Action>, visit: nat, drain: nat, insert: nat)
    returns (e: Event)
    requires Run(cfg, tr, acts) && visit < drain < insert < |acts|
    requires acts[visit].Log? && |tr[visit].sys.pending| < cfg.capacity
    requires acts[drain] == DrainEvents && NoDrain(acts, visit + 1, drain)
    requires CommitsAt(tr[insert], acts[insert]) && NoInsert(acts, drain + 1, insert)
    ensures e in tr[insert + 1].sys.events && e in History(tr[insert + 1].audit.log)
    ensures Tells(e, acts[visit].who, acts[visit].visit, tr[visit].sys.clock)
  {
    e := LoggedEvent(acts[visit].who, acts[visit].visit, tr[visit].sys.clock);
    AcceptedClickIsStored(cfg, tr, acts, visit, drain, insert);
    EveryPushIsAccountedFor(cfg, tr, acts, insert + 1);
    LiveIsCommitted(tr[insert + 1].audit.log, e);
  }

  /** A row that tells of a visit adds one to the counter of the visit's kind, for
      its item on its day and unless a bot made it, and changes no other counter. */
  lemma VisitAddsOne(events: seq<Event>, e: Event, who: Visitor, v: Visit, now: int, day: int, item: int)
    requires Tells(e, who, v, now)
    ensures var was, after := CountsOf(events, day, item), CountsOf(events + [e], day, item);
            if v.item == item && who.uaClass != "bot" && OnDay(now, day) then
              match v
              case Redirect(_, _, _, _, _) => after == was.(outbounds := was.outbounds + 1)
              case OpenCard(_, _, _, _) => after == was.(cardClicks := was.cardClicks + 1)
              case SeeCard(_, _, _) => after == was.(impressions := was.impressions + 1)
            else after == was
  {
    CountOneMore(events, e, day, item);
  }

  /** The counter of a kind. */
  function Counter(c: Counts, kind: EventType): nat {
    match kind
    case Impression => c.impressions
    case CardClick => c.cardClicks
    case Outbound => c.outbounds
    case Search => 0
  }

  lemma CountedOnce(events: seq<Event>, e: Event, day: int, item: int)
    requires e in events && Concerns(e, day, item) && e.kind != Search
    ensures Counter(CountsOf(events, day, item), e.kind) >= 1
  {
    var i :| 0 <= i < |events| && events[i] == e;
    assert i in Hits(events, day, item, e.kind);
  }

  /** A visit by anything but a bot, accepted and committed, shows in its item's
      counter for its day once a rollup of that day has run, in every later state. */
  lemma VisitReachesCounter(cfg: Config, tr: seq<State>, acts: seq<Action>,
                            visit: nat, drain: nat, insert: nat, roll: nat, j: nat)
    requires Run(cfg, tr, acts) && ForwardClock(tr, acts) && cfg.retentionDays >= 2
    requires visit < drain < insert < roll < j < |tr|
    requires acts[visit].Log? && |tr[visit].sys.pending| < cfg.capacity && acts[visit].who.uaClass != "bot"
    requires acts[drain] == DrainEvents && NoDrain(acts, visit + 1, drain)
    requires CommitsAt(tr[insert], acts[insert]) && NoInsert(acts, drain + 1, insert)
    requires acts[roll] == Rollup(false) && tr[roll].sys.pc.Maintaining?
    requires var day := Day(tr[visit].sys.clock); day <= Day(tr[roll].sys.pc.now) <= day + 1
    ensures var v := acts[visit].visit;
            Counter(Stat(tr[j].sys.stats, Day(tr[visit].sys.clock), v.item), KindOf(v)) >= 1
  {
    var v, day := acts[visit].visit, Day(tr[visit].sys.clock);
    var e := VisitIsStored(cfg, tr, acts, visit, drain, insert);
    Growth(cfg, tr, acts, insert + 1, roll, day);
    CountersCountEvents(cfg, tr, acts, roll + 1, day, v.item);
    assert Taken(cfg, tr[roll], acts[roll], tr[roll + 1]);
    var history := History(tr[roll + 1].audit.log);
    assert history[..Seen(tr[roll + 1].audit.rolled, day)] == History(tr[roll].audit.log);
    DayIff(e.ts, day);
    CountedOnce(History(tr[roll].audit.log), e, day, v.item);
    CountersNeverFall(cfg, tr, acts, roll + 1, j, day, v.item);
  }
}
