/** What the rollup counts: the counters it computes one event at a time are the
    numbers of events of each type, and these are what it writes. */
module Counting {
  import opened Metrics
  import opened Selections

  /** A timestamp lies on a day when integer division of its milliseconds, which
      drops the fraction toward zero, gives that day. */
  predicate OnDay(ts: int, day: int) {
    if day > 0 then day * 86_400_000 <= ts < (day + 1) * 86_400_000
    else if day < 0 then (day - 1) * 86_400_000 < ts <= day * 86_400_000
    else -86_400_000 < ts < 86_400_000
  }

  lemma DayIff(ts: int, day: int)
    ensures Day(ts) == day <==> OnDay(ts, day)
  {}

  /** An item's event on a day, by anything but a bot. */
  predicate Concerns(e: Event, day: int, item: int) {
    e.itemId == Some(item) && e.uaClass != "bot" && OnDay(e.ts, day)
  }

  /** Where a log has an item's events of one type on one day. */
  ghost function Hits(events: seq<Event>, day: int, item: int, kind: EventType): set<nat> {
    set i: nat | i < |events| && Concerns(events[i], day, item) && events[i].kind == kind
  }

  /** How many there are of each counted type. */
  ghost function CountsOf(events: seq<Event>, day: int, item: int): Counts {
    Counts(|Hits(events, day, item, Impression)|, |Hits(events, day, item, CardClick)|,
           |Hits(events, day, item, Outbound)|)
  }

  lemma HitsMore(events: seq<Event>, e: Event, day: int, item: int, kind: EventType)
    ensures |Hits(events + [e], day, item, kind)| ==
            |Hits(events, day, item, kind)| + if Concerns(e, day, item) && e.kind == kind then 1 else 0
  {
    var before, after := Hits(events, day, item, kind), Hits(events + [e], day, item, kind);
    assert after == before + if Concerns(e, day, item) && e.kind == kind then {|events|} else {};
  }

  /** One more event of an item adds one to the counter of its type, and to no other. */
  lemma CountOneMore(events: seq<Event>, e: Event, day: int, item: int)
    ensures var was, now := CountsOf(events, day, item), CountsOf(events + [e], day, item);
            var one := (kind: EventType) => if Concerns(e, day, item) && e.kind == kind then 1 else 0;
            && now.impressions == was.impressions + one(Impression)
            && now.cardClicks == was.cardClicks + one(CardClick)
            && now.outbounds == was.outbounds + one(Outbound)
  {
    HitsMore(events, e, day, item, Impression);
    HitsMore(events, e, day, item, CardClick);
    HitsMore(events, e, day, item, Outbound);
  }

  /** Adding up one event at a time counts the events of each type. */
  lemma {:induction false} TallyCounts(events: seq<Event>, day: int, item: int)
    ensures Tally(events, day, item) == CountsOf(events, day, item)
  {
    if events != [] {
      var n := |events| - 1;
      TallyCounts(events[..n], day, item);
      DayIff(events[n].ts, day);
      CountOneMore(events[..n], events[n], day, item);
      assert events == events[..n] + [events[n]];
    }
  }

  /** Grouping computes the tally of every (day, item) that has an event in range. */
  lemma {:induction false} GroupMeaning(events: seq<Event>, from: int, to: int, day: int, item: int)
    ensures (day, item) in Grouped(events, from, to) <==>
            from <= day <= to && exists e :: e in events && CountedUnder(e, day, item)
    ensures from <= day <= to ==> Stat(Grouped(events, from, to), day, item) == Tally(events, day, item)
  {
    if events != [] {
      var n := |events| - 1;
      GroupMeaning(events[..n], from, to, day, item);
      assert events == events[..n] + [events[n]];
      assert CountedUnder(events[n], day, item) && from <= day <= to <==>
             Rollable(events[n], from, to) && GroupOf(events[n]) == (day, item);
    }
  }

  /** What a rollup leaves in each row. */
  lemma RolledStat(events: seq<Event>, stats: Stats, from: int, to: int, day: int, item: int)
    ensures var r := Stat(RolledUp(events, stats, from, to), day, item);
            if from <= day <= to && exists e :: e in events && CountedUnder(e, day, item)
            then r == Tally(events, day, item)
            else r == Stat(stats, day, item)
  {
    GroupMeaning(events, from, to, day, item);
  }

  /** A row after a rollup of the given days: written with the item's numbers of
      events if it has any event on that day, and left alone otherwise. */
  ghost predicate RowAfterRollup(events: seq<Event>, was: Stats, now: Stats, from: int, to: int, day: int, item: int) {
    if from <= day <= to && exists i :: 0 <= i < |events| && Concerns(events[i], day, item)
    then (day, item) in now && now[(day, item)] == CountsOf(events, day, item)
    else ((day, item) in now <==> (day, item) in was) && ((day, item) in was ==> now[(day, item)] == was[(day, item)])
  }

  lemma RollupWrites(events: seq<Event>, stats: Stats, from: int, to: int, day: int, item: int)
    ensures RowAfterRollup(events, stats, RolledUp(events, stats, from, to), from, to, day, item)
  {
    GroupMeaning(events, from, to, day, item);
    TallyCounts(events, day, item);
    forall i | 0 <= i < |events| ensures Concerns(events[i], day, item) <==> CountedUnder(events[i], day, item) {
      DayIff(events[i].ts, day);
    }
    if exists e :: e in events && CountedUnder(e, day, item) {
      var e :| e in events && CountedUnder(e, day, item);
      var i :| 0 <= i < |events| && events[i] == e;
      assert Concerns(events[i], day, item);
    }
  }

  /** A prune keeps exactly the rows whose time is not before the cutoff, in order. */
  lemma {:induction false} KeepSelects(events: seq<Event>, cutoff: int) returns (at: seq<nat>)
    ensures Selects(events, (e: Event) => if e.ts >= cutoff then Some(e) else None, Keep(events, cutoff), at)
  {
    if events == [] {
      at := [];
    } else {
      var n := |events| - 1;
      at := KeepSelects(events[..n], cutoff);
      assert events == events[..n] + [events[n]];
      at := SelectsMore(events[..n], events[n], (e: Event) => if e.ts >= cutoff then Some(e) else None,
                        Keep(events[..n], cutoff), at);
    }
  }
}
