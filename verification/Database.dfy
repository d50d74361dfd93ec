/** The metrics statements of the database connection, carried out row by row on
    the tables and proved against the table functions of Metrics. Faults of the
    database engine are parameters. */
module Database {
  import opened Metrics
  import opened Counting
  import opened Pipeline

  class DbConn {
    var events: seq<Event>
    var conversions: seq<ConversionRow>
    var stats: Stats

    /** The unique index on click tokens. */
    ghost predicate Valid() reads this`events { TokensDistinct(events) }

    constructor ()
      ensures Valid() && events == [] && conversions == [] && stats == map[]
    {
      events, conversions, stats := [], [], map[];
    }

    /** All rows or none. `failAt` numbers the statement that faults: 0 is BEGIN,
        then one per row, then COMMIT. */
    method InsertEvents(batch: seq<Event>, failAt: Option<nat>) returns (ok: bool)
      requires Valid()
      modifies this`events
      ensures Valid()
      ensures ok <==> batch == [] || ((failAt.Some? ==> failAt.value > |batch| + 1) &&
                                      TokensDistinct(old(events) + batch))
      ensures events == if ok then old(events) + batch else old(events)
    {
      if batch == [] { return true; }
      if failAt == Some(0) { return false; }
      var saved := events;
      var i := 0;
      while i < |batch|
        invariant 0 <= i <= |batch|
        invariant events == saved + batch[..i] && Valid()
        invariant failAt.Some? ==> failAt.value > i
      {
        var clash := HasToken(events, batch[i].clickToken);
        if failAt == Some(i + 1) || clash {
          if clash {
            var k :| 0 <= k < |events| && events[k].clickToken == batch[i].clickToken;
            assert (saved + batch)[k] == events[k] && (saved + batch)[|saved| + i] == batch[i];
          }
          events := saved;
          return false;
        }
        events := events + [batch[i]];
        i := i + 1;
      }
      assert batch[..i] == batch;
      if failAt == Some(|batch| + 1) {
        events := saved;
        return false;
      }
      return true;
    }

    /** The click lookup by token; NULL matches nothing. */
    static method HasToken(events: seq<Event>, token: string) returns (found: bool)
      ensures found <==> HasClick(events, token)
    {
      for i := 0 to |events|
        invariant forall k :: 0 <= k < i ==> events[k].clickToken == "" || events[k].clickToken != token
      {
        if events[i].clickToken != "" && events[i].clickToken == token { return true; }
      }
      return false;
    }

    /** The first statement is the SELECT, the second the upsert. */
    method RecordConversion(c: Conversion, selectFails: bool, upsertFails: bool) returns (outcome: Outcome)
      modifies this`conversions
      ensures outcome == RecordOutcome(events, c, selectFails || (HasClick(events, c.clickToken) && upsertFails))
      ensures conversions == if outcome.Recorded? then Upsert(old(conversions), c) else old(conversions)
    {
      if selectFails { return Lost; }
      var found := HasToken(events, c.clickToken);
      if !found { return Unmatched; }
      if upsertFails || !ValidStatus(c.status) { return Lost; }
      var i := 0;
      while i < |conversions| && (c.orderRef == "" || conversions[i].orderRef != Some(c.orderRef))
        invariant 0 <= i <= |conversions| && conversions == old(conversions)
        invariant c.orderRef != "" ==> forall k :: 0 <= k < i ==> conversions[k].orderRef != Some(c.orderRef)
      {
        i := i + 1;
      }
      if i < |conversions| {
        conversions := conversions[i := conversions[i].(status := c.status, amount := c.amount, ts := c.ts)];
      } else {
        conversions := conversions + [ToRow(c)];
      }
      return Recorded;
    }

    /** Groups the matching events, then writes each group over its row. */
    method RollupDaily(dayFrom: int, dayTo: int)
      modifies this`stats
      ensures stats == RolledUp(events, old(stats), dayFrom, dayTo)
      ensures forall day, item :: RowAfterRollup(events, old(stats), stats, dayFrom, dayTo, day, item)
    {
      var groups := GroupEvents(events, dayFrom, dayTo);
      OverwriteRows(groups);
      forall day, item ensures RowAfterRollup(events, old(stats), stats, dayFrom, dayTo, day, item) {
        RollupWrites(events, old(stats), dayFrom, dayTo, day, item);
      }
    }

    static method GroupEvents(events: seq<Event>, dayFrom: int, dayTo: int) returns (groups: Stats)
      ensures groups == Grouped(events, dayFrom, dayTo)
    {
      groups := map[];
      var i := 0;
      while i < |events|
        invariant 0 <= i <= |events|
        invariant groups == Grouped(events[..i], dayFrom, dayTo)
      {
        var e := events[i];
        assert events[..i + 1][..i] == events[..i];
        if e.itemId.Some? && e.uaClass != "bot" && dayFrom <= Day(e.ts) <= dayTo {
          var k := (Day(e.ts), e.itemId.value);
          var row := if k in groups then groups[k] else ZERO;
          groups := groups[k := AddEvent(row, e.kind)];
        }
        i := i + 1;
      }
      assert events[..i] == events;
    }

    method OverwriteRows(groups: Stats)
      modifies this`stats
      ensures stats == old(stats) + groups
    {
      var left := groups.Keys;
      while left != {}
        invariant left <= groups.Keys
        invariant stats == old(stats) + (groups - left)
        decreases |left|
      {
        var k :| k in left;
        stats := stats[k := groups[k]];
        left := left - {k};
      }
    }

    method PruneEvents(olderThan: int) returns (removed: nat)
      requires Valid()
      modifies this`events
      ensures Valid()
      ensures events == Keep(old(events), olderThan)
      ensures |events| + removed == |old(events)|
    {
      var kept := [];
      var i := 0;
      while i < |events|
        invariant 0 <= i <= |events| && kept == Keep(events[..i], olderThan) && |kept| <= i
      {
        assert events[..i + 1][..i] == events[..i];
        if events[i].ts >= olderThan { kept := kept + [events[i]]; }
        i := i + 1;
      }
      assert events[..i] == events;
      KeepDistinct(events, olderThan);
      removed := |events| - |kept|;
      events := kept;
    }
  }
}
