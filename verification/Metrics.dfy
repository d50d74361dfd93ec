/** The event and conversion records, and what each SQL statement of the metrics
    code does to the three metrics tables, stated on values.

    The classes in Database.dfy carry the statements out step by step; the
    transition system in Pipeline.dfy takes them as atomic steps. */
module Metrics {

  datatype Option<+T> = None | Some(value: T)

  datatype EventType = Impression | CardClick | Outbound | Search

  /** One row of the event log. An empty click token is stored as NULL. */
  datatype Event = Event(
    ts: int,
    anonId: string,
    sessionId: string,
    kind: EventType,
    itemId: Option<int>,
    position: Option<int>,
    surface: string,
    clickToken: string,
    source: string,
    uaClass: string,
    ipHash: seq<nat>,
    payload: string)

  /** A postback as it waits in the queue. */
  datatype Conversion = Conversion(
    clickToken: string,
    ts: int,
    orderRef: string,
    amount: Option<int>,
    status: string,
    raw: string)

  /** A row of the conversions table; an empty order reference is stored as NULL. */
  datatype ConversionRow = ConversionRow(
    clickToken: string,
    ts: int,
    orderRef: Option<string>,
    amount: Option<int>,
    status: string,
    raw: string)

  datatype Counts = Counts(impressions: nat, cardClicks: nat, outbounds: nat)

  const ZERO := Counts(0, 0, 0)

  type Stats = map<(int, int), Counts>

  // ---------------------------------------------------------------- time --

  const DAY_MS := 86_400_000

  /** Day number of a timestamp. Both C++ and SQLite divide toward zero. */
  function Day(ts: int): int {
    if ts >= 0 then ts / DAY_MS else -((-ts) / DAY_MS)
  }

  // ------------------------------------------------------------- inserts --

  /** The partial unique index on events(click_token). */
  ghost predicate TokensDistinct(events: seq<Event>) {
    forall i, j :: 0 <= i < j < |events| && events[i].clickToken != "" ==>
      events[i].clickToken != events[j].clickToken
  }

  // ------------------------------------------------------------- pruning --

  /** What the prune statement leaves: rows from the cutoff on. */
  function Keep(events: seq<Event>, cutoff: int): seq<Event> {
    if events == [] then []
    else
      var last := events[|events| - 1];
      Keep(events[..|events| - 1], cutoff) + if last.ts < cutoff then [] else [last]
  }

  /** Deleting rows cannot break the unique index. */
  lemma {:induction false} KeepDistinct(events: seq<Event>, cutoff: int)
    requires TokensDistinct(events)
    ensures TokensDistinct(Keep(events, cutoff))
    ensures forall e :: e in Keep(events, cutoff) ==> e in events
  {
    if events != [] {
      var n := |events| - 1;
      KeepDistinct(events[..n], cutoff);
      forall e | e in events[..n] && events[n].clickToken != ""
        ensures e.clickToken != events[n].clickToken
      {
        var i :| 0 <= i < n && events[i] == e;
      }
    }
  }

  // -------------------------------------------------------------- rollup --

  /** Does the rollup count this event under the given day and item? */
  predicate CountedUnder(e: Event, day: int, item: int) {
    e.itemId == Some(item) && e.uaClass != "bot" && Day(e.ts) == day
  }

  function AddEvent(c: Counts, kind: EventType): Counts {
    match kind
    case Impression => c.(impressions := c.impressions + 1)
    case CardClick => c.(cardClicks := c.cardClicks + 1)
    case Outbound => c.(outbounds := c.outbounds + 1)
    case Search => c
  }

  /** The true counters of one item on one day over a sequence of events. */
  function Tally(events: seq<Event>, day: int, item: int): Counts {
    if events == [] then ZERO
    else
      var last := events[|events| - 1];
      var before := Tally(events[..|events| - 1], day, item);
      if CountedUnder(last, day, item) then AddEvent(before, last.kind) else before
  }

  predicate AtMost(a: Counts, b: Counts) {
    a.impressions <= b.impressions && a.cardClicks <= b.cardClicks && a.outbounds <= b.outbounds
  }

  /** The WHERE clause of the rollup. */
  predicate Rollable(e: Event, dayFrom: int, dayTo: int) {
    e.itemId.Some? && e.uaClass != "bot" && dayFrom <= Day(e.ts) <= dayTo
  }

  function GroupOf(e: Event): (int, int)
    requires e.itemId.Some?
  {
    (Day(e.ts), e.itemId.value)
  }

  /** SELECT ... GROUP BY day, item: the counters of every group. */
  function Grouped(events: seq<Event>, dayFrom: int, dayTo: int): Stats {
    if events == [] then map[]
    else AddToGroup(Grouped(events[..|events| - 1], dayFrom, dayTo), events[|events| - 1], dayFrom, dayTo)
  }

  function AddToGroup(groups: Stats, e: Event, dayFrom: int, dayTo: int): Stats {
    if Rollable(e, dayFrom, dayTo)
    then groups[GroupOf(e) := AddEvent(Stat(groups, Day(e.ts), e.itemId.value), e.kind)]
    else groups
  }

  /** ON CONFLICT DO UPDATE: every group overwrites its row, other rows stay. */
  function RolledUp(events: seq<Event>, stats: Stats, dayFrom: int, dayTo: int): Stats {
    stats + Grouped(events, dayFrom, dayTo)
  }

  /** A counter row, with an absent row read as zero. */
  function Stat(stats: Stats, day: int, item: int): Counts {
    if (day, item) in stats then stats[(day, item)] else ZERO
  }

  // --------------------------------------------------------- conversions --

  predicate ValidStatus(status: string) {
    status == "pending" || status == "approved" || status == "rejected"
  }

  predicate HasClick(events: seq<Event>, token: string) {
    exists i :: 0 <= i < |events| && events[i].clickToken != "" && events[i].clickToken == token
  }

  function ToRow(c: Conversion): ConversionRow {
    ConversionRow(c.clickToken, c.ts, if c.orderRef == "" then None else Some(c.orderRef),
                  c.amount, c.status, c.raw)
  }

  /** Position of the row holding an order reference, or |rows|. */
  function OrderIndex(rows: seq<ConversionRow>, orderRef: string): (i: nat)
    ensures i <= |rows|
    ensures i < |rows| ==> rows[i].orderRef == Some(orderRef)
    ensures forall k :: 0 <= k < i ==> rows[k].orderRef != Some(orderRef)
  {
    if rows == [] then 0
    else
      var i := OrderIndex(rows[..|rows| - 1], orderRef);
      if i < |rows| - 1 || rows[|rows| - 1].orderRef == Some(orderRef) then i else |rows|
  }

  /** INSERT ... ON CONFLICT(order_ref) DO UPDATE SET status, amount_kopek, ts. */
  function Upsert(rows: seq<ConversionRow>, c: Conversion): seq<ConversionRow> {
    var i := OrderIndex(rows, c.orderRef);
    if c.orderRef != "" && i < |rows| then
      rows[i := rows[i].(status := c.status, amount := c.amount, ts := c.ts)]
    else rows + [ToRow(c)]
  }
}
