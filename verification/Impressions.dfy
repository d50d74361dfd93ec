/** Impression tracking: the page's callbacks, and the server's loop over a batch.
    Every impression is reported at most once per page life, and the server
    accepts every entry a page sends. */
module Impressions {
  import opened Metrics
  import opened Pipeline
  import opened Decimal
  import opened Selections

  const MAX_BATCH := 200

  /** A card of the page: the item its attribute parses to (None for NaN), the
      position and the surface. */
  datatype Card = Card(item: Option<int>, pos: int, surface: string)

  datatype Report = Report(item: int, p: int, s: string)

  /** The script's variables, the browser's outstanding timeouts, what was sent,
      and the items dropped on a full queue. */
  datatype Tab = Tab(
    queue: seq<Report>,
    seen: set<int>,
    timers: map<nat, nat>,      // card -> timeout
    armed: map<nat, nat>,       // outstanding timeout -> card
    nextTimeout: nat,
    sent: seq<seq<Report>>,
    lost: set<int>)

  const FRESH_TAB := Tab([], {}, map[], map[], 1, [], {})

  function Enqueue(t: Tab, card: Card): Tab {
    if card.item.None? || card.item.value == 0 || card.item.value in t.seen then t
    else
      var id := card.item.value;
      if |t.queue| >= MAX_BATCH then t.(seen := t.seen + {id}, lost := t.lost + {id})
      else t.(seen := t.seen + {id}, queue := t.queue + [Report(id, card.pos, card.surface)])
  }

  function Flush(t: Tab): Tab {
    if t.queue == [] then t else t.(queue := [], sent := t.sent + [t.queue])
  }

  /** A card became at least half visible: start its timer unless it has one. */
  function Show(t: Tab, el: nat): Tab {
    if el in t.timers then t
    else t.(timers := t.timers[el := t.nextTimeout], armed := t.armed[t.nextTimeout := el],
            nextTimeout := t.nextTimeout + 1)
  }

  function Hide(t: Tab, el: nat): Tab {
    if el !in t.timers then t
    else t.(timers := t.timers - {el}, armed := t.armed - {t.timers[el]})
  }

  /** An outstanding timeout fires. */
  function Fire(t: Tab, cards: seq<Card>, timeout: nat): Tab
    requires timeout in t.armed && t.armed[timeout] < |cards|
  {
    var el := t.armed[timeout];
    var t1 := Enqueue(t.(armed := t.armed - {timeout}), cards[el]);
    t1.(timers := t1.timers - {el})
  }

  // ---------------------------------------------------------- the script --

  class Tracker {
    const cards: seq<Card>
    var queue: seq<Report>
    var seen: set<int>
    var timers: map<nat, nat>
    // the browser's side
    var armed: map<nat, nat>
    var nextTimeout: nat
    ghost var sent: seq<seq<Report>>
    ghost var lost: set<int>

    ghost function View(): Tab reads this {
      Tab(queue, seen, timers, armed, nextTimeout, sent, lost)
    }

    constructor (cards: seq<Card>)
      ensures this.cards == cards && View() == FRESH_TAB
    {
      this.cards := cards;
      queue, seen, timers, armed, nextTimeout, sent, lost := [], {}, map[], map[], 1, [], {};
    }

    method EnqueueCard(card: Card)
      modifies this
      ensures View() == Enqueue(old(View()), card)
    {
      if card.item.None? || card.item.value == 0 || card.item.value in seen { return; }
      var id := card.item.value;
      seen := seen + {id};
      if |queue| >= MAX_BATCH {
        lost := lost + {id};
        return;
      }
      queue := queue + [Report(id, card.pos, card.surface)];
    }

    method FlushQueue() returns (batch: seq<Report>)
      modifies this
      ensures View() == Flush(old(View())) && batch == old(queue)
    {
      batch := queue;
      if |queue| == 0 { return; }
      queue := [];
      sent := sent + [batch];
    }

    method OnIntersection(el: nat, visible: bool)
      requires el < |cards|
      modifies this
      ensures View() == if visible then Show(old(View()), el) else Hide(old(View()), el)
    {
      if visible {
        if el in timers { return; }
        timers, armed := timers[el := nextTimeout], armed[nextTimeout := el];
        nextTimeout := nextTimeout + 1;
      } else if el in timers {
        armed := armed - {timers[el]};
        timers := timers - {el};
      }
    }

    method OnTimeout(timeout: nat)
      requires timeout in armed && armed[timeout] < |cards|
      modifies this
      ensures View() == Fire(old(View()), cards, timeout)
    {
      var el := armed[timeout];
      armed := armed - {timeout};
      EnqueueCard(cards[el]);
      timers := timers - {el};
    }
  }

  // ------------------------------------------------------------ all runs --

  function Items(rs: seq<Report>): seq<int> { seq(|rs|, i requires 0 <= i < |rs| => rs[i].item) }

  function Flat(batches: seq<seq<Report>>): seq<Report> {
    if batches == [] then [] else Flat(batches[..|batches| - 1]) + batches[|batches| - 1]
  }

  ghost predicate Distinct(ids: seq<int>) {
    forall i, j :: 0 <= i < j < |ids| ==> ids[i] != ids[j]
  }

  /** Reported items are distinct, and every seen item is reported or lost. */
  ghost predicate OncePerItem(reported: seq<Report>, seen: set<int>, lost: set<int>) {
    && Distinct(Items(reported))
    && (forall i :: 0 <= i < |reported| ==> reported[i].item in seen && reported[i].item !in lost)
    && forall id :: id in seen ==> id in lost || id in Items(reported)
  }

  /** The script's timers and the browser's timeouts are inverse to each other, so
      no card ever has two timeouts pending. */
  ghost predicate OneTimerPerCard(t: Tab) {
    && (forall el :: el in t.timers ==> t.timers[el] in t.armed && t.armed[t.timers[el]] == el)
    && (forall h :: h in t.armed ==> h < t.nextTimeout && t.armed[h] in t.timers && t.timers[t.armed[h]] == h)
  }

  ghost predicate Small(batches: seq<seq<Report>>) {
    forall i :: 0 <= i < |batches| ==> 0 < |batches[i]| <= MAX_BATCH
  }

  ghost predicate Tidy(t: Tab, cards: nat) {
    && OncePerItem(Flat(t.sent) + t.queue, t.seen, t.lost)
    && OneTimerPerCard(t)
    && Small(t.sent) && |t.queue| <= MAX_BATCH
    && forall h :: h in t.armed ==> t.armed[h] < cards
  }

  datatype Happening = Shown(el: nat) | Hidden(el: nat) | Fired(timeout: nat) | Flushed

  ghost predicate Possible(t: Tab, cards: seq<Card>, h: Happening) {
    match h
    case Shown(el) => el < |cards|
    case Hidden(el) => el < |cards|
    case Fired(timeout) => timeout in t.armed && t.armed[timeout] < |cards|
    case Flushed => true
  }

  function Happen(t: Tab, cards: seq<Card>, h: Happening): Tab
    requires Possible(t, cards, h)
  {
    match h
    case Shown(el) => Show(t, el)
    case Hidden(el) => Hide(t, el)
    case Fired(timeout) => Fire(t, cards, timeout)
    case Flushed => Flush(t)
  }

  lemma ReportOne(reported: seq<Report>, seen: set<int>, lost: set<int>, r: Report)
    requires OncePerItem(reported, seen, lost) && r.item !in seen && lost <= seen
    ensures OncePerItem(reported + [r], seen + {r.item}, lost)
  {
    var more := reported + [r];
    assert Items(more) == Items(reported) + [r.item];
    forall i | 0 <= i < |reported| ensures Items(more)[i] != r.item {
      assert reported[i].item in seen;
    }
  }

  lemma LoseOne(reported: seq<Report>, seen: set<int>, lost: set<int>, id: int)
    requires OncePerItem(reported, seen, lost) && id !in seen
    ensures OncePerItem(reported, seen + {id}, lost + {id})
  {}

  lemma EnqueueTidy(t: Tab, card: Card, cards: nat)
    requires OncePerItem(Flat(t.sent) + t.queue, t.seen, t.lost) && t.lost <= t.seen && |t.queue| <= MAX_BATCH
    ensures var t' := Enqueue(t, card);
            && OncePerItem(Flat(t'.sent) + t'.queue, t'.seen, t'.lost) && t'.lost <= t'.seen
            && |t'.queue| <= MAX_BATCH
  {
    if card.item.Some? && card.item.value != 0 && card.item.value !in t.seen {
      var id := card.item.value;
      if |t.queue| >= MAX_BATCH {
        LoseOne(Flat(t.sent) + t.queue, t.seen, t.lost, id);
      } else {
        var r := Report(id, card.pos, card.surface);
        ReportOne(Flat(t.sent) + t.queue, t.seen, t.lost, r);
        assert (Flat(t.sent) + t.queue) + [r] == Flat(t.sent) + (t.queue + [r]);
      }
    }
  }

  lemma SightTidy(t: Tab, cards: seq<Card>, h: Happening)
    requires Tidy(t, |cards|) && Possible(t, cards, h) && (h.Shown? || h.Hidden?)
    ensures Tidy(Happen(t, cards, h), |cards|)
  {
    var t' := Happen(t, cards, h);
    assert t'.sent == t.sent && t'.queue == t.queue && t'.seen == t.seen && t'.lost == t.lost;
  }

  lemma FiredTidy(t: Tab, cards: seq<Card>, timeout: nat)
    requires Tidy(t, |cards|) && t.lost <= t.seen && Possible(t, cards, Fired(timeout))
    ensures var t' := Happen(t, cards, Fired(timeout)); Tidy(t', |cards|) && t'.lost <= t'.seen
  {
    EnqueueTidy(t.(armed := t.armed - {timeout}), cards[t.armed[timeout]], |cards|);
  }

  lemma FlushedTidy(t: Tab, cards: seq<Card>)
    requires Tidy(t, |cards|)
    ensures Tidy(Happen(t, cards, Happening.Flushed), |cards|)
  {
    if t.queue != [] {
      assert (t.sent + [t.queue])[..|t.sent|] == t.sent;
      assert Flat(t.sent + [t.queue]) + [] == Flat(t.sent) + t.queue;
    }
  }

  lemma HappenTidy(t: Tab, cards: seq<Card>, h: Happening)
    requires Tidy(t, |cards|) && t.lost <= t.seen && Possible(t, cards, h)
    ensures var t' := Happen(t, cards, h); Tidy(t', |cards|) && t'.lost <= t'.seen
  {
    match h
    case Shown(_) => SightTidy(t, cards, h);
    case Hidden(_) => SightTidy(t, cards, h);
    case Fired(timeout) => FiredTidy(t, cards, timeout);
    case Flushed => FlushedTidy(t, cards);
  }

  /** A life of the page. */
  ghost predicate Life(cards: seq<Card>, tabs: seq<Tab>, hs: seq<Happening>) {
    && |tabs| == |hs| + 1 && tabs[0] == FRESH_TAB
    && forall i :: 0 <= i < |hs| ==> Possible(tabs[i], cards, hs[i]) && tabs[i + 1] == Happen(tabs[i], cards, hs[i])
  }

  /** Over every sequence of visibility changes, timeouts and flushes. */
  lemma {:induction false} TabStaysTidy(cards: seq<Card>, tabs: seq<Tab>, hs: seq<Happening>, i: nat)
    requires Life(cards, tabs, hs) && i < |tabs|
    ensures Tidy(tabs[i], |cards|) && tabs[i].lost <= tabs[i].seen
  {
    if i > 0 {
      TabStaysTidy(cards, tabs, hs, i - 1);
      HappenTidy(tabs[i - 1], cards, hs[i - 1]);
    }
  }

  // ------------------------------------------------- what gets reported --

  /** Everything reported so far, sent or waiting. */
  function Reports(t: Tab): seq<Report> { Flat(t.sent) + t.queue }

  /** The card whose timeout fires in a happening. */
  ghost predicate FiresCard(t: Tab, h: Happening, el: nat) {
    h.Fired? && h.timeout in t.armed && t.armed[h.timeout] == el
  }

  /** ... and shows an item with this id for the first time. */
  ghost predicate FiresFirst(t: Tab, cards: seq<Card>, h: Happening, el: nat, id: int) {
    el < |cards| && FiresCard(t, h, el) && cards[el].item == Some(id) && id != 0 && id !in t.seen
  }

  /** What a happening does to the reports: a first showing with less than 200
      waiting is reported as the card says, one with 200 waiting is lost, and
      nothing else changes what is reported or lost. */
  lemma HappenReports(t: Tab, cards: seq<Card>, h: Happening)
    requires Possible(t, cards, h)
    ensures var t' := Happen(t, cards, h);
            if h.Fired? && FiresFirst(t, cards, h, t.armed[h.timeout], IdOf(cards[t.armed[h.timeout]])) then
              var card := cards[t.armed[h.timeout]];
              && t'.seen == t.seen + {IdOf(card)}
              && (if |t.queue| < 200
                  then Reports(t') == Reports(t) + [Report(IdOf(card), card.pos, card.surface)] && t'.lost == t.lost
                  else Reports(t') == Reports(t) && t'.lost == t.lost + {IdOf(card)})
            else Reports(t') == Reports(t) && t'.seen == t.seen && t'.lost == t.lost
  {
    match h
    case Shown(_) =>
    case Hidden(_) =>
    case Fired(timeout) =>
    case Flushed =>
      if t.queue != [] {
        assert (t.sent + [t.queue])[..|t.sent|] == t.sent;
        assert Flat(t.sent + [t.queue]) + [] == Flat(t.sent) + t.queue;
      }
  }

  function IdOf(card: Card): int { if card.item.Some? then card.item.value else 0 }

  /** A flush leaves nothing waiting. */
  lemma FlushSendsAll(t: Tab, cards: seq<Card>)
    ensures var t' := Happen(t, cards, Happening.Flushed);
            t'.queue == [] && Flat(t'.sent) == Reports(t)
  {
    HappenReports(t, cards, Happening.Flushed);
    assert Flat(t.sent) + [] == Flat(t.sent);
  }

  /** The happenings of a life in which an item's card fires. */
  ghost predicate FiresAt(cards: seq<Card>, tabs: seq<Tab>, hs: seq<Happening>, i: nat, id: int)
    requires i < |hs| < |tabs|
  {
    id != 0 && exists el :: 0 <= el < |cards| && FiresCard(tabs[i], hs[i], el) && cards[el].item == Some(id)
  }

  /** An item is seen exactly when one of its cards has fired. */
  lemma {:induction false} SeenIffFired(cards: seq<Card>, tabs: seq<Tab>, hs: seq<Happening>, j: nat, id: int)
    requires Life(cards, tabs, hs) && j < |tabs|
    ensures id in tabs[j].seen <==> exists i: nat :: i < j && FiresAt(cards, tabs, hs, i, id)
  {
    if j > 0 {
      SeenIffFired(cards, tabs, hs, j - 1, id);
      HappenReports(tabs[j - 1], cards, hs[j - 1]);
      SeenStep(cards, tabs, hs, j - 1, id);
    }
  }

  lemma SeenStep(cards: seq<Card>, tabs: seq<Tab>, hs: seq<Happening>, i: nat, id: int)
    requires Life(cards, tabs, hs) && i < |hs|
    ensures id in tabs[i + 1].seen <==> id in tabs[i].seen || FiresAt(cards, tabs, hs, i, id)
  {
    HappenReports(tabs[i], cards, hs[i]);
    if hs[i].Fired? {
      var el := tabs[i].armed[hs[i].timeout];
      assert FiresCard(tabs[i], hs[i], el);
      assert FiresAt(cards, tabs, hs, i, id) <==> id != 0 && cards[el].item == Some(id);
    }
  }

  /** An item enters the lost ones only with 200 reports waiting. */
  lemma LostOnlyWhenFull(cards: seq<Card>, tabs: seq<Tab>, hs: seq<Happening>, i: nat, id: int)
    requires Life(cards, tabs, hs) && i < |hs|
    requires id in tabs[i + 1].lost && id !in tabs[i].lost
    ensures FiresAt(cards, tabs, hs, i, id) && id !in tabs[i].seen && |tabs[i].queue| == 200
  {
    HappenReports(tabs[i], cards, hs[i]);
    SeenStep(cards, tabs, hs, i, id);
    TabStaysTidy(cards, tabs, hs, i);
  }

  lemma ReportsNext(cards: seq<Card>, tabs: seq<Tab>, hs: seq<Happening>, i: nat)
    requires Life(cards, tabs, hs) && i < |hs|
    ensures Reports(tabs[i]) <= Reports(tabs[i + 1])
  {
    HappenReports(tabs[i], cards, hs[i]);
  }

  /** Reports are never withdrawn. */
  lemma {:induction false} ReportsStay(cards: seq<Card>, tabs: seq<Tab>, hs: seq<Happening>, i: nat, j: nat)
    requires Life(cards, tabs, hs) && i <= j < |tabs|
    ensures Reports(tabs[i]) <= Reports(tabs[j])
  {
    if i < j {
      ReportsStay(cards, tabs, hs, i, j - 1);
      ReportsNext(cards, tabs, hs, j - 1);
      PrefixThrough(Reports(tabs[i]), Reports(tabs[j - 1]), Reports(tabs[j]));
    }
  }

  /** In every life: when a card's timeout fires and its item was not seen before, with
      less than 200 reports waiting, the item is reported from then on, with the
      position and surface of that card. */
  lemma FirstShowingIsReported(cards: seq<Card>, tabs: seq<Tab>, hs: seq<Happening>, i: nat, j: nat, el: nat, id: int)
    requires Life(cards, tabs, hs) && i < j < |tabs| && FiresFirst(tabs[i], cards, hs[i], el, id)
    requires |tabs[i].queue| < 200
    ensures Report(id, cards[el].pos, cards[el].surface) in Reports(tabs[j])
  {
    HappenReports(tabs[i], cards, hs[i]);
    ReportsStay(cards, tabs, hs, i + 1, j);
    var n := |Reports(tabs[i])|;
    assert Reports(tabs[j])[n] == Reports(tabs[i + 1])[n];
  }

  /** And nothing else is ever reported. */
  lemma {:induction false} ReportIsOfShowing(cards: seq<Card>, tabs: seq<Tab>, hs: seq<Happening>, j: nat, r: Report)
    returns (i: nat, el: nat)
    requires Life(cards, tabs, hs) && j < |tabs| && r in Reports(tabs[j])
    ensures i < j && FiresFirst(tabs[i], cards, hs[i], el, r.item) && |tabs[i].queue| < 200
    ensures r.p == cards[el].pos && r.s == cards[el].surface
  {
    assert j > 0;
    HappenReports(tabs[j - 1], cards, hs[j - 1]);
    if r in Reports(tabs[j - 1]) {
      i, el := ReportIsOfShowing(cards, tabs, hs, j - 1, r);
    } else {
      i, el := j - 1, tabs[j - 1].armed[hs[j - 1].timeout];
    }
  }

  // ------------------------------------------------ nothing lost on a page --

  /** The ids on a page. */
  ghost function IdsOf(cards: seq<Card>): set<int> {
    set el: nat | el < |cards| && IdOf(cards[el]) != 0 :: IdOf(cards[el])
  }

  lemma {:induction false} IdsNoMoreThanCards(cards: seq<Card>)
    ensures |IdsOf(cards)| <= |cards|
  {
    if cards != [] {
      var n := |cards| - 1;
      IdsNoMoreThanCards(cards[..n]);
      var last := IdOf(cards[n]);
      assert IdsOf(cards) <= IdsOf(cards[..n]) + {last} by {
        forall id | id in IdsOf(cards) ensures id in IdsOf(cards[..n]) + {last} {
          var el: nat :| el < |cards| && IdOf(cards[el]) == id && id != 0;
          if el < n { assert IdOf(cards[..n][el]) == id; }
        }
      }
      SmallerSet(IdsOf(cards), IdsOf(cards[..n]) + {last});
    }
  }

  /** Distinct reports of seen items are no more than the seen items. */
  lemma {:induction false} WaitingIsSeen(queue: seq<Report>, seen: set<int>)
    requires Distinct(Items(queue)) && forall k :: 0 <= k < |queue| ==> queue[k].item in seen
    ensures |queue| <= |seen|
  {
    if queue != [] {
      var n := |queue| - 1;
      var rest := queue[..n];
      assert Items(rest) == Items(queue)[..n];
      forall k | 0 <= k < n ensures rest[k].item in seen - {queue[n].item} {
        assert Items(queue)[k] != Items(queue)[n];
      }
      WaitingIsSeen(rest, seen - {queue[n].item});
    }
  }

  lemma {:induction false} SeenIsOnPage(cards: seq<Card>, tabs: seq<Tab>, hs: seq<Happening>, j: nat)
    requires Life(cards, tabs, hs) && j < |tabs|
    ensures tabs[j].seen <= IdsOf(cards)
  {
    if j > 0 {
      SeenIsOnPage(cards, tabs, hs, j - 1);
      forall id | id in tabs[j].seen ensures id in IdsOf(cards) {
        SeenStep(cards, tabs, hs, j - 1, id);
        if id !in tabs[j - 1].seen {
          var el :| 0 <= el < |cards| && FiresCard(tabs[j - 1], hs[j - 1], el) && cards[el].item == Some(id);
          assert IdOf(cards[el]) == id;
        }
      }
    }
  }

  /** With an id still to come there is room for it. */
  lemma RoomForOneMore(cards: seq<Card>, tabs: seq<Tab>, hs: seq<Happening>, i: nat, id: int)
    requires Life(cards, tabs, hs) && i < |tabs| && id in IdsOf(cards) && id !in tabs[i].seen
    ensures |tabs[i].queue| < |IdsOf(cards)|
  {
    var t := tabs[i];
    TabStaysTidy(cards, tabs, hs, i);
    SeenIsOnPage(cards, tabs, hs, i);
    var all, n := Flat(t.sent) + t.queue, |Flat(t.sent)|;
    assert forall k :: 0 <= k < |t.queue| ==> t.queue[k] == all[n + k];
    assert forall k :: 0 <= k < |t.queue| ==> Items(t.queue)[k] == Items(all)[n + k];
    WaitingIsSeen(t.queue, t.seen);
    SmallerSet(t.seen + {id}, IdsOf(cards));
  }

  /** A page with at most 200 different items loses none of them, however long it
      lives and whenever it flushes. */
  lemma {:induction false} NothingLost(cards: seq<Card>, tabs: seq<Tab>, hs: seq<Happening>, j: nat)
    requires Life(cards, tabs, hs) && j < |tabs| && |IdsOf(cards)| <= 200
    ensures tabs[j].lost == {}
  {
    if j > 0 {
      NothingLost(cards, tabs, hs, j - 1);
      if id :| id in tabs[j].lost {
        LostOnlyWhenFull(cards, tabs, hs, j - 1, id);
        SeenStep(cards, tabs, hs, j - 1, id);
        SeenIsOnPage(cards, tabs, hs, j);
        RoomForOneMore(cards, tabs, hs, j - 1, id);
        assert false;
      }
    }
  }

  // ---------------------------------------------------------- the timers --

  /** Since happening i the card was neither hidden nor fired. */
  ghost predicate StillShown(tabs: seq<Tab>, hs: seq<Happening>, i: nat, j: nat, el: nat)
    requires j <= |hs| < |tabs|
  {
    forall k :: i <= k < j ==> hs[k] != Hidden(el) && !FiresCard(tabs[k], hs[k], el)
  }

  /** A card has a timeout pending exactly while it has been in view since it was
      last shown. */
  ghost predicate InView(tabs: seq<Tab>, hs: seq<Happening>, j: nat, el: nat)
    requires j <= |hs| < |tabs|
  {
    exists i: nat :: i < j && hs[i] == Shown(el) && StillShown(tabs, hs, i + 1, j, el)
  }

  lemma TimerStep(t: Tab, cards: seq<Card>, h: Happening, el: nat)
    requires Possible(t, cards, h)
    ensures el in Happen(t, cards, h).timers <==>
            h == Shown(el) || (el in t.timers && h != Hidden(el) && !FiresCard(t, h, el))
  {}

  lemma {:induction false} TimerIffInView(cards: seq<Card>, tabs: seq<Tab>, hs: seq<Happening>, j: nat, el: nat)
    requires Life(cards, tabs, hs) && j < |tabs|
    ensures el in tabs[j].timers <==> InView(tabs, hs, j, el)
    ensures (exists h :: h in tabs[j].armed && tabs[j].armed[h] == el) <==> InView(tabs, hs, j, el)
  {
    if j > 0 {
      TimerIffInView(cards, tabs, hs, j - 1, el);
      TimerStep(tabs[j - 1], cards, hs[j - 1], el);
      InViewStep(tabs, hs, j, el);
    }
    TabStaysTidy(cards, tabs, hs, j);
    if el in tabs[j].timers { assert tabs[j].armed[tabs[j].timers[el]] == el; }
  }

  lemma InViewStep(tabs: seq<Tab>, hs: seq<Happening>, j: nat, el: nat)
    requires 0 < j <= |hs| < |tabs|
    ensures InView(tabs, hs, j, el) <==>
            hs[j - 1] == Shown(el) ||
            (InView(tabs, hs, j - 1, el) && hs[j - 1] != Hidden(el) && !FiresCard(tabs[j - 1], hs[j - 1], el))
  {
    if hs[j - 1] == Shown(el) { assert StillShown(tabs, hs, j, j, el); }
    if InView(tabs, hs, j - 1, el) && hs[j - 1] != Hidden(el) && !FiresCard(tabs[j - 1], hs[j - 1], el) {
      var i: nat :| i < j - 1 && hs[i] == Shown(el) && StillShown(tabs, hs, i + 1, j - 1, el);
      assert StillShown(tabs, hs, i + 1, j, el);
    }
    if InView(tabs, hs, j, el) && hs[j - 1] != Shown(el) {
      var i: nat :| i < j && hs[i] == Shown(el) && StillShown(tabs, hs, i + 1, j, el);
      assert i < j - 1 && StillShown(tabs, hs, i + 1, j - 1, el);
    }
  }

  // ---------------------------------------------------------- the server --

  datatype Value = Number(n: int) | Str(s: string) | Other
  datatype Json = Object(fields: map<string, Value>) | NotObject

  /** The impression an entry of the body describes, if it names an item. */
  function EntryVisit(e: Json): Option<Visit> {
    if e.Object? && "item" in e.fields && e.fields["item"].Number? then
      Some(SeeCard(e.fields["item"].n,
                   if "p" in e.fields && e.fields["p"].Number? then Some(Wrap32(e.fields["p"].n)) else None,
                   if "s" in e.fields && e.fields["s"].Str? then e.fields["s"].s else ""))
    else None
  }

  function Visits(body: seq<Json>): seq<Visit> {
    if body == [] then []
    else
      var v := EntryVisit(body[|body| - 1]);
      Visits(body[..|body| - 1]) + if v.Some? then [v.value] else []
  }

  function AtMostBatch(vs: seq<Visit>): seq<Visit> { if |vs| <= MAX_BATCH then vs else vs[..MAX_BATCH] }

  /** An entry tells of an impression exactly when it is an object whose item is an
      integer; a position that is no integer and a surface that is no text are left
      empty. */
  ghost predicate TellsOf(e: Json, v: Visit) {
    && e.Object? && "item" in e.fields && e.fields["item"].Number?
    && v.SeeCard? && v.item == e.fields["item"].n
    && ("p" in e.fields && e.fields["p"].Number? ==> v.position == Some(Wrap32(e.fields["p"].n)))
    && (!("p" in e.fields && e.fields["p"].Number?) ==> v.position == None)
    && ("s" in e.fields && e.fields["s"].Str? ==> v.surface == e.fields["s"].s)
    && (!("s" in e.fields && e.fields["s"].Str?) ==> v.surface == "")
  }

  lemma EntryVisitIff(e: Json, v: Visit)
    ensures EntryVisit(e) == Some(v) <==> TellsOf(e, v)
  {}

  /** The impressions of a body are those of its entries, in order, none left out. */
  lemma {:induction false} VisitsSelect(body: seq<Json>) returns (at: seq<nat>)
    ensures Selects(body, EntryVisit, Visits(body), at)
  {
    if body == [] {
      at := [];
    } else {
      var n := |body| - 1;
      at := VisitsSelect(body[..n]);
      assert body == body[..n] + [body[n]];
      at := SelectsMore(body[..n], body[n], EntryVisit, Visits(body[..n]), at);
    }
  }

  /** Logs the first 200 entries that name an item. A body that is not a JSON array
      is refused. */
  method HandleBeacon(body: Option<seq<Json>>) returns (logged: seq<Visit>, status: int)
    ensures body.None? ==> logged == [] && status == 400
    ensures body.Some? ==> logged == AtMostBatch(Visits(body.value)) && status == 204
  {
    if body.None? { return [], 400; }
    var entries := body.value;
    logged := [];
    status := 204;
    var i := 0;
    while i < |entries|
      invariant 0 <= i <= |entries|
      invariant logged == Visits(entries[..i]) && |logged| <= MAX_BATCH
    {
      if |logged| >= MAX_BATCH {
        VisitsPrefix(entries, i);
        return;
      }
      assert entries[..i + 1][..i] == entries[..i];
      var v := EntryVisit(entries[i]);
      if v.Some? { logged := logged + [v.value]; }
      i := i + 1;
    }
    assert entries[..i] == entries;
  }

  lemma {:induction false} VisitsPrefix(body: seq<Json>, n: nat)
    requires n <= |body|
    ensures Visits(body[..n]) <= Visits(body)
    decreases |body|
  {
    if n == |body| {
      assert body[..n] == body;
    } else {
      VisitsPrefix(body[..|body| - 1], n);
      assert body[..|body| - 1][..n] == body[..n];
    }
  }

  /** What a page sends for a report. */
  function ToJson(r: Report): Json {
    Object(map["item" := Number(r.item), "p" := Number(r.p), "s" := Str(r.s)])
  }

  function ToVisit(r: Report): Visit { SeeCard(r.item, Some(Wrap32(r.p)), r.s) }

  function BatchJson(rs: seq<Report>): seq<Json> { seq(|rs|, i requires 0 <= i < |rs| => ToJson(rs[i])) }

  function BatchVisits(rs: seq<Report>): seq<Visit> { seq(|rs|, i requires 0 <= i < |rs| => ToVisit(rs[i])) }

  lemma EntryAccepted(r: Report)
    ensures EntryVisit(ToJson(r)) == Some(ToVisit(r))
  {
    assert "item" != "p" && "item" != "s" && "p" != "s" by {
      assert |"item"| == 4 && "p"[0] == 'p' && "s"[0] == 's';
    }
  }

  lemma {:induction false} BatchAccepted(rs: seq<Report>)
    ensures Visits(BatchJson(rs)) == BatchVisits(rs)
  {
    if rs != [] {
      var n := |rs| - 1;
      BatchAccepted(rs[..n]);
      assert BatchJson(rs)[..n] == BatchJson(rs[..n]);
      EntryAccepted(rs[n]);
    }
  }

  /** Every batch a page ever sends is accepted in full: the server's cap never cuts
      a page's own batch. */
  lemma ServerAcceptsEveryBatch(cards: seq<Card>, tabs: seq<Tab>, hs: seq<Happening>, i: nat, k: nat)
    requires Life(cards, tabs, hs) && i < |tabs| && k < |tabs[i].sent|
    ensures var batch := tabs[i].sent[k];
            var logged := AtMostBatch(Visits(BatchJson(batch)));
            && |logged| == |batch|
            && forall n :: 0 <= n < |batch| ==>
                 logged[n] == SeeCard(batch[n].item, Some(Wrap32(batch[n].p)), batch[n].s)
  {
    TabStaysTidy(cards, tabs, hs, i);
    BatchAccepted(tabs[i].sent[k]);
  }
}
