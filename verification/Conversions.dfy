/** The conversions table as a pure function of the postbacks recorded so far.

    `Fold` replays the upserts; `Summary` says directly what the table holds: one
    row for each first mention of an order and one for each postback without an
    order, with the values of the order's last mention. */
module Conversions {
  import opened Metrics

  function Fold(cs: seq<Conversion>): seq<ConversionRow> {
    if cs == [] then []
    else Upsert(Fold(cs[..|cs| - 1]), cs[|cs| - 1])
  }

  /** No earlier postback named the same order. */
  ghost predicate OpensRow(cs: seq<Conversion>, i: nat)
    requires i < |cs|
  {
    cs[i].orderRef == "" || forall k :: 0 <= k < i ==> cs[k].orderRef != cs[i].orderRef
  }

  /** The last postback that speaks for the row opened by postback i. */
  function LastWord(cs: seq<Conversion>, i: nat): (l: nat)
    requires i < |cs|
    ensures i <= l < |cs| && cs[l].orderRef == cs[i].orderRef
    ensures cs[i].orderRef == "" ==> l == i
    ensures cs[i].orderRef != "" ==> forall k :: l < k < |cs| ==> cs[k].orderRef != cs[i].orderRef
  {
    if i == |cs| - 1 || cs[i].orderRef == "" then i
    else if cs[|cs| - 1].orderRef == cs[i].orderRef then |cs| - 1
    else LastWord(cs[..|cs| - 1], i)
  }

  /** Token and raw text from the first postback, the rest from the last. */
  function RowFor(cs: seq<Conversion>, i: nat): ConversionRow
    requires i < |cs|
  {
    var l := LastWord(cs, i);
    ConversionRow(cs[i].clickToken, cs[l].ts, if cs[i].orderRef == "" then None else Some(cs[i].orderRef),
                  cs[l].amount, cs[l].status, cs[i].raw)
  }

  /** The rows opened by the first n postbacks, in the light of all of them. */
  ghost function Summary(cs: seq<Conversion>, n: nat): seq<ConversionRow>
    requires n <= |cs|
  {
    if n == 0 then []
    else Summary(cs, n - 1) + if OpensRow(cs, n - 1) then [RowFor(cs, n - 1)] else []
  }

  ghost predicate UniqueOrders(rows: seq<ConversionRow>) {
    forall i, j :: 0 <= i < j < |rows| && rows[i].orderRef.Some? ==> rows[i].orderRef != rows[j].orderRef
  }

  lemma UpsertKeepsUnique(rows: seq<ConversionRow>, c: Conversion)
    requires UniqueOrders(rows)
    ensures UniqueOrders(Upsert(rows, c))
  {}

  /** At most one row per order. */
  lemma {:induction false} OneRowPerOrder(cs: seq<Conversion>)
    ensures UniqueOrders(Fold(cs))
  {
    if cs != [] {
      OneRowPerOrder(cs[..|cs| - 1]);
      UpsertKeepsUnique(Fold(cs[..|cs| - 1]), cs[|cs| - 1]);
    }
  }

  /** The rows of c's order take c's status, amount and time. */
  function Revise(rows: seq<ConversionRow>, c: Conversion): seq<ConversionRow> {
    seq(|rows|, i requires 0 <= i < |rows| => ReviseRow(rows[i], c))
  }

  ghost predicate Mentioned(cs: seq<Conversion>, n: nat, orderRef: string)
    requires n <= |cs|
  {
    exists k :: 0 <= k < n && cs[k].orderRef == orderRef
  }

  ghost predicate HasOrder(rows: seq<ConversionRow>, orderRef: string) {
    exists i :: 0 <= i < |rows| && rows[i].orderRef == Some(orderRef)
  }

  lemma HasOrderAppend(rows: seq<ConversionRow>, r: ConversionRow, orderRef: string)
    ensures HasOrder(rows + [r], orderRef) <==> HasOrder(rows, orderRef) || r.orderRef == Some(orderRef)
  {
    if HasOrder(rows, orderRef) {
      var i :| 0 <= i < |rows| && rows[i].orderRef == Some(orderRef);
      assert (rows + [r])[i].orderRef == Some(orderRef);
    }
    if r.orderRef == Some(orderRef) {
      assert (rows + [r])[|rows|].orderRef == Some(orderRef);
    }
  }

  /** An upsert revises the order's row if there is one, and appends otherwise. */
  lemma UpsertRevises(rows: seq<ConversionRow>, c: Conversion)
    requires UniqueOrders(rows)
    ensures Upsert(rows, c) ==
            Revise(rows, c) + if c.orderRef != "" && HasOrder(rows, c.orderRef) then [] else [ToRow(c)]
  {
    var i := OrderIndex(rows, c.orderRef);
    if c.orderRef != "" && i < |rows| {
      assert rows[i].orderRef == Some(c.orderRef);
      assert forall k :: 0 <= k < |rows| && k != i ==> rows[k].orderRef != Some(c.orderRef);
    } else {
      assert Revise(rows, c) == rows;
    }
  }

  /** An order has a row exactly when some postback mentioned it. */
  lemma {:induction false} SummaryMentions(cs: seq<Conversion>, n: nat, orderRef: string)
    requires n <= |cs| && orderRef != ""
    ensures HasOrder(Summary(cs, n), orderRef) <==> Mentioned(cs, n, orderRef)
  {
    if n > 0 {
      SummaryMentions(cs, n - 1, orderRef);
      MentionOne(cs, n, orderRef);
      if OpensRow(cs, n - 1) {
        HasOrderAppend(Summary(cs, n - 1), RowFor(cs, n - 1), orderRef);
      } else {
        assert Summary(cs, n) == Summary(cs, n - 1);
        assert Mentioned(cs, n - 1, cs[n - 1].orderRef);
      }
    }
  }

  lemma MentionOne(cs: seq<Conversion>, n: nat, orderRef: string)
    requires 0 < n <= |cs|
    ensures Mentioned(cs, n, orderRef) <==> Mentioned(cs, n - 1, orderRef) || cs[n - 1].orderRef == orderRef
  {}

  /** A further postback only revises the rows already opened. */
  lemma {:induction false} SummaryRevised(cs: seq<Conversion>, c: Conversion, n: nat)
    requires n <= |cs|
    ensures Summary(cs + [c], n) == Revise(Summary(cs, n), c)
  {
    if n > 0 {
      SummaryRevised(cs, c, n - 1);
      OpensAlike(cs, c, n - 1);
      if OpensRow(cs, n - 1) {
        RowRevised(cs, c, n - 1);
        ReviseAppend(Summary(cs, n - 1), RowFor(cs, n - 1), c);
      } else {
        assert Summary(cs, n) == Summary(cs, n - 1);
      }
    }
  }

  lemma OpensAlike(cs: seq<Conversion>, c: Conversion, i: nat)
    requires i < |cs|
    ensures OpensRow(cs + [c], i) == OpensRow(cs, i)
  {
    assert forall k :: 0 <= k <= i ==> (cs + [c])[k] == cs[k];
  }

  /** The row of c's order, with c's values. */
  function ReviseRow(r: ConversionRow, c: Conversion): ConversionRow {
    if c.orderRef != "" && r.orderRef == Some(c.orderRef)
    then r.(status := c.status, amount := c.amount, ts := c.ts)
    else r
  }

  lemma RowRevised(cs: seq<Conversion>, c: Conversion, i: nat)
    requires i < |cs|
    ensures RowFor(cs + [c], i) == ReviseRow(RowFor(cs, i), c)
  {
    assert (cs + [c])[..|cs|] == cs && (cs + [c])[i] == cs[i];
    var l, l' := LastWord(cs, i), LastWord(cs + [c], i);
    if cs[i].orderRef == "" || c.orderRef != cs[i].orderRef {
      assert l' == l && (cs + [c])[l] == cs[l];
    } else {
      assert l' == |cs|;
    }
  }

  lemma ReviseAppend(rows: seq<ConversionRow>, r: ConversionRow, c: Conversion)
    ensures Revise(rows + [r], c) == Revise(rows, c) + [ReviseRow(r, c)]
  {}

  /** The table is the summary of the recorded postbacks. */
  lemma {:induction false} FoldIsSummary(cs: seq<Conversion>)
    ensures Fold(cs) == Summary(cs, |cs|)
  {
    if cs != [] {
      var n := |cs| - 1;
      var before, c := cs[..n], cs[n];
      FoldIsSummary(before);
      assert cs == before + [c];
      SummaryRevised(before, c, n);
      OneRowPerOrder(before);
      UpsertRevises(Fold(before), c);
      if c.orderRef != "" {
        SummaryMentions(before, n, c.orderRef);
      }
      assert OpensRow(cs, n) <==> c.orderRef == "" || !Mentioned(before, n, c.orderRef);
    }
  }

  /** The redeliveries of a postback at the given times. */
  function Redeliveries(c: Conversion, times: seq<int>): seq<Conversion> {
    seq(|times|, i requires 0 <= i < |times| => c.(ts := times[i]))
  }

  /** Rows of c's order show c's status and amount. */
  ghost predicate Settles(rows: seq<ConversionRow>, c: Conversion) {
    forall i :: 0 <= i < |rows| && rows[i].orderRef == Some(c.orderRef) ==>
      rows[i].status == c.status && rows[i].amount == c.amount
  }

  /** The row of an order carries the values of its last postback. */
  lemma {:induction false} SummaryLastWord(cs: seq<Conversion>, n: nat, j: nat)
    requires n <= |cs| && j < |cs| && cs[j].orderRef != ""
    requires forall k :: j < k < |cs| ==> cs[k].orderRef != cs[j].orderRef
    ensures Settles(Summary(cs, n), cs[j])
  {
    if n > 0 {
      SummaryLastWord(cs, n - 1, j);
      if cs[n - 1].orderRef == cs[j].orderRef {
        assert LastWord(cs, n - 1) == j;
      }
    }
  }

  lemma RedeliverOnce(cs: seq<Conversion>, j: nat, t: int)
    requires j < |cs| && cs[j].orderRef != ""
    requires forall k :: j < k < |cs| ==> cs[k].orderRef != cs[j].orderRef
    ensures Fold(cs + [cs[j].(ts := t)]) == Retime(Fold(cs), cs[j].orderRef, t)
  {
    var c := cs[j].(ts := t);
    assert (cs + [c])[..|cs|] == cs;
    OneRowPerOrder(cs);
    UpsertRevises(Fold(cs), c);
    FoldMentions(cs, j);
    ReviseIsRetime(Fold(cs), c);
    assert Revise(Fold(cs), c) + [] == Revise(Fold(cs), c);
  }

  /** The table has a row for a recorded order, with the order's latest values. */
  lemma FoldMentions(cs: seq<Conversion>, j: nat)
    requires j < |cs| && cs[j].orderRef != ""
    requires forall k :: j < k < |cs| ==> cs[k].orderRef != cs[j].orderRef
    ensures HasOrder(Fold(cs), cs[j].orderRef)
    ensures Settles(Fold(cs), cs[j])
  {
    FoldIsSummary(cs);
    SummaryMentions(cs, |cs|, cs[j].orderRef);
    SummaryLastWord(cs, |cs|, j);
  }

  lemma ReviseIsRetime(rows: seq<ConversionRow>, c: Conversion)
    requires c.orderRef != "" && Settles(rows, c)
    ensures Revise(rows, c) == Retime(rows, c.orderRef, c.ts)
  {}

  /** The rows with one order's time replaced. */
  function Retime(rows: seq<ConversionRow>, orderRef: string, t: int): seq<ConversionRow> {
    seq(|rows|, i requires 0 <= i < |rows| =>
      if rows[i].orderRef == Some(orderRef) then rows[i].(ts := t) else rows[i])
  }

  lemma RetimeTwice(rows: seq<ConversionRow>, orderRef: string, t1: int, t2: int)
    ensures Retime(Retime(rows, orderRef, t1), orderRef, t2) == Retime(rows, orderRef, t2)
  {}

  /** Redelivering an order's latest postback any number of times changes nothing
      but that row's time. */
  lemma {:induction false} RedeliveryChangesOnlyTime(cs: seq<Conversion>, j: nat, times: seq<int>)
    requires j < |cs| && cs[j].orderRef != "" && times != []
    requires forall k :: j < k < |cs| ==> cs[k].orderRef != cs[j].orderRef
    ensures Fold(cs + Redeliveries(cs[j], times)) ==
            Retime(Fold(cs), cs[j].orderRef, times[|times| - 1])
  {
    var n := |times| - 1;
    var t := times[n];
    if n == 0 {
      assert Redeliveries(cs[j], times) == [cs[j].(ts := t)];
      RedeliverOnce(cs, j, t);
    } else {
      RedeliveryChangesOnlyTime(cs, j, times[..n]);
      var cs' := cs + Redeliveries(cs[j], times[..n]);
      assert cs + Redeliveries(cs[j], times) == cs' + [cs[j].(ts := t)];
      assert cs'[|cs'| - 1] == cs[j].(ts := times[n - 1]);
      RedeliverOnce(cs', |cs'| - 1, t);
      RetimeTwice(Fold(cs), cs[j].orderRef, times[n - 1], t);
    }
  }
}
