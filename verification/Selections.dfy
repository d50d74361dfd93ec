/** What it means to walk a sequence and keep, in order, what some elements yield. */
module Selections {
  import opened Metrics

  /** `picked` is what the elements at the places `at` yield: the places ascend, and
      no element that yields something is left out. */
  ghost predicate Selects<T, U>(all: seq<T>, pick: T -> Option<U>, picked: seq<U>, at: seq<nat>) {
    && |at| == |picked|
    && (forall k :: 0 <= k < |at| ==> at[k] < |all| && pick(all[at[k]]) == Some(picked[k]))
    && (forall j, k :: 0 <= j < k < |at| ==> at[j] < at[k])
    && forall i :: 0 <= i < |all| && pick(all[i]).Some? ==> i in at
  }

  /** One element more. */
  lemma SelectsMore<T, U>(all: seq<T>, x: T, pick: T -> Option<U>, picked: seq<U>, at: seq<nat>)
    returns (at': seq<nat>)
    requires Selects(all, pick, picked, at)
    ensures at' == if pick(x).Some? then at + [|all|] else at
    ensures Selects(all + [x], pick, picked + if pick(x).Some? then [pick(x).value] else [], at')
  {
    at' := if pick(x).Some? then at + [|all|] else at;
    var more := picked + if pick(x).Some? then [pick(x).value] else [];
    forall k | 0 <= k < |at'|
      ensures at'[k] < |all + [x]| && pick((all + [x])[at'[k]]) == Some(more[k])
    {
      if k < |at| { assert (all + [x])[at[k]] == all[at[k]]; }
    }
    forall i | 0 <= i < |all + [x]| && pick((all + [x])[i]).Some? ensures i in at' {
      if i < |all| {
        assert i in at;
        var k :| 0 <= k < |at| && at[k] == i;
        assert at'[k] == i;
      } else {
        assert at'[|at|] == i;
      }
    }
  }

  lemma PrefixThrough<T>(a: seq<T>, b: seq<T>, c: seq<T>)
    requires a <= b <= c
    ensures a <= c
  {}

  lemma {:induction false} SmallerSet<T>(a: set<T>, b: set<T>)
    requires a <= b
    ensures |a| <= |b|
  {
    if x :| x in a {
      SmallerSet(a - {x}, b - {x});
    } else {
      assert a == {};
    }
  }
}
