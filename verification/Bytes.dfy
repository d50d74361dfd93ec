/** Byte strings, written as strings whose characters are below 256 so that
    literals stay readable. */
module Bytes {
  type Byte = char
  type Text = string

  ghost predicate IsBytes(s: Text) {
    forall i :: 0 <= i < |s| ==> s[i] as int < 256
  }

  /** Position of the first c in s, or |s|: find with npos read as the end. */
  function IndexOf(s: Text, c: Byte): (i: nat)
    ensures i <= |s|
    ensures i < |s| ==> s[i] == c
    ensures forall k :: 0 <= k < i ==> s[k] != c
    ensures i == |s| <==> c !in s
  {
    if s == [] then 0
    else if s[0] == c then 0
    else 1 + IndexOf(s[1..], c)
  }

  /** The first c after text without any c. */
  lemma IndexAfter(a: Text, c: Byte, b: Text)
    requires c !in a
    ensures IndexOf(a + [c] + b, c) == |a|
    ensures IndexOf(a, c) == |a|
  {
    assert (a + [c] + b)[|a|] == c;
  }

  lemma Assoc(a: Text, b: Text, c: Text)
    ensures (a + b) + c == a + (b + c)
  {}

  lemma CutAt(s: Text, n: nat)
    requires n < |s|
    ensures s == s[..n] + [s[n]] + s[n + 1..]
  {}

  lemma BeforeFirst(s: Text, c: Byte)
    ensures c !in s[..IndexOf(s, c)]
  {}
}
