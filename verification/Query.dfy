/** Query strings: splitting a target, parsing the pairs, and the round trip from
    any list of byte-string pairs. */
module Query {
  import opened Bytes
  import opened UrlCodec

  type Params = map<Text, Text>

  datatype Target = Target(path: Text, query: Text)

  function SplitTarget(target: Text): Target {
    var q := IndexOf(target, '?');
    if q == |target| then Target(target, []) else Target(target[..q], target[q + 1..])
  }

  /** A path without a question mark is cut off at the first one that follows. */
  lemma SplitAtMark(path: Text, query: Text)
    requires '?' !in path
    ensures SplitTarget(path + (['?'] + query)) == Target(path, query)
  {
    Assoc(path, ['?'], query);
    IndexAfter(path, '?', query);
    var t := path + ['?'] + query;
    assert t[..|path|] == path && t[|path| + 1..] == query;
  }

  lemma SplitWithoutMark(path: Text)
    requires '?' !in path
    ensures SplitTarget(path) == Target(path, [])
  {}

  /** A pair without '=' does not replace a key already there; one with '=' does. */
  function AddPair(out: Params, pair: Text): Params {
    if pair == [] then out
    else
      var eq := IndexOf(pair, '=');
      if eq == |pair| then
        var key := Decoded(pair);
        if key in out then out else out[key := []]
      else out[Decoded(pair[..eq]) := Decoded(pair[eq + 1..])]
  }

  function Parsed(qs: Text, out: Params): Params
    decreases |qs|
  {
    if qs == [] then out
    else
      var amp := IndexOf(qs, '&');
      var out' := AddPair(out, qs[..amp]);
      if amp == |qs| then out' else Parsed(qs[amp + 1..], out')
  }

  method ParseQuery(input: Text) returns (out: Params)
    ensures out == Parsed(input, map[])
  {
    out := map[];
    var qs := input;
    while qs != []
      invariant Parsed(qs, out) == Parsed(input, map[])
      decreases |qs|
    {
      var amp := IndexOf(qs, '&');
      var pair := qs[..amp];
      if pair != [] {
        var eq := IndexOf(pair, '=');
        if eq == |pair| {
          var key := UrlDecode(pair);
          if key !in out { out := out[key := []]; }
        } else {
          var key := UrlDecode(pair[..eq]);
          var value := UrlDecode(pair[eq + 1..]);
          out := out[key := value];
        }
      }
      if amp == |qs| { return; }
      qs := qs[amp + 1..];
    }
  }

  // --------------------------------------------------- meaning of a parse --

  function Join(pieces: seq<Text>): Text {
    if pieces == [] then []
    else if |pieces| == 1 then pieces[0]
    else pieces[0] + ['&'] + Join(pieces[1..])
  }

  /** The pieces between the ampersands. */
  function Split(qs: Text): seq<Text>
    decreases |qs|
  {
    var amp := IndexOf(qs, '&');
    if amp == |qs| then [qs] else [qs[..amp]] + Split(qs[amp + 1..])
  }

  ghost predicate NoAmps(pieces: seq<Text>) {
    forall i :: 0 <= i < |pieces| ==> '&' !in pieces[i]
  }

  lemma JoinCons(first: Text, rest: seq<Text>)
    requires rest != []
    ensures Join([first] + rest) == first + ['&'] + Join(rest)
  {
    assert ([first] + rest)[1..] == rest;
  }

  lemma {:induction false} SplitJoins(qs: Text)
    ensures Split(qs) != [] && NoAmps(Split(qs)) && Join(Split(qs)) == qs
    decreases |qs|
  {
    var amp := IndexOf(qs, '&');
    if amp != |qs| {
      CutAt(qs, amp);
      BeforeFirst(qs, '&');
      var rest := Split(qs[amp + 1..]);
      SplitJoins(qs[amp + 1..]);
      JoinCons(qs[..amp], rest);
      assert NoAmps([qs[..amp]] + rest);
    }
  }

  function AddPairs(out: Params, pieces: seq<Text>): Params
    decreases |pieces|
  {
    if pieces == [] then out else AddPairs(AddPair(out, pieces[0]), pieces[1..])
  }

  /** Parsing a joined list adds its pieces from left to right. With SplitJoins
      this says what every query string means. */
  lemma {:induction false} ParseJoined(pieces: seq<Text>, out: Params)
    requires NoAmps(pieces)
    ensures Parsed(Join(pieces), out) == AddPairs(out, pieces)
    decreases |pieces|
  {
    if pieces != [] {
      var first, rest := pieces[0], pieces[1..];
      if rest == [] {
        ParseLast(first, out);
        assert AddPairs(AddPair(out, first), []) == AddPair(out, first);
      } else {
        ParseFirst(first, Join(rest), out);
        ParseJoined(rest, AddPair(out, first));
      }
    }
  }

  lemma ParseLast(piece: Text, out: Params)
    requires '&' !in piece
    ensures Parsed(piece, out) == AddPair(out, piece)
  {
    IndexAfter(piece, '&', []);
    assert piece[..|piece|] == piece;
  }

  lemma ParseFirst(piece: Text, rest: Text, out: Params)
    requires '&' !in piece
    ensures Parsed(piece + ['&'] + rest, out) == Parsed(rest, AddPair(out, piece))
  {
    var qs := piece + ['&'] + rest;
    IndexAfter(piece, '&', rest);
    assert qs[..|piece|] == piece && qs[|piece| + 1..] == rest;
  }

  // ------------------------------------------------ what a parse contains --

  /** The key a piece speaks of, if it is not empty, and whether it assigns. */
  ghost predicate Names(piece: Text, key: Text) {
    piece != [] && key == Decoded(piece[..IndexOf(piece, '=')])
  }

  ghost predicate Assigns(piece: Text, key: Text, value: Text) {
    '=' in piece && Names(piece, key) && value == Decoded(piece[IndexOf(piece, '=') + 1..])
  }

  ghost predicate Named(pieces: seq<Text>, key: Text) {
    exists i :: 0 <= i < |pieces| && Names(pieces[i], key)
  }

  /** No piece from position i on assigns the key. */
  ghost predicate UnassignedFrom(pieces: seq<Text>, i: nat, key: Text) {
    forall k :: i <= k < |pieces| && '=' in pieces[k] ==> !Names(pieces[k], key)
  }

  /** What pieces make of a key: the value of the last one that assigns it, and an
      empty value if they only name it. */
  ghost predicate Holds(pieces: seq<Text>, key: Text, value: Text) {
    || (exists i: nat :: i < |pieces| && Assigns(pieces[i], key, value) && UnassignedFrom(pieces, i + 1, key))
    || (value == [] && Named(pieces, key) && UnassignedFrom(pieces, 0, key))
  }

  /** One piece: it assigns, or names a key without touching one that is there. */
  lemma AddPairMeans(out: Params, piece: Text, key: Text)
    ensures key in AddPair(out, piece) <==> key in out || Names(piece, key)
    ensures key in AddPair(out, piece) && '=' in piece && Names(piece, key) ==>
              Assigns(piece, key, AddPair(out, piece)[key])
    ensures key in out && !('=' in piece && Names(piece, key)) ==> AddPair(out, piece)[key] == out[key]
    ensures key !in out && Names(piece, key) && '=' !in piece ==> AddPair(out, piece)[key] == []
  {
    if '=' !in piece { assert piece[..IndexOf(piece, '=')] == piece; }
  }

  lemma {:induction false} AddPairsLast(out: Params, pieces: seq<Text>, last: Text)
    ensures AddPairs(out, pieces + [last]) == AddPair(AddPairs(out, pieces), last)
    decreases |pieces|
  {
    if pieces == [] {
      assert pieces + [last] == [last] && [last][1..] == [];
      assert AddPairs(AddPair(out, last), []) == AddPair(out, last);
    } else {
      assert (pieces + [last])[1..] == pieces[1..] + [last];
      AddPairsLast(AddPair(out, pieces[0]), pieces[1..], last);
    }
  }

  lemma NamedMore(pieces: seq<Text>, last: Text, key: Text)
    ensures Named(pieces + [last], key) <==> Named(pieces, key) || Names(last, key)
  {
    var all := pieces + [last];
    if Named(pieces, key) {
      var i :| 0 <= i < |pieces| && Names(pieces[i], key);
      assert Names(all[i], key);
    }
    if Names(last, key) { assert Names(all[|pieces|], key); }
  }

  lemma UnassignedMore(pieces: seq<Text>, last: Text, i: nat, key: Text)
    requires UnassignedFrom(pieces, i, key) && !('=' in last && Names(last, key))
    ensures UnassignedFrom(pieces + [last], i, key)
  {}

  /** A piece that assigns decides, and any other leaves the key what it was. */
  lemma HoldsAssigned(pieces: seq<Text>, last: Text, key: Text, value: Text)
    requires Assigns(last, key, value)
    ensures Holds(pieces + [last], key, value)
  {
    assert Assigns((pieces + [last])[|pieces|], key, value) && UnassignedFrom(pieces + [last], |pieces| + 1, key);
  }

  lemma HoldsMore(pieces: seq<Text>, last: Text, key: Text, value: Text)
    requires Holds(pieces, key, value) && !('=' in last && Names(last, key))
    ensures Holds(pieces + [last], key, value)
  {
    if i: nat :| i < |pieces| && Assigns(pieces[i], key, value) && UnassignedFrom(pieces, i + 1, key) {
      UnassignedMore(pieces, last, i + 1, key);
      assert Assigns((pieces + [last])[i], key, value);
    } else {
      UnassignedMore(pieces, last, 0, key);
      NamedMore(pieces, last, key);
    }
  }

  lemma HoldsNamed(pieces: seq<Text>, last: Text, key: Text)
    requires !Named(pieces, key) && Names(last, key) && '=' !in last
    ensures Holds(pieces + [last], key, [])
  {
    NamedMore(pieces, last, key);
    assert UnassignedFrom(pieces + [last], 0, key);
  }

  lemma {:induction false} ParseMeans(pieces: seq<Text>, key: Text)
    ensures var out := AddPairs(map[], pieces);
            (key in out <==> Named(pieces, key)) && (key in out ==> Holds(pieces, key, out[key]))
    decreases |pieces|
  {
    if pieces != [] {
      var n := |pieces| - 1;
      var before, last := pieces[..n], pieces[n];
      var was, now := AddPairs(map[], before), AddPairs(map[], pieces);
      assert pieces == before + [last];
      AddPairsLast(map[], before, last);
      AddPairMeans(was, last, key);
      ParseMeans(before, key);
      NamedMore(before, last, key);
      if '=' in last && Names(last, key) {
        HoldsAssigned(before, last, key, now[key]);
      } else if key in was {
        HoldsMore(before, last, key, was[key]);
      } else if Names(last, key) {
        HoldsNamed(before, last, key);
      }
    }
  }

  /** A parse has exactly the keys that the pieces of the query string name, each with
      the value they give it, in whatever order and however often they come. */
  lemma QueryMeans(qs: Text, key: Text)
    ensures var out := Parsed(qs, map[]);
            (key in out <==> Named(Split(qs), key)) && (key in out ==> Holds(Split(qs), key, out[key]))
  {
    SplitJoins(qs);
    ParseJoined(Split(qs), map[]);
    ParseMeans(Split(qs), key);
  }

  // ----------------------------------------------------------- round trip --

  datatype Pair = Pair(key: Text, value: Text)

  ghost predicate BytePair(p: Pair) { IsBytes(p.key) && IsBytes(p.value) }

  ghost predicate BytePairs(ps: seq<Pair>) { forall i :: 0 <= i < |ps| ==> BytePair(ps[i]) }

  function PairText(p: Pair): Text { Encoded(p.key) + ['='] + Encoded(p.value) }

  function PairTexts(ps: seq<Pair>): seq<Text> {
    if ps == [] then [] else [PairText(ps[0])] + PairTexts(ps[1..])
  }

  function QueryText(ps: seq<Pair>): Text { Join(PairTexts(ps)) }

  /** The map in which the last pair of each key wins. */
  function LastWins(out: Params, ps: seq<Pair>): Params
    decreases |ps|
  {
    if ps == [] then out else LastWins(out[ps[0].key := ps[0].value], ps[1..])
  }

  lemma NotEncoded(s: Text, c: Byte)
    requires !IsUnreserved(c) && c != '%'
    ensures c !in Encoded(s)
  {
    EncodedAlphabet(s);
  }

  lemma PairHasNoAmp(p: Pair)
    ensures '&' !in PairText(p)
  {
    NotEncoded(p.key, '&');
    NotEncoded(p.value, '&');
  }

  lemma PairParses(out: Params, p: Pair)
    requires BytePair(p)
    ensures AddPair(out, PairText(p)) == out[p.key := p.value]
  {
    var k, v := Encoded(p.key), Encoded(p.value);
    NotEncoded(p.key, '=');
    SplitsAtEquals(out, k, v);
    RoundTrip(p.key);
    RoundTrip(p.value);
  }

  lemma SplitsAtEquals(out: Params, k: Text, v: Text)
    requires '=' !in k
    ensures AddPair(out, k + ['='] + v) == out[Decoded(k) := Decoded(v)]
  {
    var t := k + ['='] + v;
    IndexAfter(k, '=', v);
    assert t[..|k|] == k && t[|k| + 1..] == v;
  }

  lemma {:induction false} PairsParse(out: Params, ps: seq<Pair>)
    requires BytePairs(ps)
    ensures AddPairs(out, PairTexts(ps)) == LastWins(out, ps)
    ensures NoAmps(PairTexts(ps))
    decreases |ps|
  {
    if ps != [] {
      PairParses(out, ps[0]);
      PairHasNoAmp(ps[0]);
      PairsParse(out[ps[0].key := ps[0].value], ps[1..]);
      assert PairTexts(ps)[1..] == PairTexts(ps[1..]);
    }
  }

  /** For every list of byte-string pairs, empty and repeated keys included,
      parsing the encoded list gives its last-wins map. */
  lemma QueryRoundTrip(ps: seq<Pair>)
    requires BytePairs(ps)
    ensures Parsed(QueryText(ps), map[]) == LastWins(map[], ps)
  {
    PairsParse(map[], ps);
    ParseJoined(PairTexts(ps), map[]);
  }

  /** LastWins read point by point. */
  lemma {:induction false} LastWinsAt(out: Params, ps: seq<Pair>, i: nat)
    requires i < |ps| && forall k :: i < k < |ps| ==> ps[k].key != ps[i].key
    ensures ps[i].key in LastWins(out, ps) && LastWins(out, ps)[ps[i].key] == ps[i].value
    decreases |ps|
  {
    if i > 0 {
      LastWinsAt(out[ps[0].key := ps[0].value], ps[1..], i - 1);
    } else {
      LastWinsElse(out[ps[0].key := ps[0].value], ps[1..], ps[0].key);
    }
  }

  lemma {:induction false} LastWinsElse(out: Params, ps: seq<Pair>, key: Text)
    requires forall k :: 0 <= k < |ps| ==> ps[k].key != key
    ensures key in LastWins(out, ps) <==> key in out
    ensures key in out ==> LastWins(out, ps)[key] == out[key]
    decreases |ps|
  {
    if ps != [] {
      LastWinsElse(out[ps[0].key := ps[0].value], ps[1..], key);
    }
  }

  // ------------------------------------------------ one pair at a time --

  lemma QueryTextOne(p: Pair)
    ensures QueryText([p]) == PairText(p)
  {
    assert [p][1..] == [];
    assert PairTexts([p]) == [PairText(p)] + [] == [PairText(p)];
  }

  lemma QueryTextCons(p: Pair, ps: seq<Pair>)
    requires ps != []
    ensures QueryText([p] + ps) == PairText(p) + ['&'] + QueryText(ps)
  {
    assert ([p] + ps)[1..] == ps;
    JoinCons(PairText(p), PairTexts(ps));
  }

  lemma LastWinsCons(out: Params, p: Pair, ps: seq<Pair>)
    ensures LastWins(out, [p] + ps) == LastWins(out[p.key := p.value], ps)
  {
    assert ([p] + ps)[1..] == ps;
  }

  lemma LastWinsOne(out: Params, p: Pair)
    ensures LastWins(out, [p]) == out[p.key := p.value]
  {
    assert [p][1..] == [];
  }

  ghost predicate PlainKey(key: Text) { forall i :: 0 <= i < |key| ==> IsUnreserved(key[i]) }

  lemma PlainPair(key: Text, value: Text)
    requires PlainKey(key)
    ensures PairText(Pair(key, value)) == key + (['='] + Encoded(value))
  {
    UnreservedIsFixed(key);
    Assoc(key, ['='], Encoded(value));
  }
}
