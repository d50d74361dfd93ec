/** Click tokens and partner link templates. */
module Links {
  import opened Bytes
  import opened UrlCodec
  import opened ClickTokens

  // -------------------------------------------------------- click tokens --

  function Base62Digit(v: nat): Byte
    requires v < 62
  {
    if v < 10 then ('0' as int + v) as char
    else if v < 36 then ('a' as int + v - 10) as char
    else ('A' as int + v - 36) as char
  }

  /** The random bytes are an input. */
  method MakeClickToken(raw: seq<nat>) returns (out: Text)
    requires |raw| == TOKEN_LENGTH && forall i :: 0 <= i < |raw| ==> raw[i] < 256
    ensures IsClickToken(out)
    ensures forall i :: 0 <= i < |raw| ==> out[i] == Base62Digit(raw[i] % 62)
  {
    out := [];
    for i := 0 to |raw|
      invariant |out| == i
      invariant forall k :: 0 <= k < i ==> out[k] == Base62Digit(raw[k] % 62)
    {
      out := out + [Base62Digit(raw[i] % 62)];
    }
  }

  // ----------------------------------------------------------- templates --

  datatype LinkVars = LinkVars(url: Text, subid: Text, campaign: Text)

  /** What a template is made of: plain bytes, closed placeholders, and possibly
      an unterminated placeholder at the end. */
  datatype Segment = Plain(b: Byte) | Hole(name: Text) | Open(text: Text)

  function Source(seg: Segment): Text {
    match seg
    case Plain(b) => [b]
    case Hole(name) => ['{'] + name + ['}']
    case Open(text) => text
  }

  /** Unknown and unterminated placeholders stand for themselves. */
  function Meaning(seg: Segment, vars: LinkVars): Text {
    match seg
    case Plain(b) => [b]
    case Open(text) => text
    case Hole(name) =>
      if name == "url" then vars.url
      else if name == "url_enc" then Encoded(vars.url)
      else if name == "subid" then vars.subid
      else if name == "campaign" then vars.campaign
      else Source(seg)
  }

  function SourceOf(segs: seq<Segment>): Text {
    if segs == [] then [] else Source(segs[0]) + SourceOf(segs[1..])
  }

  function MeaningOf(segs: seq<Segment>, vars: LinkVars): Text {
    if segs == [] then [] else Meaning(segs[0], vars) + MeaningOf(segs[1..], vars)
  }

  function Segments(t: Text): seq<Segment>
    decreases |t|
  {
    if t == [] then []
    else if t[0] != '{' then [Plain(t[0])] + Segments(t[1..])
    else
      var close := IndexOf(t, '}');
      if close == |t| then [Open(t)]
      else [Hole(t[1..close])] + Segments(t[close + 1..])
  }

  /** The meaning of a template. */
  function Rendered(t: Text, vars: LinkVars): Text { MeaningOf(Segments(t), vars) }

  method Substitute(name: Text, vars: LinkVars) returns (v: Text)
    ensures v == Meaning(Hole(name), vars)
  {
    if name == "url" {
      v := vars.url;
    } else if name == "url_enc" {
      v := UrlEncode(vars.url);
    } else if name == "subid" {
      v := vars.subid;
    } else if name == "campaign" {
      v := vars.campaign;
    } else {
      v := ['{'] + name + ['}'];
    }
  }

  /** One round of the loop on what is left of the template: the text appended and
      how much was read. */
  method RenderNext(rest: Text, vars: LinkVars) returns (piece: Text, read: nat)
    requires rest != []
    ensures 0 < read <= |rest|
    ensures Rendered(rest, vars) == piece + Rendered(rest[read..], vars)
  {
    if rest[0] != '{' {
      assert rest == [rest[0]] + rest[1..];
      RenderPlain(rest[0], rest[1..], vars);
      return [rest[0]], 1;
    }
    var close := IndexOf(rest, '}');
    if close == |rest| {
      RenderOpen(rest, vars);
      assert rest[|rest|..] == [] && rest + [] == rest;
      return rest, |rest|;
    }
    RenderFirstHole(rest, close, vars);
    piece := Substitute(rest[1..close], vars);
    read := close + 1;
  }

  method RenderLink(tmpl: Text, vars: LinkVars) returns (out: Text)
    ensures out == Rendered(tmpl, vars)
  {
    out := [];
    var rest := tmpl;
    ghost var whole := Rendered(tmpl, vars);
    while rest != []
      invariant out + Rendered(rest, vars) == whole
      decreases |rest|
    {
      var piece, read := RenderNext(rest, vars);
      Assoc(out, piece, Rendered(rest[read..], vars));
      out, rest := out + piece, rest[read..];
    }
    assert out + [] == out;
  }

  lemma RenderFirstHole(t: Text, close: nat, vars: LinkVars)
    requires t != [] && t[0] == '{' && close == IndexOf(t, '}') < |t|
    ensures close > 0
    ensures Rendered(t, vars) == Meaning(Hole(t[1..close]), vars) + Rendered(t[close + 1..], vars)
  {
    StartsWithHole(t, close);
    MeaningCons(Hole(t[1..close]), Segments(t[close + 1..]), vars);
  }

  // ------------------------------------------------- splitting one segment --

  lemma SplitPlain(b: Byte, rest: Text)
    requires b != '{'
    ensures Segments([b] + rest) == [Plain(b)] + Segments(rest)
  {
    assert ([b] + rest)[1..] == rest;
  }

  lemma SplitHole(name: Text, rest: Text)
    requires '}' !in name
    ensures Segments(Source(Hole(name)) + rest) == [Hole(name)] + Segments(rest)
  {
    var t := Source(Hole(name)) + rest;
    assert t == (['{'] + name) + ['}'] + rest;
    IndexAfter(['{'] + name, '}', rest);
    assert t[1..|name| + 1] == name && t[|name| + 2..] == rest;
  }

  lemma CutAtBrace(t: Text, close: nat)
    requires 0 < close < |t| && t[0] == '{' && t[close] == '}'
    ensures t == ['{'] + t[1..close] + ['}'] + t[close + 1..]
  {}

  /** A template that starts with a closed placeholder. */
  lemma StartsWithHole(t: Text, close: nat)
    requires t != [] && t[0] == '{' && close == IndexOf(t, '}') < |t|
    ensures close > 0 && '}' !in t[1..close]
    ensures t == Source(Hole(t[1..close])) + t[close + 1..]
    ensures Segments(t) == [Hole(t[1..close])] + Segments(t[close + 1..])
  {
    assert t[close] == '}';
    CutAtBrace(t, close);
    SplitHole(t[1..close], t[close + 1..]);
  }

  lemma SplitOpen(t: Text)
    requires t != [] && t[0] == '{' && '}' !in t
    ensures Segments(t) == [Open(t)]
  {}

  lemma MeaningCons(seg: Segment, segs: seq<Segment>, vars: LinkVars)
    ensures MeaningOf([seg] + segs, vars) == Meaning(seg, vars) + MeaningOf(segs, vars)
  {
    assert ([seg] + segs)[1..] == segs;
  }

  lemma SourceCons(seg: Segment, segs: seq<Segment>)
    ensures SourceOf([seg] + segs) == Source(seg) + SourceOf(segs)
  {
    assert ([seg] + segs)[1..] == segs;
  }

  lemma RenderPlain(b: Byte, rest: Text, vars: LinkVars)
    requires b != '{'
    ensures Rendered([b] + rest, vars) == [b] + Rendered(rest, vars)
  {
    SplitPlain(b, rest);
    MeaningCons(Plain(b), Segments(rest), vars);
  }

  lemma RenderHole(name: Text, rest: Text, vars: LinkVars)
    requires '}' !in name
    ensures Rendered(Source(Hole(name)) + rest, vars) == Meaning(Hole(name), vars) + Rendered(rest, vars)
  {
    SplitHole(name, rest);
    MeaningCons(Hole(name), Segments(rest), vars);
  }

  lemma RenderOpen(t: Text, vars: LinkVars)
    requires t != [] && t[0] == '{' && '}' !in t
    ensures Rendered(t, vars) == t
  {
    SplitOpen(t);
    assert [Open(t)] + [] == [Open(t)];
    MeaningCons(Open(t), [], vars);
    assert t + [] == t;
  }

  // ----------------------------------------------- templates split uniquely --

  predicate Proper(seg: Segment) {
    match seg
    case Plain(b) => b != '{'
    case Hole(name) => '}' !in name
    case Open(text) => text != [] && text[0] == '{' && '}' !in text
  }

  /** An unterminated placeholder can only come last. */
  ghost predicate ProperList(segs: seq<Segment>) {
    && (forall i :: 0 <= i < |segs| ==> Proper(segs[i]))
    && forall i :: 0 <= i < |segs| - 1 ==> !segs[i].Open?
  }

  lemma ProperCons(seg: Segment, segs: seq<Segment>)
    requires Proper(seg) && !seg.Open? && ProperList(segs)
    ensures ProperList([seg] + segs)
  {
    var all := [seg] + segs;
    assert forall i :: 0 < i < |all| ==> all[i] == segs[i - 1];
  }

  lemma HoleProper(name: Text, rest: Text)
    requires '}' !in name
    ensures ProperList([Hole(name)] + Segments(rest))
    ensures SourceOf([Hole(name)] + Segments(rest)) == Source(Hole(name)) + rest
    decreases |rest|, 1
  {
    SegmentsProper(rest);
    ProperCons(Hole(name), Segments(rest));
    SourceCons(Hole(name), Segments(rest));
  }

  lemma {:induction false} SegmentsProper(t: Text)
    ensures ProperList(Segments(t)) && SourceOf(Segments(t)) == t
    decreases |t|, 0
  {
    if t != [] {
      var close := IndexOf(t, '}');
      if t[0] != '{' {
        SegmentsProper(t[1..]);
        ProperCons(Plain(t[0]), Segments(t[1..]));
        SourceCons(Plain(t[0]), Segments(t[1..]));
      } else if close == |t| {
        SplitOpen(t);
        SourceCons(Open(t), []);
        assert [Open(t)] + [] == [Open(t)] && t + [] == t;
      } else {
        StartsWithHole(t, close);
        HoleProper(t[1..close], t[close + 1..]);
      }
    }
  }

  /** Any proper list of segments is the split of its own source text. */
  lemma {:induction false} SegmentsUnique(segs: seq<Segment>)
    requires ProperList(segs)
    ensures Segments(SourceOf(segs)) == segs
    decreases |segs|
  {
    if segs != [] {
      var rest := segs[1..];
      assert segs == [segs[0]] + rest;
      SegmentsUnique(rest);
      match segs[0]
      case Plain(b) => SplitPlain(b, SourceOf(rest));
      case Hole(name) => SplitHole(name, SourceOf(rest));
      case Open(text) =>
        assert rest == [] && SourceOf(segs) == text + [] == text;
        SplitOpen(text);
    }
  }

  /** Every brace opened in the template is closed in it. */
  ghost predicate Closed(t: Text) {
    forall i :: 0 <= i < |Segments(t)| ==> !Segments(t)[i].Open?
  }

  lemma {:induction false} SourceOfConcat(a: seq<Segment>, b: seq<Segment>)
    ensures SourceOf(a + b) == SourceOf(a) + SourceOf(b)
  {
    if a == [] {
      assert a + b == b;
    } else {
      assert (a + b)[1..] == a[1..] + b;
      SourceOfConcat(a[1..], b);
      Assoc(Source(a[0]), SourceOf(a[1..]), SourceOf(b));
    }
  }

  lemma {:induction false} MeaningOfConcat(a: seq<Segment>, b: seq<Segment>, vars: LinkVars)
    ensures MeaningOf(a + b, vars) == MeaningOf(a, vars) + MeaningOf(b, vars)
  {
    if a == [] {
      assert a + b == b;
    } else {
      assert (a + b)[1..] == a[1..] + b;
      MeaningOfConcat(a[1..], b, vars);
      Assoc(Meaning(a[0], vars), MeaningOf(a[1..], vars), MeaningOf(b, vars));
    }
  }

  /** Two templates split independently if and only if the first is closed (or
      nothing follows it). */
  lemma SplitsIndependently(a: Text, b: Text)
    ensures Segments(a + b) == Segments(a) + Segments(b) <==> Closed(a) || b == []
  {
    SegmentsProper(a);
    SegmentsProper(b);
    if Closed(a) || b == [] {
      assert ProperList(Segments(a) + Segments(b));
      SourceOfConcat(Segments(a), Segments(b));
      SegmentsUnique(Segments(a) + Segments(b));
    } else if Segments(a + b) == Segments(a) + Segments(b) {
      SegmentsProper(a + b);
      assert Segments(b) != [];
      OpenInTheMiddle(Segments(a), Segments(b));
      assert false;
    }
  }

  lemma OpenInTheMiddle(sa: seq<Segment>, sb: seq<Segment>)
    requires sb != [] && exists i :: 0 <= i < |sa| && sa[i].Open?
    ensures !ProperList(sa + sb)
  {
    var i :| 0 <= i < |sa| && sa[i].Open?;
    assert (sa + sb)[i].Open?;
  }

  /** Substituted values are never rescanned, so a closed template renders
      independently of what follows. */
  lemma RenderConcat(a: Text, b: Text, vars: LinkVars)
    requires Closed(a)
    ensures Rendered(a + b, vars) == Rendered(a, vars) + Rendered(b, vars)
  {
    SplitsIndependently(a, b);
    MeaningOfConcat(Segments(a), Segments(b), vars);
  }

  // ------------------------------------------------------ what holes mean --

  /** A placeholder between two templates, the first of them closed. */
  lemma RenderBetween(a: Text, name: Text, hole: Text, b: Text, vars: LinkVars)
    requires Closed(a) && '}' !in name && hole == ['{'] + name + ['}']
    ensures Rendered(a + hole + b, vars) == Rendered(a, vars) + Meaning(Hole(name), vars) + Rendered(b, vars)
  {
    Assoc(a, hole, b);
    RenderConcat(a, hole + b, vars);
    RenderHole(name, b, vars);
    Assoc(Rendered(a, vars), Meaning(Hole(name), vars), Rendered(b, vars));
  }

  /** The four placeholders. */
  lemma RenderUrl(a: Text, hole: Text, b: Text, vars: LinkVars)
    requires Closed(a) && hole == "{url}"
    ensures Rendered(a + hole + b, vars) == Rendered(a, vars) + vars.url + Rendered(b, vars)
  {
    RenderBetween(a, "url", hole, b, vars);
  }

  lemma RenderUrlEnc(a: Text, hole: Text, b: Text, vars: LinkVars)
    requires Closed(a) && hole == "{url_enc}"
    ensures Rendered(a + hole + b, vars) == Rendered(a, vars) + Encoded(vars.url) + Rendered(b, vars)
  {
    RenderBetween(a, "url_enc", hole, b, vars);
  }

  lemma RenderSubid(a: Text, hole: Text, b: Text, vars: LinkVars)
    requires Closed(a) && hole == "{subid}"
    ensures Rendered(a + hole + b, vars) == Rendered(a, vars) + vars.subid + Rendered(b, vars)
  {
    RenderBetween(a, "subid", hole, b, vars);
  }

  lemma RenderCampaign(a: Text, hole: Text, b: Text, vars: LinkVars)
    requires Closed(a) && hole == "{campaign}"
    ensures Rendered(a + hole + b, vars) == Rendered(a, vars) + vars.campaign + Rendered(b, vars)
  {
    RenderBetween(a, "campaign", hole, b, vars);
  }

  /** Any other name is left as it stands, and so is a brace that is never closed. */
  lemma RenderUnknown(a: Text, name: Text, b: Text, vars: LinkVars)
    requires Closed(a) && '}' !in name
    ensures name != "url" && name != "url_enc" && name != "subid" && name != "campaign" ==>
              Rendered(a + ("{" + name + "}") + b, vars) == Rendered(a, vars) + ("{" + name + "}") + Rendered(b, vars)
    ensures Rendered(a + ("{" + name), vars) == Rendered(a, vars) + ("{" + name)
  {
    RenderBetween(a, name, "{" + name + "}", b, vars);
    RenderConcat(a, "{" + name, vars);
    RenderOpen("{" + name, vars);
  }

  /** A template that is the product URL and nothing else. */
  lemma RenderOnlyUrl(hole: Text, vars: LinkVars)
    requires hole == "{url}"
    ensures Rendered(hole, vars) == vars.url
  {
    var none: Text := [];
    RenderUrl(none, hole, none, vars);
    assert none + hole + none == hole;
    assert Rendered(none, vars) == none && none + vars.url + none == vars.url;
  }

  // ---------------------------------------------------- the token alphabet --

  const BASE62 := "0123456789" + "abcdefghijklmnopqrstuvwxyz" + "ABCDEFGHIJKLMNOPQRSTUVWXYZ"

  lemma Base62Alphabet(v: nat)
    requires v < 62
    ensures Base62Digit(v) == BASE62[v]
  {
    if v < 10 {
      assert BASE62[v] == "0123456789"[v];
    } else if v < 36 {
      assert BASE62[v] == "abcdefghijklmnopqrstuvwxyz"[v - 10];
    } else {
      assert BASE62[v] == "ABCDEFGHIJKLMNOPQRSTUVWXYZ"[v - 36];
    }
  }

  /** Different values give different characters, so tokens differ whenever the
      random bytes differ modulo 62. */
  lemma TokensDiffer(raw: seq<nat>, raw': seq<nat>, token: Text, token': Text)
    requires |raw| == |raw'| == |token| == |token'| == TOKEN_LENGTH
    requires forall i :: 0 <= i < |raw| ==> token[i] == Base62Digit(raw[i] % 62)
    requires forall i :: 0 <= i < |raw| ==> token'[i] == Base62Digit(raw'[i] % 62)
    ensures token == token' <==> forall i :: 0 <= i < |raw| ==> raw[i] % 62 == raw'[i] % 62
  {
    if token == token' {
      forall i | 0 <= i < |raw| ensures raw[i] % 62 == raw'[i] % 62 {
        assert token[i] == token'[i];
      }
    }
  }
}
