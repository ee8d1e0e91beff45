/** A trace whose writing stopped half-way: no part of its text short of the whole can be read. */
module Torn {
  import opened Types
  import opened Numbers
  import opened Json
  import opened Codec

  // ---------- lexing the beginning of a text ----------

  lemma CodeUnitMore(p: string, q: string)
    requires CodeUnit(p).Some?
    ensures CodeUnit(p + q) == CodeUnit(p)
  {
  }

  lemma EscapeMore(p: string, q: string)
    requires Escape(p).Some?
    ensures Escape(p + q) == Escape(p)
  {
    if p[1] == 'u' {
      CodeUnitMore(p, q);
      assert (p + q)[6..] == p[6..] + q;
      if CodeUnit(p[6..]).Some? {
        CodeUnitMore(p[6..], q);
      }
    }
  }

  lemma ScanTextEscape(s: string, c: char, n: nat)
    requires s != "" && s[0] == '\\' && Escape(s) == Some((c, n))
    ensures ScanText(s) == Preceded(c, n, ScanText(s[n..]))
  {
  }

  lemma ScanEscaped(p: string, q: string, c: char, n: nat)
    requires p != "" && p[0] == '\\' && Escape(p) == Some((c, n)) && Escape(p + q) == Some((c, n))
    requires ScanText(p[n..] + q) == ScanText(p[n..])
    ensures ScanText(p + q) == ScanText(p)
  {
    var s := p + q;
    assert s[0] == p[0] && s[n..] == p[n..] + q;
    ScanTextEscape(p, c, n);
    ScanTextEscape(s, c, n);
  }

  lemma ScanPlainMore(p: string, q: string)
    requires p != "" && p[0] != '\\' && (p[0] == '"' || ScanText(p[1..] + q) == ScanText(p[1..]))
    ensures ScanText(p + q) == ScanText(p)
  {
    assert (p + q)[0] == p[0] && (p + q)[1..] == p[1..] + q;
  }

  // A string that is closed is not affected by what follows.
  lemma {:induction false} ScanTextMore(p: string, q: string)
    requires ScanText(p).Some?
    ensures ScanText(p + q) == ScanText(p)
    decreases |p|
  {
    if p[0] == '\\' {
      var (c, n) := Escape(p).value;
      EscapeMore(p, q);
      ScanTextMore(p[n..], q);
      ScanEscaped(p, q, c, n);
    } else {
      if p[0] != '"' {
        ScanTextMore(p[1..], q);
      }
      ScanPlainMore(p, q);
    }
  }

  lemma {:induction false} SpanMore(p: string, q: string, f: char -> bool)
    ensures Span(p, f) < |p| ==> Span(p + q, f) == Span(p, f)
    ensures Span(p, f) == |p| ==> Span(p + q, f) >= |p|
  {
    if p != "" && f(p[0]) {
      assert (p + q)[1..] == p[1..] + q;
      SpanMore(p[1..], q, f);
    }
  }

  ghost predicate IsBracket(t: Token) {
    t.LBrace? || t.RBrace? || t.LBracket? || t.RBracket?
  }

  // A number or a word, which more text of the same kind prolongs.
  ghost predicate IsOpenEnded(s: string, t: Token, n: nat)
    requires 0 < n <= |s|
  {
    !IsBracket(t) && (IsNumberChar(s[n - 1]) || IsLetter(s[n - 1]))
  }

  // The token is the same with more text behind it, or it ends the text and is one of those that may go on.
  ghost predicate SameOrProlonged(p: string, q: string)
    requires p != "" && Scan(p).Some? && Scan(p + q).Some?
  {
    || Scan(p + q) == Scan(p)
    || (Scan(p).value.1 == |p| <= Scan(p + q).value.1
        && IsOpenEnded(p, Scan(p).value.0, Scan(p).value.1)
        && IsOpenEnded(p + q, Scan(p + q).value.0, Scan(p + q).value.1))
  }

  lemma ScanMoreNumber(p: string, q: string)
    requires p != "" && Scan(p).Some? && Scan(p + q).Some? && (p[0] == '-' || IsDigit(p[0]))
    ensures SameOrProlonged(p, q)
  {
    var s := p + q;
    SpanMore(p, q, IsNumberChar);
    var n, m := Span(p, IsNumberChar), Span(s, IsNumberChar);
    assert Scan(p) == Some((Num(p[..n]), n)) && Scan(s) == Some((Num(s[..m]), m));
    if n < |p| {
      assert s[..n] == p[..n];
    } else {
      assert IsNumberChar(p[n - 1]) && IsNumberChar(s[m - 1]);
    }
  }

  lemma ScanMoreWord(p: string, q: string)
    requires p != "" && Scan(p).Some? && Scan(p + q).Some? && IsLetter(p[0])
    ensures SameOrProlonged(p, q)
  {
    var s := p + q;
    SpanMore(p, q, IsLetter);
    var n, m := Span(p, IsLetter), Span(s, IsLetter);
    assert Scan(p) == Some((Word(p[..n]), n)) && Scan(s) == Some((Word(s[..m]), m));
    if n < |p| {
      assert s[..n] == p[..n];
    } else {
      assert IsLetter(p[n - 1]) && IsLetter(s[m - 1]);
    }
  }

  lemma ScanMoreText(p: string, q: string)
    requires p != "" && Scan(p).Some? && p[0] == '"'
    ensures Scan(p + q) == Scan(p)
  {
    assert (p + q)[0] == p[0] && (p + q)[1..] == p[1..] + q;
    ScanTextMore(p[1..], q);
  }

  lemma ScanMore(p: string, q: string)
    requires p != "" && Scan(p).Some? && Scan(p + q).Some?
    ensures SameOrProlonged(p, q)
  {
    assert (p + q)[0] == p[0];
    if p[0] == '"' {
      ScanMoreText(p, q);
    } else if p[0] == '-' || IsDigit(p[0]) {
      ScanMoreNumber(p, q);
    } else if IsLetter(p[0]) {
      ScanMoreWord(p, q);
    }
  }

  ghost predicate EndsInBracket(s: string) {
    s != "" && s[|s| - 1] in "]}"
  }

  lemma {:induction false} LexNonEmpty(s: string)
    requires EndsInBracket(s) && Lex(s).Some?
    ensures Lex(s).value != []
    decreases |s|
  {
    if IsSpace(s[0]) {
      assert s[1..][|s| - 2] == s[|s| - 1];
      LexNonEmpty(s[1..]);
    }
  }

  // ---------- nesting ----------

  // How many brackets are open after the tokens.
  ghost function Depth(ts: seq<Token>): int {
    if ts == [] then 0
    else
      var t := ts[|ts| - 1];
      Depth(ts[..|ts| - 1]) +
      if t.LBrace? || t.LBracket? then 1 else if t.RBrace? || t.RBracket? then -1 else 0
  }

  lemma {:induction false} DepthConcat(a: seq<Token>, b: seq<Token>)
    ensures Depth(a + b) == Depth(a) + Depth(b)
  {
    if b == [] {
      assert a + b == a;
    } else {
      assert (a + b)[..|a + b| - 1] == a + b[..|b| - 1];
      DepthConcat(a, b[..|b| - 1]);
    }
  }

  // The brackets match: never more closed than opened, and all closed at the end.
  ghost predicate Balanced(ts: seq<Token>) {
    Depth(ts) == 0 && forall n :: 0 <= n <= |ts| ==> Depth(ts[..n]) >= 0
  }

  lemma BalancedConcat(a: seq<Token>, b: seq<Token>)
    requires Balanced(a) && Balanced(b)
    ensures Balanced(a + b)
  {
    DepthConcat(a, b);
    forall n | 0 <= n <= |a + b|
      ensures Depth((a + b)[..n]) >= 0
    {
      if n <= |a| {
        assert (a + b)[..n] == a[..n];
      } else {
        assert (a + b)[..n] == a + b[..n - |a|];
        DepthConcat(a, b[..n - |a|]);
      }
    }
  }

  lemma BalancedOne(t: Token)
    requires !IsBracket(t)
    ensures Balanced([t])
  {
    forall n | 0 <= n <= 1
      ensures Depth([t][..n]) == 0
    {
      assert n == 0 || [t][..n] == [t];
      assert Depth([]) == 0 && [t][..0] == [];
    }
  }

  lemma DepthOne(t: Token)
    ensures Depth([t]) == if t.LBrace? || t.LBracket? then 1 else if t.RBrace? || t.RBracket? then -1 else 0
  {
    assert [t][..0] == [];
  }

  // Inside the brackets at least one is open.
  lemma Bracketed(open: Token, ts: seq<Token>, close: Token)
    requires (open, close) in {(LBracket, RBracket), (LBrace, RBrace)} && Balanced(ts)
    ensures Balanced([open] + ts + [close])
    ensures forall n :: 0 < n < |ts| + 2 ==> Depth(([open] + ts + [close])[..n]) >= 1
  {
    var all := [open] + ts + [close];
    DepthOne(open);
    DepthOne(close);
    DepthConcat([open] + ts, [close]);
    DepthConcat([open], ts);
    forall n | 0 < n < |ts| + 2
      ensures Depth(all[..n]) >= 1
    {
      assert all[..n] == [open] + ts[..n - 1];
      DepthConcat([open], ts[..n - 1]);
    }
    forall n | 0 <= n <= |all|
      ensures Depth(all[..n]) >= 0
    {
      if n == |all| {
        assert all[..n] == all;
      }
    }
  }

  lemma {:induction false} TokensBalanced(v: Json)
    ensures Balanced(Tokens(v))
    decreases v, 0
  {
    match v
    case JNull => BalancedOne(Word("null"));
    case JBool(b) => BalancedOne(Word(if b then "true" else "false"));
    case JNum(l) => BalancedOne(Num(l));
    case JStr(s) => BalancedOne(Str(s));
    case JArr(es) => ArrayBalanced(es);
    case JObj(ms) =>
      if ms == [] {
        Bracketed(LBrace, [], RBrace);
      } else {
        MembersBalanced(ms);
        Bracketed(LBrace, MemberTokens(ms), RBrace);
      }
  }

  lemma {:induction false} ArrayBalanced(es: seq<Json>)
    ensures Balanced(Tokens(JArr(es)))
    ensures forall n :: 0 < n < |Tokens(JArr(es))| ==> Depth(Tokens(JArr(es))[..n]) >= 1
    decreases es, 2
  {
    var body := if es == [] then [] else ElemTokens(es);
    assert Tokens(JArr(es)) == [LBracket] + body + [RBracket];
    if es == [] {
      assert Balanced([]);
    } else {
      ElemsBalanced(es);
    }
    Bracketed(LBracket, body, RBracket);
  }

  lemma {:induction false} ElemsBalanced(es: seq<Json>)
    requires es != []
    ensures Balanced(ElemTokens(es))
    decreases es, 1
  {
    TokensBalanced(es[0]);
    if |es| == 1 {
      assert Tokens(es[0]) + [] == Tokens(es[0]);
    } else {
      ElemsBalanced(es[1..]);
      BalancedOne(Comma);
      BalancedConcat([Comma], ElemTokens(es[1..]));
      BalancedConcat(Tokens(es[0]), [Comma] + ElemTokens(es[1..]));
    }
  }

  lemma {:induction false} MembersBalanced(ms: seq<Member>)
    requires ms != []
    ensures Balanced(MemberTokens(ms))
    decreases ms, 1
  {
    var head := [Str(ms[0].key), Colon];
    BalancedOne(Str(ms[0].key));
    BalancedOne(Colon);
    BalancedConcat([Str(ms[0].key)], [Colon]);
    assert head == [Str(ms[0].key)] + [Colon];
    TokensBalanced(ms[0].value);
    BalancedConcat(head, Tokens(ms[0].value));
    if |ms| == 1 {
      assert head + Tokens(ms[0].value) + [] == head + Tokens(ms[0].value);
    } else {
      MembersBalanced(ms[1..]);
      BalancedOne(Comma);
      BalancedConcat([Comma], MemberTokens(ms[1..]));
      BalancedConcat(head + Tokens(ms[0].value), [Comma] + MemberTokens(ms[1..]));
    }
  }

  // ---------- the tokens of a cut text ----------

  // The cut text has the nesting of some of the whole text's tokens, but not of all.
  ghost predicate CutAt(tp: seq<Token>, ts: seq<Token>, n: nat) {
    n < |ts| && Depth(tp) == Depth(ts[..n]) && (tp == [] <==> n == 0)
  }

  lemma CutAfter(t: Token, tp: seq<Token>, ts: seq<Token>, n: nat)
    requires CutAt(tp, ts, n)
    ensures CutAt([t] + tp, [t] + ts, n + 1)
  {
    assert ([t] + ts)[..n + 1] == [t] + ts[..n];
    DepthConcat([t], tp);
    DepthConcat([t], ts[..n]);
  }

  lemma CutOne(t: Token, t': Token, rest: seq<Token>)
    requires !IsBracket(t) && !IsBracket(t') && rest != []
    ensures CutAt([t], [t'] + rest, 1)
  {
    assert ([t'] + rest)[..1] == [t'];
    DepthOne(t);
    DepthOne(t');
  }

  lemma LexHead(s: string)
    requires s != "" && !IsSpace(s[0]) && Lex(s).Some?
    ensures Scan(s).Some? && Lex(s[Scan(s).value.1..]).Some?
    ensures Lex(s).value == [Scan(s).value.0] + Lex(s[Scan(s).value.1..]).value
  {
  }

  lemma LexOnly(p: string, t: Token)
    requires p != "" && !IsSpace(p[0]) && Scan(p) == Some((t, |p|))
    ensures Lex(p) == Some([t])
  {
    assert p[|p|..] == "" && [t] + [] == [t];
  }

  lemma NonEmptyRest(s: string, m: nat)
    requires EndsInBracket(s) && 0 < m <= |s| && Lex(s[m..]).Some?
    requires IsNumberChar(s[m - 1]) || IsLetter(s[m - 1])
    ensures Lex(s[m..]).value != []
  {
    assert m < |s|;
    assert s[m..][|s| - m - 1] == s[|s| - 1];
    LexNonEmpty(s[m..]);
  }

  lemma CutWithin(p: string, q: string, t: Token, t': Token, m: nat)
    requires p != "" && !IsSpace(p[0]) && Lex(p).Some? && Lex(p + q).Some? && EndsInBracket(p + q)
    requires Scan(p) == Some((t, |p|)) && Scan(p + q) == Some((t', m))
    requires IsOpenEnded(p, t, |p|) && IsOpenEnded(p + q, t', m)
    ensures CutAt(Lex(p).value, Lex(p + q).value, 1)
  {
    LexOnly(p, t);
    LexHead(p + q);
    NonEmptyRest(p + q, m);
    CutOne(t, t', Lex((p + q)[m..]).value);
  }

  lemma CutProlonged(p: string, q: string)
    requires p != "" && !IsSpace(p[0]) && Lex(p).Some? && Lex(p + q).Some? && EndsInBracket(p + q)
    requires Scan(p + q) != Scan(p)
    ensures CutAt(Lex(p).value, Lex(p + q).value, 1)
  {
    LexHead(p);
    LexHead(p + q);
    ScanMore(p, q);
    CutWithin(p, q, Scan(p).value.0, Scan(p + q).value.0, Scan(p + q).value.1);
  }

  lemma RestOf(p: string, q: string, m: nat)
    requires m <= |p|
    ensures (p + q)[m..] == p[m..] + q
  {
  }

  lemma CutBehind(p: string, q: string, m: nat)
    requires p != "" && !IsSpace(p[0]) && Lex(p).Some? && Lex(p + q).Some?
    requires Scan(p).Some? && Scan(p + q) == Scan(p) && Scan(p).value.1 == m
    ensures Lex(p[m..]).Some? && Lex(p[m..] + q).Some?
    ensures forall n: nat :: CutAt(Lex(p[m..]).value, Lex(p[m..] + q).value, n) ==>
              CutAt(Lex(p).value, Lex(p + q).value, n + 1)
  {
    LexHead(p);
    LexHead(p + q);
    RestOf(p, q, m);
    forall n: nat | CutAt(Lex(p[m..]).value, Lex(p[m..] + q).value, n)
      ensures CutAt(Lex(p).value, Lex(p + q).value, n + 1)
    {
      CutAfter(Scan(p).value.0, Lex(p[m..]).value, Lex(p[m..] + q).value, n);
    }
  }

  // Either the first token of p stands, and the cut is somewhere behind it, or the cut is within it.
  lemma CutHead(p: string, q: string) returns (m: nat)
    requires p != "" && !IsSpace(p[0]) && Lex(p).Some? && Lex(p + q).Some? && EndsInBracket(p + q)
    ensures m > 0 ==>
              && m <= |p| && Lex(p[m..]).Some? && Lex(p[m..] + q).Some?
              && forall n: nat :: CutAt(Lex(p[m..]).value, Lex(p[m..] + q).value, n) ==>
                   CutAt(Lex(p).value, Lex(p + q).value, n + 1)
    ensures m == 0 ==> CutAt(Lex(p).value, Lex(p + q).value, 1)
  {
    LexHead(p);
    if Scan(p + q) == Scan(p) {
      m := Scan(p).value.1;
      CutBehind(p, q, m);
    } else {
      CutProlonged(p, q);
      m := 0;
    }
  }

  lemma CutStart(q: string)
    requires EndsInBracket(q) && Lex(q).Some?
    ensures Lex("") == Some([]) && CutAt([], Lex(q).value, 0)
  {
    LexNonEmpty(q);
    assert Lex(q).value[..0] == [];
  }

  lemma CutSpace(p: string, q: string)
    requires p != "" && IsSpace(p[0])
    ensures Lex(p) == Lex(p[1..]) && Lex(p + q) == Lex(p[1..] + q)
  {
    assert (p + q)[1..] == p[1..] + q;
  }

  lemma {:induction false} LexCut(p: string, q: string) returns (n: nat)
    requires Lex(p).Some? && Lex(p + q).Some? && EndsInBracket(q)
    ensures CutAt(Lex(p).value, Lex(p + q).value, n)
    decreases |p|
  {
    if p == "" {
      assert p + q == q;
      CutStart(q);
      n := 0;
    } else if IsSpace(p[0]) {
      CutSpace(p, q);
      n := LexCut(p[1..], q);
    } else {
      var m := CutHead(p, q);
      n := 1;
      if m > 0 {
        n := LexCut(p[m..], q);
        n := n + 1;
      }
    }
  }

  // ---------- main results ----------

  // No text short of the whole of an array's parses, whatever it is cut at.
  lemma CutArray(p: string, q: string, es: seq<Json>)
    requires EndsInBracket(q) && Parse(p + q) == Some(JArr(es))
    ensures Parse(p).None?
  {
    if Parse(p).Some? {
      var v := Parse(p).value;
      ParseExact(p, v);
      ParseExact(p + q, JArr(es));
      var n := LexCut(p, q);
      TokensBalanced(v);
      ArrayBalanced(es);
      assert false;
    }
  }

  lemma TextEnds(log: seq<Event>, style: Style)
    ensures EndsInBracket(TraceText(log, style))
  {
    var es := EncodeAll(log).elems;
    if es == [] {
      assert TraceText(log, style) == "[]";
    } else {
      var front := "[" + PrintElems(es, style, 1) + Break(style, 0);
      assert TraceText(log, style) == front + "]";
    }
  }

  // A trace that was cut short is never read as a shorter trace, nor as anything else.
  lemma CutTrace(log: seq<Event>, style: Style, k: nat)
    requires k < |TraceText(log, style)|
    ensures ParseTrace(TraceText(log, style)[..k]).None?
  {
    var text := TraceText(log, style);
    assert text[..k] + text[k..] == text;
    TextEnds(log, style);
    assert text[k..][|text| - k - 1] == text[|text| - 1];
    TraceJson(log, style);
    CutArray(text[..k], text[k..], EncodeAll(log).elems);
  }

  lemma TraceJson(log: seq<Event>, style: Style)
    ensures Parse(TraceText(log, style)) == Some(EncodeAll(log))
  {
    PrintableTrace(log);
    RoundTrip(EncodeAll(log), style);
  }
}
