/** JSON text (sections 2 to 7 of RFC 8259): a printer with a compact and a pretty layout, a lexer and a parser.
    The printer is given strings of characters that need no escape; the lexer reads escapes too. */
module Json {
  import opened Types
  import opened Numbers

  datatype Json =
    | JNull
    | JBool(b: bool)
    | JNum(lexeme: string)
    | JStr(s: string)
    | JArr(elems: seq<Json>)
    | JObj(members: seq<Member>)

  datatype Member = Member(key: string, value: Json)

  datatype Token =
    | LBrace | RBrace | LBracket | RBracket | Comma | Colon
    | Str(s: string) | Num(lexeme: string) | Word(w: string)

  datatype Style = Compact | Pretty

  predicate IsSpace(c: char) {
    c in " \t\n\r"
  }

  predicate IsPlain(c: char) {
    ' ' <= c && c != '"' && c != '\\'
  }

  predicate IsLetter(c: char) {
    'a' <= c <= 'z'
  }

  ghost predicate PlainText(s: string) {
    forall i :: 0 <= i < |s| ==> IsPlain(s[i])
  }

  // Values this printer can print: plain strings and well-formed number lexemes throughout.
  ghost predicate Printable(v: Json) {
    match v
    case JNull => true
    case JBool(_) => true
    case JNum(l) => IsJsonNumber(l)
    case JStr(s) => PlainText(s)
    case JArr(es) => forall e :: e in es ==> Printable(e)
    case JObj(ms) => forall m :: m in ms ==> PlainText(m.key) && Printable(m.value)
  }

  // ---------- printing ----------

  function Spaces(n: nat): string {
    if n == 0 then "" else " " + Spaces(n - 1)
  }

  // What precedes an element or a closing bracket: nothing, or a line break and two spaces a level.
  function Break(style: Style, depth: nat): string {
    if style.Compact? then "" else "\n" + Spaces(2 * depth)
  }

  function Quoted(s: string): string {
    "\"" + s + "\""
  }

  function Print(v: Json, style: Style, depth: nat): (s: string)
    decreases v, 0
  {
    match v
    case JNull => "null"
    case JBool(b) => if b then "true" else "false"
    case JNum(l) => l
    case JStr(s) => Quoted(s)
    case JArr(es) =>
      if es == [] then "[]" else "[" + PrintElems(es, style, depth + 1) + Break(style, depth) + "]"
    case JObj(ms) =>
      if ms == [] then "{}" else "{" + PrintMembers(ms, style, depth + 1) + Break(style, depth) + "}"
  }

  function PrintElems(es: seq<Json>, style: Style, depth: nat): string
    requires es != []
    decreases es, 1
  {
    Break(style, depth) + Print(es[0], style, depth) +
    if |es| == 1 then "" else "," + PrintElems(es[1..], style, depth)
  }

  function PrintMembers(ms: seq<Member>, style: Style, depth: nat): string
    requires ms != []
    decreases ms, 1
  {
    Break(style, depth) + Quoted(ms[0].key) + (if style.Compact? then ":" else ": ") +
    Print(ms[0].value, style, depth) +
    if |ms| == 1 then "" else "," + PrintMembers(ms[1..], style, depth)
  }

  lemma PlainConcat(a: string, b: string)
    requires '\n' !in a && '\n' !in b
    ensures '\n' !in a + b
  {
  }

  lemma LeafOneLine(v: Json)
    requires Printable(v) && !v.JArr? && !v.JObj?
    ensures forall depth :: '\n' !in Print(v, Compact, depth)
  {
    match v
    case JNum(l) => NumberChars(l);
    case JStr(s) => QuotedOneLine(s);
    case _ =>
  }

  lemma QuotedOneLine(s: string)
    requires PlainText(s)
    ensures '\n' !in Quoted(s)
  {
    PlainConcat("\"", s);
    PlainConcat("\"" + s, "\"");
  }

  // Compact text is a single line.
  lemma {:induction false} CompactOneLine(v: Json, depth: nat)
    requires Printable(v)
    ensures '\n' !in Print(v, Compact, depth)
    decreases v, 0
  {
    match v
    case JArr(es) =>
      if es != [] {
        ElemsOneLine(es, depth + 1);
      }
    case JObj(ms) =>
      if ms != [] {
        MembersOneLine(ms, depth + 1);
      }
    case _ => LeafOneLine(v);
  }

  lemma {:induction false} ElemsOneLine(es: seq<Json>, depth: nat)
    requires es != [] && forall e :: e in es ==> Printable(e)
    ensures '\n' !in PrintElems(es, Compact, depth)
    decreases es, 1
  {
    assert es[0] in es;
    CompactOneLine(es[0], depth);
    if |es| > 1 {
      ElemsOneLine(es[1..], depth);
    }
  }

  lemma {:induction false} MembersOneLine(ms: seq<Member>, depth: nat)
    requires ms != [] && forall m :: m in ms ==> PlainText(m.key) && Printable(m.value)
    ensures '\n' !in PrintMembers(ms, Compact, depth)
    decreases ms, 1
  {
    assert ms[0] in ms;
    QuotedOneLine(ms[0].key);
    CompactOneLine(ms[0].value, depth);
    if |ms| > 1 {
      MembersOneLine(ms[1..], depth);
    }
  }

  // Pretty text has a line break before each element.
  lemma PrettyBreaks(es: seq<Json>, depth: nat)
    requires es != []
    ensures '\n' in Print(JArr(es), Pretty, depth)
  {
    var text := PrintElems(es, Pretty, depth + 1);
    assert text[0] == '\n';
    assert Print(JArr(es), Pretty, depth)[1] == '\n';
  }

  // ---------- lexing ----------

  function HexDigit(c: char): (r: Option<nat>)
    ensures r.Some? ==> r.value < 16
  {
    if '0' <= c <= '9' then Some(c as int - '0' as int)
    else if 'a' <= c <= 'f' then Some(c as int - 'a' as int + 10)
    else if 'A' <= c <= 'F' then Some(c as int - 'A' as int + 10)
    else None
  }

  // The code unit spelt by a \u escape at the head of s.
  function CodeUnit(s: string): (r: Option<nat>)
    ensures r.Some? ==> |s| >= 6 && r.value < 0x1_0000
  {
    if |s| < 6 || s[0] != '\\' || s[1] != 'u' then None
    else
      var a :- HexDigit(s[2]);
      var b :- HexDigit(s[3]);
      var c :- HexDigit(s[4]);
      var d :- HexDigit(s[5]);
      Some(4096 * a + 256 * b + 16 * c + d)
  }

  // The character spelt by an escape at the head of s and the number of characters it takes; characters beyond the
  // basic plane are spelt by two code units.
  function Escape(s: string): (r: Option<(char, nat)>)
    ensures r.Some? ==> 0 < r.value.1 <= |s|
  {
    if |s| < 2 then None
    else
      match s[1]
      case '"' => Some(('"', 2))
      case '\\' => Some(('\\', 2))
      case '/' => Some(('/', 2))
      case 'b' => Some(('\U{0008}', 2))
      case 'f' => Some(('\U{000C}', 2))
      case 'n' => Some(('\n', 2))
      case 'r' => Some(('\r', 2))
      case 't' => Some(('\t', 2))
      case 'u' =>
        var u :- CodeUnit(s);
        if u < 0xD800 || 0xE000 <= u then Some((u as char, 6))
        else
          var v :- CodeUnit(s[6..]);
          if u < 0xDC00 <= v < 0xE000 then
            Some(((0x1_0000 + 0x400 * (u - 0xD800) + (v - 0xDC00)) as char, 12))
          else None
      case _ => None
  }

  // What stands between an opening quote and its closing quote, which is the last of the characters it takes.
  function ScanText(s: string): (r: Option<(string, nat)>)
    ensures r.Some? ==> 0 < r.value.1 <= |s|
    decreases |s|
  {
    if s == "" || s[0] < ' ' then None
    else if s[0] == '"' then Some(("", 1))
    else if s[0] == '\\' then
      match Escape(s)
      case None => None
      case Some((c, n)) => Preceded(c, n, ScanText(s[n..]))
    else Preceded(s[0], 1, ScanText(s[1..]))
  }

  // One more character, which takes n.
  function Preceded(c: char, n: nat, r: Option<(string, nat)>): Option<(string, nat)> {
    match r
    case None => None
    case Some((text, m)) => Some(([c] + text, n + m))
  }

  // The token at the head of s and the number of characters it takes.
  function Scan(s: string): (r: Option<(Token, nat)>)
    requires s != ""
    ensures r.Some? ==> 0 < r.value.1 <= |s|
  {
    match s[0]
    case '{' => Some((LBrace, 1))
    case '}' => Some((RBrace, 1))
    case '[' => Some((LBracket, 1))
    case ']' => Some((RBracket, 1))
    case ',' => Some((Comma, 1))
    case ':' => Some((Colon, 1))
    case '"' =>
      var (text, n) :- ScanText(s[1..]);
      Some((Str(text), n + 1))
    case c =>
      if c == '-' || IsDigit(c) then
        var n := Span(s, IsNumberChar);
        if IsJsonNumber(s[..n]) then Some((Num(s[..n]), n)) else None
      else if IsLetter(c) then
        var n := Span(s, IsLetter);
        if s[..n] in {"true", "false", "null"} then Some((Word(s[..n]), n)) else None
      else None
  }

  function Prepend(ts: seq<Token>, r: Option<seq<Token>>): Option<seq<Token>> {
    if r.None? then None else Some(ts + r.value)
  }

  function Lex(s: string): Option<seq<Token>>
    decreases |s|
  {
    if s == "" then Some([])
    else if IsSpace(s[0]) then Lex(s[1..])
    else
      match Scan(s)
      case None => None
      case Some((t, n)) => Prepend([t], Lex(s[n..]))
  }

  // ---------- blanks and escapes, by the tables of sections 2 and 7 ----------

  const LOWER := "0123456789abcdef"
  const UPPER := "0123456789ABCDEF"

  lemma BlankSkipped(c: char, s: string)
    ensures c in {' ', '\t', '\n', '\r'} ==> Lex([c] + s) == Lex(s)
  {
    assert ([c] + s)[1..] == s;
  }

  lemma HexDigitRead(d: nat)
    requires d < 16
    ensures HexDigit(LOWER[d]) == HexDigit(UPPER[d]) == Some(d)
  {
  }

  // Four hexadecimal digits, in either case, name a code unit.
  lemma CodeUnitRead(a: nat, b: nat, c: nat, d: nat, rest: string)
    requires a < 16 && b < 16 && c < 16 && d < 16
    ensures CodeUnit("\\u" + [LOWER[a], LOWER[b], LOWER[c], LOWER[d]] + rest)
            == CodeUnit("\\u" + [UPPER[a], UPPER[b], UPPER[c], UPPER[d]] + rest)
            == Some(((16 * a + b) * 16 + c) * 16 + d)
  {
    HexDigitRead(a);
    HexDigitRead(b);
    HexDigitRead(c);
    HexDigitRead(d);
  }

  // Inside a string a character stands for itself unless it is a quote, a backslash or a control character, which may
  // not stand there.
  lemma CharacterRead(c: char, rest: string)
    ensures c < '\U{0020}' ==> ScanText([c] + rest) == None
    ensures c >= '\U{0020}' && c != '"' && c != '\\' ==> ScanText([c] + rest) == Preceded(c, 1, ScanText(rest))
  {
    assert ([c] + rest)[1..] == rest;
  }

  // A backslash and one of these letters stand for one character.
  lemma EscapeRead(letter: char, c: char, rest: string)
    requires (letter, c) in {('"', '"'), ('\\', '\\'), ('/', '/'), ('b', '\U{0008}'), ('f', '\U{000C}'),
                             ('n', '\n'), ('r', '\r'), ('t', '\t')}
    ensures ScanText(['\\', letter] + rest) == Preceded(c, 2, ScanText(rest))
  {
    assert (['\\', letter] + rest)[2..] == rest;
  }

  // ---------- parsing ----------

  function ParseValue(ts: seq<Token>): (r: Option<(Json, seq<Token>)>)
    ensures r.Some? ==> |r.value.1| < |ts|
    decreases |ts|, 0
  {
    if ts == [] then None
    else
      match ts[0]
      case Str(s) => Some((JStr(s), ts[1..]))
      case Num(l) => Some((JNum(l), ts[1..]))
      case Word(w) =>
        if w == "true" then Some((JBool(true), ts[1..]))
        else if w == "false" then Some((JBool(false), ts[1..]))
        else if w == "null" then Some((JNull, ts[1..]))
        else None
      case LBracket =>
        if |ts| > 1 && ts[1] == RBracket then Some((JArr([]), ts[2..]))
        else
          (match ParseElems(ts[1..])
           case None => None
           case Some((es, rest)) => Some((JArr(es), rest)))
      case LBrace =>
        if |ts| > 1 && ts[1] == RBrace then Some((JObj([]), ts[2..]))
        else
          (match ParseMembers(ts[1..])
           case None => None
           case Some((ms, rest)) => Some((JObj(ms), rest)))
      case _ => None
  }

  function ParseElems(ts: seq<Token>): (r: Option<(seq<Json>, seq<Token>)>)
    ensures r.Some? ==> |r.value.1| < |ts| && r.value.0 != []
    decreases |ts|, 1
  {
    match ParseValue(ts)
    case None => None
    case Some((v, rest)) =>
      if rest == [] then None
      else if rest[0] == RBracket then Some(([v], rest[1..]))
      else if rest[0] == Comma then
        (match ParseElems(rest[1..])
         case None => None
         case Some((vs, rest')) => Some(([v] + vs, rest')))
      else None
  }

  function ParseMembers(ts: seq<Token>): (r: Option<(seq<Member>, seq<Token>)>)
    ensures r.Some? ==> |r.value.1| < |ts| && r.value.0 != []
    decreases |ts|, 1
  {
    if |ts| < 3 || !ts[0].Str? || ts[1] != Colon then None
    else
      match ParseValue(ts[2..])
      case None => None
      case Some((v, rest)) =>
        if rest == [] then None
        else if rest[0] == RBrace then Some(([Member(ts[0].s, v)], rest[1..]))
        else if rest[0] == Comma then
          (match ParseMembers(rest[1..])
           case None => None
           case Some((ms, rest')) => Some(([Member(ts[0].s, v)] + ms, rest')))
        else None
  }

  function Parse(text: string): Option<Json> {
    match Lex(text)
    case None => None
    case Some(ts) =>
      match ParseValue(ts)
      case None => None
      case Some((v, rest)) => if rest == [] then Some(v) else None
  }

  // ---------- the grammar, independently of both ----------

  ghost function Tokens(v: Json): (ts: seq<Token>)
    ensures ts != []
    decreases v, 0
  {
    match v
    case JNull => [Word("null")]
    case JBool(b) => [Word(if b then "true" else "false")]
    case JNum(l) => [Num(l)]
    case JStr(s) => [Str(s)]
    case JArr(es) => [LBracket] + (if es == [] then [] else ElemTokens(es)) + [RBracket]
    case JObj(ms) => [LBrace] + (if ms == [] then [] else MemberTokens(ms)) + [RBrace]
  }

  ghost function ElemTokens(es: seq<Json>): (ts: seq<Token>)
    requires es != []
    decreases es, 1
  {
    Tokens(es[0]) + if |es| == 1 then [] else [Comma] + ElemTokens(es[1..])
  }

  ghost function MemberTokens(ms: seq<Member>): (ts: seq<Token>)
    requires ms != []
    decreases ms, 1
  {
    [Str(ms[0].key), Colon] + Tokens(ms[0].value) + if |ms| == 1 then [] else [Comma] + MemberTokens(ms[1..])
  }

  // ---------- the lexer undoes the printer ----------

  // A text that cannot prolong a number or a word printed just before it.
  ghost predicate Boundary(rest: string) {
    rest == "" || (!IsNumberChar(rest[0]) && !IsLetter(rest[0]))
  }

  // The text a, put before rest, contributes exactly the tokens ts.
  ghost predicate Spells(a: string, ts: seq<Token>, rest: string) {
    Lex(a + rest) == Prepend(ts, Lex(rest))
  }

  ghost function NoTokens(): seq<Token> {
    []
  }

  lemma SpellsNothing(rest: string)
    ensures Spells("", [], rest)
  {
    assert "" + rest == rest;
    assert Lex(rest).Some? ==> [] + Lex(rest).value == Lex(rest).value;
  }

  lemma SpellsBoth(a: string, x: seq<Token>, b: string, y: seq<Token>, rest: string)
    requires Spells(a, x, b + rest) && Spells(b, y, rest)
    ensures Spells(a + b, x + y, rest)
  {
    assert (a + b) + rest == a + (b + rest);
    if Lex(rest).Some? {
      assert x + (y + Lex(rest).value) == (x + y) + Lex(rest).value;
    }
  }

  lemma SpellsBlank(c: char, rest: string)
    requires IsSpace(c)
    ensures Spells([c], [], rest)
  {
    assert ([c] + rest)[1..] == rest;
    assert Lex(rest).Some? ==> [] + Lex(rest).value == Lex(rest).value;
  }

  lemma {:induction false} SpellsSpaces(n: nat, rest: string)
    ensures Spells(Spaces(n), [], rest)
  {
    if n == 0 {
      SpellsNothing(rest);
    } else {
      SpellsSpaces(n - 1, rest);
      SpellsBlank(' ', Spaces(n - 1) + rest);
      assert [' '] == " " && NoTokens() + NoTokens() == NoTokens();
      SpellsBoth(" ", NoTokens(), Spaces(n - 1), NoTokens(), rest);
    }
  }

  lemma SpellsBreak(style: Style, depth: nat, rest: string)
    ensures Spells(Break(style, depth), [], rest)
  {
    if style.Compact? {
      SpellsNothing(rest);
    } else {
      SpellsSpaces(2 * depth, rest);
      SpellsBlank('\n', Spaces(2 * depth) + rest);
      assert ['\n'] == "\n" && NoTokens() + NoTokens() == NoTokens();
      SpellsBoth("\n", NoTokens(), Spaces(2 * depth), NoTokens(), rest);
    }
  }

  lemma SpellsMark(mark: string, t: Token, rest: string)
    requires (mark, t) in {("{", LBrace), ("}", RBrace), ("[", LBracket), ("]", RBracket), (",", Comma), (":", Colon)}
    ensures Spells(mark, [t], rest)
  {
    assert (mark + rest)[1..] == rest;
  }

  lemma {:induction false} ScanPlain(s: string, rest: string)
    requires PlainText(s)
    ensures ScanText(s + ("\"" + rest)) == Some((s, |s| + 1))
  {
    var text := s + ("\"" + rest);
    if s != "" {
      assert text[0] == s[0] && text[1..] == s[1..] + ("\"" + rest);
      ScanPlain(s[1..], rest);
      assert s == [s[0]] + s[1..];
    }
  }

  lemma SpellsString(s: string, rest: string)
    requires PlainText(s)
    ensures Spells(Quoted(s), [Str(s)], rest)
  {
    var text := Quoted(s) + rest;
    assert text[1..] == s + ("\"" + rest);
    ScanPlain(s, rest);
    assert text[|s| + 2..] == rest;
  }

  lemma SpellsNumber(l: string, rest: string)
    requires IsJsonNumber(l) && Boundary(rest)
    ensures Spells(l, [Num(l)], rest)
  {
    NumberChars(l);
    SpanOfPrefix(l, rest, IsNumberChar);
    assert (l + rest)[..|l|] == l && (l + rest)[|l|..] == rest;
    assert (l + rest)[0] == l[0];
  }

  lemma SpellsWord(w: string, rest: string)
    requires w in {"true", "false", "null"} && Boundary(rest)
    ensures Spells(w, [Word(w)], rest)
  {
    assert forall i :: 0 <= i < |w| ==> IsLetter(w[i]);
    SpanOfPrefix(w, rest, IsLetter);
    assert (w + rest)[..|w|] == w && (w + rest)[|w|..] == rest;
    assert (w + rest)[0] == w[0];
  }

  lemma SpellsColon(style: Style, rest: string)
    ensures Spells(if style.Compact? then ":" else ": ", [Colon], rest)
  {
    if style.Compact? {
      SpellsMark(":", Colon, rest);
    } else {
      SpellsBlank(' ', rest);
      assert [' '] == " ";
      SpellsMark(":", Colon, " " + rest);
      SpellsBoth(":", [Colon], " ", [], rest);
      assert [Colon] + [] == [Colon];
      assert ":" + " " == ": ";
    }
  }

  // A bracketed, non-empty body on its own lines.
  lemma SpellsBracketed(open: string, o: Token, body: string, ts: seq<Token>, close: string, c: Token,
                        style: Style, depth: nat, rest: string)
    requires (open, o, close, c) in {("[", LBracket, "]", RBracket), ("{", LBrace, "}", RBrace)}
    requires Spells(body, ts, Break(style, depth) + (close + rest))
    ensures Spells(open + body + Break(style, depth) + close, [o] + ts + [c], rest)
  {
    var break_ := Break(style, depth);
    SpellsMark(close, c, rest);
    SpellsBreak(style, depth, close + rest);
    SpellsMark(open, o, body + (break_ + (close + rest)));
    SpellsBoth(open, [o], body, ts, break_ + (close + rest));
    SpellsBoth(open + body, [o] + ts, break_, [], close + rest);
    assert [o] + ts + [] == [o] + ts;
    SpellsBoth(open + body + break_, [o] + ts, close, [c], rest);
  }

  // Whatever the layout, a printed value spells the value's tokens.
  lemma {:induction false} SpellsValue(v: Json, style: Style, depth: nat, rest: string)
    requires Printable(v) && Boundary(rest)
    ensures Spells(Print(v, style, depth), Tokens(v), rest)
    decreases v, 0
  {
    match v
    case JNull => SpellsWord("null", rest);
    case JBool(b) => SpellsWord(if b then "true" else "false", rest);
    case JNum(l) => SpellsNumber(l, rest);
    case JStr(s) => SpellsString(s, rest);
    case JArr(es) =>
      if es == [] {
        SpellsMark("]", RBracket, rest);
        SpellsMark("[", LBracket, "]" + rest);
        SpellsBoth("[", [LBracket], "]", [RBracket], rest);
        assert Tokens(v) == [LBracket] + [RBracket] && "[" + "]" == "[]";
      } else {
        SpellsElems(es, style, depth + 1, Break(style, depth) + ("]" + rest));
        SpellsBracketed("[", LBracket, PrintElems(es, style, depth + 1), ElemTokens(es), "]", RBracket,
                        style, depth, rest);
      }
    case JObj(ms) =>
      if ms == [] {
        SpellsMark("}", RBrace, rest);
        SpellsMark("{", LBrace, "}" + rest);
        SpellsBoth("{", [LBrace], "}", [RBrace], rest);
        assert Tokens(v) == [LBrace] + [RBrace] && "{" + "}" == "{}";
      } else {
        SpellsMembers(ms, style, depth + 1, Break(style, depth) + ("}" + rest));
        SpellsBracketed("{", LBrace, PrintMembers(ms, style, depth + 1), MemberTokens(ms), "}", RBrace,
                        style, depth, rest);
      }
  }

  lemma {:induction false} SpellsElems(es: seq<Json>, style: Style, depth: nat, rest: string)
    requires es != [] && Boundary(rest)
    requires forall e :: e in es ==> Printable(e)
    ensures Spells(PrintElems(es, style, depth), ElemTokens(es), rest)
    decreases es, 1
  {
    var head := Print(es[0], style, depth);
    var more, moreTokens := "", [];
    if |es| == 1 {
      SpellsNothing(rest);
    } else {
      var tail := PrintElems(es[1..], style, depth);
      SpellsElems(es[1..], style, depth, rest);
      SpellsMark(",", Comma, tail + rest);
      SpellsBoth(",", [Comma], tail, ElemTokens(es[1..]), rest);
      more, moreTokens := "," + tail, [Comma] + ElemTokens(es[1..]);
    }
    SpellsValue(es[0], style, depth, more + rest);
    SpellsBreak(style, depth, head + (more + rest));
    SpellsBoth(Break(style, depth), [], head, Tokens(es[0]), more + rest);
    SpellsBoth(Break(style, depth) + head, [] + Tokens(es[0]), more, moreTokens, rest);
    assert NoTokens() + Tokens(es[0]) == Tokens(es[0]);
    assert ElemTokens(es) == Tokens(es[0]) + moreTokens;
    assert PrintElems(es, style, depth) == Break(style, depth) + head + more;
  }

  lemma SpellsKey(key: string, style: Style, depth: nat, rest: string)
    requires PlainText(key)
    ensures Spells(Break(style, depth) + Quoted(key) + (if style.Compact? then ":" else ": "), [Str(key), Colon], rest)
  {
    var colon := if style.Compact? then ":" else ": ";
    SpellsColon(style, rest);
    SpellsString(key, colon + rest);
    SpellsBreak(style, depth, Quoted(key) + (colon + rest));
    SpellsBoth(Break(style, depth), [], Quoted(key), [Str(key)], colon + rest);
    SpellsBoth(Break(style, depth) + Quoted(key), [] + [Str(key)], colon, [Colon], rest);
    assert [] + [Str(key)] + [Colon] == [Str(key), Colon];
  }

  lemma {:induction false} SpellsMembers(ms: seq<Member>, style: Style, depth: nat, rest: string)
    requires ms != [] && Boundary(rest)
    requires forall m :: m in ms ==> PlainText(m.key) && Printable(m.value)
    ensures Spells(PrintMembers(ms, style, depth), MemberTokens(ms), rest)
    decreases ms, 1
  {
    var key := Break(style, depth) + Quoted(ms[0].key) + (if style.Compact? then ":" else ": ");
    var head := Print(ms[0].value, style, depth);
    var more, moreTokens := "", [];
    if |ms| == 1 {
      SpellsNothing(rest);
    } else {
      var tail := PrintMembers(ms[1..], style, depth);
      SpellsMembers(ms[1..], style, depth, rest);
      SpellsMark(",", Comma, tail + rest);
      SpellsBoth(",", [Comma], tail, MemberTokens(ms[1..]), rest);
      more, moreTokens := "," + tail, [Comma] + MemberTokens(ms[1..]);
    }
    assert ms[0] in ms;
    SpellsValue(ms[0].value, style, depth, more + rest);
    SpellsKey(ms[0].key, style, depth, head + (more + rest));
    SpellsBoth(key, [Str(ms[0].key), Colon], head, Tokens(ms[0].value), more + rest);
    SpellsBoth(key + head, [Str(ms[0].key), Colon] + Tokens(ms[0].value), more, moreTokens, rest);
  }

  // ---------- the parser accepts exactly the grammar ----------

  lemma ParseLeaf(v: Json, rest: seq<Token>)
    requires !v.JArr? && !v.JObj?
    ensures ParseValue(Tokens(v) + rest) == Some((v, rest))
  {
    assert (Tokens(v) + rest)[1..] == rest;
  }

  lemma ParseEmpty(v: Json, rest: seq<Token>)
    requires v == JArr([]) || v == JObj([])
    ensures ParseValue(Tokens(v) + rest) == Some((v, rest))
  {
    assert (Tokens(v) + rest)[2..] == rest;
  }

  lemma FirstToken(v: Json)
    ensures Tokens(v)[0] != RBracket
  {
  }

  lemma ParseArray(es: seq<Json>, rest: seq<Token>)
    requires es != [] && ParseElems(ElemTokens(es) + ([RBracket] + rest)) == Some((es, rest))
    ensures ParseValue(Tokens(JArr(es)) + rest) == Some((JArr(es), rest))
  {
    OpeningToken(LBracket, ElemTokens(es), RBracket, rest);
    FirstToken(es[0]);
    assert ElemTokens(es)[0] == Tokens(es[0])[0];
  }

  lemma ParseObject(ms: seq<Member>, rest: seq<Token>)
    requires ms != [] && ParseMembers(MemberTokens(ms) + ([RBrace] + rest)) == Some((ms, rest))
    ensures ParseValue(Tokens(JObj(ms)) + rest) == Some((JObj(ms), rest))
  {
    OpeningToken(LBrace, MemberTokens(ms), RBrace, rest);
    assert MemberTokens(ms)[0] == Str(ms[0].key);
  }

  lemma {:induction false} ParseTokens(v: Json, rest: seq<Token>)
    ensures ParseValue(Tokens(v) + rest) == Some((v, rest))
    decreases v, 0
  {
    if v == JArr([]) || v == JObj([]) {
      ParseEmpty(v, rest);
    } else if v.JArr? {
      ParseElemTokens(v.elems, rest);
      ParseArray(v.elems, rest);
    } else if v.JObj? {
      ParseMemberTokens(v.members, rest);
      ParseObject(v.members, rest);
    } else {
      ParseLeaf(v, rest);
    }
  }

  lemma OpeningToken(open: Token, body: seq<Token>, close: Token, rest: seq<Token>)
    requires body != []
    ensures var ts := [open] + body + [close] + rest;
            |ts| > 1 && ts[0] == open && ts[1] == body[0] && ts[1..] == body + ([close] + rest)
  {
  }

  // One element and the rest of the array, put together as the parser takes them apart.
  lemma ParseOneElem(ts: seq<Token>, v: Json, rest: seq<Token>)
    requires ParseValue(ts) == Some((v, [RBracket] + rest))
    ensures ParseElems(ts) == Some(([v], rest))
  {
    assert ([RBracket] + rest)[1..] == rest;
  }

  lemma ParseMoreElems(ts: seq<Token>, v: Json, more: seq<Token>, vs: seq<Json>, rest: seq<Token>)
    requires ParseValue(ts) == Some((v, [Comma] + more)) && ParseElems(more) == Some((vs, rest))
    ensures ParseElems(ts) == Some(([v] + vs, rest))
  {
    assert ([Comma] + more)[1..] == more;
  }

  lemma ElemsApart(es: seq<Json>, rest: seq<Token>)
    requires es != []
    ensures ElemTokens(es) + rest ==
            Tokens(es[0]) + if |es| == 1 then rest else [Comma] + (ElemTokens(es[1..]) + rest)
  {
    var more := if |es| == 1 then [] else [Comma] + ElemTokens(es[1..]);
    assert ElemTokens(es) == Tokens(es[0]) + more;
    Regroup(Tokens(es[0]), more, rest);
    if |es| == 1 {
      assert more + rest == rest;
    } else {
      Regroup([Comma], ElemTokens(es[1..]), rest);
    }
  }

  lemma FirstAndRest<T>(s: seq<T>)
    requires s != []
    ensures s == [s[0]] + s[1..] && (|s| == 1 ==> s == [s[0]])
  {
  }

  lemma Regroup<T>(a: seq<T>, b: seq<T>, c: seq<T>)
    ensures (a + b) + c == a + (b + c)
  {
  }

  lemma {:induction false} ParseElemTokens(es: seq<Json>, rest: seq<Token>)
    requires es != []
    ensures ParseElems(ElemTokens(es) + ([RBracket] + rest)) == Some((es, rest))
    decreases es, 1
  {
    var end := [RBracket] + rest;
    ElemsApart(es, end);
    FirstAndRest(es);
    if |es| == 1 {
      ParseTokens(es[0], end);
      ParseOneElem(Tokens(es[0]) + end, es[0], rest);
    } else {
      var more := ElemTokens(es[1..]) + end;
      ParseTokens(es[0], [Comma] + more);
      ParseElemTokens(es[1..], rest);
      ParseMoreElems(Tokens(es[0]) + ([Comma] + more), es[0], more, es[1..], rest);
    }
  }

  // The same for the members of an object.
  lemma ParseOneMember(key: string, ts: seq<Token>, v: Json, rest: seq<Token>)
    requires ParseValue(ts) == Some((v, [RBrace] + rest))
    ensures ParseMembers([Str(key), Colon] + ts) == Some(([Member(key, v)], rest))
  {
    assert ([Str(key), Colon] + ts)[2..] == ts;
    assert ([RBrace] + rest)[1..] == rest;
  }

  lemma ParseMoreMembers(key: string, ts: seq<Token>, v: Json, more: seq<Token>, ms: seq<Member>, rest: seq<Token>)
    requires ParseValue(ts) == Some((v, [Comma] + more)) && ParseMembers(more) == Some((ms, rest))
    ensures ParseMembers([Str(key), Colon] + ts) == Some(([Member(key, v)] + ms, rest))
  {
    assert ([Str(key), Colon] + ts)[2..] == ts;
    assert ([Comma] + more)[1..] == more;
  }

  lemma MembersApart(ms: seq<Member>, rest: seq<Token>)
    requires ms != []
    ensures MemberTokens(ms) + rest ==
            [Str(ms[0].key), Colon] +
            (Tokens(ms[0].value) + if |ms| == 1 then rest else [Comma] + (MemberTokens(ms[1..]) + rest))
  {
    var head, value := [Str(ms[0].key), Colon], Tokens(ms[0].value);
    var more := if |ms| == 1 then [] else [Comma] + MemberTokens(ms[1..]);
    assert MemberTokens(ms) == (head + value) + more;
    Regroup(head + value, more, rest);
    Regroup(head, value, more + rest);
    if |ms| == 1 {
      assert more + rest == rest;
    } else {
      Regroup([Comma], MemberTokens(ms[1..]), rest);
    }
  }

  lemma {:induction false} ParseMemberTokens(ms: seq<Member>, rest: seq<Token>)
    requires ms != []
    ensures ParseMembers(MemberTokens(ms) + ([RBrace] + rest)) == Some((ms, rest))
    decreases ms, 1
  {
    var key, v, end := ms[0].key, ms[0].value, [RBrace] + rest;
    MembersApart(ms, end);
    FirstAndRest(ms);
    if |ms| == 1 {
      ParseTokens(v, end);
      ParseOneMember(key, Tokens(v) + end, v, rest);
    } else {
      var more := MemberTokens(ms[1..]) + end;
      ParseTokens(v, [Comma] + more);
      ParseMemberTokens(ms[1..], rest);
      ParseMoreMembers(key, Tokens(v) + ([Comma] + more), v, more, ms[1..], rest);
    }
  }

  lemma ParsedLeaf(ts: seq<Token>)
    requires ParseValue(ts).Some? && !ts[0].LBracket? && !ts[0].LBrace?
    ensures ts == Tokens(ParseValue(ts).value.0) + ParseValue(ts).value.1
  {
    match ts[0]
    case Str(s) => assert ParseValue(ts) == Some((JStr(s), ts[1..]));
    case Num(l) => assert ParseValue(ts) == Some((JNum(l), ts[1..]));
    case Word(w) =>
      var v := if w == "null" then JNull else JBool(w == "true");
      assert ParseValue(ts) == Some((v, ts[1..])) && Tokens(v) == [Word(w)];
    FirstAndRest(ts);
  }

  lemma ParsedEmpty(ts: seq<Token>)
    requires ParseValue(ts).Some? && |ts| > 1
    requires (ts[0].LBracket? && ts[1].RBracket?) || (ts[0].LBrace? && ts[1].RBrace?)
    ensures ts == Tokens(ParseValue(ts).value.0) + ParseValue(ts).value.1
  {
    var (v, rest) := ParseValue(ts).value;
    assert rest == ts[2..] && Tokens(v) == [ts[0], ts[1]];
    assert ts == [ts[0], ts[1]] + ts[2..];
  }

  lemma ParsedArray(ts: seq<Token>, es: seq<Json>, rest: seq<Token>)
    requires ts != [] && ts[0] == LBracket && es != [] && ts[1..] == ElemTokens(es) + [RBracket] + rest
    ensures ts == Tokens(JArr(es)) + rest
  {
    assert ts == [LBracket] + ts[1..];
  }

  lemma ParsedObject(ts: seq<Token>, ms: seq<Member>, rest: seq<Token>)
    requires ts != [] && ts[0] == LBrace && ms != [] && ts[1..] == MemberTokens(ms) + [RBrace] + rest
    ensures ts == Tokens(JObj(ms)) + rest
  {
    assert ts == [LBrace] + ts[1..];
  }

  // Nothing else parses: what was consumed is the token sequence of the value returned.
  lemma {:induction false} ParsedTokens(ts: seq<Token>)
    ensures ParseValue(ts).Some? ==> ts == Tokens(ParseValue(ts).value.0) + ParseValue(ts).value.1
    decreases |ts|, 0
  {
    if ParseValue(ts).Some? {
      if !ts[0].LBracket? && !ts[0].LBrace? {
        ParsedLeaf(ts);
      } else if |ts| > 1 && ((ts[0].LBracket? && ts[1].RBracket?) || (ts[0].LBrace? && ts[1].RBrace?)) {
        ParsedEmpty(ts);
      } else if ts[0].LBracket? {
        ParsedElemTokens(ts[1..]);
        var (es, rest) := ParseElems(ts[1..]).value;
        ParsedArray(ts, es, rest);
      } else {
        ParsedMemberTokens(ts[1..]);
        var (ms, rest) := ParseMembers(ts[1..]).value;
        ParsedObject(ts, ms, rest);
      }
    }
  }

  lemma {:induction false} ParsedElemTokens(ts: seq<Token>)
    ensures ParseElems(ts).Some? ==>
              ts == ElemTokens(ParseElems(ts).value.0) + [RBracket] + ParseElems(ts).value.1
    decreases |ts|, 1
  {
    if ParseElems(ts).Some? {
      ParsedTokens(ts);
      var (v, rest) := ParseValue(ts).value;
      if rest[0] == Comma {
        ParsedElemTokens(rest[1..]);
        var (vs, rest') := ParseElems(rest[1..]).value;
        ElemThenMore(ts, v, rest, vs, rest');
      } else {
        LastElem(ts, v, rest);
      }
    }
  }

  lemma LastElem(ts: seq<Token>, v: Json, rest: seq<Token>)
    requires ts == Tokens(v) + rest && rest != [] && rest[0] == RBracket
    ensures ts == ElemTokens([v]) + [RBracket] + rest[1..]
  {
    assert rest == [RBracket] + rest[1..];
  }

  lemma ElemThenMore(ts: seq<Token>, v: Json, rest: seq<Token>, vs: seq<Json>, rest': seq<Token>)
    requires ts == Tokens(v) + rest && rest != [] && rest[0] == Comma && vs != []
    requires rest[1..] == ElemTokens(vs) + [RBracket] + rest'
    ensures ts == ElemTokens([v] + vs) + [RBracket] + rest'
  {
    var es, end := [v] + vs, [RBracket] + rest';
    assert es[1..] == vs;
    assert rest == [Comma] + rest[1..];
    Regroup(ElemTokens(vs), [RBracket], rest');
    ElemsApart(es, end);
    Regroup(ElemTokens(es), [RBracket], rest');
  }

  lemma {:induction false} ParsedMemberTokens(ts: seq<Token>)
    ensures ParseMembers(ts).Some? ==>
              ts == MemberTokens(ParseMembers(ts).value.0) + [RBrace] + ParseMembers(ts).value.1
    decreases |ts|, 1
  {
    if ParseMembers(ts).Some? {
      ParsedTokens(ts[2..]);
      var (v, rest) := ParseValue(ts[2..]).value;
      if rest[0] == Comma {
        ParsedMemberTokens(rest[1..]);
        var (ms, rest') := ParseMembers(rest[1..]).value;
        MemberThenMore(ts, Member(ts[0].s, v), rest, ms, rest');
      } else {
        LastMember(ts, Member(ts[0].s, v), rest);
      }
    }
  }

  lemma LastMember(ts: seq<Token>, m: Member, rest: seq<Token>)
    requires |ts| >= 2 && ts[0] == Str(m.key) && ts[1] == Colon && ts[2..] == Tokens(m.value) + rest
    requires rest != [] && rest[0] == RBrace
    ensures ts == MemberTokens([m]) + [RBrace] + rest[1..]
  {
    assert ts == [Str(m.key), Colon] + ts[2..];
    assert rest == [RBrace] + rest[1..];
  }

  lemma MemberThenMore(ts: seq<Token>, m: Member, rest: seq<Token>, ms: seq<Member>, rest': seq<Token>)
    requires |ts| >= 2 && ts[0] == Str(m.key) && ts[1] == Colon && ts[2..] == Tokens(m.value) + rest
    requires rest != [] && rest[0] == Comma && ms != [] && rest[1..] == MemberTokens(ms) + [RBrace] + rest'
    ensures ts == MemberTokens([m] + ms) + [RBrace] + rest'
  {
    assert ts == [Str(m.key), Colon] + ts[2..];
    assert rest == [Comma] + rest[1..];
    assert ([m] + ms)[1..] == ms;
  }

  // ---------- main results ----------

  // A text is accepted as v if and only if its tokens are those of v: blanks between tokens never matter.
  lemma ParseExact(text: string, v: Json)
    ensures Parse(text) == Some(v) <==> Lex(text) == Some(Tokens(v))
  {
    if Lex(text).Some? {
      ParsedTokens(Lex(text).value);
      assert Tokens(v) + [] == Tokens(v);
      ParseTokens(v, []);
    }
  }

  // Both layouts of every printable value parse back to that value.
  lemma RoundTrip(v: Json, style: Style)
    requires Printable(v)
    ensures Parse(Print(v, style, 0)) == Some(v)
  {
    var text := Print(v, style, 0);
    SpellsValue(v, style, 0, "");
    assert text + "" == text;
    assert Tokens(v) + [] == Tokens(v);
    ParseExact(text, v);
  }
}
