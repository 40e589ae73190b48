/** What replacing `"a" -> "b"` by `{ from = "a", to = "b" }` does to a rules source, token by
    token: the scanner of rules/src/arrow_scanner.cpp reads the generated text as the
    original tokens with every arrow rule exchanged for the nine tokens of its table. */
module Desugaring {
  import opened TomlString
  import opened Lexer

  /** A source cut at its arrow rules. */
  datatype Piece =
    | Plain(lexeme: Lexeme)
    | Redirect(source: Lexeme, before: seq<Lexeme>, arrow: Lexeme, after: seq<Lexeme>, target: Lexeme)

  predicate AllBlank(ls: seq<Lexeme>) { forall l :: l in ls ==> IsBlank(l.kind) }

  predicate WellFormed(p: Piece) {
    match p
    case Plain(l) => l.kind != Arrow
    case Redirect(s, before, arrow, after, t) =>
      s.kind == String && arrow.kind == Arrow && t.kind == String && AllBlank(before) && AllBlank(after)
  }

  predicate AllWellFormed(ps: seq<Piece>) { forall p :: p in ps ==> WellFormed(p) }

  predicate EndsInString(p: Piece) { p.Redirect? || IsString(p.lexeme.kind) }

  /** No arrow rule touches a string in front of it. */
  predicate Apart(ps: seq<Piece>) {
    forall i :: 0 < i < |ps| && ps[i].Redirect? ==> !EndsInString(ps[i - 1])
  }

  function Lexemes(p: Piece): seq<Lexeme> {
    match p
    case Plain(l) => [l]
    case Redirect(s, before, arrow, after, t) => [s] + (before + ([arrow] + (after + [t])))
  }

  function Flatten(ps: seq<Piece>): seq<Lexeme> {
    if ps == [] then [] else Lexemes(ps[0]) + Flatten(ps[1..])
  }

  const SPACE := Lexeme(Space, " ")
  const EQUALS := Lexeme(Equals, "=")
  const FROM := Lexeme(Other, "from")
  const TO := Lexeme(Other, "to")
  const OPEN := Lexeme(OpenInlineTable, "{")
  const CLOSE := Lexeme(CloseInlineTable, "}")
  const COMMA := Lexeme(Comma, ",")

  /** ` key = V` in front of further lexemes. */
  function Entry(key: Lexeme, value: Lexeme, ls: seq<Lexeme>): seq<Lexeme> {
    [SPACE] + ([key] + ([SPACE] + ([EQUALS] + ([SPACE] + ([value] + ls)))))
  }

  /** `{ from = S, to = T }` in front of further lexemes. */
  function Table(s: Lexeme, t: Lexeme, ls: seq<Lexeme>): seq<Lexeme> {
    [OPEN] + Entry(FROM, s, [COMMA] + Entry(TO, t, [SPACE] + ([CLOSE] + ls)))
  }

  /** The lexemes with every arrow rule exchanged for its table. */
  function Rewrite(ps: seq<Piece>): seq<Lexeme> {
    if ps == [] then []
    else
      match ps[0]
      case Plain(l) => [l] + Rewrite(ps[1..])
      case Redirect(s, _, _, _, t) => Table(s, t, Rewrite(ps[1..]))
  }

  // ------------------------------------------------------------- one table

  lemma Prepend(l: Lexeme, ls: seq<Lexeme>, rest: string, st: LexState)
    requires Reads(l.text + (Text(ls) + rest), st, l) && Lexes(ls, rest, After(st, l))
    ensures Lexes([l] + ls, rest, st)
  {
    assert ([l] + ls)[1..] == ls;
  }

  lemma PrependSpace(ls: seq<Lexeme>, rest: string, st: LexState)
    requires Lexes(ls, rest, st)
    ensures Lexes([SPACE] + ls, rest, st)
  {
    assert (" " + (Text(ls) + rest))[0] == ' ';
    Prepend(SPACE, ls, rest, st);
  }

  lemma PrependPunctuation(c: char, ls: seq<Lexeme>, rest: string, st: LexState)
    requires IsPunctuation(c) && Lexes(ls, rest, After(st, Lexeme(Punctuation(c), [c])))
    ensures Lexes([Lexeme(Punctuation(c), [c])] + ls, rest, st)
  {
    assert ([c] + (Text(ls) + rest))[0] == c;
    Prepend(Lexeme(Punctuation(c), [c]), ls, rest, st);
  }

  lemma {:induction false} BareBefore(x: string, s: string)
    requires forall i :: 0 <= i < |x| ==> !IsTokenBoundary(x[i]) && x[i] != '-'
    requires s != "" && IsTokenBoundary(s[0])
    ensures BareLength(x + s) == |x|
  {
    if x == "" {
      assert x + s == s;
    } else {
      assert (x + s)[0] == x[0] && (x + s)[1..] == x[1..] + s;
      BareBefore(x[1..], s);
    }
  }

  predicate IsKey(l: Lexeme) {
    && l.kind == Other && l.text != ""
    && forall i :: 0 <= i < |l.text| ==> !IsTokenBoundary(l.text[i]) && l.text[i] != '-'
  }

  predicate StartsWith(ls: seq<Lexeme>, l: Lexeme) { ls != [] && ls[0] == l }

  lemma PrependKey(key: Lexeme, ls: seq<Lexeme>, rest: string, st: LexState)
    requires IsKey(key) && StartsWith(ls, SPACE) && Lexes(ls, rest, Settled(st))
    ensures Lexes([key] + ls, rest, st)
  {
    var s := Text(ls) + rest;
    assert s[0] == ' ';
    assert (key.text + s)[0] == key.text[0] && (key.text + s)[1..] == key.text[1..] + s;
    BareBefore(key.text[1..], s);
    Prepend(key, ls, rest, st);
  }

  lemma StringsBeginWithQuotes(s: string, st: LexState)
    requires s != "" && ShapeOf(s, st).Shape? && IsString(ShapeOf(s, st).kind)
    ensures IsQuote(s[0])
  {
  }

  /** A one-line string, as some source holds it. */
  ghost predicate IsOperand(l: Lexeme) {
    l.kind == String && exists a, st :: Reads(l.text + a, st, l)
  }

  lemma OperandReads(l: Lexeme, b: string, st: LexState)
    requires IsOperand(l) && b != "" && !IsQuote(b[0])
    ensures Reads(l.text + b, st, l)
  {
    var x := l.text;
    var a, at :| Reads(x + a, at, l);
    StringsBeginWithQuotes(x + a, at);
    assert (x + a)[0] == x[0] == (x + b)[0];
    StringIsLocal(x, a, b);
  }

  /** A one-line string reads as before in front of a comma or a space. */
  lemma PrependOperand(l: Lexeme, ls: seq<Lexeme>, rest: string, st: LexState)
    requires IsOperand(l) && (StartsWith(ls, SPACE) || StartsWith(ls, COMMA))
    requires Lexes(ls, rest, Settled(st))
    ensures Lexes([l] + ls, rest, st)
  {
    var s := Text(ls) + rest;
    assert s[0] == ls[0].text[0];
    OperandReads(l, s, st);
    Prepend(l, ls, rest, st);
  }

  /** The state after a value. */
  function Settled(st: LexState): LexState { LexState(st.frames, false, false) }

  /** ` key = S` and what follows it. */
  lemma EntryLexes(key: Lexeme, l: Lexeme, ls: seq<Lexeme>, rest: string, st: LexState)
    requires IsKey(key) && IsOperand(l) && (StartsWith(ls, SPACE) || StartsWith(ls, COMMA))
    requires Lexes(ls, rest, Settled(st))
    ensures Lexes(Entry(key, l, ls), rest, st)
  {
    var valued := After(Settled(st), EQUALS);
    PrependOperand(l, ls, rest, valued);
    PrependSpace([l] + ls, rest, valued);
    PrependPunctuation('=', [SPACE] + ([l] + ls), rest, Settled(st));
    var value := [EQUALS] + ([SPACE] + ([l] + ls));
    PrependSpace(value, rest, Settled(st));
    PrependKey(key, [SPACE] + value, rest, st);
    PrependSpace([key] + ([SPACE] + value), rest, st);
  }

  function Opened(st: LexState): LexState { After(st, OPEN) }

  lemma ClosingLexes(ls: seq<Lexeme>, rest: string, st: LexState)
    requires Lexes(ls, rest, Settled(st))
    ensures Lexes([SPACE] + ([CLOSE] + ls), rest, Opened(st))
  {
    assert After(Opened(st), CLOSE) == Settled(st);
    PrependPunctuation('}', ls, rest, Opened(st));
    PrependSpace([CLOSE] + ls, rest, Opened(st));
  }

  /** The table of two operands reads back as its lexemes, whatever comes next. */
  lemma TableLexes(s: Lexeme, t: Lexeme, ls: seq<Lexeme>, rest: string, st: LexState)
    requires IsOperand(s) && IsOperand(t) && Lexes(ls, rest, Settled(st))
    ensures Lexes(Table(s, t, ls), rest, st)
  {
    ClosingLexes(ls, rest, st);
    var to := Entry(TO, t, [SPACE] + ([CLOSE] + ls));
    EntryLexes(TO, t, [SPACE] + ([CLOSE] + ls), rest, Opened(st));
    CommaLexes(to, rest, st);
    EntryLexes(FROM, s, [COMMA] + to, rest, Opened(st));
    PrependPunctuation('{', Entry(FROM, s, [COMMA] + to), rest, st);
  }

  lemma CommaLexes(ls: seq<Lexeme>, rest: string, st: LexState)
    requires Lexes(ls, rest, Opened(st))
    ensures Lexes([COMMA] + ls, rest, Opened(st))
  {
    assert After(Opened(st), COMMA) == Opened(st);
    PrependPunctuation(',', ls, rest, Opened(st));
  }

  lemma {:induction false} BlanksKeepFrames(ls: seq<Lexeme>, st: LexState)
    requires AllBlank(ls)
    ensures AfterAll(st, ls).frames == st.frames
    decreases |ls|
  {
    if ls != [] {
      BlanksKeepFrames(ls[1..], After(st, ls[0]));
    }
  }

  lemma AfterPrepend(st: LexState, l: Lexeme, ls: seq<Lexeme>)
    ensures AfterAll(st, [l] + ls) == AfterAll(After(st, l), ls)
  {
    assert ([l] + ls)[1..] == ls;
  }

  lemma EntrySettles(key: Lexeme, l: Lexeme, ls: seq<Lexeme>, st: LexState)
    requires key.kind == Other && l.kind == String
    ensures AfterAll(st, Entry(key, l, ls)) == AfterAll(Settled(st), ls)
  {
    var valued := After(Settled(st), EQUALS);
    AfterPrepend(valued, l, ls);
    AfterPrepend(valued, SPACE, [l] + ls);
    AfterPrepend(Settled(st), EQUALS, [SPACE] + ([l] + ls));
    var value := [EQUALS] + ([SPACE] + ([l] + ls));
    AfterPrepend(Settled(st), SPACE, value);
    AfterPrepend(st, key, [SPACE] + value);
    AfterPrepend(st, SPACE, [key] + ([SPACE] + value));
  }

  lemma TableSettles(s: Lexeme, t: Lexeme, ls: seq<Lexeme>, st: LexState)
    requires s.kind == String && t.kind == String
    ensures AfterAll(st, Table(s, t, ls)) == AfterAll(Settled(st), ls)
  {
    assert After(Opened(st), CLOSE) == Settled(st) && After(Opened(st), COMMA) == Opened(st);
    AfterPrepend(Opened(st), CLOSE, ls);
    AfterPrepend(Opened(st), SPACE, [CLOSE] + ls);
    var to := Entry(TO, t, [SPACE] + ([CLOSE] + ls));
    EntrySettles(TO, t, [SPACE] + ([CLOSE] + ls), Opened(st));
    AfterPrepend(Opened(st), COMMA, to);
    EntrySettles(FROM, s, [COMMA] + to, Opened(st));
    AfterPrepend(st, OPEN, Entry(FROM, s, [COMMA] + to));
  }

  lemma RedirectSettles(p: Piece, st: LexState)
    requires p.Redirect? && WellFormed(p)
    ensures AfterAll(st, Lexemes(p)) == Settled(st)
  {
    var st1 := After(st, p.source);
    var tail := [p.arrow] + (p.after + [p.target]);
    AfterConcat(st, [p.source], p.before + tail);
    AfterConcat(st1, p.before, tail);
    BlanksKeepFrames(p.before, st1);
    var st2 := AfterAll(st1, p.before);
    AfterConcat(st2, [p.arrow], p.after + [p.target]);
    AfterConcat(st2, p.after, [p.target]);
    BlanksKeepFrames(p.after, st2);
  }

  // -------------------------------------------------------- the whole source

  /** The operands of a redirect are strings that a source holds. */
  lemma OperandsOf(p: Piece, rest: string, st: LexState)
    requires p.Redirect? && WellFormed(p) && Lexes(Lexemes(p), rest, st)
    ensures IsOperand(p.source) && IsOperand(p.target)
  {
    var tail := p.before + ([p.arrow] + (p.after + [p.target]));
    LexesConcat([p.source], tail, rest, st);
    assert Reads(p.source.text + (Text([]) + (Text(tail) + rest)), st, p.source);
    var init := [p.source] + (p.before + ([p.arrow] + p.after));
    assert Lexemes(p) == init + [p.target];
    LexesConcat(init, [p.target], rest, st);
    assert Reads(p.target.text + (Text([]) + rest), AfterAll(st, init), p.target);
  }

  /** The generated text begins like the original, except where a table replaces a string. */
  lemma HeadsAgree(k: Kind, ps: seq<Piece>, st: LexState)
    requires AllWellFormed(ps) && Lexes(Flatten(ps), "", st) && Lexes(Rewrite(ps), "", st)
    requires ps != [] && ps[0].Redirect? ==> !IsString(k)
    ensures SameHead(k, Text(Flatten(ps)), Text(Rewrite(ps)))
  {
    if ps != [] {
      var a, b := Flatten(ps), Rewrite(ps);
      assert WellFormed(ps[0]);
      var ta, tb := Text(a[1..]) + "", Text(b[1..]) + "";
      assert Text(a) == a[0].text + ta && Text(b) == b[0].text + tb;
      if ps[0].Plain? {
        assert a[0] == b[0] == ps[0].lexeme;
        ArrowShape(Text(a), st);
        ArrowShape(Text(b), st);
      } else {
        assert a[0] == ps[0].source && b[0] == OPEN;
        StringsBeginWithQuotes(Text(a), st);
      }
    }
  }

  lemma ArrowShape(s: string, st: LexState)
    requires s != ""
    ensures StartsArrow(s) <==> ShapeOf(s, st) == Shape(Arrow, 2)
  {
  }

  /** MAIN RESULT. The generated text reads as the rewritten lexemes and leaves the scanner
      in the state the original leaves it in. */
  lemma {:induction false} RewriteLexes(ps: seq<Piece>, st: LexState)
    requires AllWellFormed(ps) && Apart(ps) && Lexes(Flatten(ps), "", st)
    ensures Lexes(Rewrite(ps), "", st)
    ensures AfterAll(st, Rewrite(ps)) == AfterAll(st, Flatten(ps))
    decreases |ps|
  {
    if ps != [] {
      var p, tail := ps[0], ps[1..];
      assert WellFormed(p) && AllWellFormed(tail) && Apart(tail) by { TailApart(ps); }
      LexesConcat(Lexemes(p), Flatten(tail), "", st);
      AfterConcat(st, Lexemes(p), Flatten(tail));
      if p.Plain? {
        var l := p.lexeme;
        RewriteLexes(tail, After(st, l));
        HeadsAgree(l.kind, tail, After(st, l));
        PlainStable(l, Text(Flatten(tail)), Text(Rewrite(tail)), st);
        Prepend(l, Rewrite(tail), "", st);
        AfterPrepend(st, l, Rewrite(tail));
      } else {
        OperandsOf(p, Text(Flatten(tail)) + "", st);
        RedirectSettles(p, st);
        RewriteLexes(tail, Settled(st));
        TableLexes(p.source, p.target, Rewrite(tail), "", st);
        TableSettles(p.source, p.target, Rewrite(tail), st);
      }
    }
  }

  lemma TailApart(ps: seq<Piece>)
    requires ps != [] && AllWellFormed(ps) && Apart(ps)
    ensures AllWellFormed(ps[1..]) && Apart(ps[1..])
  {
    var tail := ps[1..];
    forall i | 0 < i < |tail| && tail[i].Redirect?
      ensures !EndsInString(tail[i - 1])
    {
      assert ps[i + 1] == tail[i] && ps[i] == tail[i - 1];
    }
  }

  lemma PlainStable(l: Lexeme, a: string, b: string, st: LexState)
    requires Lexes([l], a + "", st) && SameHead(l.kind, a, b)
    ensures Reads(l.text + (b + ""), st, l)
  {
    assert Text([l][1..]) + (a + "") == a && b + "" == b;
    ReadsStable(l, a, b, st);
  }

  // ------------------------------------------------------------------ tokens

  function Tokens(ls: seq<Lexeme>): seq<Lexeme> {
    if ls == [] then []
    else if IsSignificant(ls[0].kind) then [ls[0]] + Tokens(ls[1..])
    else Tokens(ls[1..])
  }

  /** What desugaring promises, said of the tokens alone: String Arrow String becomes the nine
      tokens of the table with the same operands, everything else stays. */
  function Desugared(ts: seq<Lexeme>): seq<Lexeme> {
    if ts == [] then []
    else if |ts| >= 3 && ts[0].kind == String && ts[1].kind == Arrow && ts[2].kind == String then
      [OPEN, FROM, EQUALS, ts[0], COMMA, TO, EQUALS, ts[2], CLOSE] + Desugared(ts[3..])
    else [ts[0]] + Desugared(ts[1..])
  }

  lemma {:induction false} TokensConcat(a: seq<Lexeme>, b: seq<Lexeme>)
    ensures Tokens(a + b) == Tokens(a) + Tokens(b)
  {
    if a == [] {
      assert a + b == b;
    } else {
      assert (a + b)[0] == a[0] && (a + b)[1..] == a[1..] + b;
      TokensConcat(a[1..], b);
    }
  }

  lemma {:induction false} BlanksAreNoTokens(ls: seq<Lexeme>)
    requires AllBlank(ls)
    ensures Tokens(ls) == []
  {
    if ls != [] {
      BlanksAreNoTokens(ls[1..]);
    }
  }

  lemma TokensPrepend(l: Lexeme, ls: seq<Lexeme>)
    ensures Tokens([l] + ls) == (if IsSignificant(l.kind) then [l] else []) + Tokens(ls)
  {
    assert ([l] + ls)[1..] == ls;
  }

  lemma RedirectTokens(p: Piece)
    requires p.Redirect? && WellFormed(p)
    ensures Tokens(Lexemes(p)) == [p.source, p.arrow, p.target]
  {
    TokensPrepend(p.source, p.before + ([p.arrow] + (p.after + [p.target])));
    TokensConcat(p.before, [p.arrow] + (p.after + [p.target]));
    BlanksAreNoTokens(p.before);
    TokensPrepend(p.arrow, p.after + [p.target]);
    TokensConcat(p.after, [p.target]);
    BlanksAreNoTokens(p.after);
    TokensPrepend(p.target, []);
    assert [p.target] + [] == [p.target];
  }

  lemma ValueTokens(l: Lexeme, ls: seq<Lexeme>)
    requires l.kind == String
    ensures Tokens([EQUALS] + ([SPACE] + ([l] + ls))) == [EQUALS, l] + Tokens(ls)
  {
    TokensPrepend(l, ls);
    TokensPrepend(SPACE, [l] + ls);
    TokensPrepend(EQUALS, [SPACE] + ([l] + ls));
  }

  lemma EntryTokens(key: Lexeme, l: Lexeme, ls: seq<Lexeme>)
    requires key.kind == Other && l.kind == String
    ensures Tokens(Entry(key, l, ls)) == [key, EQUALS, l] + Tokens(ls)
  {
    var value := [EQUALS] + ([SPACE] + ([l] + ls));
    ValueTokens(l, ls);
    TokensPrepend(SPACE, value);
    TokensPrepend(key, [SPACE] + value);
    TokensPrepend(SPACE, [key] + ([SPACE] + value));
    assert Tokens(Entry(key, l, ls)) == [key] + ([EQUALS, l] + Tokens(ls));
  }

  lemma TableTokens(s: Lexeme, t: Lexeme, ls: seq<Lexeme>)
    requires s.kind == String && t.kind == String
    ensures Tokens(Table(s, t, ls)) == [OPEN, FROM, EQUALS, s, COMMA, TO, EQUALS, t, CLOSE] + Tokens(ls)
  {
    hide Tokens;
    TokensPrepend(CLOSE, ls);
    TokensPrepend(SPACE, [CLOSE] + ls);
    var to := Entry(TO, t, [SPACE] + ([CLOSE] + ls));
    EntryTokens(TO, t, [SPACE] + ([CLOSE] + ls));
    TokensPrepend(COMMA, to);
    EntryTokens(FROM, s, [COMMA] + to);
    TokensPrepend(OPEN, Entry(FROM, s, [COMMA] + to));
  }

  /** Outside its arrow rules a source has no arrow, so none begins what follows a token. */
  lemma {:induction false} NoLeadingArrow(ps: seq<Piece>)
    requires AllWellFormed(ps)
    ensures Tokens(Flatten(ps)) != [] ==> Tokens(Flatten(ps))[0].kind != Arrow
  {
    if ps != [] {
      assert WellFormed(ps[0]);
      TokensConcat(Lexemes(ps[0]), Flatten(ps[1..]));
      if ps[0].Redirect? {
        RedirectTokens(ps[0]);
      } else {
        NoLeadingArrow(ps[1..]);
      }
    }
  }

  lemma {:induction false} RewriteTokens(ps: seq<Piece>)
    requires AllWellFormed(ps)
    ensures Tokens(Rewrite(ps)) == Desugared(Tokens(Flatten(ps)))
  {
    if ps != [] {
      var p, tail := ps[0], ps[1..];
      assert WellFormed(p);
      RewriteTokens(tail);
      NoLeadingArrow(tail);
      var ts := Tokens(Flatten(tail));
      TokensConcat(Lexemes(p), Flatten(tail));
      if p.Redirect? {
        RedirectTokens(p);
        TableTokens(p.source, p.target, Rewrite(tail));
        assert ([p.source, p.arrow, p.target] + ts)[3..] == ts;
      } else {
        TokensPrepend(p.lexeme, Rewrite(tail));
        assert Tokens([p.lexeme]) + ts == if IsSignificant(p.lexeme.kind) then [p.lexeme] + ts else ts;
        assert ([p.lexeme] + ts)[1..] == ts;
      }
    }
  }

  lemma InTable(s: Lexeme, t: Lexeme, ls: seq<Lexeme>, l: Lexeme)
    requires l in Table(s, t, ls)
    ensures l in ls || l == s || l == t || l.kind != Arrow
  {
    var to := Entry(TO, t, [SPACE] + ([CLOSE] + ls));
    assert l == OPEN || l in Entry(FROM, s, [COMMA] + to);
    InEntry(FROM, s, [COMMA] + to, l);
    InEntry(TO, t, [SPACE] + ([CLOSE] + ls), l);
  }

  lemma InEntry(key: Lexeme, value: Lexeme, ls: seq<Lexeme>, l: Lexeme)
    ensures l in Entry(key, value, ls) ==> l in ls || l == value || l == key || l == SPACE || l == EQUALS
  {
  }

  lemma {:induction false} NoArrowSurvives(ps: seq<Piece>, l: Lexeme)
    requires AllWellFormed(ps) && l in Rewrite(ps)
    ensures l.kind != Arrow
  {
    assert WellFormed(ps[0]);
    if ps[0].Redirect? {
      InTable(ps[0].source, ps[0].target, Rewrite(ps[1..]), l);
    }
    hide Table;
    if l in Rewrite(ps[1..]) {
      NoArrowSurvives(ps[1..], l);
    }
  }

  /** MAIN RESULT. Whoever reads the generated text completely, from any state in which the
      original was read, finds the original tokens with every String Arrow String exchanged
      for its table, and no arrow. */
  lemma DesugaringPreservesTokens(ps: seq<Piece>, st: LexState, ls: seq<Lexeme>)
    requires AllWellFormed(ps) && Apart(ps) && Lexes(Flatten(ps), "", st)
    requires Lexes(ls, "", st) && Text(ls) == Text(Rewrite(ps))
    ensures Tokens(ls) == Desugared(Tokens(Flatten(ps)))
    ensures forall l :: l in ls ==> l.kind != Arrow
    ensures AfterAll(st, ls) == AfterAll(st, Flatten(ps))
  {
    RewriteLexes(ps, st);
    LexingIsDeterministic(ls, Rewrite(ps), st);
    RewriteTokens(ps);
    forall l | l in ls ensures l.kind != Arrow {
      NoArrowSurvives(ps, l);
    }
  }
}
