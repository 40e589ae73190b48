/** The lexical grammar that the arrow scanner of rules/src/arrow_scanner.cpp walks: one
    lexeme per loop iteration, blanks and comments included, so that the lexemes of a
    source spell it out exactly. */
module Lexer {
  import opened TomlString

  datatype Kind =
    | String | MultilineString | Arrow
    | OpenArray | CloseArray | OpenInlineTable | CloseInlineTable
    | Comma | Equals | Dot | Other
    | Space | Newline | Comment

  datatype Lexeme = Lexeme(kind: Kind, text: string)

  predicate IsBlank(k: Kind) { k == Space || k == Newline }

  predicate IsSignificant(k: Kind) { !IsBlank(k) && k != Comment }

  datatype FrameKind =
    | ValueArray | InlineTable | TableHeader | ArrayTableHeader | UnknownBracket | UnknownBrace

  predicate ClosesWithBracket(f: FrameKind) { f != InlineTable && f != UnknownBrace }

  /** What decides how the next bytes are read: the open brackets and two flags. */
  datatype LexState = LexState(frames: seq<FrameKind>, atStart: bool, expecting: bool) {
    predicate AtHeader() { frames == [] && atStart && !expecting }
    predicate TopIs(f: FrameKind) { frames != [] && frames[|frames| - 1] == f }
    predicate TopCloses(bracket: bool) {
      frames != [] && ClosesWithBracket(frames[|frames| - 1]) == bracket
    }
    function Popped(bracket: bool): LexState {
      this.(frames := if TopCloses(bracket) then frames[..|frames| - 1] else frames, expecting := false)
    }
  }

  const INITIAL := LexState([], true, false)

  predicate IsHorizontalSpace(c: char) { c == ' ' || c == '\t' }

  predicate IsTokenBoundary(c: char) {
    || IsHorizontalSpace(c) || IsNewline(c) || c == '#' || IsQuote(c)
    || c == '[' || c == ']' || c == '{' || c == '}' || c == '=' || c == ',' || c == '.'
  }

  predicate StartsArrow(s: string) { |s| > 1 && s[0] == '-' && s[1] == '>' }

  /** Bytes of a bare token after its first one. */
  function BareLength(s: string): (n: nat)
    ensures n <= |s|
  {
    if s == "" || IsTokenBoundary(s[0]) || StartsArrow(s) then 0 else 1 + BareLength(s[1..])
  }

  /** Bytes of a comment: up to the line feed. */
  function CommentLength(s: string): (n: nat)
    ensures n <= |s|
  {
    if s == "" || s[0] == '\n' then 0 else 1 + CommentLength(s[1..])
  }

  function NewlineLength(s: string): (n: nat)
    requires s != ""
    ensures 0 < n <= |s|
  {
    if s[0] == '\r' && |s| > 1 && s[1] == '\n' then 2 else 1
  }

  /** The frame a bracket of the given width opens; only an array-table header is two wide. */
  function OpenedFrame(st: LexState, width: nat): FrameKind {
    if width == 2 then ArrayTableHeader
    else if st.AtHeader() then TableHeader
    else if st.expecting then ValueArray
    else UnknownBracket
  }

  function OpenWidth(s: string, st: LexState): (n: nat)
    requires s != ""
    ensures 0 < n <= |s|
  {
    if st.AtHeader() && |s| > 1 && s[1] == '[' then 2 else 1
  }

  function CloseWidth(s: string, st: LexState): (n: nat)
    requires s != ""
    ensures 0 < n <= |s|
  {
    if st.TopIs(ArrayTableHeader) && |s| > 1 && s[1] == ']' then 2 else 1
  }

  /** The kind and length of the lexeme at the front, or None for an open string. */
  datatype Shape = Unreadable | Shape(kind: Kind, length: nat)

  function ShapeOf(s: string, st: LexState): (r: Shape)
    requires s != ""
    ensures r.Shape? ==> 0 < r.length <= |s|
  {
    var c := s[0];
    if IsHorizontalSpace(c) then Shape(Space, 1)
    else if IsNewline(c) then Shape(Newline, NewlineLength(s))
    else if c == '#' then Shape(Comment, CommentLength(s))
    else if IsQuote(c) then
      var t := ReadString(s);
      if !t.terminated then Unreadable
      else Shape(if t.multiline then MultilineString else String, t.end)
    else if StartsArrow(s) then Shape(Arrow, 2)
    else if c == '[' then Shape(OpenArray, OpenWidth(s, st))
    else if c == ']' then Shape(CloseArray, CloseWidth(s, st))
    else if IsPunctuation(c) then Shape(Punctuation(c), 1)
    else Shape(Other, 1 + BareLength(s[1..]))
  }

  predicate IsPunctuation(c: char) { c == '{' || c == '}' || c == '=' || c == ',' || c == '.' }

  function Punctuation(c: char): Kind
    requires IsPunctuation(c)
  {
    if c == '{' then OpenInlineTable
    else if c == '}' then CloseInlineTable
    else if c == '=' then Equals
    else if c == ',' then Comma
    else Dot
  }

  /** The state after a lexeme. */
  function After(st: LexState, l: Lexeme): LexState {
    match l.kind
    case Space | Comment | Arrow => st
    case Newline => if st.frames == [] then st.(atStart := true, expecting := false) else st
    case String | MultilineString | Dot | Other => st.(atStart := false, expecting := false)
    case OpenArray =>
      var f := OpenedFrame(st, |l.text|);
      LexState(st.frames + [f], false, f == ValueArray)
    case CloseArray => st.Popped(true)
    case OpenInlineTable =>
      LexState(st.frames + [if st.expecting then InlineTable else UnknownBrace], false, false)
    case CloseInlineTable => st.Popped(false)
    case Equals => st.(atStart := false, expecting := true)
    case Comma => st.(expecting := st.TopIs(ValueArray))
  }

  /** `l` is what the scanner reads at the front of `s`. */
  predicate Reads(s: string, st: LexState, l: Lexeme) {
    s != "" && l.text <= s && ShapeOf(s, st) == Shape(l.kind, |l.text|)
  }

  function Text(ls: seq<Lexeme>): string {
    if ls == [] then "" else ls[0].text + Text(ls[1..])
  }

  /** The lexemes `ls`, with `rest` after them, are read one after the other from `st`. */
  predicate Lexes(ls: seq<Lexeme>, rest: string, st: LexState)
    decreases |ls|
  {
    ls != [] ==>
      && Reads(ls[0].text + (Text(ls[1..]) + rest), st, ls[0])
      && Lexes(ls[1..], rest, After(st, ls[0]))
  }

  /** The state in which `ls` leaves the scanner. */
  function AfterAll(st: LexState, ls: seq<Lexeme>): LexState
    decreases |ls|
  {
    if ls == [] then st else AfterAll(After(st, ls[0]), ls[1..])
  }

  lemma {:induction false} TextConcat(a: seq<Lexeme>, b: seq<Lexeme>)
    ensures Text(a + b) == Text(a) + Text(b)
  {
    if a == [] {
      assert a + b == b;
    } else {
      var t := a[1..];
      assert (a + b)[0] == a[0] && (a + b)[1..] == t + b;
      assert Text(a + b) == a[0].text + Text(t + b) && Text(a) == a[0].text + Text(t);
      TextConcat(t, b);
      hide Text;
      assert a[0].text + (Text(t) + Text(b)) == (a[0].text + Text(t)) + Text(b);
    }
  }

  lemma {:induction false} AfterConcat(st: LexState, a: seq<Lexeme>, b: seq<Lexeme>)
    ensures AfterAll(st, a + b) == AfterAll(AfterAll(st, a), b)
    decreases |a|
  {
    if a == [] {
      assert a + b == b;
    } else {
      assert (a + b)[0] == a[0] && (a + b)[1..] == a[1..] + b;
      AfterConcat(After(st, a[0]), a[1..], b);
    }
  }

  /** Lexing composes. */
  lemma {:induction false} LexesConcat(a: seq<Lexeme>, b: seq<Lexeme>, rest: string, st: LexState)
    ensures Lexes(a + b, rest, st) <==> Lexes(a, Text(b) + rest, st) && Lexes(b, rest, AfterAll(st, a))
    decreases |a|
  {
    if a == [] {
      assert a + b == b;
    } else {
      var t := a[1..];
      assert (a + b)[0] == a[0] && (a + b)[1..] == t + b;
      TextConcat(t, b);
      assert Text(t) + Text(b) + rest == Text(t) + (Text(b) + rest);
      LexesConcat(t, b, rest, After(st, a[0]));
    }
  }

  /** Lexing leaves no choice: a text has one complete reading. */
  lemma {:induction false} LexingIsDeterministic(a: seq<Lexeme>, b: seq<Lexeme>, st: LexState)
    requires Lexes(a, "", st) && Lexes(b, "", st) && Text(a) == Text(b)
    ensures a == b
    decreases |a|
  {
    if a != [] && b != [] {
      var s := Text(a);
      assert a[0].text + (Text(a[1..]) + "") == s == b[0].text + (Text(b[1..]) + "");
      assert a[0].text == s[..|a[0].text|] == s[..|b[0].text|] == b[0].text;
      assert Text(a[1..]) == s[|a[0].text|..] == Text(b[1..]);
      LexingIsDeterministic(a[1..], b[1..], After(st, a[0]));
    }
  }

  // ------------------------------------------------------------ what follows

  predicate IsString(k: Kind) { k == String || k == MultilineString }

  /** Two continuations a lexeme cannot tell apart: they begin alike, or one begins with a
      string and the other with an inline table while the lexeme is no string itself. */
  predicate SameHead(k: Kind, a: string, b: string) {
    if a == "" || b == "" then a == b
    else
      || (a[0] == b[0] && StartsArrow(a) == StartsArrow(b))
      || (IsQuote(a[0]) && b[0] == '{' && !IsString(k))
  }

  lemma {:induction false} BareStable(x: string, a: string, b: string)
    requires BareLength(x + a) == |x| && SameHead(Other, a, b)
    ensures BareLength(x + b) == |x|
  {
    if x == "" {
      assert x + a == a && x + b == b;
    } else {
      assert (x + a)[1..] == x[1..] + a && (x + b)[1..] == x[1..] + b;
      BareStable(x[1..], a, b);
      assert StartsArrow(x + a) == StartsArrow(x + b);
    }
  }

  lemma {:induction false} CommentStable(x: string, a: string, b: string)
    requires CommentLength(x + a) == |x| && SameHead(Comment, a, b)
    ensures CommentLength(x + b) == |x|
  {
    if x == "" {
      assert x + a == a && x + b == b;
    } else {
      assert (x + a)[1..] == x[1..] + a && (x + b)[1..] == x[1..] + b;
      CommentStable(x[1..], a, b);
    }
  }

  lemma StringStable(l: Lexeme, a: string, b: string, st: LexState)
    requires Reads(l.text + a, st, l) && IsQuote((l.text + a)[0]) && SameHead(l.kind, a, b)
    ensures Reads(l.text + b, st, l)
  {
    var x := l.text;
    assert (x + a)[0] == x[0] == (x + b)[0];
    assert Admits(ReadString(x + a), x, a, b);
    StringIsLocal(x, a, b);
  }

  lemma WordStable(l: Lexeme, a: string, b: string, st: LexState)
    requires Reads(l.text + a, st, l) && l.kind == Other && SameHead(l.kind, a, b)
    ensures Reads(l.text + b, st, l)
  {
    var x := l.text;
    assert (x + a)[0] == x[0] == (x + b)[0];
    assert (x + a)[1..] == x[1..] + a && (x + b)[1..] == x[1..] + b;
    BareStable(x[1..], a, b);
    assert StartsArrow(x + b) == StartsArrow(x + a);
  }

  /** A lexeme reads the same before any continuation it cannot tell apart. */
  lemma ReadsStable(l: Lexeme, a: string, b: string, st: LexState)
    requires Reads(l.text + a, st, l) && SameHead(l.kind, a, b)
    ensures Reads(l.text + b, st, l)
  {
    var x := l.text;
    assert (x + a)[0] == x[0] == (x + b)[0];
    if IsQuote(x[0]) {
      StringStable(l, a, b, st);
    } else if l.kind == Other {
      WordStable(l, a, b, st);
    } else if x[0] == '#' {
      CommentStable(x, a, b);
    } else if IsPunctuation(x[0]) || IsHorizontalSpace(x[0]) {
    } else if IsNewline(x[0]) {
      assert NewlineLength(x + b) == NewlineLength(x + a);
    } else if x[0] == '[' {
      assert OpenWidth(x + b, st) == OpenWidth(x + a, st);
    } else if x[0] == ']' {
      assert CloseWidth(x + b, st) == CloseWidth(x + a, st);
    } else {
      assert StartsArrow(x + a) && (x + a)[1] == x[1] == (x + b)[1];
    }
  }
}
