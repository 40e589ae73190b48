/** How far the arrow scanner has cut a source into pieces: the relation between the tokens it
    remembers, the candidate it is completing and the lexemes read so far. */
module ScanTracking {
  import opened Wrappers
  import opened Lexer
  import opened Desugaring

  datatype Span = Span(begin: nat, end: nat) {
    function Size(): int { end - begin }
  }

  datatype Token = Token(kind: Kind, span: Span, frame: nat)

  /** Where an arrow rule and its parts stand. */
  datatype Site = Site(rule: Span, source: Span, arrow: Span, target: Span)

  datatype Candidate = Candidate(site: Site, frame: nat)

  datatype Stage = WaitingTarget | WaitingDelimiter

  datatype Pending = Pending(stage: Stage, source: Span, arrow: Span, target: Span, frame: nat) {
    function Found(): Site { Site(Span(source.begin, target.end), source, arrow, target) }
  }

  // ------------------------------------------------------------------- sites

  function SiteOf(p: Piece, at: nat): Site
    requires p.Redirect?
  {
    var s := at + |p.source.text|;
    var a := s + |Text(p.before)|;
    var a' := a + |p.arrow.text|;
    var t := a' + |Text(p.after)|;
    var t' := t + |p.target.text|;
    Site(Span(at, t'), Span(at, s), Span(a, a'), Span(t, t'))
  }

  /** The arrow rules of a source cut into pieces. */
  function Sites(ps: seq<Piece>, at: nat): seq<Site> {
    if ps == [] then []
    else
      var tail := Sites(ps[1..], at + |Text(Lexemes(ps[0]))|);
      if ps[0].Redirect? then [SiteOf(ps[0], at)] + tail else tail
  }

  lemma {:induction false} SitesAppend(ps: seq<Piece>, p: Piece, at: nat)
    ensures Sites(ps + [p], at)
         == Sites(ps, at) + if p.Redirect? then [SiteOf(p, at + |Text(Flatten(ps))|)] else []
    decreases |ps|
  {
    hide *;
    NoSites(at);
    SitesHead(ps + [p], at);
    if ps == [] {
      NoSites(at + |Text(Lexemes(p))|);
      assert (ps + [p])[1..] == [];
    } else {
      var next := at + |Text(Lexemes(ps[0]))|;
      assert (ps + [p])[0] == ps[0] && (ps + [p])[1..] == ps[1..] + [p];
      SitesAppend(ps[1..], p, next);
      SitesHead(ps, at);
      FlatText(ps);
    }
  }

  lemma NoSites(at: nat)
    ensures Sites([], at) == [] && |Text(Flatten([]))| == 0
  {
  }

  lemma SitesHead(ps: seq<Piece>, at: nat)
    requires ps != []
    ensures var tail := Sites(ps[1..], at + |Text(Lexemes(ps[0]))|);
      Sites(ps, at) == if ps[0].Redirect? then [SiteOf(ps[0], at)] + tail else tail
  {
  }

  lemma FlatText(ps: seq<Piece>)
    requires ps != []
    ensures |Text(Flatten(ps))| == |Text(Lexemes(ps[0]))| + |Text(Flatten(ps[1..]))|
  {
    hide Text, Lexemes;
    TextConcat(Lexemes(ps[0]), Flatten(ps[1..]));
  }

  lemma {:induction false} FlattenAppend(ps: seq<Piece>, p: Piece)
    ensures Flatten(ps + [p]) == Flatten(ps) + Lexemes(p)
  {
    if ps == [] {
      assert ps + [p] == [p];
    } else {
      assert (ps + [p])[0] == ps[0] && (ps + [p])[1..] == ps[1..] + [p];
      FlattenAppend(ps[1..], p);
    }
  }

  // ------------------------------------------------------------------- cutting

  /** The lexemes not yet cut: a string that may turn out to be an arrow's source. */
  datatype Tail =
    | NoTail
    | Operand(source: Lexeme, gap: seq<Lexeme>)
    | Arrowed(source: Lexeme, before: seq<Lexeme>, arrow: Lexeme, after: seq<Lexeme>)

  function Held(t: Tail): seq<Lexeme> {
    match t
    case NoTail => []
    case Operand(s, gap) => [s] + gap
    case Arrowed(s, before, arrow, after) => [s] + (before + ([arrow] + after))
  }

  datatype Cut = Cut(pieces: seq<Piece>, tail: Tail) {
    function Read(): seq<Lexeme> { Flatten(pieces) + Held(tail) }
    function Position(): nat { |Text(Read())| }
  }

  /** The state in which the scanner met the first lexeme of the tail. */
  function Context(ps: seq<Piece>): LexState { AfterAll(INITIAL, Flatten(ps)) }

  predicate InArray(st: LexState) { st.TopIs(ValueArray) && st.expecting }

  /** Every arrow rule stands where an array element is expected. */
  predicate InArrays(ps: seq<Piece>) {
    forall i :: 0 <= i < |ps| && ps[i].Redirect? ==> InArray(Context(ps[..i]))
  }

  predicate TouchesString(ps: seq<Piece>) { ps != [] && EndsInString(ps[|ps| - 1]) }

  /** The pieces were cut one after the other, each allowed where it stands. */
  predicate Sound(ps: seq<Piece>) {
    ps != [] ==>
      var init, p := ps[..|ps| - 1], ps[|ps| - 1];
      && Sound(init) && WellFormed(p)
      && (p.Redirect? ==> !TouchesString(init) && InArray(Context(init)))
  }

  lemma {:induction false} SoundMeans(ps: seq<Piece>)
    requires Sound(ps)
    ensures AllWellFormed(ps) && Apart(ps) && InArrays(ps)
  {
    if ps != [] {
      var init, p := ps[..|ps| - 1], ps[|ps| - 1];
      SoundMeans(init);
      assert ps == init + [p];
      forall i | 0 < i < |ps| && ps[i].Redirect?
        ensures !EndsInString(ps[i - 1])
      {
        assert i < |init| ==> ps[i] == init[i] && ps[i - 1] == init[i - 1];
      }
      forall i | 0 <= i < |ps| && ps[i].Redirect?
        ensures InArray(Context(ps[..i]))
      {
        assert i < |init| ==> ps[i] == init[i];
        assert ps[..i] == init[..i];
        assert init[..|init|] == init;
      }
    }
  }

  lemma SoundAppend(ps: seq<Piece>, p: Piece)
    requires Sound(ps) && WellFormed(p)
    requires p.Redirect? ==> !TouchesString(ps) && InArray(Context(ps))
    ensures Sound(ps + [p])
  {
    assert (ps + [p])[..|ps|] == ps;
  }

  // ------------------------------------------------------------------- tracking

  predicate HasKind(t: Option<Token>, k: Kind) { t.Some? && t.value.kind == k }

  predicate IsOpener(t: Option<Token>) { HasKind(t, OpenArray) || HasKind(t, Comma) }

  predicate IsStringToken(t: Option<Token>) { t.Some? && IsString(t.value.kind) }

  predicate NoSignificant(ls: seq<Lexeme>) { forall l :: l in ls ==> !IsSignificant(l.kind) }

  function SpanAt(at: nat, l: Lexeme): Span { Span(at, at + |l.text|) }

  /** A string is the last token: it may become a source. */
  predicate OperandTracked(
      ps: seq<Piece>, s: Lexeme, gap: seq<Lexeme>, last: Option<Token>, previous: Option<Token>, commented: bool)
  {
    && s.kind == String && HasKind(last, String)
    && last.value.span == SpanAt(|Text(Flatten(ps))|, s)
    && NoSignificant(gap) && (!commented ==> AllBlank(gap))
    && (TouchesString(ps) ==> IsStringToken(previous))
    && (IsOpener(previous) && Context(ps).TopIs(ValueArray) ==> Context(ps).expecting)
  }

  /** An arrow was read after its source: the target is due. */
  predicate ArrowTracked(ps: seq<Piece>, t: Tail, q: Pending)
    requires t.Arrowed?
  {
    var at := |Text(Flatten(ps))|;
    var a := at + |t.source.text| + |Text(t.before)|;
    && q.stage == WaitingTarget
    && t.source.kind == String && t.arrow.kind == Arrow && AllBlank(t.before) && AllBlank(t.after)
    && q.source == SpanAt(at, t.source) && q.arrow == SpanAt(a, t.arrow)
    && !TouchesString(ps) && InArray(Context(ps))
  }

  predicate TailTracked(
      cut: Cut, last: Option<Token>, previous: Option<Token>, pending: Option<Pending>, commented: bool)
  {
    match cut.tail
    case NoTail =>
      && (TouchesString(cut.pieces) ==> IsStringToken(last))
      && (pending.None? ==> !HasKind(last, String))
      && (pending.Some? ==> pending.value.stage == WaitingDelimiter)
    case Operand(s, gap) => pending.None? && OperandTracked(cut.pieces, s, gap, last, previous, commented)
    case Arrowed(_, _, _, _) => pending.Some? && ArrowTracked(cut.pieces, cut.tail, pending.value)
  }

  function SitesSeen(candidates: seq<Candidate>): seq<Site> {
    seq(|candidates|, i requires 0 <= i < |candidates| => candidates[i].site)
  }

  /** The sites confirmed so far, and the one still waiting for its delimiter. */
  function SitesFound(candidates: seq<Candidate>, pending: Option<Pending>): seq<Site> {
    SitesSeen(candidates)
    + if pending.Some? && pending.value.stage == WaitingDelimiter then [pending.value.Found()] else []
  }

  ghost predicate Tracked(
      cut: Cut, last: Option<Token>, previous: Option<Token>, pending: Option<Pending>, commented: bool,
      candidates: seq<Candidate>)
  {
    && Sound(cut.pieces)
    && TailTracked(cut, last, previous, pending, commented)
    && SitesFound(candidates, pending) == Sites(cut.pieces, 0)
  }

  // ------------------------------------------------------------------- steps

  lemma AppendPlain(ps: seq<Piece>, l: Lexeme)
    requires Sound(ps) && l.kind != Arrow
    ensures Sound(ps + [Plain(l)]) && Sites(ps + [Plain(l)], 0) == Sites(ps, 0)
    ensures Flatten(ps + [Plain(l)]) == Flatten(ps) + [l]
  {
    SoundAppend(ps, Plain(l));
    SitesAppend(ps, Plain(l), 0);
    FlattenAppend(ps, Plain(l));
  }

  /** `qs` continues the cut `ps` by plain pieces for `ls`. */
  predicate Continues(ps: seq<Piece>, qs: seq<Piece>, ls: seq<Lexeme>) {
    && Sound(qs) && Sites(qs, 0) == Sites(ps, 0) && Flatten(qs) == Flatten(ps) + ls
    && (if ls == [] then qs == ps else qs != [] && qs[|qs| - 1] == Plain(ls[|ls| - 1]))
  }

  lemma ContinueBy(ps: seq<Piece>, qs: seq<Piece>, ls: seq<Lexeme>, l: Lexeme)
    requires Continues(ps, qs, ls) && l.kind != Arrow
    ensures Continues(ps, qs + [Plain(l)], ls + [l])
  {
    hide Sound, Sites, Flatten;
    AppendPlain(qs, l);
    assert Flatten(ps) + ls + [l] == Flatten(ps) + (ls + [l]);
  }

  lemma {:induction false} AppendPlains(ps: seq<Piece>, ls: seq<Lexeme>) returns (qs: seq<Piece>)
    requires Sound(ps) && forall l :: l in ls ==> l.kind != Arrow
    ensures Continues(ps, qs, ls)
    decreases |ls|
  {
    hide Sound, Sites, Flatten;
    if ls == [] {
      qs := ps;
      assert Flatten(ps) + ls == Flatten(ps);
    } else {
      var init, l := ls[..|ls| - 1], ls[|ls| - 1];
      qs := AppendPlains(ps, init);
      ContinueBy(ps, qs, init, l);
      qs := qs + [Plain(l)];
      assert init + [l] == ls;
    }
  }

  /** A blank or a comment. */
  function Skipped(cut: Cut, l: Lexeme): Cut {
    match cut.tail
    case NoTail => Cut(cut.pieces + [Plain(l)], NoTail)
    case Operand(s, gap) => Cut(cut.pieces, Operand(s, gap + [l]))
    case Arrowed(s, before, arrow, after) => Cut(cut.pieces, Arrowed(s, before, arrow, after + [l]))
  }

  lemma SkipTracked(
      cut: Cut, last: Option<Token>, previous: Option<Token>, pending: Option<Pending>, commented: bool,
      candidates: seq<Candidate>, l: Lexeme, commented': bool)
    requires Tracked(cut, last, previous, pending, commented, candidates)
    requires !IsSignificant(l.kind) && (cut.tail.Arrowed? ==> IsBlank(l.kind))
    requires commented || (l.kind == Comment && pending.None?) ==> commented'
    ensures Tracked(Skipped(cut, l), last, previous, pending, commented', candidates)
    ensures Skipped(cut, l).Read() == cut.Read() + [l]
  {
    hide Sound, Sites, Flatten, Text, AfterAll, OperandTracked, ArrowTracked;
    if cut.tail.NoTail? {
      AppendPlain(cut.pieces, l);
      assert Flatten(cut.pieces) + [l] + [] == Flatten(cut.pieces) + [] + [l];
    } else {
      assert Held(Skipped(cut, l).tail) == Held(cut.tail) + [l];
      if cut.tail.Operand? {
        SkipAfterOperand(cut.pieces, cut.tail.source, cut.tail.gap, last, previous, commented, l, commented');
      } else {
        SkipAfterArrow(cut, pending.value, l);
      }
    }
  }

  lemma SkipAfterOperand(
      ps: seq<Piece>, s: Lexeme, gap: seq<Lexeme>, last: Option<Token>, previous: Option<Token>, commented: bool,
      l: Lexeme, commented': bool)
    requires OperandTracked(ps, s, gap, last, previous, commented)
    requires !IsSignificant(l.kind) && (commented || l.kind == Comment ==> commented')
    ensures OperandTracked(ps, s, gap + [l], last, previous, commented')
  {
  }

  lemma SkipAfterArrow(cut: Cut, q: Pending, l: Lexeme)
    requires cut.tail.Arrowed? && ArrowTracked(cut.pieces, cut.tail, q) && IsBlank(l.kind)
    ensures ArrowTracked(cut.pieces, Skipped(cut, l).tail, q)
  {
  }

  /** What is held turned out to be no arrow rule. */
  lemma Flush(
      cut: Cut, last: Option<Token>, previous: Option<Token>, pending: Option<Pending>, commented: bool,
      candidates: seq<Candidate>) returns (ps: seq<Piece>)
    requires Tracked(cut, last, previous, pending, commented, candidates) && !cut.tail.Arrowed?
    ensures Sound(ps) && Flatten(ps) == cut.Read() && Sites(ps, 0) == SitesFound(candidates, pending)
    ensures TouchesString(ps) ==> IsStringToken(last)
  {
    hide Sound, Sites, Flatten, Context, SitesSeen;
    ps := AppendPlains(cut.pieces, Held(cut.tail));
  }

  /** A token other than an arrow, when no arrow waits for its target. */
  function Advanced(ps: seq<Piece>, l: Lexeme): Cut {
    if l.kind == String then Cut(ps, Operand(l, [])) else Cut(ps + [Plain(l)], NoTail)
  }

  lemma AdvanceTracked(
      ps: seq<Piece>, last: Option<Token>, candidates: seq<Candidate>, l: Lexeme, token: Token)
    requires Sound(ps) && Sites(ps, 0) == SitesSeen(candidates)
    requires TouchesString(ps) ==> IsStringToken(last)
    requires IsSignificant(l.kind) && l.kind != Arrow
    requires token.kind == l.kind && token.span == SpanAt(|Text(Flatten(ps))|, l)
    requires l.kind == String && IsOpener(last) && Context(ps).TopIs(ValueArray) ==> Context(ps).expecting
    ensures Tracked(Advanced(ps, l), Some(token), last, None, false, candidates)
    ensures Advanced(ps, l).Read() == Flatten(ps) + [l]
  {
    hide Sound, Sites, Flatten, AfterAll, Text, Context;
    if l.kind != String {
      AppendPlain(ps, l);
    }
  }

  /** An arrow after a string that can be its source. */
  function Pointed(cut: Cut, l: Lexeme): Cut
    requires cut.tail.Operand?
  {
    Cut(cut.pieces, Arrowed(cut.tail.source, cut.tail.gap, l, []))
  }

  lemma {:induction false} GapKeepsFrames(ls: seq<Lexeme>, st: LexState)
    requires NoSignificant(ls)
    ensures AfterAll(st, ls).frames == st.frames
    decreases |ls|
  {
    if ls != [] {
      GapKeepsFrames(ls[1..], After(st, ls[0]));
    }
  }

  lemma ContextFrames(cut: Cut)
    requires cut.tail.Operand? && cut.tail.source.kind == String && NoSignificant(cut.tail.gap)
    ensures AfterAll(INITIAL, cut.Read()).frames == Context(cut.pieces).frames
  {
    AfterConcat(INITIAL, Flatten(cut.pieces), Held(cut.tail));
    AfterConcat(Context(cut.pieces), [cut.tail.source], cut.tail.gap);
    GapKeepsFrames(cut.tail.gap, After(Context(cut.pieces), cut.tail.source));
  }

  lemma OperandPosition(cut: Cut)
    requires cut.tail.Operand?
    ensures cut.Position() == |Text(Flatten(cut.pieces))| + |cut.tail.source.text| + |Text(cut.tail.gap)|
  {
    TextConcat(Flatten(cut.pieces), Held(cut.tail));
    TextConcat([cut.tail.source], cut.tail.gap);
    assert Text([cut.tail.source]) == cut.tail.source.text;
  }

  lemma PointTracked(
      cut: Cut, last: Option<Token>, previous: Option<Token>, candidates: seq<Candidate>, l: Lexeme, token: Token)
    requires Tracked(cut, last, previous, None, false, candidates)
    requires l.kind == Arrow && token.kind == Arrow && token.span == SpanAt(cut.Position(), l)
    requires HasKind(last, String) && IsOpener(previous)
    requires AfterAll(INITIAL, cut.Read()).TopIs(ValueArray)
    ensures cut.tail.Operand?
    ensures Tracked(Pointed(cut, l), Some(token), last,
                    Some(Pending(WaitingTarget, last.value.span, token.span, Span(0, 0), token.frame)), false, candidates)
    ensures Pointed(cut, l).Read() == cut.Read() + [l]
  {
    hide Sound, Sites, Flatten, AfterAll, Text;
    ContextFrames(cut);
    OperandPosition(cut);
    assert Held(Pointed(cut, l).tail) == Held(cut.tail) + [l];
    assert Pointed(cut, l).Read() == cut.Read() + [l];
  }

  /** The string an arrow was waiting for. */
  function Completed(cut: Cut, l: Lexeme): Cut
    requires cut.tail.Arrowed?
  {
    Cut(cut.pieces + [Redirect(cut.tail.source, cut.tail.before, cut.tail.arrow, cut.tail.after, l)], NoTail)
  }

  lemma ArrowedPosition(cut: Cut)
    requires cut.tail.Arrowed?
    ensures cut.Position() == |Text(Flatten(cut.pieces))| + |cut.tail.source.text| + |Text(cut.tail.before)|
                            + |cut.tail.arrow.text| + |Text(cut.tail.after)|
  {
    var t := cut.tail;
    TextConcat(Flatten(cut.pieces), Held(t));
    TextConcat([t.source], t.before + ([t.arrow] + t.after));
    TextConcat(t.before, [t.arrow] + t.after);
    TextConcat([t.arrow], t.after);
    assert Text([t.source]) == t.source.text && Text([t.arrow]) == t.arrow.text;
  }

  lemma CompletedSite(cut: Cut, q: Pending, l: Lexeme)
    requires cut.tail.Arrowed? && ArrowTracked(cut.pieces, cut.tail, q)
    ensures var p := Completed(cut, l).pieces[|cut.pieces|];
            q.(target := SpanAt(cut.Position(), l)).Found() == SiteOf(p, |Text(Flatten(cut.pieces))|)
  {
    ArrowedPosition(cut);
  }

  lemma CompleteSound(cut: Cut, q: Pending, l: Lexeme)
    requires cut.tail.Arrowed? && ArrowTracked(cut.pieces, cut.tail, q) && Sound(cut.pieces) && l.kind == String
    ensures Sound(Completed(cut, l).pieces) && Completed(cut, l).Read() == cut.Read() + [l]
    ensures Sites(Completed(cut, l).pieces, 0)
         == Sites(cut.pieces, 0) + [q.(target := SpanAt(cut.Position(), l)).Found()]
  {
    hide Sound, Sites, Flatten, Text, AfterAll, SiteOf;
    var p := Completed(cut, l).pieces[|cut.pieces|];
    SoundAppend(cut.pieces, p);
    SitesAppend(cut.pieces, p, 0);
    FlattenAppend(cut.pieces, p);
    CompletedSite(cut, q, l);
    assert Lexemes(p) == Held(cut.tail) + [l];
    assert Flatten(cut.pieces) + Lexemes(p) + [] == Flatten(cut.pieces) + Held(cut.tail) + [l];
  }

  lemma CompleteTracked(
      cut: Cut, last: Option<Token>, previous: Option<Token>, q: Pending, commented: bool,
      candidates: seq<Candidate>, l: Lexeme, token: Token)
    requires Tracked(cut, last, previous, Some(q), commented, candidates) && q.stage == WaitingTarget
    requires l.kind == String && token.kind == String && token.span == SpanAt(cut.Position(), l)
    ensures cut.tail.Arrowed?
    ensures Tracked(Completed(cut, l), Some(token), last,
                    Some(q.(target := token.span, stage := WaitingDelimiter)), false, candidates)
    ensures Completed(cut, l).Read() == cut.Read() + [l]
  {
    CompleteSound(cut, q, l);
    assert SitesSeen(candidates) == Sites(cut.pieces, 0);
  }
}
