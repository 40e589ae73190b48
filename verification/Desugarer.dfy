/** EmitDesugaredSource and DesugarRulesSource of rules/src/desugarer.cpp: the text with every
    arrow rule replaced by its inline table, and the map back to the source. */
module Desugarer {
  import opened Wrappers
  import opened Lexer
  import opened Desugaring
  import opened ScanTracking
  import opened ArrowScanner
  import opened RewriteMap

  const PREFIX := "{ from = "
  const MIDDLE := ", to = "
  const SUFFIX := " }"
  const UINT32_MAX: nat := 0xFFFF_FFFF
  const SIZE_MAX: nat := 0xFFFF_FFFF_FFFF_FFFF

  datatype ArrowRewrite = ArrowRewrite(id: nat, site: Site)

  datatype GeneratedRedirect = GeneratedRedirect(id: nat, original: Site, table: Span, source: Span, target: Span)

  /** Why nothing was emitted. */
  datatype Reason = RewriteLimit | InvalidRewrite | GeneratedTooLarge | SegmentLimit | EmitMismatch | MapInvalid

  datatype Report = Lexical(diagnostic: Diagnostic) | Emission(reason: Reason, span: Span)

  datatype DesugarResult = DesugarResult(
    generated: Option<string>, map_: Map, redirects: seq<GeneratedRedirect>, diagnostics: seq<Report>)
  {
    predicate Ok() { diagnostics == [] }
    function ParserInput(source: string): string { if generated.Some? then generated.value else source }
  }

  function Failure(size: nat, reason: Reason, span: Span): DesugarResult {
    DesugarResult(None, Identity(size), [], [Emission(reason, span)])
  }

  predicate IsValidSpan(size: nat, s: Span) { s.begin <= s.end <= size }

  /** A rule made of a source, an arrow and a target, in this order and none of them empty. */
  predicate IsValidSite(size: nat, w: Site) {
    && IsValidSpan(size, w.rule) && IsValidSpan(size, w.source) && IsValidSpan(size, w.arrow) && IsValidSpan(size, w.target)
    && w.rule.begin == w.source.begin && w.rule.end == w.target.end
    && w.source.begin < w.source.end && w.arrow.begin < w.arrow.end && w.target.begin < w.target.end
    && w.source.end <= w.arrow.begin && w.arrow.end <= w.target.begin
  }

  predicate IsValidRewrite(size: nat, w: ArrowRewrite) { w.id != 0 && IsValidSite(size, w.site) }

  /** The sites are valid and follow each other from `cursor` on. */
  predicate InSequence(size: nat, sites: seq<Site>, cursor: nat) {
    if sites == [] then cursor <= size
    else IsValidSite(size, sites[0]) && cursor <= sites[0].rule.begin && InSequence(size, sites[1..], sites[0].rule.end)
  }

  // ---------------------------------------------------------------- the text

  function Slice(bytes: string, s: Span): string
    requires IsValidSpan(|bytes|, s)
  {
    bytes[s.begin..s.end]
  }

  function Replacement(bytes: string, w: Site): string
    requires IsValidSite(|bytes|, w)
  {
    PREFIX + Slice(bytes, w.source) + MIDDLE + Slice(bytes, w.target) + SUFFIX
  }

  /** The source from `cursor` on with every rule replaced. */
  function Emitted(bytes: string, sites: seq<Site>, cursor: nat): string
    requires InSequence(|bytes|, sites, cursor)
    decreases |sites|
  {
    if sites == [] then bytes[cursor..]
    else bytes[cursor..sites[0].rule.begin] + (Replacement(bytes, sites[0]) + Emitted(bytes, sites[1..], sites[0].rule.end))
  }

  /** The source from `cursor` on without what stands between a rule's two operands. */
  function Kept(bytes: string, sites: seq<Site>, cursor: nat): string
    requires InSequence(|bytes|, sites, cursor)
    decreases |sites|
  {
    if sites == [] then bytes[cursor..]
    else
      bytes[cursor..sites[0].rule.begin]
      + (Slice(bytes, sites[0].source) + (Slice(bytes, sites[0].target) + Kept(bytes, sites[1..], sites[0].rule.end)))
  }

  function Growth(sites: seq<Site>): int {
    if sites == [] then 0
    else
      |PREFIX| + sites[0].source.Size() + |MIDDLE| + sites[0].target.Size() + |SUFFIX| - sites[0].rule.Size()
      + Growth(sites[1..])
  }

  lemma {:induction false} EmittedSize(bytes: string, sites: seq<Site>, cursor: nat)
    requires InSequence(|bytes|, sites, cursor)
    ensures |Emitted(bytes, sites, cursor)| == |bytes| - cursor + Growth(sites)
    decreases |sites|
  {
    if sites != [] {
      EmittedSize(bytes, sites[1..], sites[0].rule.end);
    }
  }

  lemma TableText(s: Lexeme, t: Lexeme, ls: seq<Lexeme>)
    ensures Text(Table(s, t, ls)) == PREFIX + s.text + MIDDLE + t.text + SUFFIX + Text(ls)
  {
    hide Text;
    var to := Entry(TO, t, [SPACE] + ([CLOSE] + ls));
    TargetText(t, ls);
    EntryText(FROM, s, [COMMA] + to);
    TextPrepend(OPEN, Entry(FROM, s, [COMMA] + to));
    var end := MIDDLE + t.text + SUFFIX + Text(ls);
    assert "{" + (" from = " + s.text + end) == PREFIX + s.text + end;
    assert PREFIX + s.text + end == PREFIX + s.text + MIDDLE + t.text + SUFFIX + Text(ls);
  }

  lemma TargetText(t: Lexeme, ls: seq<Lexeme>)
    ensures Text([COMMA] + Entry(TO, t, [SPACE] + ([CLOSE] + ls))) == MIDDLE + t.text + SUFFIX + Text(ls)
  {
    var closing := [SPACE] + ([CLOSE] + ls);
    TextPrepend(CLOSE, ls);
    TextPrepend(SPACE, [CLOSE] + ls);
    EntryText(TO, t, closing);
    TextPrepend(COMMA, Entry(TO, t, closing));
    assert "," + (" to = " + t.text + (" " + ("}" + Text(ls)))) == MIDDLE + t.text + SUFFIX + Text(ls);
  }

  lemma TextPrepend(l: Lexeme, ls: seq<Lexeme>)
    ensures Text([l] + ls) == l.text + Text(ls)
  {
    assert ([l] + ls)[1..] == ls;
  }

  lemma EntryText(key: Lexeme, value: Lexeme, ls: seq<Lexeme>)
    ensures Text(Entry(key, value, ls)) == " " + key.text + " = " + value.text + Text(ls)
  {
    var tail := [EQUALS] + ([SPACE] + ([value] + ls));
    TextPrepend(value, ls);
    TextPrepend(SPACE, [value] + ls);
    TextPrepend(EQUALS, [SPACE] + ([value] + ls));
    TextPrepend(SPACE, tail);
    TextPrepend(key, [SPACE] + tail);
    TextPrepend(SPACE, [key] + ([SPACE] + tail));
    assert " " + (key.text + (" " + ("=" + (" " + (value.text + Text(ls)))))) == " " + key.text + " = " + value.text + Text(ls);
  }

  /** Replacing bytes at the sites is the same as rewriting lexemes. */
  lemma {:induction false} EmittedIsRewritten(bytes: string, ps: seq<Piece>, at: nat, cursor: nat)
    requires cursor <= at <= |bytes| && bytes[at..] == Text(Flatten(ps))
    requires InSequence(|bytes|, Sites(ps, at), cursor)
    ensures Emitted(bytes, Sites(ps, at), cursor) == bytes[cursor..at] + Text(Rewrite(ps))
    decreases |ps|
  {
    hide *;
    if ps == [] {
      NothingLeft(bytes, ps, at, cursor);
    } else {
      var p, tail := ps[0], ps[1..];
      var next := at + |Text(Lexemes(p))|;
      TailText(bytes, at, ps);
      FirstPiece(ps, at);
      if p.Plain? {
        EmittedIsRewritten(bytes, tail, next, cursor);
        PlainText(bytes, p.lexeme, at, cursor, Text(Flatten(tail)));
        PlainRewritten(bytes[cursor..at], p.lexeme, Rewrite(tail));
      } else {
        RedirectSites(bytes, ps, at, cursor);
        EmittedIsRewritten(bytes, tail, next, next);
        RedirectRewritten(bytes, Sites(ps, at), cursor, p, Rewrite(tail));
      }
    }
  }

  lemma NothingLeft(bytes: string, ps: seq<Piece>, at: nat, cursor: nat)
    requires ps == [] && cursor <= at <= |bytes| && bytes[at..] == Text(Flatten(ps))
    requires InSequence(|bytes|, Sites(ps, at), cursor)
    ensures Emitted(bytes, Sites(ps, at), cursor) == bytes[cursor..at] + Text(Rewrite(ps))
  {
    assert bytes[cursor..] == bytes[cursor..at] + "";
  }

  lemma FirstPiece(ps: seq<Piece>, at: nat)
    requires ps != []
    ensures var p, tail := ps[0], ps[1..];
      if p.Plain? then
        && Sites(ps, at) == Sites(tail, at + |Text(Lexemes(p))|) && Rewrite(ps) == [p.lexeme] + Rewrite(tail)
        && Lexemes(p) == [p.lexeme] && Text(Lexemes(p)) == p.lexeme.text
      else Rewrite(ps) == Table(p.source, p.target, Rewrite(tail))
  {
  }

  lemma RedirectSites(bytes: string, ps: seq<Piece>, at: nat, cursor: nat)
    requires cursor <= at <= |bytes| && ps != [] && ps[0].Redirect?
    requires bytes[at..] == Text(Lexemes(ps[0])) + Text(Flatten(ps[1..]))
    requires InSequence(|bytes|, Sites(ps, at), cursor)
    ensures var w, next := SiteOf(ps[0], at), at + |Text(Lexemes(ps[0]))|;
      && Sites(ps, at) == [w] + Sites(ps[1..], next) && Sites(ps, at)[1..] == Sites(ps[1..], next)
      && w.rule == Span(at, next) && IsValidSite(|bytes|, w)
      && Slice(bytes, w.source) == ps[0].source.text && Slice(bytes, w.target) == ps[0].target.text
      && InSequence(|bytes|, Sites(ps[1..], next), next)
  {
    SiteText(bytes, ps[0], at, Text(Flatten(ps[1..])));
    assert ([SiteOf(ps[0], at)] + Sites(ps[1..], at + |Text(Lexemes(ps[0]))|))[1..]
        == Sites(ps[1..], at + |Text(Lexemes(ps[0]))|);
  }

  lemma TailText(bytes: string, at: nat, ps: seq<Piece>)
    requires at <= |bytes| && ps != [] && bytes[at..] == Text(Flatten(ps))
    ensures var next := at + |Text(Lexemes(ps[0]))|; next <= |bytes| && bytes[next..] == Text(Flatten(ps[1..]))
    ensures bytes[at..] == Text(Lexemes(ps[0])) + Text(Flatten(ps[1..]))
  {
    hide Text, Lexemes;
    TextConcat(Lexemes(ps[0]), Flatten(ps[1..]));
    DropText(bytes, at, Text(Lexemes(ps[0])), Text(Flatten(ps[1..])));
  }

  lemma DropText(bytes: string, at: nat, x: string, rest: string)
    requires at <= |bytes| && bytes[at..] == x + rest
    ensures at + |x| <= |bytes| && bytes[at + |x|..] == rest
  {
    assert bytes[at..][|x|..] == rest;
  }

  lemma PlainRewritten(a: string, l: Lexeme, ls: seq<Lexeme>)
    ensures (a + l.text) + Text(ls) == a + Text([l] + ls)
  {
    TextPrepend(l, ls);
    assert (a + l.text) + Text(ls) == a + (l.text + Text(ls));
  }

  lemma RedirectRewritten(bytes: string, sites: seq<Site>, cursor: nat, p: Piece, ls: seq<Lexeme>)
    requires sites != [] && InSequence(|bytes|, sites, cursor) && p.Redirect?
    requires Slice(bytes, sites[0].source) == p.source.text && Slice(bytes, sites[0].target) == p.target.text
    requires var next := sites[0].rule.end; Emitted(bytes, sites[1..], next) == bytes[next..next] + Text(ls)
    ensures Emitted(bytes, sites, cursor) == bytes[cursor..sites[0].rule.begin] + Text(Table(p.source, p.target, ls))
  {
    var next := sites[0].rule.end;
    assert bytes[next..next] + Text(ls) == Text(ls);
    TableText(p.source, p.target, ls);
    assert Replacement(bytes, sites[0]) == PREFIX + p.source.text + MIDDLE + p.target.text + SUFFIX;
  }

  lemma PlainText(bytes: string, l: Lexeme, at: nat, cursor: nat, rest: string)
    requires cursor <= at <= |bytes| && bytes[at..] == Text([l]) + rest
    ensures at + |l.text| <= |bytes| && bytes[cursor..at + |l.text|] == bytes[cursor..at] + l.text
  {
    assert Text([l]) == l.text;
    assert bytes[at..at + |l.text|] == bytes[at..][..|l.text|] == l.text;
  }

  /** The operands of a redirect are the bytes at its site. */
  lemma SiteText(bytes: string, p: Piece, at: nat, rest: string)
    requires p.Redirect? && at <= |bytes| && bytes[at..] == Text(Lexemes(p)) + rest
    ensures var w := SiteOf(p, at);
      && w.rule.end == at + |Text(Lexemes(p))| <= |bytes|
      && bytes[w.source.begin..w.source.end] == p.source.text
      && bytes[w.target.begin..w.target.end] == p.target.text
  {
    RedirectText(p);
    var s, b, a, c, t := p.source.text, Text(p.before), p.arrow.text, Text(p.after), p.target.text;
    hide Text, Lexemes;
    Outer(s, b, a, c, t, rest);
    Middle(bytes, at, "", s, b + (a + (c + t)) + rest);
    Middle(bytes, at, s + (b + (a + c)), t, rest);
  }

  lemma Outer(s: string, b: string, a: string, c: string, t: string, rest: string)
    ensures (s + (b + (a + (c + t)))) + rest == "" + (s + ((b + (a + (c + t))) + rest))
    ensures (s + (b + (a + (c + t)))) + rest == (s + (b + (a + c))) + (t + rest)
    ensures |s + (b + (a + (c + t)))| == |s| + |b| + |a| + |c| + |t| && |s + (b + (a + c))| == |s| + |b| + |a| + |c|
  {
  }

  lemma Middle(bytes: string, at: nat, x: string, y: string, z: string)
    requires at <= |bytes| && bytes[at..] == x + (y + z)
    ensures at + |x| + |y| <= |bytes| && bytes[at + |x|..at + |x| + |y|] == y
  {
    assert bytes[at..][|x|..|x| + |y|] == bytes[at + |x|..at + |x| + |y|];
  }

  lemma RedirectText(p: Piece)
    requires p.Redirect?
    ensures Text(Lexemes(p)) == p.source.text + (Text(p.before) + (p.arrow.text + (Text(p.after) + p.target.text)))
  {
    TextPrepend(p.source, p.before + ([p.arrow] + (p.after + [p.target])));
    TextConcat(p.before, [p.arrow] + (p.after + [p.target]));
    TextPrepend(p.arrow, p.after + [p.target]);
    TextConcat(p.after, [p.target]);
    assert Text([p.target]) == p.target.text + Text([]);
  }

  /** What a clean scan reports can be rewritten: every site is valid and they do not overlap. */
  lemma {:induction false} SitesInSequence(size: nat, ps: seq<Piece>, rest: string, st: LexState, at: nat, cursor: nat)
    requires AllWellFormed(ps) && Lexes(Flatten(ps), rest, st)
    requires cursor <= at && at + |Text(Flatten(ps))| <= size
    ensures InSequence(size, Sites(ps, at), cursor)
    decreases |ps|
  {
    hide *;
    if ps == [] {
      NoSites(at);
      NothingInSequence(size, cursor);
    } else {
      var p, tail := ps[0], ps[1..];
      var next := at + |Text(Lexemes(p))|;
      HeadLexes(ps, rest, st);
      SitesHead(ps, at);
      if p.Plain? {
        SitesInSequence(size, tail, rest, AfterAll(st, Lexemes(p)), next, cursor);
      } else {
        SitesInSequence(size, tail, rest, AfterAll(st, Lexemes(p)), next, next);
        SiteIsValid(size, p, Text(Flatten(tail)) + rest, st, at);
        SequencePrepend(size, SiteOf(p, at), Sites(tail, next), cursor);
      }
    }
  }

  /** The first piece, and the others after it. */
  lemma HeadLexes(ps: seq<Piece>, rest: string, st: LexState)
    requires ps != [] && AllWellFormed(ps) && Lexes(Flatten(ps), rest, st)
    ensures WellFormed(ps[0]) && AllWellFormed(ps[1..])
    ensures Lexes(Lexemes(ps[0]), Text(Flatten(ps[1..])) + rest, st)
    ensures Lexes(Flatten(ps[1..]), rest, AfterAll(st, Lexemes(ps[0])))
    ensures |Text(Flatten(ps))| == |Text(Lexemes(ps[0]))| + |Text(Flatten(ps[1..]))|
  {
    hide Lexes, AfterAll, Text, Lexemes, WellFormed;
    LexesConcat(Lexemes(ps[0]), Flatten(ps[1..]), rest, st);
    TextConcat(Lexemes(ps[0]), Flatten(ps[1..]));
  }

  lemma NothingInSequence(size: nat, cursor: nat)
    requires cursor <= size
    ensures InSequence(size, [], cursor)
  {
  }

  lemma SequencePrepend(size: nat, w: Site, sites: seq<Site>, cursor: nat)
    requires IsValidSite(size, w) && cursor <= w.rule.begin && InSequence(size, sites, w.rule.end)
    ensures InSequence(size, [w] + sites, cursor)
  {
    assert ([w] + sites)[1..] == sites;
  }

  lemma SiteIsValid(size: nat, p: Piece, rest: string, st: LexState, at: nat)
    requires p.Redirect? && WellFormed(p) && Lexes(Lexemes(p), rest, st) && at + |Text(Lexemes(p))| <= size
    ensures IsValidSite(size, SiteOf(p, at)) && SiteOf(p, at).rule == Span(at, at + |Text(Lexemes(p))|)
  {
    hide Lexes, AfterAll, Text;
    RedirectText(p);
    var front := [p.source] + p.before;
    var back := p.after + [p.target];
    assert Lexemes(p) == front + ([p.arrow] + back);
    LexesConcat(front, [p.arrow] + back, rest, st);
    NonEmpty([p.source] + p.before, Text([p.arrow] + back) + rest, st);
    NonEmpty([p.arrow] + back, rest, AfterAll(st, front));
    assert [p.arrow] + back == ([p.arrow] + p.after) + [p.target];
    LexesConcat([p.arrow] + p.after, [p.target], rest, AfterAll(st, front));
    NonEmpty([p.target], rest, AfterAll(AfterAll(st, front), [p.arrow] + p.after));
  }

  lemma NonEmpty(ls: seq<Lexeme>, rest: string, st: LexState)
    requires ls != [] && Lexes(ls, rest, st)
    ensures ls[0].text != ""
  {
  }

  // ------------------------------------------------------------- the emitter

  predicate AllOriginal(bytes: string, segments: seq<Segment>) {
    forall s :: s in segments ==> IsValidSpan(|bytes|, s.original)
  }

  /** The source bytes that the copied segments stand for. */
  function CopiedText(bytes: string, segments: seq<Segment>): string {
    if segments == [] then ""
    else
      var init, s := segments[..|segments| - 1], segments[|segments| - 1];
      if s.kind == Copied && IsValidSpan(|bytes|, s.original) then CopiedText(bytes, init) + Slice(bytes, s.original) else CopiedText(bytes, init)
  }

  /** Every copied byte of the output is the source byte the segments name. */
  predicate CopiesTruly(bytes: string, output: string, segments: seq<Segment>) {
    forall s :: s in segments && s.kind == Copied ==>
      IsValidSpan(|output|, s.generated) && IsValidSpan(|bytes|, s.original)
      && Slice(output, s.generated) == Slice(bytes, s.original)
  }

  ghost predicate Drawn(bytes: string, output: string, segments: seq<Segment>) {
    Chained(segments, |output|, |bytes|) && CopiesTruly(bytes, output, segments)
  }

  lemma OriginalsValid(bytes: string, output: string, segments: seq<Segment>)
    requires Drawn(bytes, output, segments)
    ensures AllOriginal(bytes, segments)
  {
    forall s | s in segments ensures IsValidSpan(|bytes|, s.original) {
      var i :| 0 <= i < |segments| && segments[i] == s;
      assert Fits(segments[i], |output|, |bytes|);
    }
  }

  lemma DrawMore(bytes: string, output: string, segments: seq<Segment>, text: string, original: Span, kind: SegmentKind)
    requires Drawn(bytes, output, segments) && text != "" && IsValidSpan(|bytes|, original)
    requires kind == Copied ==> text == Slice(bytes, original)
    ensures Drawn(bytes, output + text,
                  segments + [Segment(Span(|output|, |output + text|), original, kind)])
  {
    var more := segments + [Segment(Span(|output|, |output + text|), original, kind)];
    var end := |output + text|;
    forall i | 0 <= i < |more| ensures Fits(more[i], end, |bytes|) {
      assert i < |segments| ==> more[i] == segments[i] && Fits(segments[i], |output|, |bytes|);
    }
    forall s | s in more && s.kind == Copied
      ensures IsValidSpan(end, s.generated) && IsValidSpan(|bytes|, s.original)
           && Slice(output + text, s.generated) == Slice(bytes, s.original)
    {
      if s in segments {
        assert Slice(output + text, s.generated) == Slice(output, s.generated);
      } else {
        assert Slice(output + text, s.generated) == text;
      }
    }
  }

  datatype Canvas = Canvas(output: string, segments: seq<Segment>)

  method AppendSegment(bytes: string, c: Canvas, text: string, original: Span, kind: SegmentKind, limits: Limits)
    returns (ok: bool, r: Canvas)
    requires Drawn(bytes, c.output, c.segments) && IsValidSpan(|bytes|, original)
    requires kind == Copied ==> text == Slice(bytes, original)
    ensures ok <==> text == "" || |c.segments| < limits.maxRewriteSegments
    ensures ok ==> r.output == c.output + text && Drawn(bytes, r.output, r.segments)
    ensures ok ==> r.segments == c.segments
                   + if text == "" then [] else [Segment(Span(|c.output|, |r.output|), original, kind)]
  {
    if text == "" {
      return true, c;
    }
    if |c.segments| >= limits.maxRewriteSegments {
      return false, c;
    }
    DrawMore(bytes, c.output, c.segments, text, original, kind);
    return true, Canvas(c.output + text, c.segments + [Segment(Span(|c.output|, |c.output + text|), original, kind)]);
  }

  /** The five segments of a generated table, from the `k`-th on. */
  predicate StandsAt(segments: seq<Segment>, g: GeneratedRedirect, k: nat) {
    && k + 5 <= |segments|
    && segments[k] == Segment(Span(g.table.begin, g.source.begin), g.original.rule, SyntheticRule)
    && segments[k + 1] == Segment(g.source, g.original.source, Copied)
    && segments[k + 2] == Segment(Span(g.source.end, g.target.begin), g.original.arrow, SyntheticArrow)
    && segments[k + 3] == Segment(g.target, g.original.target, Copied)
    && segments[k + 4] == Segment(Span(g.target.end, g.table.end), g.original.rule, SyntheticRule)
  }

  method EmitTable(bytes: string, c: Canvas, w: ArrowRewrite, limits: Limits)
    returns (ok: bool, r: Canvas, g: GeneratedRedirect)
    requires Drawn(bytes, c.output, c.segments) && IsValidRewrite(|bytes|, w)
    ensures !ok ==> |c.segments| + 5 > limits.maxRewriteSegments
    ensures ok ==> r.output == c.output + Replacement(bytes, w.site) && Drawn(bytes, r.output, r.segments)
    ensures ok ==> |r.segments| == |c.segments| + 5 && r.segments[..|c.segments|] == c.segments
    ensures ok ==> g.id == w.id && g.original == w.site && StandsAt(r.segments, g, |c.segments|)
  {
    hide Drawn;
    var site := w.site;
    g := GeneratedRedirect(w.id, site, Span(|c.output|, 0), Span(0, 0), Span(0, 0));
    ok, r := AppendSegment(bytes, c, PREFIX, site.rule, SyntheticRule, limits);
    if !ok { return; }
    var from := |r.output|;
    ok, r := AppendSegment(bytes, r, Slice(bytes, site.source), site.source, Copied, limits);
    if !ok { return; }
    g := g.(source := Span(from, |r.output|));
    ok, r := AppendSegment(bytes, r, MIDDLE, site.arrow, SyntheticArrow, limits);
    if !ok { return; }
    var to := |r.output|;
    ok, r := AppendSegment(bytes, r, Slice(bytes, site.target), site.target, Copied, limits);
    if !ok { return; }
    g := g.(target := Span(to, |r.output|));
    ok, r := AppendSegment(bytes, r, SUFFIX, site.rule, SyntheticRule, limits);
    if !ok { return; }
    g := g.(table := Span(|c.output|, |r.output|));
  }

  lemma CopiedStep(bytes: string, segments: seq<Segment>, i: nat)
    requires AllOriginal(bytes, segments)
    requires i < |segments|
    ensures CopiedText(bytes, segments[..i + 1])
         == CopiedText(bytes, segments[..i])
          + if segments[i].kind == Copied then Slice(bytes, segments[i].original) else ""
  {
    assert segments[..i + 1][..i] == segments[..i];
  }

  /** The operands are what a table copies. */
  lemma TableCopies(bytes: string, segments: seq<Segment>, g: GeneratedRedirect, k: nat)
    requires AllOriginal(bytes, segments)
    requires StandsAt(segments, g, k) && k + 5 == |segments|
    ensures IsValidSpan(|bytes|, g.original.source) && IsValidSpan(|bytes|, g.original.target)
    ensures CopiedText(bytes, segments)
         == CopiedText(bytes, segments[..k]) + (Slice(bytes, g.original.source) + Slice(bytes, g.original.target))
  {
    hide CopiedText, AllOriginal, Slice, IsValidSpan;
    SpanIsValid(bytes, segments, k + 1);
    SpanIsValid(bytes, segments, k + 3);
    CopiedPair(bytes, segments, k);
    CopiedPair(bytes, segments, k + 2);
    CopiedStep(bytes, segments, k + 4);
    assert segments[..k + 5] == segments;
    Associates(CopiedText(bytes, segments[..k]), Slice(bytes, g.original.source), Slice(bytes, g.original.target));
  }

  lemma Associates(a: string, b: string, c: string)
    ensures ((a + b) + c) + "" == a + (b + c) && (a + b) + c == a + (b + c)
  {
  }

  lemma SpanIsValid(bytes: string, segments: seq<Segment>, i: nat)
    requires AllOriginal(bytes, segments) && i < |segments|
    ensures IsValidSpan(|bytes|, segments[i].original)
  {
  }

  /** A segment that copies nothing, and one that does. */
  lemma CopiedPair(bytes: string, segments: seq<Segment>, i: nat)
    requires AllOriginal(bytes, segments) && i + 1 < |segments|
    requires segments[i].kind != Copied && segments[i + 1].kind == Copied && IsValidSpan(|bytes|, segments[i + 1].original)
    ensures CopiedText(bytes, segments[..i + 2])
         == CopiedText(bytes, segments[..i]) + Slice(bytes, segments[i + 1].original)
  {
    hide CopiedText, AllOriginal, Slice;
    CopiedStep(bytes, segments, i);
    CopiedStep(bytes, segments, i + 1);
    var a := CopiedText(bytes, segments[..i]);
    assert a + "" == a;
  }

  function SitesOf(rewrites: seq<ArrowRewrite>): (r: seq<Site>)
    ensures |r| == |rewrites|
  {
    seq(|rewrites|, i requires 0 <= i < |rewrites| => rewrites[i].site)
  }

  /** The rewrites the emitter accepts: valid, ordered, and with identities of their own. */
  predicate Acceptable(size: nat, rewrites: seq<ArrowRewrite>) {
    && InSequence(size, SitesOf(rewrites), 0)
    && (forall i :: 0 <= i < |rewrites| ==> rewrites[i].id != 0)
    && (forall i, j :: 0 <= i < j < |rewrites| ==> rewrites[i].id != rewrites[j].id)
  }

  lemma {:induction false} SequenceAt(size: nat, sites: seq<Site>, cursor: nat, i: nat)
    requires InSequence(size, sites, cursor) && i < |sites|
    ensures IsValidSite(size, sites[i])
    ensures (if i == 0 then cursor else sites[i - 1].rule.end) <= sites[i].rule.begin
    decreases |sites|
  {
    if i > 0 {
      SequenceAt(size, sites[1..], sites[0].rule.end, i - 1);
    }
  }

  lemma {:induction false} SequenceAppend(size: nat, sites: seq<Site>, cursor: nat, w: Site)
    requires InSequence(size, sites, cursor) && IsValidSite(size, w)
    requires (if sites == [] then cursor else sites[|sites| - 1].rule.end) <= w.rule.begin
    ensures InSequence(size, sites + [w], cursor)
    decreases |sites|
  {
    if sites == [] {
      assert [w][1..] == [];
    } else {
      SequenceAppend(size, sites[1..], sites[0].rule.end, w);
      assert (sites + [w])[1..] == sites[1..] + [w];
    }
  }

  function GrowthOf(w: Site): int {
    |PREFIX| + w.source.Size() + |MIDDLE| + w.target.Size() + |SUFFIX| - w.rule.Size()
  }

  lemma {:induction false} GrowthAppend(sites: seq<Site>, w: Site)
    ensures Growth(sites + [w]) == Growth(sites) + GrowthOf(w)
  {
    if sites == [] {
      assert [w][1..] == [];
    } else {
      GrowthAppend(sites[1..], w);
      assert (sites + [w])[1..] == sites[1..] + [w];
    }
  }

  /** Some prefix of the rewrites already makes the text too large. */
  predicate Oversized(size: nat, sites: seq<Site>, limits: Limits) {
    exists k :: 0 < k <= |sites| && TooLarge(size + Growth(sites[..k]), limits)
  }

  predicate TooLarge(size: int, limits: Limits) { size > limits.maxGeneratedBytes || size > UINT32_MAX }

  /** The size computed beforehand never runs below zero and is the size of the text. */
  method PlanSize(size: nat, rewrites: seq<ArrowRewrite>, limits: Limits) returns (failure: Option<Report>, total: nat)
    requires size <= UINT32_MAX
    ensures failure.None? ==> Acceptable(size, rewrites) && total == size + Growth(SitesOf(rewrites))
    ensures failure.Some? ==> failure.value.Emission?
    ensures failure.Some? && Acceptable(size, rewrites) ==>
              failure.value.reason == GeneratedTooLarge && Oversized(size, SitesOf(rewrites), limits)
  {
    hide InSequence, Growth, IsValidSite;
    var ids: set<nat> := {};
    total := size;
    var previousEnd := 0;
    ghost var sites := SitesOf(rewrites);
    EmptySequence(size);
    for i := 0 to |rewrites|
      invariant InSequence(size, sites[..i], 0) && total == size + Growth(sites[..i])
      invariant previousEnd == if i == 0 then 0 else sites[i - 1].rule.end
      invariant previousEnd <= size && size - previousEnd <= total <= UINT32_MAX
      invariant forall j :: 0 <= j < i ==> rewrites[j].id != 0 && rewrites[j].id in ids
      invariant forall id :: id in ids ==> exists j :: 0 <= j < i && rewrites[j].id == id
      invariant forall j, k :: 0 <= j < k < i ==> rewrites[j].id != rewrites[k].id
    {
      var w := rewrites[i];
      if Acceptable(size, rewrites) {
        SequenceAt(size, sites, 0, i);
      }
      if !IsValidRewrite(size, w) || w.site.rule.begin < previousEnd || w.id in ids {
        return Some(Emission(InvalidRewrite, w.site.rule)), 0;
      }
      SiteBounds(size, w.site);
      assert sites[..i + 1] == sites[..i] + [w.site];
      GrowthAppend(sites[..i], w.site);
      SequenceAppend(size, sites[..i], 0, w.site);
      ids := ids + {w.id};
      var replacement := |PREFIX| + w.site.source.Size() + |MIDDLE| + w.site.target.Size() + |SUFFIX|;
      total := total - w.site.rule.Size();
      if replacement > SIZE_MAX - total || total + replacement > limits.maxGeneratedBytes || total + replacement > UINT32_MAX {
        assert TooLarge(size + Growth(sites[..i + 1]), limits);
        return Some(Emission(GeneratedTooLarge, w.site.rule)), 0;
      }
      total := total + replacement;
      previousEnd := w.site.rule.end;
    }
    assert sites[..|rewrites|] == sites;
    failure := None;
  }

  lemma SiteBounds(size: nat, w: Site)
    requires IsValidSite(size, w)
    ensures w.rule.begin < w.rule.end <= size && w.source.Size() > 0 && w.target.Size() > 0
  {
  }

  lemma EmptySequence(size: nat)
    ensures InSequence(size, [], 0) && Growth([]) == 0
  {
  }

  ghost predicate Stands(segments: seq<Segment>, g: GeneratedRedirect) {
    exists k :: StandsAt(segments, g, k)
  }

  lemma StandsOn(segments: seq<Segment>, more: seq<Segment>, g: GeneratedRedirect)
    requires segments <= more && Stands(segments, g)
    ensures Stands(more, g)
  {
    var k :| StandsAt(segments, g, k);
    assert StandsAt(more, g, k);
  }

  lemma GapCopies(bytes: string, segments: seq<Segment>, more: seq<Segment>, gap: Span)
    requires AllOriginal(bytes, segments)
    requires IsValidSpan(|bytes|, gap)
    requires if gap.begin == gap.end then more == segments
             else |more| == |segments| + 1 && more[..|segments|] == segments
                  && more[|segments|].original == gap && more[|segments|].kind == Copied
    ensures AllOriginal(bytes, more)
    ensures CopiedText(bytes, more) == CopiedText(bytes, segments) + Slice(bytes, gap)
  {
    hide CopiedText;
    if gap.begin == gap.end {
      assert Slice(bytes, gap) == "";
    } else {
      var s := more[|segments|];
      assert more == segments + [s];
      assert AllOriginal(bytes, more) by {
        forall x | x in more ensures IsValidSpan(|bytes|, x.original) {
          assert x in segments || x == s;
        }
      }
      hide AllOriginal;
      CopiedStep(bytes, more, |segments|);
      assert more[..|segments| + 1] == more;
    }
  }

  method AppendCopied(bytes: string, c: Canvas, span: Span, limits: Limits) returns (ok: bool, r: Canvas)
    requires Drawn(bytes, c.output, c.segments) && IsValidSpan(|bytes|, span)
    ensures !ok ==> |c.segments| >= limits.maxRewriteSegments
    ensures ok ==> Drawn(bytes, r.output, r.segments) && r.output == c.output + Slice(bytes, span)
    ensures ok ==> c.segments <= r.segments && |r.segments| <= |c.segments| + 1
    ensures ok ==> AllOriginal(bytes, c.segments) && AllOriginal(bytes, r.segments)
                   && CopiedText(bytes, r.segments) == CopiedText(bytes, c.segments) + Slice(bytes, span)
  {
    hide Drawn, CopiedText, AllOriginal;
    OriginalsValid(bytes, c.output, c.segments);
    ok, r := AppendSegment(bytes, c, Slice(bytes, span), span, Copied, limits);
    if ok {
      GapCopies(bytes, c.segments, r.segments, span);
    }
  }

  /** What stands before a rule, then its table. */
  method EmitRule(bytes: string, c: Canvas, w: ArrowRewrite, cursor: nat, limits: Limits)
    returns (ok: bool, r: Canvas, g: GeneratedRedirect)
    requires Drawn(bytes, c.output, c.segments) && IsValidRewrite(|bytes|, w) && cursor <= w.site.rule.begin
    ensures !ok ==> |c.segments| + 6 > limits.maxRewriteSegments
    ensures ok ==> Drawn(bytes, r.output, r.segments)
                   && r.output == c.output + bytes[cursor..w.site.rule.begin] + Replacement(bytes, w.site)
    ensures ok ==> c.segments <= r.segments && |r.segments| <= |c.segments| + 6
    ensures ok ==> g.id == w.id && g.original == w.site && Stands(r.segments, g)
    ensures ok ==> AllOriginal(bytes, c.segments)
                   && AllOriginal(bytes, r.segments)
                   && CopiedText(bytes, r.segments)
                      == CopiedText(bytes, c.segments) + bytes[cursor..w.site.rule.begin]
                       + (Slice(bytes, w.site.source) + Slice(bytes, w.site.target))
  {
    hide Drawn, CopiedText, Replacement, AllOriginal, StandsAt;
    var gap := Span(cursor, w.site.rule.begin);
    ok, r := AppendCopied(bytes, c, gap, limits);
    g := GeneratedRedirect(0, w.site, gap, gap, gap);
    if !ok {
      return;
    }
    ghost var mid := r;
    ok, r, g := EmitTable(bytes, r, w, limits);
    if ok {
      OriginalsValid(bytes, r.output, r.segments);
      TableCopies(bytes, r.segments, g, |mid.segments|);
    }
  }

  /** The bytes and the bookkeeping of an emission that succeeded. */
  ghost predicate Faithful(bytes: string, rewrites: seq<ArrowRewrite>, r: DesugarResult) {
    && Acceptable(|bytes|, rewrites) && r.generated.Some?
    && r.generated.value == Emitted(bytes, SitesOf(rewrites), 0)
    && r.map_.generatedSize == |r.generated.value| && r.map_.originalSize == |bytes|
    && Tiles(r.map_.segments, |r.generated.value|, |bytes|)
    && CopiesTruly(bytes, r.generated.value, r.map_.segments)
    && AllOriginal(bytes, r.map_.segments)
    && CopiedText(bytes, r.map_.segments) == Kept(bytes, SitesOf(rewrites), 0)
    && Recorded(rewrites, r.redirects, r.map_.segments)
  }

  /** One record per rewrite, in order, each over the segments of its table. */
  ghost predicate Recorded(rewrites: seq<ArrowRewrite>, redirects: seq<GeneratedRedirect>, segments: seq<Segment>) {
    && |redirects| == |rewrites|
    && forall j :: 0 <= j < |redirects| ==>
         redirects[j].id == rewrites[j].id && redirects[j].original == rewrites[j].site && Stands(segments, redirects[j])
  }

  lemma RecordMore(
      rewrites: seq<ArrowRewrite>, redirects: seq<GeneratedRedirect>, segments: seq<Segment>, w: ArrowRewrite,
      g: GeneratedRedirect, more: seq<Segment>)
    requires Recorded(rewrites, redirects, segments) && segments <= more
    requires g.id == w.id && g.original == w.site && Stands(more, g)
    ensures Recorded(rewrites + [w], redirects + [g], more)
  {
    hide Stands;
    forall j | 0 <= j < |redirects| ensures Stands(more, redirects[j]) {
      StandsOn(segments, more, redirects[j]);
    }
  }

  /** How far the emission is: what is still to come completes the text and the copies. */
  ghost predicate Underway(bytes: string, c: Canvas, sites: seq<Site>, cursor: nat, text: string, kept: string) {
    && InSequence(|bytes|, sites, cursor) && Drawn(bytes, c.output, c.segments) && AllOriginal(bytes, c.segments)
    && c.output + Emitted(bytes, sites, cursor) == text
    && CopiedText(bytes, c.segments) + Kept(bytes, sites, cursor) == kept
  }

  lemma Proceed(bytes: string, c: Canvas, sites: seq<Site>, cursor: nat, text: string, kept: string, r: Canvas)
    requires Underway(bytes, c, sites, cursor, text, kept) && sites != []
    requires Drawn(bytes, r.output, r.segments) && AllOriginal(bytes, r.segments)
    requires cursor <= sites[0].rule.begin <= |bytes| && IsValidSite(|bytes|, sites[0])
    requires r.output == c.output + bytes[cursor..sites[0].rule.begin] + Replacement(bytes, sites[0])
    requires CopiedText(bytes, r.segments)
          == CopiedText(bytes, c.segments) + bytes[cursor..sites[0].rule.begin]
           + (Slice(bytes, sites[0].source) + Slice(bytes, sites[0].target))
    ensures Underway(bytes, r, sites[1..], sites[0].rule.end, text, kept)
  {
    var w := sites[0];
    var gap, x, from, to := bytes[cursor..w.rule.begin], Replacement(bytes, w), Slice(bytes, w.source), Slice(bytes, w.target);
    var rest, keptRest := Emitted(bytes, sites[1..], w.rule.end), Kept(bytes, sites[1..], w.rule.end);
    var had := CopiedText(bytes, c.segments);
    assert text == c.output + (gap + (x + rest)) && kept == had + (gap + (from + (to + keptRest)));
    hide *;
    Reassociate(c.output, gap, x, "", rest);
    Reassociate(had, gap, from, to, keptRest);
    assert r.output + rest == text && CopiedText(bytes, r.segments) + keptRest == kept;
  }

  lemma Reassociate(a: string, b: string, x: string, y: string, z: string)
    ensures a + b + (x + y) + z == a + (b + (x + (y + z)))
    ensures y == "" ==> x + y == x && y + z == z
  {
    assert a + b + (x + y) + z == a + (b + (x + (y + z)));
  }

  lemma Begin(bytes: string, rewrites: seq<ArrowRewrite>)
    requires Acceptable(|bytes|, rewrites)
    ensures var sites := SitesOf(rewrites);
      && InSequence(|bytes|, sites, 0)
      && Underway(bytes, Canvas("", []), sites[0..], 0, Emitted(bytes, sites, 0), Kept(bytes, sites, 0))
    ensures Recorded(rewrites[..0], [], [])
  {
    hide Emitted, Kept, InSequence;
    var sites := SitesOf(rewrites);
    assert sites[0..] == sites;
    assert "" + Emitted(bytes, sites, 0) == Emitted(bytes, sites, 0);
    assert "" + Kept(bytes, sites, 0) == Kept(bytes, sites, 0);
  }

  lemma NextRule(bytes: string, c: Canvas, rewrites: seq<ArrowRewrite>, i: nat, cursor: nat, text: string, kept: string)
    requires Acceptable(|bytes|, rewrites) && i < |rewrites|
    requires Underway(bytes, c, SitesOf(rewrites)[i..], cursor, text, kept)
    ensures Drawn(bytes, c.output, c.segments) && IsValidRewrite(|bytes|, rewrites[i])
    ensures IsValidSite(|bytes|, rewrites[i].site) && cursor <= rewrites[i].site.rule.begin <= |bytes|
    ensures SitesOf(rewrites)[i..] != [] && SitesOf(rewrites)[i..][0] == rewrites[i].site
    ensures SitesOf(rewrites)[i..][1..] == SitesOf(rewrites)[i + 1..]
  {
    hide Emitted, Kept, CopiedText;
  }

  /** The rules one after the other, each preceded by the source bytes before it. */
  method EmitRules(bytes: string, rewrites: seq<ArrowRewrite>, limits: Limits)
    returns (failure: Option<Span>, c: Canvas, cursor: nat, redirects: seq<GeneratedRedirect>)
    requires Acceptable(|bytes|, rewrites)
    ensures failure.Some? ==> 6 * |rewrites| + 1 > limits.maxRewriteSegments
    ensures failure.None? ==> |c.segments| <= 6 * |rewrites| && Recorded(rewrites, redirects, c.segments)
    ensures failure.None? ==>
      Underway(bytes, c, [], cursor, Emitted(bytes, SitesOf(rewrites), 0), Kept(bytes, SitesOf(rewrites), 0))
  {
    hide *;
    Begin(bytes, rewrites);
    ghost var sites := SitesOf(rewrites);
    ghost var text, kept := Emitted(bytes, sites, 0), Kept(bytes, sites, 0);
    c, cursor, redirects := Canvas("", []), 0, [];
    for i := 0 to |rewrites|
      invariant Underway(bytes, c, sites[i..], cursor, text, kept)
      invariant |c.segments| <= 6 * i && Recorded(rewrites[..i], redirects, c.segments)
    {
      var w := rewrites[i];
      NextRule(bytes, c, rewrites, i, cursor, text, kept);
      var ok, r, g := EmitRule(bytes, c, w, cursor, limits);
      if !ok {
        return Some(w.site.rule), c, cursor, redirects;
      }
      Proceed(bytes, c, sites[i..], cursor, text, kept, r);
      RecordMore(rewrites[..i], redirects, c.segments, w, g, r.segments);
      assert rewrites[..i + 1] == rewrites[..i] + [w];
      c, cursor, redirects := r, w.site.rule.end, redirects + [g];
    }
    assert rewrites[..|rewrites|] == rewrites && sites[|rewrites|..] == [];
    failure := None;
  }

  lemma Complete(bytes: string, c: Canvas, cursor: nat, text: string, kept: string, r: Canvas)
    requires Underway(bytes, c, [], cursor, text, kept)
    requires cursor <= |bytes| && AllOriginal(bytes, r.segments)
    requires r.output == c.output + bytes[cursor..|bytes|]
    requires CopiedText(bytes, r.segments) == CopiedText(bytes, c.segments) + bytes[cursor..|bytes|]
    ensures r.output == text && CopiedText(bytes, r.segments) == kept
  {
    assert bytes[cursor..|bytes|] == bytes[cursor..];
  }

  /** MAIN RESULT. Success gives the text and a map that is exact; with room for six segments
      per rewrite and one more, acceptable rewrites fail only on the size of the text. */
  method EmitDesugaredSource(bytes: string, rewrites: seq<ArrowRewrite>, limits: Limits) returns (r: DesugarResult)
    requires |bytes| <= UINT32_MAX
    ensures r.map_.Valid() && r.map_.originalSize == |bytes| && (r.generated.Some? ==> r.Ok())
    ensures rewrites == [] ==> r == DesugarResult(None, Identity(|bytes|), [], [])
    ensures rewrites != [] && r.Ok() ==> Faithful(bytes, rewrites, r)
    ensures !r.Ok() && Acceptable(|bytes|, rewrites) && |rewrites| <= limits.maxRewrites
            && 6 * |rewrites| + 1 <= limits.maxRewriteSegments
         ==> (exists span :: r.diagnostics == [Emission(GeneratedTooLarge, span)])
             && Oversized(|bytes|, SitesOf(rewrites), limits)
  {
    if rewrites == [] {
      return DesugarResult(None, Identity(|bytes|), [], []);
    }
    if |rewrites| > limits.maxRewrites {
      return Failure(|bytes|, RewriteLimit, rewrites[0].site.rule);
    }
    var failure, total := PlanSize(|bytes|, rewrites, limits);
    if failure.Some? {
      return Failure(|bytes|, failure.value.reason, failure.value.span);
    }
    r := EmitPlanned(bytes, rewrites, total, limits);
  }

  method EmitPlanned(bytes: string, rewrites: seq<ArrowRewrite>, total: nat, limits: Limits) returns (r: DesugarResult)
    requires rewrites != [] && Acceptable(|bytes|, rewrites)
    requires total == |bytes| + Growth(SitesOf(rewrites))
    ensures r.map_.Valid() && r.map_.originalSize == |bytes| && (r.generated.Some? ==> r.Ok())
    ensures r.Ok() ==> Faithful(bytes, rewrites, r)
    ensures !r.Ok() ==> 6 * |rewrites| + 1 > limits.maxRewriteSegments
  {
    hide AllOriginal, CopiedText, Kept, Emitted, Growth, InSequence, Stands;
    EmittedSize(bytes, SitesOf(rewrites), 0);
    var failed, c, cursor, redirects := EmitRules(bytes, rewrites, limits);
    if failed.Some? {
      return Failure(|bytes|, SegmentLimit, failed.value);
    }
    CursorInside(bytes, cursor);
    var ok, done := AppendCopied(bytes, c, Span(cursor, |bytes|), limits);
    if !ok {
      return Failure(|bytes|, EmitMismatch, Span(cursor, |bytes|));
    }
    Complete(bytes, c, cursor, Emitted(bytes, SitesOf(rewrites), 0), Kept(bytes, SitesOf(rewrites), 0), done);
    var mismatch := Failure(|bytes|, EmitMismatch, Span(cursor, |bytes|));
    var invalid := Failure(|bytes|, MapInvalid, Span(0, |bytes|));
    if |done.output| != total {
      assert false;
      return mismatch;
    }
    StillRecorded(rewrites, redirects, c.segments, done.segments);
    var m := Create(done.segments, |done.output|, |bytes|);
    SegmentsExist(rewrites, redirects, done.segments);
    if m.None? {
      assert false;
      return invalid;
    }
    return DesugarResult(Some(done.output), m.value, redirects, []);
  }

  lemma CursorInside(bytes: string, cursor: nat)
    requires InSequence(|bytes|, [], cursor)
    ensures cursor <= |bytes|
  {
  }

  lemma StillRecorded(
      rewrites: seq<ArrowRewrite>, redirects: seq<GeneratedRedirect>, segments: seq<Segment>, more: seq<Segment>)
    requires Recorded(rewrites, redirects, segments) && segments <= more
    ensures Recorded(rewrites, redirects, more)
  {
    hide Stands;
    forall j | 0 <= j < |redirects| ensures Stands(more, redirects[j]) {
      StandsOn(segments, more, redirects[j]);
    }
  }

  lemma SegmentsExist(rewrites: seq<ArrowRewrite>, redirects: seq<GeneratedRedirect>, segments: seq<Segment>)
    requires rewrites != [] && Recorded(rewrites, redirects, segments)
    ensures segments != []
  {
    assert Stands(segments, redirects[0]);
  }

  // ------------------------------------------------------------- mapping back

  /** MAIN RESULT. Each generated table, source and target maps back to exactly the rule,
      source and target it was made from. */
  lemma RedirectMapsBack(bytes: string, rewrites: seq<ArrowRewrite>, r: DesugarResult, j: nat)
    requires rewrites != [] && Faithful(bytes, rewrites, r) && j < |r.redirects|
    ensures var g := r.redirects[j];
      && SpanOrigin(r.map_, g.table) == Some(g.original.rule)
      && SpanOrigin(r.map_, g.source) == Some(g.original.source)
      && SpanOrigin(r.map_, g.target) == Some(g.original.target)
  {
    var g := r.redirects[j];
    assert Stands(r.map_.segments, g);
    var k :| StandsAt(r.map_.segments, g, k);
    SequenceAt(|bytes|, SitesOf(rewrites), 0, j);
    TableMapsBack(r.map_, g, k);
  }

  lemma TableMapsBack(m: Map, g: GeneratedRedirect, k: nat)
    requires Tiles(m.segments, m.generatedSize, m.originalSize) && StandsAt(m.segments, g, k)
    requires IsValidSite(m.originalSize, g.original)
    ensures SpanOrigin(m, g.table) == Some(g.original.rule)
    ensures SpanOrigin(m, g.source) == Some(g.original.source)
    ensures SpanOrigin(m, g.target) == Some(g.original.target)
  {
    TableShape(m, g, k);
    hide Tiles, Chained, Hull;
    HullOf(m, k, k + 5, g.table, k, g.original.rule);
    HullOf(m, k + 1, k + 2, g.source, k + 1, g.original.source);
    HullOf(m, k + 3, k + 4, g.target, k + 3, g.original.target);
  }

  lemma TableShape(m: Map, g: GeneratedRedirect, k: nat)
    requires Tiles(m.segments, m.generatedSize, m.originalSize) && StandsAt(m.segments, g, k)
    ensures g.table.begin < g.source.begin < g.source.end < g.target.begin < g.target.end < g.table.end <= m.generatedSize
    ensures g.source.Size() == g.original.source.Size() && g.target.Size() == g.original.target.Size()
  {
    assert FitsAt(m, k) && FitsAt(m, k + 1) && FitsAt(m, k + 2) && FitsAt(m, k + 3) && FitsAt(m, k + 4);
  }

  predicate FitsAt(m: Map, i: nat) {
    i < |m.segments| && Fits(m.segments[i], m.generatedSize, m.originalSize)
  }

  /** Only the segments from `a` to `b` can contribute to a span they cover exactly. */
  lemma HullOf(m: Map, a: nat, b: nat, span: Span, i: nat, hull: Span)
    requires Tiles(m.segments, m.generatedSize, m.originalSize)
    requires a <= i < b <= |m.segments| && span.begin < span.end <= m.generatedSize
    requires m.segments[a].generated.begin == span.begin && m.segments[b - 1].generated.end == span.end
    requires m.segments[i].Meets(span) && m.segments[i].Part(span) == hull
    requires forall s :: a <= s < b && m.segments[s].Meets(span) ==> Within(m.segments[s].Part(span), hull)
    ensures SpanOrigin(m, span) == Some(hull)
  {
    forall s | s in m.segments && s.Meets(span) ensures Within(s.Part(span), hull) {
      var n :| 0 <= n < |m.segments| && m.segments[n] == s;
      if n < a {
        InOrder(m.segments, m.generatedSize, m.originalSize, n, a);
      }
      if n >= b {
        InOrder(m.segments, m.generatedSize, m.originalSize, b - 1, n);
      }
    }
    HullExact(m.segments, span, i, hull);
  }

  // ------------------------------------------------------------ the whole step

  function Numbered(candidates: seq<Candidate>): (r: seq<ArrowRewrite>)
    ensures |r| == |candidates|
  {
    seq(|candidates|, i requires 0 <= i < |candidates| => ArrowRewrite(i + 1, candidates[i].site))
  }

  /** What a clean scan hands to the emitter is acceptable to it. */
  lemma CandidatesAcceptable(bytes: string, candidates: seq<Candidate>, ps: seq<Piece>)
    requires CutsInto(bytes, candidates, ps)
    ensures SitesOf(Numbered(candidates)) == Sites(ps, 0)
    ensures Acceptable(|bytes|, Numbered(candidates))
    ensures Emitted(bytes, Sites(ps, 0), 0) == Text(Rewrite(ps))
  {
    SoundMeans(ps);
    SitesInSequence(|bytes|, ps, "", INITIAL, 0, 0);
    assert SitesOf(Numbered(candidates)) == SitesSeen(candidates);
    assert bytes[0..] == bytes;
    EmittedIsRewritten(bytes, ps, 0, 0);
    assert bytes[0..0] + Text(Rewrite(ps)) == Text(Rewrite(ps));
  }

  lemma {:induction false} NoSitesNoChange(ps: seq<Piece>, at: nat)
    requires Sites(ps, at) == []
    ensures Rewrite(ps) == Flatten(ps)
    decreases |ps|
  {
    if ps != [] {
      assert ps[0].Plain?;
      NoSitesNoChange(ps[1..], at + |Text(Lexemes(ps[0]))|);
    }
  }

  function Reports(ds: seq<Diagnostic>): (r: seq<Report>)
    ensures |r| == |ds|
  {
    seq(|ds|, i requires 0 <= i < |ds| => Lexical(ds[i]))
  }

  predicate AllLexical(ds: seq<Report>) { forall d :: d in ds ==> d.Lexical? }

  /** Enough room for whatever a clean scan can report. */
  predicate Roomy(size: nat, limits: Limits) {
    && 6 * limits.maxRewrites + 1 <= limits.maxRewriteSegments
    && size + 18 * limits.maxRewrites <= limits.maxGeneratedBytes <= UINT32_MAX
  }

  /** The limits a build without options has. */
  const DEFAULT_LIMITS := Limits(128, 65536, 4096, 4096, 24577, 64, 2097152)

  /** With the default limits every source of up to one mebibyte has enough room. */
  lemma DefaultsAreRoomy(size: nat)
    ensures Roomy(size, DEFAULT_LIMITS) <==> size <= 2023424
    ensures size <= 1048576 ==> Roomy(size, DEFAULT_LIMITS)
  {
  }

  lemma {:induction false} GrowthIsSmall(size: nat, sites: seq<Site>, cursor: nat)
    requires InSequence(size, sites, cursor)
    ensures Growth(sites) <= 18 * |sites|
    decreases |sites|
  {
    if sites != [] {
      GrowthIsSmall(size, sites[1..], sites[0].rule.end);
    }
  }

  lemma {:induction false} FrontInSequence(size: nat, sites: seq<Site>, cursor: nat, k: nat)
    requires InSequence(size, sites, cursor) && k <= |sites|
    ensures InSequence(size, sites[..k], cursor)
    decreases |sites|
  {
    hide IsValidSite;
    SequenceEnds(size, sites, cursor);
    if k > 0 {
      FrontInSequence(size, sites[1..], sites[0].rule.end, k - 1);
      assert sites[..k][1..] == sites[1..][..k - 1];
    }
  }

  lemma {:induction false} SequenceEnds(size: nat, sites: seq<Site>, cursor: nat)
    requires InSequence(size, sites, cursor)
    ensures cursor <= size
  {
  }

  lemma NeverOversized(size: nat, rewrites: seq<ArrowRewrite>, limits: Limits)
    requires Acceptable(size, rewrites) && |rewrites| <= limits.maxRewrites && Roomy(size, limits)
    ensures !Oversized(size, SitesOf(rewrites), limits)
  {
    var sites := SitesOf(rewrites);
    hide InSequence, Growth;
    forall k | 0 < k <= |sites| ensures !TooLarge(size + Growth(sites[..k]), limits) {
      FrontInSequence(size, sites, 0, k);
      GrowthIsSmall(size, sites[..k], 0);
    }
  }

  /** MAIN RESULT. Desugaring either reports what the scan found, or hands the parser a text
      whose tokens are the desugared tokens of the source; with room for six segments per
      rewrite and one more, the only other outcome is that the text would be too large. */
  method DesugarRulesSource(bytes: string, format: Option<Diagnostic>, limits: Limits)
    returns (r: DesugarResult, ghost ps: seq<Piece>)
    requires |bytes| <= UINT32_MAX
    ensures r.map_.Valid()
    ensures r.Ok() ==> Desugars(bytes, r.ParserInput(bytes), ps)
    ensures r.generated.Some? ==> r.Ok() && exists rewrites :: rewrites != [] && Faithful(bytes, rewrites, r)
    ensures Roomy(|bytes|, limits) ==> AllLexical(r.diagnostics)
    ensures 6 * limits.maxRewrites + 1 <= limits.maxRewriteSegments && !AllLexical(r.diagnostics) ==>
              (exists span :: r.diagnostics == [Emission(GeneratedTooLarge, span)])
              && Oversized(|bytes|, Sites(ps, 0), limits)
  {
    hide Faithful, Desugars, Oversized, CutsInto, Acceptable;
    ps := [];
    if format.Some? {
      return DesugarResult(None, Identity(|bytes|), [], [Lexical(format.value)]), ps;
    }
    var scan;
    scan, ps := ScanArrowCandidates(bytes, limits);
    if scan.diagnostics != [] {
      return DesugarResult(None, Identity(|bytes|), [], Reports(scan.diagnostics)), ps;
    }
    var rewrites := Numbered(scan.candidates);
    CandidatesAcceptable(bytes, scan.candidates, ps);
    r := EmitDesugaredSource(bytes, rewrites, limits);
    if Roomy(|bytes|, limits) {
      NeverOversized(|bytes|, rewrites, limits);
    }
    if r.Ok() {
      Handed(bytes, rewrites, scan.candidates, r, ps);
    }
  }

  lemma Handed(bytes: string, rewrites: seq<ArrowRewrite>, candidates: seq<Candidate>, r: DesugarResult, ps: seq<Piece>)
    requires CutsInto(bytes, candidates, ps) && rewrites == Numbered(candidates)
    requires if rewrites == [] then r.generated.None? else Faithful(bytes, rewrites, r)
    ensures Desugars(bytes, r.ParserInput(bytes), ps)
  {
    CandidatesAcceptable(bytes, candidates, ps);
    if rewrites == [] {
      NoSitesNoChange(ps, 0);
    }
  }

  /** The source is one lexical sequence cut at its arrow rules, and the text is that sequence
      rewritten. */
  ghost predicate Desugars(bytes: string, text: string, ps: seq<Piece>) {
    && Text(Flatten(ps)) == bytes && Lexes(Flatten(ps), "", INITIAL) && Sound(ps)
    && text == Text(Rewrite(ps))
  }

  /** MAIN RESULT. However the two texts are read, the tokens of the second are the desugared
      tokens of the first, and no arrow is among them. */
  lemma DesugaringPreservesMeaning(bytes: string, text: string, ps: seq<Piece>, before: seq<Lexeme>, after: seq<Lexeme>)
    requires Desugars(bytes, text, ps)
    requires Text(before) == bytes && Lexes(before, "", INITIAL)
    requires Text(after) == text && Lexes(after, "", INITIAL)
    ensures Tokens(after) == Desugared(Tokens(before))
    ensures forall l :: l in after ==> l.kind != Arrow
    ensures AfterAll(INITIAL, after) == AfterAll(INITIAL, before)
  {
    LexingIsDeterministic(before, Flatten(ps), INITIAL);
    SoundMeans(ps);
    DesugaringPreservesTokens(ps, INITIAL, after);
  }
}
