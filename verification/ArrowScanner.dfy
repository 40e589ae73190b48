/** The Scanner class of rules/src/arrow_scanner.cpp: a cursor loop over the source with a
    stack of open brackets and an automaton that completes `"a" -> "b"` candidates. */
module ArrowScanner {
  import opened Wrappers
  import opened TomlString
  import opened Lexer
  import opened Desugaring
  import opened ScanTracking

  datatype Code =
    | ArrowContext | ArrowOperand | ArrowChained | ArrowMissingComma | ArrowCommentInside
    | ArrowStringBoundary | ResourceLimit | DiagnosticsOmitted

  datatype Diagnostic = Diagnostic(code: Code, primary: Span, omission: bool)

  datatype Limits = Limits(
    maxContainerDepth: nat, maxTokens: nat, maxStringBytes: nat, maxRewrites: nat,
    maxRewriteSegments: nat, maxDiagnostics: nat, maxGeneratedBytes: nat)

  datatype Frame = Frame(kind: FrameKind, id: nat)

  function Kinds(frames: seq<Frame>): seq<FrameKind> {
    seq(|frames|, i requires 0 <= i < |frames| => frames[i].kind)
  }

  predicate Distinct(frames: seq<Frame>, next: nat) {
    && (forall i :: 0 <= i < |frames| ==> frames[i].id < next)
    && (forall i, j :: 0 <= i < j < |frames| ==> frames[i].id != frames[j].id)
  }

  function FrameId(frames: seq<Frame>): nat { if frames == [] then 0 else frames[|frames| - 1].id }

  predicate IsValueArrayFrame(frames: seq<Frame>, id: nat) {
    exists f :: f in frames && f.id == id && f.kind == ValueArray
  }

  lemma CurrentIsTop(frames: seq<Frame>, next: nat, st: LexState)
    requires Distinct(frames, next) && IsValueArrayFrame(frames, FrameId(frames)) && st.frames == Kinds(frames)
    ensures st.TopIs(ValueArray)
  {
    var f :| f in frames && f.id == FrameId(frames) && f.kind == ValueArray;
    var i :| 0 <= i < |frames| && frames[i] == f;
    assert i == |frames| - 1;
  }

  /** `read` is all there is before `pos`, and lexes there. */
  predicate ReadUpTo(bytes: string, pos: nat, read: seq<Lexeme>, st: LexState) {
    && pos <= |bytes| && Text(read) == bytes[..pos]
    && Lexes(read, bytes[pos..], INITIAL) && AfterAll(INITIAL, read) == st
  }

  lemma ReadsFront(s: string, st: LexState, l: Lexeme)
    requires Reads(s, st, l)
    ensures l.text <= s
  {
  }

  lemma SingleLexes(l: Lexeme, rest: string, st: LexState)
    requires Reads(l.text + rest, st, l)
    ensures Lexes([l], rest, st) && Text([l]) == l.text && AfterAll(st, [l]) == After(st, l)
  {
    assert Text([l][1..]) + rest == rest;
  }

  lemma ReadOn(bytes: string, pos: nat, read: seq<Lexeme>, st: LexState, l: Lexeme)
    requires ReadUpTo(bytes, pos, read, st) && Reads(bytes[pos..], st, l)
    ensures pos + |l.text| <= |bytes|
    ensures ReadUpTo(bytes, pos + |l.text|, read + [l], After(st, l))
  {
    hide Lexes, Text, AfterAll, Reads, After;
    ReadsFront(bytes[pos..], st, l);
    var next := pos + |l.text|;
    var rest := bytes[next..];
    assert l.text + rest == bytes[pos..];
    SingleLexes(l, rest, st);
    LexesConcat(read, [l], rest, INITIAL);
    TextConcat(read, [l]);
    AfterConcat(INITIAL, read, [l]);
    assert bytes[..pos] + l.text == bytes[..next];
  }

  method ScanBare(bytes: string, start: nat) returns (end: nat)
    requires start < |bytes|
    ensures end == start + 1 + BareLength(bytes[start..][1..])
  {
    end := start + 1;
    assert bytes[start..][1..] == bytes[end..];
    while end < |bytes| && !IsTokenBoundary(bytes[end])
          && !(bytes[end] == '-' && end + 1 < |bytes| && bytes[end + 1] == '>')
      invariant start < end <= |bytes|
      invariant BareLength(bytes[start..][1..]) == end - start - 1 + BareLength(bytes[end..])
    {
      assert bytes[end..][1..] == bytes[end + 1..];
      end := end + 1;
    }
  }

  method ScanComment(bytes: string, start: nat) returns (end: nat)
    requires start <= |bytes|
    ensures end == start + CommentLength(bytes[start..])
  {
    end := start;
    while end < |bytes| && bytes[end] != '\n'
      invariant start <= end <= |bytes|
      invariant CommentLength(bytes[start..]) == end - start + CommentLength(bytes[end..])
    {
      assert bytes[end..][1..] == bytes[end + 1..];
      end := end + 1;
    }
  }

  lemma ConfirmedSites(candidates: seq<Candidate>, q: Pending)
    requires q.stage == WaitingDelimiter
    ensures SitesSeen(candidates + [Candidate(q.Found(), q.frame)]) == SitesFound(candidates, Some(q))
  {
  }

  lemma SpaceReads(bytes: string, at: nat, st: LexState)
    requires at < |bytes| && IsHorizontalSpace(bytes[at])
    ensures Reads(bytes[at..], st, Lexeme(Space, bytes[at..at + 1]))
  {
  }

  lemma NewlineReads(bytes: string, at: nat, end: nat, st: LexState)
    requires at < |bytes| && IsNewline(bytes[at])
    requires end == if bytes[at] == '\r' && at + 1 < |bytes| && bytes[at + 1] == '\n' then at + 2 else at + 1
    ensures Reads(bytes[at..], st, Lexeme(Newline, bytes[at..end]))
  {
  }

  lemma CommentReads(bytes: string, at: nat, end: nat, st: LexState)
    requires at < |bytes| && bytes[at] == '#' && end == at + CommentLength(bytes[at..])
    ensures at < end && Reads(bytes[at..], st, Lexeme(Comment, bytes[at..end]))
  {
  }

  lemma StringReads(bytes: string, at: nat, t: StringToken, st: LexState)
    requires at < |bytes| && IsQuote(bytes[at]) && t.terminated
    requires t == ReadString(bytes[at..]).(end := at + ReadString(bytes[at..]).end)
    ensures var kind := if t.multiline then MultilineString else String;
            Reads(bytes[at..], st, Lexeme(kind, bytes[at..t.end]))
  {
  }

  lemma ArrowReads(bytes: string, at: nat, st: LexState)
    requires at + 1 < |bytes| && bytes[at] == '-' && bytes[at + 1] == '>'
    ensures Reads(bytes[at..], st, Lexeme(Arrow, bytes[at..at + 2]))
  {
  }

  lemma OpenArrayReads(bytes: string, at: nat, end: nat, st: LexState)
    requires at < |bytes| && bytes[at] == '[' && end == at + OpenWidth(bytes[at..], st)
    ensures Reads(bytes[at..], st, Lexeme(OpenArray, bytes[at..end]))
  {
  }

  lemma CloseArrayReads(bytes: string, at: nat, end: nat, st: LexState)
    requires at < |bytes| && bytes[at] == ']' && end == at + CloseWidth(bytes[at..], st)
    ensures Reads(bytes[at..], st, Lexeme(CloseArray, bytes[at..end]))
  {
  }

  /** Nothing but a bare word begins with this byte. */
  predicate StartsWord(s: string) {
    && s != "" && !IsPunctuation(s[0]) && !StartsArrow(s) && !IsQuote(s[0]) && s[0] != '[' && s[0] != ']'
    && s[0] != '#' && !IsHorizontalSpace(s[0]) && !IsNewline(s[0])
  }

  lemma WordReads(bytes: string, at: nat, end: nat, st: LexState)
    requires at < |bytes| && StartsWord(bytes[at..]) && end == at + 1 + BareLength(bytes[at..][1..])
    ensures end <= |bytes| && Reads(bytes[at..], st, Lexeme(Other, bytes[at..end]))
  {
  }

  lemma PunctuationReads(bytes: string, at: nat, st: LexState)
    requires at < |bytes| && IsPunctuation(bytes[at])
    ensures Reads(bytes[at..], st, Lexeme(Punctuation(bytes[at]), bytes[at..at + 1]))
  {
  }

  /** What the caller of Emit knows about the token it passes on. */
  predicate Arrives(cut: Cut, frames: seq<Frame>, last: Option<Token>, token: Token, l: Lexeme) {
    var st := AfterAll(INITIAL, cut.Read());
    && token.kind == l.kind && IsSignificant(l.kind) && token.span == SpanAt(cut.Position(), l)
    && (l.kind == Arrow ==> st.frames == Kinds(frames) && token.frame == FrameId(frames))
    && (l.kind == String && IsOpener(last) && st.TopIs(ValueArray) ==> st.expecting)
  }

  /** Everything before `pos` has been read and cut, and an array that was just opened or
      continued expects an element. */
  predicate Synced(bytes: string, pos: nat, cut: Cut, last: Option<Token>, st: LexState) {
    ReadUpTo(bytes, pos, cut.Read(), st) && (IsOpener(last) && st.TopIs(ValueArray) ==> st.expecting)
  }

  lemma AfterToken(bytes: string, end: nat, cut: Cut, last: Option<Token>, st: LexState, l: Lexeme)
    requires ReadUpTo(bytes, end, cut.Read(), After(st, l)) && last.Some? && last.value.kind == l.kind
    ensures Synced(bytes, end, cut, last, After(st, l))
  {
  }

  lemma SkipSynced(bytes: string, pos: nat, cut: Cut, last: Option<Token>, st: LexState, l: Lexeme)
    requires pos <= |bytes| && Synced(bytes, pos, cut, last, st)
    requires !IsSignificant(l.kind) && Reads(bytes[pos..], st, l)
    requires Skipped(cut, l).Read() == cut.Read() + [l]
    ensures pos + |l.text| <= |bytes| && Synced(bytes, pos + |l.text|, Skipped(cut, l), last, After(st, l))
  {
    ReadOn(bytes, pos, cut.Read(), st, l);
  }

  lemma ValueState(st: LexState, l: Lexeme)
    requires l.kind == String || l.kind == MultilineString || l.kind == Dot || l.kind == Other
    ensures After(st, l) == LexState(st.frames, false, false)
  {
  }

  function AfterNewline(frames: seq<Frame>, atStart: bool, expecting: bool): LexState {
    if frames == [] then LexState([], true, false) else LexState(Kinds(frames), atStart, expecting)
  }

  class Scanner {
    const bytes: string
    const limits: Limits
    var frames: seq<Frame>
    var previous: Option<Token>
    var last: Option<Token>
    var pending: Option<Pending>
    var suppressed: Option<nat>
    var nextFrameId: nat
    var atStart: bool
    var expecting: bool
    var commented: bool
    var hasError: bool
    var omitted: bool
    var stopped: bool
    var candidates: seq<Candidate>
    var diagnostics: seq<Diagnostic>
    var tokens: nat
    ghost var cut: Cut

    ghost predicate Recording()
      reads this`hasError, this`diagnostics, this`stopped, this`suppressed, this`candidates
    {
      && (hasError <==> diagnostics != [])
      && (stopped ==> hasError) && (suppressed.Some? ==> hasError)
      && |candidates| <= limits.maxRewrites
    }

    ghost predicate Valid()
      reads this`hasError, this`diagnostics, this`stopped, this`suppressed, this`candidates, this`frames,
            this`nextFrameId, this`cut, this`last, this`previous, this`pending, this`commented
    {
      && Recording() && Distinct(frames, nextFrameId)
      && (!hasError ==> Tracked(cut, last, previous, pending, commented, candidates))
    }

    ghost function State(): LexState
      reads this`frames, this`atStart, this`expecting
    {
      LexState(Kinds(frames), atStart, expecting)
    }

    /** As long as nothing is wrong, everything before `pos` has been read and cut. */
    ghost predicate At(pos: nat)
      reads this`hasError, this`cut, this`last, this`frames, this`atStart, this`expecting
    {
      pos <= |bytes| && (!hasError ==> Synced(bytes, pos, cut, last, State()))
    }

    constructor (bytes: string, limits: Limits)
      ensures this.bytes == bytes && this.limits == limits
      ensures Valid() && At(0) && !hasError && candidates == []
    {
      this.bytes, this.limits := bytes, limits;
      frames, previous, last, pending, suppressed := [], None, None, None, None;
      nextFrameId, atStart, expecting, commented := 1, true, false, false;
      hasError, omitted, stopped := false, false, false;
      candidates, diagnostics, tokens := [], [], 0;
      cut := Cut([], NoTail);
    }

    method AddDiagnostic(code: Code, primary: Span)
      requires Recording()
      modifies this`hasError, this`diagnostics, this`omitted
      ensures Recording() && hasError
    {
      hasError := true;
      var limit := if limits.maxDiagnostics > 1 then limits.maxDiagnostics else 1;
      if |diagnostics| < limit {
        diagnostics := diagnostics + [Diagnostic(code, primary, false)];
      } else if !omitted {
        diagnostics := diagnostics[..|diagnostics| - 1] + [Diagnostic(DiagnosticsOmitted, primary, true)];
        omitted := true;
      }
    }

    method ConfirmCandidate()
      requires Recording() && pending.Some?
      modifies this`hasError, this`diagnostics, this`omitted, this`candidates, this`pending
      ensures Recording() && pending.None? && (old(hasError) ==> hasError)
      ensures !hasError ==> candidates == old(candidates) + [Candidate(old(pending).value.Found(), old(pending).value.frame)]
    {
      if |candidates| >= limits.maxRewrites {
        AddDiagnostic(ResourceLimit, pending.value.arrow);
        pending := None;
      } else {
        candidates := candidates + [Candidate(pending.value.Found(), pending.value.frame)];
        pending := None;
      }
    }

    /** The automaton's reaction to a token, before the token becomes the last one. */
    method HandlePending(token: Token, ghost l: Lexeme)
      requires Recording() && Distinct(frames, nextFrameId)
      requires !hasError ==> Tracked(cut, last, previous, pending, commented, candidates) && Arrives(cut, frames, last, token, l)
      modifies this`hasError, this`diagnostics, this`omitted, this`candidates, this`pending, this`suppressed, this`cut
      ensures Recording() && (old(hasError) ==> hasError)
      ensures !hasError ==> Tracked(cut, Some(token), last, pending, false, candidates)
      ensures !hasError ==> cut.Read() == old(cut.Read()) + [l]
    {
      if suppressed.Some? && token.kind == Arrow && token.frame == suppressed.value {
        return;
      }
      if suppressed.Some? && (token.kind == Comma || token.kind == CloseArray) && token.frame == suppressed.value {
        suppressed := None;
      }
      if pending.Some? {
        if pending.value.stage == WaitingTarget {
          AcceptTarget(token, l);
        } else {
          AcceptDelimiter(token, l);
        }
        return;
      }
      if token.kind != Arrow {
        if !hasError {
          Advance(token, l, None, candidates);
        }
        return;
      }
      AcceptArrow(token, l);
    }

    /** History only: the token starts no arrow rule and belongs to none. */
    ghost method Advance(token: Token, l: Lexeme, was: Option<Pending>, had: seq<Candidate>)
      requires Tracked(cut, last, previous, was, commented, had) && !cut.tail.Arrowed?
      requires Arrives(cut, frames, last, token, l) && l.kind != Arrow
      requires SitesFound(had, was) == SitesSeen(candidates)
      modifies this`cut
      ensures Tracked(cut, Some(token), last, None, false, candidates)
      ensures cut.Read() == old(cut.Read()) + [l]
    {
      var ps := Flush(cut, last, previous, was, commented, had);
      AdvanceTracked(ps, last, candidates, l, token);
      cut := Advanced(ps, l);
    }

    method AcceptTarget(token: Token, ghost l: Lexeme)
      requires Recording() && pending.Some? && pending.value.stage == WaitingTarget
      requires !hasError ==> Tracked(cut, last, previous, pending, commented, candidates) && Arrives(cut, frames, last, token, l)
      modifies this`hasError, this`diagnostics, this`omitted, this`pending, this`cut
      ensures Recording() && (old(hasError) ==> hasError)
      ensures !hasError ==> Tracked(cut, Some(token), last, pending, false, candidates)
      ensures !hasError ==> cut.Read() == old(cut.Read()) + [l]
    {
      if token.kind == String && token.frame == pending.value.frame {
        if !hasError {
          CompleteTracked(cut, last, previous, pending.value, commented, candidates, l, token);
          cut := Completed(cut, l);
        }
        pending := Some(pending.value.(target := token.span, stage := WaitingDelimiter));
        return;
      }
      AddDiagnostic(ArrowOperand, token.span);
      pending := None;
    }

    method AcceptDelimiter(token: Token, ghost l: Lexeme)
      requires Recording() && pending.Some? && pending.value.stage == WaitingDelimiter
      requires !hasError ==> Tracked(cut, last, previous, pending, commented, candidates) && Arrives(cut, frames, last, token, l)
      modifies this`hasError, this`diagnostics, this`omitted, this`candidates, this`pending, this`suppressed, this`cut
      ensures Recording() && (old(hasError) ==> hasError)
      ensures !hasError ==> Tracked(cut, Some(token), last, pending, false, candidates)
      ensures !hasError ==> cut.Read() == old(cut.Read()) + [l]
    {
      if (token.kind == Comma || token.kind == CloseArray) && token.frame == pending.value.frame {
        ghost var was, had := pending, candidates;
        ConfirmCandidate();
        if !hasError {
          ConfirmedSites(had, was.value);
          Advance(token, l, was, had);
        }
        return;
      }
      if token.kind == Arrow {
        AddDiagnostic(ArrowChained, token.span);
      } else if token.kind == String || token.kind == MultilineString {
        AddDiagnostic(ArrowMissingComma, token.span);
        suppressed := Some(pending.value.frame);
      } else {
        AddDiagnostic(ArrowContext, token.span);
      }
      pending := None;
    }

    method AcceptArrow(token: Token, ghost l: Lexeme)
      requires Recording() && Distinct(frames, nextFrameId) && pending.None? && token.kind == Arrow
      requires !hasError ==> Tracked(cut, last, previous, pending, commented, candidates) && Arrives(cut, frames, last, token, l)
      modifies this`hasError, this`diagnostics, this`omitted, this`pending, this`cut
      ensures Recording() && (old(hasError) ==> hasError)
      ensures !hasError ==> Tracked(cut, Some(token), last, pending, false, candidates)
      ensures !hasError ==> cut.Read() == old(cut.Read()) + [l]
    {
      if last.None? || last.value.kind != String {
        AddDiagnostic(ArrowOperand, token.span);
        return;
      }
      if commented {
        AddDiagnostic(ArrowCommentInside, token.span);
        return;
      }
      if previous.None? || (previous.value.kind != OpenArray && previous.value.kind != Comma)
         || previous.value.frame != last.value.frame || last.value.frame != token.frame
         || !IsValueArrayFrame(frames, token.frame) {
        AddDiagnostic(ArrowContext, token.span);
        return;
      }
      if !hasError {
        CurrentIsTop(frames, nextFrameId, AfterAll(INITIAL, cut.Read()));
        PointTracked(cut, last, previous, candidates, l, token);
        cut := Pointed(cut, l);
      }
      pending := Some(Pending(WaitingTarget, last.value.span, token.span, Span(0, 0), token.frame));
    }

    method Emit(token: Token, ghost l: Lexeme)
      requires Valid() && (!hasError ==> Arrives(cut, frames, last, token, l))
      modifies this`hasError, this`diagnostics, this`omitted, this`candidates, this`pending, this`suppressed, this`cut,
               this`stopped, this`tokens, this`previous, this`last, this`commented
      ensures Valid() && (old(hasError) ==> hasError)
      ensures !hasError ==> cut.Read() == old(cut.Read()) + [l] && last == Some(token)
    {
      hide Tracked, Arrives;
      if stopped {
        return;
      }
      if tokens >= limits.maxTokens {
        AddDiagnostic(ResourceLimit, token.span);
        stopped := true;
        return;
      }
      tokens := tokens + 1;
      Accept(token, l);
    }

    method Accept(token: Token, ghost l: Lexeme)
      requires Recording() && Distinct(frames, nextFrameId)
      requires !hasError ==> Tracked(cut, last, previous, pending, commented, candidates)
      requires !hasError ==> Arrives(cut, frames, last, token, l)
      modifies this`hasError, this`diagnostics, this`omitted, this`candidates, this`pending, this`suppressed, this`cut,
               this`previous, this`last, this`commented
      ensures Recording() && (old(hasError) ==> hasError)
      ensures !hasError ==> Tracked(cut, last, previous, pending, commented, candidates)
      ensures !hasError ==> cut.Read() == old(cut.Read()) + [l] && last == Some(token)
    {
      hide Tracked, Arrives;
      HandlePending(token, l);
      previous := last;
      last := Some(token);
      commented := false;
    }

    /** Passes a token on, as it leads from one lexer state to the next. Emit looks at neither
        of the two flags, so the callers below set them first. */
    method Pass(kind: Kind, begin: nat, end: nat, frame: nat, ghost st: LexState, ghost next: LexState)
      requires Valid() && begin < end <= |bytes| && IsSignificant(kind)
      requires kind == Arrow ==> frame == FrameId(frames) && st.frames == Kinds(frames)
      requires !hasError ==> Synced(bytes, begin, cut, last, st)
      requires Reads(bytes[begin..], st, Lexeme(kind, bytes[begin..end]))
      requires next == After(st, Lexeme(kind, bytes[begin..end]))
      modifies this`hasError, this`diagnostics, this`omitted, this`candidates, this`pending, this`suppressed, this`cut,
               this`stopped, this`tokens, this`previous, this`last, this`commented
      ensures Valid() && (old(hasError) ==> hasError)
      ensures !hasError ==> Synced(bytes, end, cut, last, next)
    {
      hide Tracked, Reads, After, Distinct;
      ghost var l := Lexeme(kind, bytes[begin..end]);
      if !hasError {
        ReadOn(bytes, begin, cut.Read(), st, l);
      }
      Emit(Token(kind, Span(begin, end), frame), l);
      if !hasError {
        AfterToken(bytes, end, cut, last, st, l);
      }
    }

    /** History only: a blank or a comment was read. */
    ghost method Skip(l: Lexeme, begin: nat, st: LexState, was: bool)
      requires begin <= |bytes|
      requires Tracked(cut, last, previous, pending, was, candidates) && Synced(bytes, begin, cut, last, st)
      requires !IsSignificant(l.kind) && Reads(bytes[begin..], st, l)
      requires pending.Some? && pending.value.stage == WaitingTarget ==> IsBlank(l.kind)
      requires was || (l.kind == Comment && pending.None?) ==> commented
      modifies this`cut
      ensures Tracked(cut, last, previous, pending, commented, candidates)
      ensures begin + |l.text| <= |bytes| && Synced(bytes, begin + |l.text|, cut, last, After(st, l))
    {
      hide Synced, Reads;
      SkipTracked(cut, last, previous, pending, was, candidates, l, commented);
      SkipSynced(bytes, begin, cut, last, st, l);
      cut := Skipped(cut, l);
    }

    method StepSpace(offset: nat) returns (next: nat)
      requires Valid() && At(offset) && offset < |bytes| && IsHorizontalSpace(bytes[offset])
      modifies this`cut
      ensures Valid() && next == offset + 1 && At(next)
    {
      hide Tracked, Synced, Reads;
      next := offset + 1;
      if !hasError {
        SpaceReads(bytes, offset, State());
        Skip(Lexeme(Space, bytes[offset..next]), offset, State(), commented);
      }
    }

    method StepNewline(offset: nat) returns (next: nat)
      requires Valid() && At(offset) && offset < |bytes| && IsNewline(bytes[offset])
      modifies this`cut, this`atStart, this`expecting
      ensures Valid() && offset < next && At(next)
    {
      hide Tracked, Synced, Reads;
      if bytes[offset] == '\r' && offset + 1 < |bytes| && bytes[offset + 1] == '\n' {
        next := offset + 2;
      } else {
        next := offset + 1;
      }
      NewlineReads(bytes, offset, next, State());
      SkipNewline(offset, next);
      if frames == [] {
        atStart, expecting := true, false;
        assert Kinds(frames) == [];
      }
    }

    ghost method SkipNewline(begin: nat, end: nat)
      requires Valid() && At(begin) && begin < end <= |bytes|
      requires Reads(bytes[begin..], State(), Lexeme(Newline, bytes[begin..end]))
      modifies this`cut
      ensures Valid()
      ensures !hasError ==> Synced(bytes, end, cut, last, AfterNewline(frames, atStart, expecting))
    {
      hide Tracked, Synced, Reads;
      if !hasError {
        var l := Lexeme(Newline, bytes[begin..end]);
        assert After(State(), l) == AfterNewline(frames, atStart, expecting);
        Skip(l, begin, State(), commented);
      }
    }

    method HandleComment(offset: nat)
      requires Recording()
      modifies this`hasError, this`diagnostics, this`omitted, this`pending, this`commented
      ensures Recording() && (old(hasError) ==> hasError)
      ensures !hasError ==> pending == old(pending)
      ensures !hasError && pending.Some? ==> pending.value.stage != WaitingTarget && commented == old(commented)
      ensures !hasError && pending.None? ==> commented
    {
      if pending.Some? && pending.value.stage == WaitingTarget {
        AddDiagnostic(ArrowCommentInside, Span(offset, offset + 1));
        pending := None;
      } else if pending.None? || pending.value.stage != WaitingDelimiter {
        commented := true;
      }
    }

    method StepComment(offset: nat) returns (next: nat)
      requires Valid() && At(offset) && offset < |bytes| && bytes[offset] == '#'
      modifies this`cut, this`hasError, this`diagnostics, this`omitted, this`pending, this`commented
      ensures Valid() && offset < next && At(next) && (old(hasError) ==> hasError)
    {
      hide Tracked, Synced, Reads;
      ghost var was := commented;
      HandleComment(offset);
      next := ScanComment(bytes, offset);
      CommentReads(bytes, offset, next, State());
      SkipComment(offset, next, was);
    }

    ghost method SkipComment(begin: nat, end: nat, was: bool)
      requires Recording() && Distinct(frames, nextFrameId) && At(begin) && begin < end <= |bytes|
      requires !hasError ==> Tracked(cut, last, previous, pending, was, candidates)
      requires !hasError && pending.Some? ==> pending.value.stage != WaitingTarget && commented == was
      requires !hasError && pending.None? ==> commented
      requires Reads(bytes[begin..], State(), Lexeme(Comment, bytes[begin..end]))
      modifies this`cut
      ensures Valid() && At(end)
    {
      hide Tracked, Synced, Reads;
      if !hasError {
        Skip(Lexeme(Comment, bytes[begin..end]), begin, State(), was);
      }
    }

    method StepString(offset: nat) returns (next: nat)
      requires Valid() && At(offset) && offset < |bytes| && IsQuote(bytes[offset])
      modifies this
      ensures Valid() && offset < next && At(next) && (old(hasError) ==> hasError)
    {
      var token := ScanStringToken(bytes, offset);
      next := token.end;
      if next - offset > limits.maxStringBytes {
        AddDiagnostic(ResourceLimit, Span(offset, next));
        stopped := true;
        return;
      }
      if !token.terminated {
        AddDiagnostic(ArrowStringBoundary, Span(offset, next));
        stopped := true;
        return;
      }
      StringReads(bytes, offset, token, State());
      PassValue(if token.multiline then MultilineString else String, offset, next);
    }

    /** A string, a dot or a bare word ends the wait for a value and the start of a statement. */
    method PassValue(kind: Kind, offset: nat, end: nat)
      requires Valid() && At(offset) && offset < end <= |bytes|
      requires kind == String || kind == MultilineString || kind == Dot || kind == Other
      requires Reads(bytes[offset..], State(), Lexeme(kind, bytes[offset..end]))
      modifies this
      ensures Valid() && At(end) && (old(hasError) ==> hasError)
    {
      hide Tracked, Synced, Reads;
      ghost var st, st' := State(), LexState(Kinds(frames), false, false);
      ValueState(st, Lexeme(kind, bytes[offset..end]));
      expecting, atStart := false, false;
      Pass(kind, offset, end, FrameId(frames), st, st');
    }

    method StepArrow(offset: nat) returns (next: nat)
      requires Valid() && At(offset) && offset + 1 < |bytes| && bytes[offset] == '-' && bytes[offset + 1] == '>'
      modifies this
      ensures Valid() && offset < next && At(next) && (old(hasError) ==> hasError)
    {
      hide Tracked, Synced, Reads;
      next := offset + 2;
      ArrowReads(bytes, offset, State());
      Pass(Arrow, offset, next, FrameId(frames), State(), State());
    }

    /** Depth is limited; every frame gets a number of its own. */
    method PushFrame(kind: FrameKind, offset: nat) returns (pushed: bool)
      requires Valid()
      modifies this`frames, this`nextFrameId, this`hasError, this`diagnostics, this`omitted, this`stopped
      ensures Valid() && (old(hasError) ==> hasError)
      ensures pushed ==> frames == old(frames) + [Frame(kind, old(nextFrameId))] && hasError == old(hasError)
      ensures !pushed ==> hasError && stopped
    {
      if |frames| >= limits.maxContainerDepth {
        AddDiagnostic(ResourceLimit, Span(offset, offset + 1));
        stopped := true;
        return false;
      }
      frames := frames + [Frame(kind, nextFrameId)];
      nextFrameId := nextFrameId + 1;
      return true;
    }

    method StepOpenArray(offset: nat) returns (next: nat)
      requires Valid() && At(offset) && offset < |bytes| && bytes[offset] == '['
      modifies this
      ensures Valid() && offset < next && At(next) && (old(hasError) ==> hasError)
    {
      var arrayTable := frames == [] && atStart && !expecting && offset + 1 < |bytes| && bytes[offset + 1] == '[';
      var kind, width := UnknownBracket, 1;
      if arrayTable {
        kind, width := ArrayTableHeader, 2;
      } else if frames == [] && atStart && !expecting {
        kind := TableHeader;
      } else if expecting {
        kind := ValueArray;
      }
      next := PassOpening(kind, offset, offset + width);
    }

    method PassOpening(kind: FrameKind, offset: nat, end: nat) returns (next: nat)
      requires Valid() && At(offset) && offset < end <= |bytes| && bytes[offset] == '['
      requires end == offset + OpenWidth(bytes[offset..], State()) && kind == OpenedFrame(State(), end - offset)
      modifies this
      ensures Valid() && offset < next && At(next) && (old(hasError) ==> hasError)
    {
      hide Tracked, Synced, Reads;
      ghost var st := State();
      OpenArrayReads(bytes, offset, end, st);
      var pushed := PushFrame(kind, offset);
      if !pushed {
        return |bytes|;
      }
      assert Kinds(frames) == st.frames + [kind];
      ghost var st' := LexState(Kinds(frames), false, kind == ValueArray);
      expecting, atStart := kind == ValueArray, false;
      Pass(OpenArray, offset, end, FrameId(frames), st, st');
      return end;
    }

    method StepCloseArray(offset: nat) returns (next: nat)
      requires Valid() && At(offset) && offset < |bytes| && bytes[offset] == ']'
      modifies this
      ensures Valid() && offset < next && At(next) && (old(hasError) ==> hasError)
    {
      var width := 1;
      if frames != [] && frames[|frames| - 1].kind == ArrayTableHeader
         && offset + 1 < |bytes| && bytes[offset + 1] == ']' {
        width := 2;
      }
      next := offset + width;
      CloseArrayReads(bytes, offset, next, State());
      PassClosing(CloseArray, offset, next);
    }

    method StepCloseBrace(offset: nat)
      requires Valid() && At(offset) && offset < |bytes| && bytes[offset] == '}'
      modifies this
      ensures Valid() && At(offset + 1) && (old(hasError) ==> hasError)
    {
      PunctuationReads(bytes, offset, State());
      PassClosing(CloseInlineTable, offset, offset + 1);
    }

    /** A closing token belongs to the frame it closes; one that fits no open frame is passed on alone. */
    method PassClosing(kind: Kind, offset: nat, end: nat)
      requires Valid() && At(offset) && offset < end <= |bytes|
      requires kind == CloseArray || kind == CloseInlineTable
      requires Reads(bytes[offset..], State(), Lexeme(kind, bytes[offset..end]))
      modifies this
      ensures Valid() && At(end) && (old(hasError) ==> hasError)
    {
      hide Tracked, Synced, Reads;
      ghost var st, st' := State(), State().Popped(kind == CloseArray);
      expecting := false;
      Pass(kind, offset, end, FrameId(frames), st, st');
      PopClosed(kind == CloseArray, st);
    }

    method PopClosed(bracket: bool, ghost st: LexState)
      requires Valid() && !expecting && st.frames == Kinds(frames) && st.atStart == atStart
      modifies this`frames
      ensures Valid() && State() == st.Popped(bracket)
    {
      if frames != [] && ClosesWithBracket(frames[|frames| - 1].kind) == bracket {
        PopFrame();
      }
    }

    method PopFrame()
      requires Valid() && frames != []
      modifies this`frames
      ensures Valid() && frames == old(frames)[..|old(frames)| - 1]
      ensures Kinds(frames) == old(Kinds(frames))[..|old(frames)| - 1]
    {
      frames := frames[..|frames| - 1];
    }

    method StepOpenBrace(offset: nat)
      requires Valid() && At(offset) && offset < |bytes| && bytes[offset] == '{'
      modifies this
      ensures Valid() && At(offset + 1) && (old(hasError) ==> hasError)
    {
      hide Tracked, Synced, Reads;
      ghost var st := State();
      PunctuationReads(bytes, offset, st);
      var kind := if expecting then InlineTable else UnknownBrace;
      var pushed := PushFrame(kind, offset);
      if !pushed {
        return;
      }
      assert Kinds(frames) == st.frames + [kind];
      ghost var st' := LexState(Kinds(frames), false, false);
      expecting, atStart := false, false;
      Pass(OpenInlineTable, offset, offset + 1, FrameId(frames), st, st');
    }

    method StepEquals(offset: nat)
      requires Valid() && At(offset) && offset < |bytes| && bytes[offset] == '='
      modifies this
      ensures Valid() && At(offset + 1) && (old(hasError) ==> hasError)
    {
      hide Tracked, Synced, Reads;
      ghost var st, st' := State(), LexState(Kinds(frames), false, true);
      PunctuationReads(bytes, offset, st);
      expecting, atStart := true, false;
      Pass(Equals, offset, offset + 1, FrameId(frames), st, st');
    }

    method StepComma(offset: nat)
      requires Valid() && At(offset) && offset < |bytes| && bytes[offset] == ','
      modifies this
      ensures Valid() && At(offset + 1) && (old(hasError) ==> hasError)
    {
      hide Tracked, Synced, Reads;
      ghost var st := State();
      PunctuationReads(bytes, offset, st);
      expecting := frames != [] && frames[|frames| - 1].kind == ValueArray;
      Pass(Comma, offset, offset + 1, FrameId(frames), st, st.(expecting := expecting));
    }

    method StepWord(offset: nat) returns (next: nat)
      requires Valid() && At(offset) && offset < |bytes| && StartsWord(bytes[offset..])
      modifies this
      ensures Valid() && offset < next && At(next) && (old(hasError) ==> hasError)
    {
      next := ScanBare(bytes, offset);
      WordReads(bytes, offset, next, State());
      PassValue(Other, offset, next);
    }

    /** One round of the cursor loop for a byte that is neither blank nor part of a comment. */
    method StepToken(offset: nat) returns (next: nat)
      requires Valid() && At(offset) && offset < |bytes|
      requires !IsHorizontalSpace(bytes[offset]) && !IsNewline(bytes[offset]) && bytes[offset] != '#'
      modifies this
      ensures Valid() && offset < next && At(next) && (old(hasError) ==> hasError)
    {
      hide Valid, At;
      var value := bytes[offset];
      if IsQuote(value) {
        next := StepString(offset);
      } else if value == '-' && offset + 1 < |bytes| && bytes[offset + 1] == '>' {
        next := StepArrow(offset);
      } else if value == '[' {
        next := StepOpenArray(offset);
      } else if value == ']' {
        next := StepCloseArray(offset);
      } else {
        next := StepMark(offset);
      }
    }

    method StepMark(offset: nat) returns (next: nat)
      requires Valid() && At(offset) && offset < |bytes|
      requires IsPunctuation(bytes[offset]) || StartsWord(bytes[offset..])
      modifies this
      ensures Valid() && offset < next && At(next) && (old(hasError) ==> hasError)
    {
      hide Valid, At;
      var value := bytes[offset];
      if value == '{' {
        StepOpenBrace(offset);
        next := offset + 1;
      } else if value == '}' {
        StepCloseBrace(offset);
        next := offset + 1;
      } else if value == '=' {
        StepEquals(offset);
        next := offset + 1;
      } else if value == ',' {
        StepComma(offset);
        next := offset + 1;
      } else if value == '.' {
        next := offset + 1;
        PunctuationReads(bytes, offset, State());
        PassValue(Dot, offset, next);
      } else {
        next := StepWord(offset);
      }
    }

    method FinishAtEof()
      requires Valid()
      modifies this`hasError, this`diagnostics, this`omitted, this`candidates, this`pending
      ensures Recording() && (old(hasError) ==> hasError)
      ensures !hasError ==> !cut.tail.Arrowed? && SitesSeen(candidates) == SitesFound(old(candidates), old(pending))
    {
      if pending.None? {
        return;
      }
      if pending.value.stage == WaitingTarget {
        AddDiagnostic(ArrowOperand, pending.value.arrow);
        pending := None;
        return;
      }
      ghost var had, q := candidates, pending.value;
      ConfirmCandidate();
      ConfirmedSites(had, q);
    }

    method Loop() returns (consumed: nat)
      requires Valid() && At(0)
      modifies this
      ensures Valid() && At(consumed) && (!hasError ==> consumed == |bytes|)
    {
      hide Tracked, Synced, Reads;
      consumed := 0;
      while consumed < |bytes| && !stopped
        invariant Valid() && At(consumed)
        decreases |bytes| - consumed
      {
        var value := bytes[consumed];
        if IsHorizontalSpace(value) {
          consumed := StepSpace(consumed);
        } else if IsNewline(value) {
          consumed := StepNewline(consumed);
        } else if value == '#' {
          consumed := StepComment(consumed);
        } else {
          consumed := StepToken(consumed);
        }
      }
    }
  }

  datatype ScanResult = ScanResult(
    candidates: seq<Candidate>, diagnostics: seq<Diagnostic>, consumed: nat, tokens: nat, openFrames: nat)

  /** What a scan without diagnostics found: the source read to its end as one lexical
      sequence, cut at exactly the arrow rules that are reported. */
  ghost predicate CutsInto(bytes: string, candidates: seq<Candidate>, ps: seq<Piece>) {
    && Text(Flatten(ps)) == bytes && Lexes(Flatten(ps), "", INITIAL) && Sound(ps)
    && SitesSeen(candidates) == Sites(ps, 0)
  }

  /** MAIN RESULT. A clean scan has consumed everything and misses no arrow. */
  method ScanArrowCandidates(bytes: string, limits: Limits) returns (r: ScanResult, ghost ps: seq<Piece>)
    ensures r.diagnostics == [] ==> r.consumed == |bytes| && CutsInto(bytes, r.candidates, ps)
    ensures r.diagnostics != [] ==> r.candidates == []
    ensures |r.candidates| <= limits.maxRewrites
  {
    var scanner := new Scanner(bytes, limits);
    var consumed := scanner.Loop();
    ghost var cut, last, previous, pending, commented, candidates :=
      scanner.cut, scanner.last, scanner.previous, scanner.pending, scanner.commented, scanner.candidates;
    var openFrames := |scanner.frames|;
    scanner.FinishAtEof();
    ps := [];
    if !scanner.hasError {
      ps := Flush(cut, last, previous, pending, commented, candidates);
      assert bytes[..|bytes|] == bytes && bytes[|bytes|..] == "";
    }
    r := ScanResult(if scanner.hasError then [] else scanner.candidates,
                    scanner.diagnostics, consumed, scanner.tokens, openFrames);
  }
}
