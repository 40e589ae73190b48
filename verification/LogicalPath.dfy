/** NormalizeLogicalPath and ExpandPathPlaceholders of core/src/path.cpp. */
module LogicalPath {
  import opened Wrappers
  import opened Separated

  const MAX_PATH := 4095
  const MAX_COMPONENT := 255

  predicate IsComponent(c: string) { c != "" && |c| <= MAX_COMPONENT && c != "." && c != ".." }

  /** A relative path of proper components. */
  predicate IsLogical(p: string) {
    && p != "" && p[0] != '/' && |p| <= MAX_PATH && '\0' !in p
    && AreComponents(Split(p, '/'))
  }

  predicate AreComponents(parts: seq<string>) { forall c :: c in parts ==> IsComponent(c) }

  /** Normalisation leaves a proper path as it is and rejects every other. */
  method NormalizeLogicalPath(input: string) returns (r: Option<string>)
    ensures r == if IsLogical(input) then Some(input) else None
  {
    if input == "" || input[0] == '/' || |input| > MAX_PATH || '\0' in input {
      return None;
    }
    var parts := SplitAndValidate(input);
    if parts.None? {
      return None;
    }
    var output := parts.value[0];
    assert output == Join(parts.value[..1], '/');
    for i := 1 to |parts.value|
      invariant output == Join(parts.value[..i], '/')
    {
      JoinAppend(parts.value[..i], parts.value[i], '/');
      assert parts.value[..i + 1] == parts.value[..i] + [parts.value[i]];
      output := output + "/" + parts.value[i];
    }
    assert parts.value[..|parts.value|] == parts.value;
    JoinSplit(input, '/');
    return Some(output);
  }

  lemma {:induction false} JoinAppend(pieces: seq<string>, p: string, sep: char)
    requires pieces != []
    ensures Join(pieces + [p], sep) == Join(pieces, sep) + [sep] + p
  {
    if |pieces| == 1 {
      assert pieces + [p] == [pieces[0], p] && (pieces + [p])[1..] == [p];
    } else {
      JoinAppend(pieces[1..], p, sep);
      assert (pieces + [p])[1..] == pieces[1..] + [p];
      var a, b := pieces[0] + [sep], Join(pieces[1..], sep);
      assert a + (b + [sep] + p) == a + b + [sep] + p;
    }
  }

  method SplitAndValidate(input: string) returns (parts: Option<seq<string>>)
    ensures parts == if AreComponents(Split(input, '/')) then Some(Split(input, '/')) else None
  {
    hide Split, PieceEnd;
    var start := 0;
    var found: seq<string> := [];
    assert input[0..] == input;
    while true
      invariant start <= |input|
      invariant Split(input, '/') == found + Split(input[start..], '/')
      invariant AreComponents(found)
      decreases |input| - start
    {
      var end := FindSeparator(input, '/', start);
      SplitAtPiece(input[start..], '/');
      var part := input[start..end];
      assert input[start..][..end - start] == part;
      assert end < |input| ==> input[start..][end - start + 1..] == input[end + 1..];
      assert part in Split(input, '/');
      if !IsComponent(part) {
        return None;
      }
      found := found + [part];
      if end == |input| {
        assert Split(input, '/') == found;
        return Some(found);
      }
      start := end + 1;
    }
  }

  // -------------------------------------------------------------- placeholders

  const PACKAGE := "{package}"
  const USER := "{user}"

  predicate IsPlainPackage(package: string) {
    package != "" && forall c :: c in package ==>
      c != '/' && c != '{' && c != '}' && c != ' ' && c != '\t' && c != '\r' && c != '\n'
  }

  predicate StartsWith(s: string, prefix: string) { |s| >= |prefix| && s[..|prefix|] == prefix }

  /** Every `{package}` replaced, from left to right. */
  function Filled(s: string, package: string): string {
    if s == "" then ""
    else if StartsWith(s, PACKAGE) then package + Filled(s[|PACKAGE|..], package)
    else [s[0]] + Filled(s[1..], package)
  }

  /** No brace stands outside a `{user}`. */
  predicate BracesFit(s: string) {
    if s == "" then true
    else if s[0] == '}' then false
    else if s[0] == '{' then StartsWith(s, USER) && BracesFit(s[|USER|..])
    else BracesFit(s[1..])
  }

  function Expanded(s: string, package: string): Option<string> {
    if !IsPlainPackage(package) then None
    else if BracesFit(Filled(s, package)) then Some(Filled(s, package))
    else None
  }

  method ExpandPathPlaceholders(input: string, package: string) returns (r: Option<string>)
    ensures r == Expanded(input, package)
  {
    if !IsPlainPackage(package) {
      return None;
    }
    var output := "";
    var offset := 0;
    assert input[0..] == input;
    while offset < |input|
      invariant offset <= |input| && Filled(input, package) == output + Filled(input[offset..], package)
    {
      if offset + |PACKAGE| <= |input| && input[offset..offset + |PACKAGE|] == PACKAGE {
        assert input[offset..][|PACKAGE|..] == input[offset + |PACKAGE|..];
        assert output + (package + Filled(input[offset + |PACKAGE|..], package))
            == (output + package) + Filled(input[offset + |PACKAGE|..], package);
        output := output + package;
        offset := offset + |PACKAGE|;
      } else {
        assert input[offset..][1..] == input[offset + 1..];
        output := output + [input[offset]];
        offset := offset + 1;
      }
    }
    assert input[offset..] == "" && output + "" == output;
    var fits := CheckBraces(output);
    return if fits then Some(output) else None;
  }

  method CheckBraces(s: string) returns (fits: bool)
    ensures fits == BracesFit(s)
  {
    var offset := 0;
    assert s[0..] == s;
    while offset < |s|
      invariant offset <= |s| && BracesFit(s) == BracesFit(s[offset..])
    {
      if s[offset] == '}' {
        return false;
      }
      if s[offset] == '{' {
        if offset + |USER| > |s| || s[offset..offset + |USER|] != USER {
          return false;
        }
        assert s[offset..][|USER|..] == s[offset + |USER|..];
        offset := offset + |USER|;
      } else {
        assert s[offset..][1..] == s[offset + 1..];
        offset := offset + 1;
      }
    }
    return true;
  }

  /** A text whose braces fit has no `{package}` left to fill. */
  lemma {:induction false} FilledTwice(s: string, package: string)
    requires BracesFit(s)
    ensures Filled(s, package) == s
  {
    if s != "" {
      if s[0] == '{' {
        assert s[1] == USER[1] == 'u' && PACKAGE[1] == 'p';
        assert !StartsWith(s, PACKAGE);
        SixLetters(s, package);
        FilledTwice(s[|USER|..], package);
        assert s == USER + s[|USER|..];
      } else {
        FilledTwice(s[1..], package);
      }
    }
  }

  /** The letters of `{user}` begin no `{package}`. */
  lemma SixLetters(s: string, package: string)
    requires StartsWith(s, USER)
    ensures Filled(s, package) == USER + Filled(s[|USER|..], package)
  {
    assert s[0] == '{' && s[1] == 'u' && s[2] == 's' && s[3] == 'e' && s[4] == 'r' && s[5] == '}';
    Letter(s, package);
    Letter(s[1..], package);
    Letter(s[2..], package);
    Letter(s[3..], package);
    Letter(s[4..], package);
    Letter(s[5..], package);
    assert s[1..][1..] == s[2..] && s[2..][1..] == s[3..] && s[3..][1..] == s[4..] && s[4..][1..] == s[5..];
    assert s[5..][1..] == s[6..];
    hide Filled;
    assert [s[0]] + ([s[1]] + ([s[2]] + ([s[3]] + ([s[4]] + ([s[5]] + Filled(s[6..], package))))))
        == USER + Filled(s[6..], package);
  }

  lemma Letter(s: string, package: string)
    requires s != "" && (s[0] != '{' || (|s| > 1 && s[1] != 'p'))
    ensures Filled(s, package) == [s[0]] + Filled(s[1..], package)
  {
    assert PACKAGE[0] == '{' && PACKAGE[1] == 'p';
  }

  /** What was expanded once stays as it is. */
  lemma ExpandedTwice(s: string, package: string)
    requires Expanded(s, package).Some?
    ensures Expanded(Expanded(s, package).value, package) == Expanded(s, package)
  {
    FilledTwice(Expanded(s, package).value, package);
  }
}
