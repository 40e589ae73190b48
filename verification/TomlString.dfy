/** Where a TOML string token ends: ScanStringToken in rules/src/arrow_scanner.cpp, against
    a reader that consumes escapes from left to right as the "String" section of
    TOML v1.0.0 describes the four string forms. */
module TomlString {

  predicate IsNewline(c: char) { c == '\r' || c == '\n' }

  predicate IsQuote(c: char) { c == '"' || c == '\'' }

  /** How far a token reaches, and whether its closing delimiter was found. */
  datatype Extent = Extent(length: nat, terminated: bool) {
    function After(n: nat): Extent { Extent(length + n, terminated) }
  }

  datatype StringToken = StringToken(end: nat, multiline: bool, terminated: bool)

  // ------------------------------------------------------------------ reader

  /** The rest of a one-line string. A basic string's backslash takes the next character
      with it, but no string of this form continues past a line break. */
  function ReadLine(s: string, quote: char): (r: Extent)
    ensures r.length <= |s|
    ensures r.terminated ==> r.length > 0 && s[r.length - 1] == quote
  {
    if s == "" || IsNewline(s[0]) then Extent(0, false)
    else if s[0] == quote then Extent(1, true)
    else if quote == '"' && s[0] == '\\' then
      if |s| == 1 || IsNewline(s[1]) then Extent(1, false) else ReadLine(s[2..], quote).After(2)
    else ReadLine(s[1..], quote).After(1)
  }

  function QuoteRun(s: string, quote: char): (n: nat)
    ensures n <= |s|
  {
    if s != "" && s[0] == quote then 1 + QuoteRun(s[1..], quote) else 0
  }

  function Min(a: nat, b: nat): nat { if a < b then a else b }

  /** The rest of a multi-line string: three quotes close it, and one or two more directly
      before the closing delimiter belong to the content. */
  function ReadMulti(s: string, quote: char): (r: Extent)
    ensures r.length <= |s|
    ensures r.terminated ==> r.length >= 3
  {
    if s == "" then Extent(0, false)
    else if s[0] == quote then
      if QuoteRun(s, quote) >= 3 then Extent(Min(QuoteRun(s, quote), 5), true)
      else ReadMulti(s[1..], quote).After(1)
    else if quote == '"' && s[0] == '\\' then
      if |s| == 1 then Extent(1, false) else ReadMulti(s[2..], quote).After(2)
    else ReadMulti(s[1..], quote).After(1)
  }

  predicate OpensMulti(s: string)
    requires s != ""
  {
    |s| > 2 && s[1] == s[0] && s[2] == s[0]
  }

  /** The token at the front of `s`. */
  function ReadString(s: string): (t: StringToken)
    requires s != ""
    ensures 0 < t.end <= |s|
  {
    if OpensMulti(s) then
      var r := ReadMulti(s[3..], s[0]).After(3);
      StringToken(r.length, true, r.terminated)
    else
      var r := ReadLine(s[1..], s[0]).After(1);
      StringToken(r.length, false, r.terminated)
  }

  // ----------------------------------------------------------------- scanner

  /** The scan over backslash runs: a quote is live when the run before it is even. */
  method ScanStringToken(bytes: string, start: nat) returns (t: StringToken)
    requires start < |bytes|
    ensures t == ReadString(bytes[start..]).(end := start + ReadString(bytes[start..]).end)
  {
    var quote := bytes[start];
    if start + 2 < |bytes| && bytes[start + 1] == quote && bytes[start + 2] == quote {
      var r := ScanMulti(bytes, start + 3, quote);
      assert bytes[start..][3..] == bytes[start + 3..];
      return StringToken(r.length, true, r.terminated);
    } else {
      var r := ScanLine(bytes, start + 1, quote);
      assert bytes[start..][1..] == bytes[start + 1..];
      return StringToken(r.length, false, r.terminated);
    }
  }

  /** What remains to be read when `run` backslashes end at `offset`: an odd run means the
      last of them opened an escape that is still to be completed. */
  ghost function LineFrom(bytes: string, offset: nat, quote: char, run: nat): Extent
    requires offset <= |bytes| && (run % 2 == 1 ==> offset > 0)
  {
    if run % 2 == 1 then ReadLine(bytes[offset - 1..], quote).After(offset - 1)
    else ReadLine(bytes[offset..], quote).After(offset)
  }

  ghost predicate Escaping(bytes: string, offset: nat, quote: char, run: nat) {
    run % 2 == 1 ==> 0 < offset <= |bytes| && quote == '"' && bytes[offset - 1] == '\\'
  }

  function NextRun(run: nat, quote: char, value: char): nat {
    if quote == '"' && value == '\\' then run + 1 else 0
  }

  /** One character of a one-line string, after a run of backslashes. */
  lemma LineStep(bytes: string, offset: nat, quote: char, run: nat)
    requires offset < |bytes| && Escaping(bytes, offset, quote, run)
    ensures var value, now := bytes[offset], LineFrom(bytes, offset, quote, run);
      if IsNewline(value) then now == Extent(offset, false)
      else if value == quote && run % 2 == 0 then now == Extent(offset + 1, true)
      else now == LineFrom(bytes, offset + 1, quote, NextRun(run, quote, value))
  {
    if run % 2 == 1 {
      var s := bytes[offset - 1..];
      assert s[0] == '\\' && s[1] == bytes[offset] && s[2..] == bytes[offset + 1..];
    } else {
      var s := bytes[offset..];
      assert s[0] == bytes[offset] && s[1..] == bytes[offset + 1..];
    }
  }

  lemma LineEnds(bytes: string, quote: char, run: nat)
    requires Escaping(bytes, |bytes|, quote, run)
    ensures LineFrom(bytes, |bytes|, quote, run) == Extent(|bytes|, false)
  {
    if run % 2 == 1 {
      assert |bytes[|bytes| - 1..]| == 1;
    }
  }

  method ScanLine(bytes: string, begin: nat, quote: char) returns (r: Extent)
    requires begin <= |bytes|
    ensures r == ReadLine(bytes[begin..], quote).After(begin)
  {
    hide ReadLine;
    var basic := quote == '"';
    var run := 0;
    var offset := begin;
    while offset < |bytes|
      invariant begin <= offset <= |bytes|
      invariant Escaping(bytes, offset, quote, run)
      invariant LineFrom(bytes, offset, quote, run) == ReadLine(bytes[begin..], quote).After(begin)
    {
      var value := bytes[offset];
      LineStep(bytes, offset, quote, run);
      if IsNewline(value) {
        return Extent(offset, false);
      }
      if value == quote && (!basic || run % 2 == 0) {
        return Extent(offset + 1, true);
      }
      if basic && value == '\\' {
        run := run + 1;
      } else {
        run := 0;
      }
      offset := offset + 1;
    }
    LineEnds(bytes, quote, run);
    return Extent(|bytes|, false);
  }

  ghost function MultiFrom(bytes: string, offset: nat, quote: char, run: nat): Extent
    requires offset <= |bytes| && (run % 2 == 1 ==> offset > 0)
  {
    if run % 2 == 1 then ReadMulti(bytes[offset - 1..], quote).After(offset - 1)
    else ReadMulti(bytes[offset..], quote).After(offset)
  }

  /** Quotes too few to close the string are content. */
  lemma {:induction false} ShortRun(s: string, quote: char)
    requires QuoteRun(s, quote) < 3
    ensures ReadMulti(s, quote) == ReadMulti(s[QuoteRun(s, quote)..], quote).After(QuoteRun(s, quote))
  {
    var n := QuoteRun(s, quote);
    if n == 0 {
      assert s[0..] == s;
    } else {
      ShortRun(s[1..], quote);
      assert s[1..][n - 1..] == s[n..];
    }
  }

  method CountQuotes(bytes: string, offset: nat, quote: char) returns (n: nat)
    requires offset <= |bytes|
    ensures n == QuoteRun(bytes[offset..], quote)
  {
    var end := offset;
    while end < |bytes| && bytes[end] == quote
      invariant offset <= end <= |bytes|
      invariant QuoteRun(bytes[offset..], quote) == end - offset + QuoteRun(bytes[end..], quote)
    {
      assert bytes[end..][1..] == bytes[end + 1..];
      end := end + 1;
    }
    return end - offset;
  }

  lemma MultiSkips(bytes: string, offset: nat, quote: char, run: nat)
    requires offset < |bytes| && bytes[offset] != quote && Escaping(bytes, offset, quote, run)
    ensures Escaping(bytes, offset + 1, quote, NextRun(run, quote, bytes[offset]))
    ensures MultiFrom(bytes, offset, quote, run)
         == MultiFrom(bytes, offset + 1, quote, NextRun(run, quote, bytes[offset]))
  {
    if run % 2 == 1 {
      var s := bytes[offset - 1..];
      assert s[0] == '\\' && s[2..] == bytes[offset + 1..];
    } else {
      var s := bytes[offset..];
      assert s[0] == bytes[offset] && s[1..] == bytes[offset + 1..];
    }
  }

  /** What a run of live quotes amounts to. */
  lemma QuotesRead(s: string, quote: char, count: nat)
    requires count == QuoteRun(s, quote)
    ensures ReadMulti(s, quote)
         == if count >= 3 then Extent(Min(count, 5), true) else ReadMulti(s[count..], quote).After(count)
  {
    if count < 3 {
      ShortRun(s, quote);
    }
  }

  /** A run of quotes, the first of which is spent when an escape is open. */
  lemma MultiQuotes(bytes: string, offset: nat, quote: char, run: nat, count: nat)
    requires offset < |bytes| && bytes[offset] == quote && Escaping(bytes, offset, quote, run)
    requires count == QuoteRun(bytes[offset..], quote)
    ensures var live := count - run % 2;
            && 0 <= live && 0 < count
            && MultiFrom(bytes, offset, quote, run)
            == if live >= 3 then Extent(offset + run % 2 + Min(live, 5), true)
               else MultiFrom(bytes, offset + count, quote, 0)
  {
    var rest := bytes[offset..];
    assert QuoteRun(rest[1..], quote) == count - 1;
    if run % 2 == 1 {
      QuotesRead(rest[1..], quote, count - 1);
      assert rest[1..][count - 1..] == bytes[offset + count..];
      var s := bytes[offset - 1..];
      assert s[0] == '\\' && |s| > 1 && s[2..] == rest[1..];
      assert ReadMulti(s, quote) == ReadMulti(rest[1..], quote).After(2);
    } else {
      QuotesRead(rest, quote, count);
      assert rest[count..] == bytes[offset + count..];
    }
  }

  lemma MultiEnds(bytes: string, quote: char, run: nat)
    requires Escaping(bytes, |bytes|, quote, run)
    ensures MultiFrom(bytes, |bytes|, quote, run) == Extent(|bytes|, false)
  {
    if run % 2 == 1 {
      assert |bytes[|bytes| - 1..]| == 1;
    }
  }

  method ScanMulti(bytes: string, begin: nat, quote: char) returns (r: Extent)
    requires begin <= |bytes|
    ensures r == ReadMulti(bytes[begin..], quote).After(begin)
  {
    hide ReadMulti, QuoteRun;
    var basic := quote == '"';
    var run := 0;
    var offset := begin;
    while offset < |bytes|
      invariant begin <= offset <= |bytes|
      invariant Escaping(bytes, offset, quote, run)
      invariant MultiFrom(bytes, offset, quote, run) == ReadMulti(bytes[begin..], quote).After(begin)
    {
      if bytes[offset] == quote {
        var count := CountQuotes(bytes, offset, quote);
        MultiQuotes(bytes, offset, quote, run, count);
        if !basic && count >= 3 {
          return Extent(offset + Min(count, 5), true);
        }
        if basic && run % 2 == 0 && count >= 3 {
          return Extent(offset + Min(count, 5), true);
        }
        if basic && run % 2 == 1 && count >= 4 {
          return Extent(offset + 1 + Min(count - 1, 5), true);
        }
        run := 0;
        offset := offset + count;
      } else {
        MultiSkips(bytes, offset, quote, run);
        if basic && bytes[offset] == '\\' {
          run := run + 1;
        } else {
          run := 0;
        }
        offset := offset + 1;
      }
    }
    MultiEnds(bytes, quote, run);
    return Extent(|bytes|, false);
  }

  // -------------------------------------------------------------- independence

  /** A closed one-line string ends where it ends whatever follows it. */
  lemma {:induction false} LineIsLocal(x: string, a: string, b: string, quote: char)
    requires ReadLine(x + a, quote) == Extent(|x|, true)
    ensures ReadLine(x + b, quote) == Extent(|x|, true)
  {
    if x == "" {
    } else if x[0] == quote {
      assert |x| == 1;
    } else if quote == '"' && x[0] == '\\' {
      assert |x| > 1;
      assert (x + a)[2..] == x[2..] + a && (x + b)[2..] == x[2..] + b;
      LineIsLocal(x[2..], a, b, quote);
    } else {
      assert (x + a)[1..] == x[1..] + a && (x + b)[1..] == x[1..] + b;
      LineIsLocal(x[1..], a, b, quote);
    }
  }

  lemma {:induction false} RunInside(x: string, a: string, b: string, quote: char)
    requires QuoteRun(x + a, quote) < |x|
    ensures QuoteRun(x + b, quote) == QuoteRun(x + a, quote)
  {
    if x[0] == quote {
      assert (x + a)[1..] == x[1..] + a && (x + b)[1..] == x[1..] + b;
      RunInside(x[1..], a, b, quote);
    }
  }

  lemma {:induction false} RunThrough(x: string, a: string, b: string, quote: char)
    requires QuoteRun(x + a, quote) >= |x|
    ensures QuoteRun(x + a, quote) == |x| + QuoteRun(a, quote)
    ensures QuoteRun(x + b, quote) == |x| + QuoteRun(b, quote)
  {
    if x == "" {
      assert x + a == a && x + b == b;
    } else {
      assert (x + a)[1..] == x[1..] + a && (x + b)[1..] == x[1..] + b;
      RunThrough(x[1..], a, b, quote);
    }
  }

  /** A closed multi-line string ends where it ends as long as the next byte is the same. */
  lemma {:induction false} MultiIsLocal(x: string, a: string, b: string, quote: char)
    requires ReadMulti(x + a, quote) == Extent(|x|, true)
    requires a == b == "" || (a != "" && b != "" && a[0] == b[0])
    ensures ReadMulti(x + b, quote) == Extent(|x|, true)
  {
    assert x != "";
    if x[0] == quote {
      if QuoteRun(x + a, quote) >= 3 {
        RunThrough(x, a, b, quote);
      } else {
        RunInside(x, a, b, quote);
        assert (x + a)[1..] == x[1..] + a && (x + b)[1..] == x[1..] + b;
        MultiIsLocal(x[1..], a, b, quote);
      }
    } else if quote == '"' && x[0] == '\\' {
      assert |x| > 1;
      assert (x + a)[2..] == x[2..] + a && (x + b)[2..] == x[2..] + b;
      MultiIsLocal(x[2..], a, b, quote);
    } else {
      assert (x + a)[1..] == x[1..] + a && (x + b)[1..] == x[1..] + b;
      MultiIsLocal(x[1..], a, b, quote);
    }
  }

  /** What may follow a string without changing how it reads. */
  predicate Admits(t: StringToken, x: string, a: string, b: string)
    requires x != ""
  {
    if t.multiline then a == b == "" || (a != "" && b != "" && a[0] == b[0])
    else |x| > 2 || b == "" || b[0] != x[0]
  }

  lemma StringIsLocal(x: string, a: string, b: string)
    requires x != "" && ReadString(x + a).terminated && ReadString(x + a).end == |x|
    requires Admits(ReadString(x + a), x, a, b)
    ensures ReadString(x + b) == ReadString(x + a)
  {
    var quote := x[0];
    assert (x + a)[0] == quote == (x + b)[0];
    if OpensMulti(x + a) {
      assert (x + a)[3..] == x[3..] + a && (x + b)[3..] == x[3..] + b;
      MultiIsLocal(x[3..], a, b, quote);
    } else {
      assert (x + a)[1..] == x[1..] + a && (x + b)[1..] == x[1..] + b;
      LineIsLocal(x[1..], a, b, quote);
      assert !OpensMulti(x + b);
    }
  }
}
