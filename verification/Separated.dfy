/** Strings made of pieces with a separator between them: paths and comma-separated lists. */
module Separated {

  /** The pieces between separators. */
  function Split(s: string, sep: char): (r: seq<string>)
    ensures |r| > 0
  {
    if s == "" then [""]
    else
      var rest := Split(s[1..], sep);
      if s[0] == sep then [""] + rest else [[s[0]] + rest[0]] + rest[1..]
  }

  function Join(pieces: seq<string>, sep: char): string {
    if pieces == [] then ""
    else if |pieces| == 1 then pieces[0]
    else pieces[0] + [sep] + Join(pieces[1..], sep)
  }

  predicate Free(s: string, sep: char) { forall c :: c in s ==> c != sep }

  /** Where the first piece ends. */
  function PieceEnd(s: string, sep: char): (n: nat)
    ensures n <= |s| && (n < |s| ==> s[n] == sep) && forall i :: 0 <= i < n ==> s[i] != sep
  {
    if s == "" || s[0] == sep then 0
    else
      var n := PieceEnd(s[1..], sep);
      assert forall i :: 0 < i < n + 1 ==> s[i] == s[1..][i - 1];
      n + 1
  }

  lemma {:induction false} SplitAtPiece(s: string, sep: char)
    ensures var n := PieceEnd(s, sep);
      Split(s, sep) == [s[..n]] + if n < |s| then Split(s[n + 1..], sep) else []
  {
    var n := PieceEnd(s, sep);
    if s != "" && s[0] != sep {
      SplitAtPiece(s[1..], sep);
      assert s[..n] == [s[0]] + s[1..][..n - 1];
      assert n < |s| ==> s[1..][n - 1 + 1..] == s[n + 1..];
    }
  }

  /** The pieces of two strings with a separator between them. */
  lemma {:induction false} SplitConcat(x: string, y: string, sep: char)
    ensures Split(x + [sep] + y, sep) == Split(x, sep) + Split(y, sep)
  {
    var s := x + [sep] + y;
    if x == "" {
      assert s[1..] == y;
    } else {
      assert s[1..] == x[1..] + [sep] + y;
      SplitConcat(x[1..], y, sep);
    }
  }

  /** A string is its pieces joined, and no piece holds the separator. */
  lemma {:induction false} JoinSplit(s: string, sep: char)
    ensures Join(Split(s, sep), sep) == s
    ensures forall p :: p in Split(s, sep) ==> Free(p, sep)
    decreases |s|
  {
    hide PieceEnd, Split;
    SplitAtPiece(s, sep);
    var n := PieceEnd(s, sep);
    forall c | c in s[..n] ensures c != sep {
      var i :| 0 <= i < n && s[..n][i] == c;
    }
    if n < |s| {
      JoinSplit(s[n + 1..], sep);
      assert Split(s, sep)[1..] == Split(s[n + 1..], sep);
      assert s == s[..n] + [sep] + s[n + 1..];
    }
  }

  lemma PieceOfJoin(p: string, rest: string, sep: char)
    requires Free(p, sep)
    ensures PieceEnd(p + [sep] + rest, sep) == |p| && PieceEnd(p, sep) == |p|
  {
    var s := p + [sep] + rest;
    forall i | 0 <= i < |p| ensures s[i] != sep && p[i] != sep { assert p[i] in p; }
    assert s[|p|] == sep;
  }

  lemma {:induction false} SplitJoined(pieces: seq<string>, sep: char)
    requires pieces != [] && forall p :: p in pieces ==> Free(p, sep)
    ensures Split(Join(pieces, sep), sep) == pieces
  {
    hide Split, PieceEnd, Free;
    var p := pieces[0];
    assert p in pieces;
    if |pieces| == 1 {
      SplitAtPiece(p, sep);
      PieceOfJoin(p, "", sep);
      assert p[..|p|] == p && pieces == [p];
    } else {
      var rest := Join(pieces[1..], sep);
      assert forall q :: q in pieces[1..] ==> q in pieces;
      SplitJoined(pieces[1..], sep);
      PieceOfJoin(p, rest, sep);
      var s := p + [sep] + rest;
      SplitAtPiece(s, sep);
      assert s[..|p|] == p && s[|p| + 1..] == rest;
      assert pieces == [p] + pieces[1..];
    }
  }

  /** Joining can be undone exactly when there is a piece and none holds the separator. */
  lemma SplitJoin(pieces: seq<string>, sep: char)
    ensures Split(Join(pieces, sep), sep) == pieces <==> pieces != [] && forall p :: p in pieces ==> Free(p, sep)
  {
    hide Split, Join, Free;
    if pieces != [] && forall p :: p in pieces ==> Free(p, sep) {
      SplitJoined(pieces, sep);
    } else {
      JoinSplit(Join(pieces, sep), sep);
    }
  }

  method FindSeparator(s: string, sep: char, from: nat) returns (end: nat)
    requires from <= |s|
    ensures from <= end <= |s| && end - from == PieceEnd(s[from..], sep)
  {
    end := from;
    while end < |s| && s[end] != sep
      invariant from <= end <= |s| && PieceEnd(s[from..], sep) == end - from + PieceEnd(s[end..], sep)
    {
      assert s[end..][1..] == s[end + 1..];
      end := end + 1;
    }
  }
}
