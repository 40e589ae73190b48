/** When looking only at neighbours of a sorted list of paths finds what looking at all pairs
    would find: the conflict checks of rules/src/semantic.cpp. */
module Neighbours {
  import opened PathOrder

  predicate SortedPaths(s: seq<string>) { forall i, j :: 0 <= i < j < |s| ==> AtMost(s[i], s[j]) }

  predicate NeighbourOverlap(s: seq<string>) { exists i :: 0 < i < |s| && Overlap(s[i - 1], s[i]) }

  predicate AnyOverlap(s: seq<string>) { exists i, j :: 0 <= i < j < |s| && Overlap(s[i], s[j]) }

  predicate Repeats(s: seq<string>) { exists i, j :: 0 <= i < j < |s| && s[i] == s[j] }

  /** A path with something below it and nothing in between that merely looks like it. */
  predicate Exposed(s: seq<string>, i: nat, j: nat) {
    i < |s| && j < |s| && IsProperAncestor(s[i], s[j]) && forall x :: x in s ==> !IsIntruder(s[i], x)
  }

  ghost predicate SomeExposed(s: seq<string>) { exists i: nat, j: nat :: Exposed(s, i, j) }

  lemma EarlierIsAncestor(s: seq<string>, i: nat, j: nat)
    requires SortedPaths(s) && i < j < |s| && Overlap(s[i], s[j])
    ensures s[i] == s[j] || IsProperAncestor(s[i], s[j])
  {
    if IsProperAncestor(s[j], s[i]) {
      AncestorIsEarlier(s[j], s[i]);
      assert AtMost(s[i], s[j]);
      LessIsStrict(s[i], s[j]);
    }
  }

  lemma LaterStandsBehind(s: seq<string>, i: nat, j: nat)
    requires SortedPaths(s) && i < |s| && j < |s| && Less(s[i], s[j])
    ensures i < j
  {
    assert j < i ==> AtMost(s[j], s[i]);
    LessIsStrict(s[i], s[j]);
    LessIsStrict(s[i], s[i]);
  }

  lemma RepeatsMeet(s: seq<string>, i: nat, j: nat)
    requires SortedPaths(s) && i < j < |s| && s[i] == s[j]
    ensures NeighbourOverlap(s)
  {
    assert AtMost(s[i], s[i + 1]) && (i + 1 < j ==> AtMost(s[i + 1], s[j]));
    LessIsStrict(s[i], s[i + 1]);
    assert Overlap(s[i + 1 - 1], s[i + 1]);
  }

  lemma ExposedMeets(s: seq<string>, i: nat, j: nat)
    requires SortedPaths(s) && Exposed(s, i, j)
    ensures NeighbourOverlap(s)
  {
    AncestorIsEarlier(s[i], s[j]);
    LaterStandsBehind(s, i, j);
    var x := s[i + 1];
    assert AtMost(s[i], x) && (i + 1 < j ==> AtMost(x, s[j]));
    if x != s[i] {
      BetweenAncestorAndDescendant(s[i], x, s[j]);
    }
    assert Overlap(s[i + 1 - 1], s[i + 1]);
  }

  lemma NeighboursExpose(s: seq<string>, i: nat)
    requires SortedPaths(s) && 0 < i < |s| && Overlap(s[i - 1], s[i]) && s[i - 1] != s[i]
    ensures Exposed(s, i - 1, i)
  {
    EarlierIsAncestor(s, i - 1, i);
    forall x | x in s ensures !IsIntruder(s[i - 1], x) {
      if IsIntruder(s[i - 1], x) {
        IntruderIsBetween(s[i - 1], x, s[i]);
        var k :| 0 <= k < |s| && s[k] == x;
        LaterStandsBehind(s, i - 1, k);
        LaterStandsBehind(s, k, i);
      }
    }
  }

  lemma MeetingTells(s: seq<string>)
    requires SortedPaths(s) && NeighbourOverlap(s)
    ensures Repeats(s) || SomeExposed(s)
  {
    hide SortedPaths, Overlap, Exposed;
    var i: nat :| 0 < i < |s| && Overlap(s[i - 1], s[i]);
    var h: nat := i - 1;
    if s[h] != s[i] {
      NeighboursExpose(s, i);
      assert Exposed(s, h, i);
    }
  }

  /** MAIN RESULT. Exactly what the neighbour check sees. */
  lemma NeighbourCheckExact(s: seq<string>)
    requires SortedPaths(s)
    ensures NeighbourOverlap(s) <==> Repeats(s) || SomeExposed(s)
  {
    hide SortedPaths, NeighbourOverlap, Exposed;
    if NeighbourOverlap(s) {
      MeetingTells(s);
    }
    if Repeats(s) {
      var i: nat, j: nat :| i < j < |s| && s[i] == s[j];
      RepeatsMeet(s, i, j);
    }
    if SomeExposed(s) {
      var i: nat, j: nat :| Exposed(s, i, j);
      ExposedMeets(s, i, j);
    }
  }

  predicate AllPlain(s: seq<string>) { forall p :: p in s ==> Plain(p) }

  /** MAIN RESULT. Without bytes that sort before the separator no overlap is missed. */
  lemma NeighbourCheckComplete(s: seq<string>)
    requires SortedPaths(s) && AllPlain(s)
    ensures NeighbourOverlap(s) <==> AnyOverlap(s)
  {
    hide SortedPaths, Overlap, Plain, IsProperAncestor;
    if AnyOverlap(s) {
      var i: nat, j: nat :| i < j < |s| && Overlap(s[i], s[j]);
      EarlierIsAncestor(s, i, j);
      if s[i] == s[j] {
        RepeatsMeet(s, i, j);
      } else {
        forall x | x in s ensures !IsIntruder(s[i], x) { PlainIsNoIntruder(s[i], x); }
        ExposedMeets(s, i, j);
      }
    }
    if NeighbourOverlap(s) {
      var i: nat :| 0 < i < |s| && Overlap(s[i - 1], s[i]);
      var h: nat := i - 1;
      assert h < i < |s| && Overlap(s[h], s[i]);
    }
  }

  /** The condition is needed: a space sorts before the separator. */
  lemma SpaceHidesAnOverlap()
    ensures var s := ["a", "a b", "a/b"]; SortedPaths(s) && AnyOverlap(s) && !NeighbourOverlap(s)
  {
    var s := ["a", "a b", "a/b"];
    ExtensionIsLater("a", " b");
    ExtensionIsLater("a", "/b");
    assert "a" + " b" == "a b" && "a" + "/b" == "a/b";
    assert Less("a b"[1..], "a/b"[1..]);
    assert Less(s[0], s[1]) && Less(s[1], s[2]) && Less(s[0], s[2]);
    assert Overlap(s[0], s[2]);
    assert !Overlap(s[0], s[1]) && !Overlap(s[1], s[2]);
  }

  // ------------------------------------------------------------ deny reduction

  /** Some path of the list covers `p`. */
  predicate Covered(s: seq<string>, p: string) { exists d :: d in s && IsSameOrAncestor(d, p) }

  /** A path is dropped when the last one kept covers it. */
  function Reduced(s: seq<string>): seq<string> {
    if s == [] then []
    else
      var kept, p := Reduced(s[..|s| - 1]), s[|s| - 1];
      if kept != [] && IsSameOrAncestor(kept[|kept| - 1], p) then kept else kept + [p]
  }

  lemma {:induction false} ReducedIsPart(s: seq<string>, d: string)
    requires d in Reduced(s)
    ensures d in s
  {
    if s != [] && d in Reduced(s[..|s| - 1]) {
      ReducedIsPart(s[..|s| - 1], d);
    }
  }

  lemma {:induction false} DroppedIsCovered(s: seq<string>, d: string)
    requires d in s
    ensures Covered(Reduced(s), d)
  {
    var init, p := s[..|s| - 1], s[|s| - 1];
    var kept := Reduced(init);
    if d in init {
      DroppedIsCovered(init, d);
      var c :| c in kept && IsSameOrAncestor(c, d);
      assert c in Reduced(s);
    } else if kept != [] && IsSameOrAncestor(kept[|kept| - 1], p) {
      assert kept[|kept| - 1] in Reduced(s);
    } else {
      assert p in Reduced(s);
    }
  }

  /** MAIN RESULT. Reduction never changes which paths are covered, in whatever order. */
  lemma ReductionKeepsCoverage(s: seq<string>, p: string)
    ensures Covered(Reduced(s), p) <==> Covered(s, p)
  {
    if Covered(s, p) {
      var d :| d in s && IsSameOrAncestor(d, p);
      DroppedIsCovered(s, d);
      var c :| c in Reduced(s) && IsSameOrAncestor(c, d);
      AncestorTransitive(c, d, p);
    }
    if Covered(Reduced(s), p) {
      var d :| d in Reduced(s) && IsSameOrAncestor(d, p);
      ReducedIsPart(s, d);
    }
  }

  predicate StrictlySorted(s: seq<string>) { forall i, j :: 0 <= i < j < |s| ==> Less(s[i], s[j]) }

  lemma {:induction false} ReducedStaysSorted(s: seq<string>)
    requires SortedPaths(s)
    ensures StrictlySorted(Reduced(s))
  {
    if s != [] {
      var init, p := s[..|s| - 1], s[|s| - 1];
      ReducedStaysSorted(init);
      var kept := Reduced(init);
      forall i | 0 <= i < |kept| ensures AtMost(kept[i], p) {
        ReducedIsPart(init, kept[i]);
        var k :| 0 <= k < |init| && init[k] == kept[i];
        assert s[k] == kept[i];
      }
      if kept != [] && !IsSameOrAncestor(kept[|kept| - 1], p) {
        forall i | 0 <= i < |kept| ensures Less(kept[i], p) {
          if i < |kept| - 1 {
            assert Less(kept[i], kept[|kept| - 1]);
            LessTransitive(kept[i], kept[|kept| - 1], p);
          }
        }
      }
    }
  }

  /** A sorted list without bytes before the separator is reduced to what covers nothing else. */
  lemma {:induction false} ReducedIsMinimal(s: seq<string>)
    requires SortedPaths(s) && AllPlain(s)
    ensures !AnyOverlap(Reduced(s))
  {
    if s != [] {
      var init, p := s[..|s| - 1], s[|s| - 1];
      ReducedIsMinimal(init);
      ReducedStaysSorted(s);
      var kept, r := Reduced(init), Reduced(s);
      forall d | d in r ensures d in s { ReducedIsPart(s, d); }
      if |r| > |kept| {
        forall i, j | 0 <= i < j < |r| ensures !Overlap(r[i], r[j]) {
          if j == |kept| && Overlap(r[i], r[j]) {
            EarlierIsAncestor(r, i, j);
            LessIsStrict(r[i], r[j]);
            AncestorReaches(r, i, j, s);
          }
        }
      }
    }
  }

  /** If a kept path covers the next one, so does everything kept in between. */
  lemma AncestorReaches(r: seq<string>, i: nat, j: nat, s: seq<string>)
    requires StrictlySorted(r) && AllPlain(s) && (forall p :: p in r ==> p in s)
    requires i < j < |r| && IsProperAncestor(r[i], r[j])
    ensures Overlap(r[i], r[j - 1]) && (i == j - 1 || IsProperAncestor(r[i], r[j - 1]))
  {
    if i < j - 1 {
      assert Less(r[i], r[j - 1]) && Less(r[j - 1], r[j]);
      BetweenAncestorAndDescendant(r[i], r[j - 1], r[j]);
      PlainIsNoIntruder(r[i], r[j - 1]);
    }
  }

  // ---------------------------------------------------- a path against a list

  /** `p` is in the list, or the last path of the list before it covers it. */
  predicate Meets(s: seq<string>, p: string) {
    p in s || exists d :: d in s && IsProperAncestor(d, p) && forall x :: x in s ==> !(Less(d, x) && Less(x, p))
  }

  /** What the two neighbours of the insertion point of `p` say. */
  lemma InsertionPoint(s: seq<string>, p: string, k: nat)
    requires StrictlySorted(s) && k <= |s|
    requires forall i :: 0 <= i < k ==> Less(s[i], p)
    requires forall i :: k <= i < |s| ==> !Less(s[i], p)
    ensures Meets(s, p) <==> (k < |s| && s[k] == p) || (k > 0 && IsSameOrAncestor(s[k - 1], p))
  {
    LessIsStrict(p, p);
    if k > 0 && IsProperAncestor(s[k - 1], p) {
      forall x | x in s ensures !(Less(s[k - 1], x) && Less(x, p)) {
        var i :| 0 <= i < |s| && s[i] == x;
        LessIsStrict(s[k - 1], x);
        assert i < k - 1 ==> Less(s[i], s[k - 1]);
      }
      assert s[k - 1] in s;
    }
    if Meets(s, p) && p !in s {
      var d :| d in s && IsProperAncestor(d, p) && forall x :: x in s ==> !(Less(d, x) && Less(x, p));
      AncestorIsEarlier(d, p);
      var i :| 0 <= i < |s| && s[i] == d;
      assert i < k && s[k - 1] in s;
    }
  }

  /** No path of the list lies below another, nor continues another with a byte that sorts before
      the separator. */
  predicate NoneBehind(s: seq<string>) {
    forall d, x :: d in s && x in s ==> !IsIntruder(d, x) && !IsProperAncestor(d, x)
  }

  lemma NothingHidden(s: seq<string>, p: string)
    requires NoneBehind(s)
    ensures Meets(s, p) <==> Covered(s, p)
  {
    if Covered(s, p) && p !in s {
      var d :| d in s && IsSameOrAncestor(d, p);
      forall x | x in s ensures !(Less(d, x) && Less(x, p)) {
        if Less(d, x) && Less(x, p) {
          BetweenAncestorAndDescendant(d, x, p);
        }
      }
    }
  }

  function Letters(n: nat): (z: string)
    ensures |z| == n && forall i :: 0 <= i < n ==> z[i] == 'a'
  {
    seq(n, i => 'a')
  }

  function Longest(s: seq<string>): (n: nat)
    ensures forall p :: p in s ==> |p| <= n
  {
    if s == [] then 0
    else
      var n, p := Longest(s[..|s| - 1]), s[|s| - 1];
      assert forall q :: q in s ==> q in s[..|s| - 1] || q == p;
      if |p| > n then |p| else n
  }

  /** A covered path is missed when some `x` stands between it and everything that covers it. */
  lemma StandsBetween(s: seq<string>, d: string, x: string, p: string)
    requires d in s && x in s && IsProperAncestor(d, p) && p !in s && Less(x, p)
    requires forall q :: q in s && IsProperAncestor(q, p) ==> Less(q, x)
    ensures Covered(s, p) && !Meets(s, p)
  {
  }

  /** What covers a path whose last name was made longer covered it before. */
  lemma AncestorOfLonger(q: string, x: string, z: string)
    requires forall c :: c in z ==> c != '/'
    ensures IsProperAncestor(q, x + z) ==> IsProperAncestor(q, x)
    ensures IsProperAncestor(q, x) ==> IsProperAncestor(q, x + z)
  {
    var p := x + z;
    assert |q| >= |x| && |q| < |p| ==> p[|q|] == z[|q| - |x|] && z[|q| - |x|] in z;
    assert |q| < |x| ==> p[..|q|] == x[..|q|] && p[|q|] == x[|q|];
  }

  lemma AncestorOfChild(q: string, d: string)
    ensures IsProperAncestor(q, d + "/") <==> IsSameOrAncestor(q, d)
  {
    var p := d + "/";
    assert |q| < |d| ==> p[..|q|] == d[..|q|] && p[|q|] == d[|q|];
    assert p[..|d|] == d && p[|d|] == '/';
  }

  /** A path below another hides what sorts right after it. */
  lemma DescendantHides(s: seq<string>, d: string, x: string)
    requires d in s && x in s && IsProperAncestor(d, x)
    ensures var p := x + Letters(Longest(s) + 1); Covered(s, p) && !Meets(s, p)
  {
    hide IsProperAncestor, Less, Covered, Meets;
    var z := Letters(Longest(s) + 1);
    ExtensionIsLater(x, z);
    AncestorOfLonger(d, x, z);
    forall q | q in s && IsProperAncestor(q, x + z) ensures Less(q, x) {
      AncestorOfLonger(q, x, z);
      AncestorIsEarlier(q, x);
    }
    StandsBetween(s, d, x, x + z);
  }

  /** A path that continues another with a byte before the separator hides what lies below that. */
  lemma IntruderHides(s: seq<string>, d: string, x: string)
    requires d in s && x in s && IsIntruder(d, x)
    ensures var p := d + "/" + Letters(Longest(s) + 1); Covered(s, p) && !Meets(s, p)
  {
    hide IsProperAncestor, Less, IsIntruder, Covered, Meets;
    var z := Letters(Longest(s) + 1);
    var p := d + "/" + z;
    AncestorOfChild(d, d);
    AncestorOfLonger(d, d + "/", z);
    IntruderIsBetween(d, x, p);
    forall q | q in s && IsProperAncestor(q, p) ensures Less(q, x) {
      AncestorOfLonger(q, d + "/", z);
      AncestorOfChild(q, d);
      if q != d {
        AncestorIsEarlier(q, d);
        LessTransitive(q, d, x);
      }
    }
    StandsBetween(s, d, x, p);
  }

  /** MAIN RESULT. Looking at the last path before a source finds every covering denial, whatever
      the source, if and only if no denial lies below another or continues another with a byte
      that sorts before the separator. */
  lemma DenyCheckExact(s: seq<string>)
    ensures (forall p :: Meets(s, p) <==> Covered(s, p)) <==> NoneBehind(s)
  {
    if NoneBehind(s) {
      forall p ensures Meets(s, p) <==> Covered(s, p) { NothingHidden(s, p); }
    } else {
      var d, x :| d in s && x in s && (IsIntruder(d, x) || IsProperAncestor(d, x));
      if IsIntruder(d, x) {
        IntruderHides(s, d, x);
      } else {
        DescendantHides(s, d, x);
      }
    }
  }

  /** In a list of plain paths that covers nothing twice, it finds every covering denial. */
  lemma MeetsIsCovered(s: seq<string>, p: string)
    requires AllPlain(s) && !AnyOverlap(s)
    ensures Meets(s, p) <==> Covered(s, p)
  {
    forall d, x | d in s && x in s ensures !IsIntruder(d, x) && !IsProperAncestor(d, x) {
      PlainIsNoIntruder(d, x);
      var i: nat :| i < |s| && s[i] == d;
      var j: nat :| j < |s| && s[j] == x;
      assert i < j ==> !Overlap(s[i], s[j]);
      assert j < i ==> !Overlap(s[j], s[i]);
    }
    NothingHidden(s, p);
  }

  /** With a space in a path the deny check misses a denial, so the condition on bytes is needed. */
  lemma SpaceHidesADenial()
    ensures StrictlySorted(["a", "a b"]) && Covered(["a", "a b"], "a/c") && !Meets(["a", "a b"], "a/c")
  {
    var s := ["a", "a b"];
    assert "a b"[0] == 'a' && "a b"[1] == ' ' && "a/c"[1] == '/' && "a/c"[0] == 'a';
    assert Less("a", "a b") && Less("a b", "a/c");
    assert IsSameOrAncestor("a", "a/c") && s[0] in s;
    assert !IsProperAncestor("a b", "a/c");
  }
}
