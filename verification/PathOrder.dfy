/** Paths as byte strings: the order std::string compares them in, and the ancestor relation of
    rules/src/semantic.cpp. A byte is written as the character with that code. */
module PathOrder {

  /** Byte-wise lexicographic order. */
  predicate Less(a: string, b: string) {
    if b == "" then false
    else if a == "" then true
    else if a[0] != b[0] then a[0] < b[0]
    else Less(a[1..], b[1..])
  }

  predicate AtMost(a: string, b: string) { a == b || Less(a, b) }

  lemma {:induction false} LessIsStrict(a: string, b: string)
    ensures !(Less(a, b) && Less(b, a)) && !Less(a, a)
  {
    if a != "" && b != "" && a[0] == b[0] {
      LessIsStrict(a[1..], b[1..]);
    }
    if a != "" {
      LessIsStrict(a[1..], a[1..]);
    }
  }

  lemma {:induction false} LessIsTotal(a: string, b: string)
    ensures Less(a, b) || a == b || Less(b, a)
  {
    if a != "" && b != "" && a[0] == b[0] {
      LessIsTotal(a[1..], b[1..]);
      assert a == [a[0]] + a[1..] && b == [b[0]] + b[1..];
    }
  }

  lemma {:induction false} LessTransitive(a: string, b: string, c: string)
    requires Less(a, b) && Less(b, c)
    ensures Less(a, c)
  {
    if a != "" && a[0] == b[0] == c[0] {
      LessTransitive(a[1..], b[1..], c[1..]);
    }
  }

  predicate IsProperAncestor(a: string, p: string) { |p| > |a| && p[..|a|] == a && p[|a|] == '/' }

  predicate IsSameOrAncestor(a: string, p: string) { p == a || IsProperAncestor(a, p) }

  predicate Overlap(a: string, b: string) { IsSameOrAncestor(a, b) || IsSameOrAncestor(b, a) }

  lemma AncestorTransitive(a: string, b: string, c: string)
    requires IsSameOrAncestor(a, b) && IsSameOrAncestor(b, c)
    ensures IsSameOrAncestor(a, c)
  {
    if a != b && b != c {
      assert c[..|a|] == c[..|b|][..|a|] && c[|a|] == c[..|b|][|a|];
    }
  }

  lemma {:induction false} ExtensionIsLater(a: string, y: string)
    requires y != ""
    ensures Less(a, a + y)
  {
    if a == "" {
      assert a + y == y;
    } else {
      assert (a + y)[1..] == a[1..] + y;
      ExtensionIsLater(a[1..], y);
    }
  }

  lemma AncestorIsEarlier(a: string, p: string)
    requires IsProperAncestor(a, p)
    ensures Less(a, p)
  {
    assert p == a + p[|a|..];
    ExtensionIsLater(a, p[|a|..]);
  }

  /** `x` sorts after `a` but before everything below it: it continues `a` with a byte that
      sorts before the separator. */
  predicate IsIntruder(a: string, x: string) { |x| > |a| && x[..|a|] == a && x[|a|] < '/' }

  /** What sorts between a path and something below it is an intruder or below it as well. */
  lemma {:induction false} BetweenAncestorAndDescendant(a: string, x: string, p: string)
    requires IsProperAncestor(a, p) && Less(a, x) && AtMost(x, p)
    ensures IsIntruder(a, x) || IsProperAncestor(a, x)
  {
    if a != "" {
      assert p[0] == a[0] && x != "" && x[0] == a[0];
      var a', x', p' := a[1..], x[1..], p[1..];
      assert p'[..|a'|] == p[..|a|][1..] == a';
      assert x == [x[0]] + x' && p == [p[0]] + p';
      BetweenAncestorAndDescendant(a', x', p');
      assert x[..|a|] == [x[0]] + x'[..|a'|] == [a[0]] + a' == a;
    }
  }

  lemma {:induction false} IntruderIsBetween(a: string, x: string, p: string)
    requires IsProperAncestor(a, p) && IsIntruder(a, x)
    ensures Less(a, x) && Less(x, p)
  {
    assert x == a + x[|a|..] && p == a + p[|a|..];
    ExtensionIsLater(a, x[|a|..]);
    SamePrefix(a, x[|a|..], p[|a|..]);
  }

  lemma {:induction false} SamePrefix(a: string, y: string, z: string)
    ensures Less(a + y, a + z) == Less(y, z)
  {
    if a == "" {
      assert a + y == y && a + z == z;
    } else {
      assert (a + y)[1..] == a[1..] + y && (a + z)[1..] == a[1..] + z;
      SamePrefix(a[1..], y, z);
    }
  }

  /** No byte that sorts before the separator. */
  predicate Plain(p: string) { forall i :: 0 <= i < |p| ==> p[i] >= '/' }

  lemma PlainIsNoIntruder(a: string, x: string)
    requires Plain(x)
    ensures !IsIntruder(a, x)
  {
  }
}
