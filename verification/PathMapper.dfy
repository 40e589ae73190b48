/** The provider path mapper of zygisk/src/provider_path_mapper.cpp: a caller's visible paths are
    rewritten to the backing paths behind them, and back. */
module PathMapper {
  import opened Wrappers
  import opened PathOrder
  import opened Separated
  import opened DecimalText

  datatype PathRule = PathRule(caller: int, user: nat, visible: string, backing: string)

  const BUFFER := 128
  const FIRST_APP_UID := 10000

  // ------------------------------------------------------------------- roots

  function Place(i: nat): string
    requires i < 3
  {
    ["/storage/emulated/", "/mnt/user/", "/data/media/"][i]
  }

  function Rest(user: nat, i: nat): string { if i == 1 then "emulated/" + Decimal(user) + "/" else "" }

  /** `/storage/emulated/U/`, `/mnt/user/U/emulated/U/` and `/data/media/U/`. */
  function RootAt(user: nat, i: nat): string
    requires i < 3
  {
    Place(i) + (Decimal(user) + "/" + Rest(user, i))
  }

  /** The three places a user's shared storage is reached under. */
  function Roots(user: nat): (r: seq<string>)
    ensures |r| == 3
  {
    [RootAt(user, 0), RootAt(user, 1), RootAt(user, 2)]
  }

  predicate IsRoot(user: nat, root: string, path: string) { root in Roots(user) && |root| < BUFFER && root <= path }

  function RootFrom(user: nat, path: string, k: nat): (r: Option<string>)
    requires k <= 3
    ensures r.Some? ==> IsRoot(user, r.value, path)
    ensures r.None? ==> forall i :: k <= i < 3 ==> !IsRoot(user, Roots(user)[i], path)
    decreases 3 - k
  {
    if k == 3 then None
    else if |Roots(user)[k]| < BUFFER && Roots(user)[k] <= path then Some(Roots(user)[k])
    else RootFrom(user, path, k + 1)
  }

  function Root(user: nat, path: string): Option<string> { RootFrom(user, path, 0) }

  method LogicalSuffix(path: string, user: nat) returns (root: Option<string>)
    ensures root == Root(user, path)
  {
    var roots := Roots(user);
    for i := 0 to 3
      invariant Root(user, path) == RootFrom(user, path, i)
    {
      if |roots[i]| >= BUFFER {
        continue;
      }
      if roots[i] <= path {
        return Some(roots[i]);
      }
    }
    return None;
  }

  lemma {:induction false} UpToSlash(a: string, b: string, x: string, y: string)
    requires a + "/" + x == b + "/" + y && (forall c :: c in a ==> c != '/') && (forall c :: c in b ==> c != '/')
    ensures a == b
  {
    var s := a + "/" + x;
    assert a != "" ==> s[0] == a[0] && a[0] in a;
    assert b != "" ==> s[0] == b[0] && b[0] in b;
    if a != "" && b != "" {
      assert s[1..] == a[1..] + "/" + x && s[1..] == b[1..] + "/" + y;
      assert (forall c :: c in a[1..] ==> c in a) && (forall c :: c in b[1..] ==> c in b);
      UpToSlash(a[1..], b[1..], x, y);
      assert a == [a[0]] + a[1..] && b == [b[0]] + b[1..];
    }
  }

  /** A path under a root, taken apart at the user's number. */
  lemma RootParts(user: nat, root: string, path: string) returns (i: nat, x: string)
    requires IsRoot(user, root, path)
    ensures i < 3 && path == Place(i) + (Decimal(user) + "/" + x)
    ensures root == Place(i) + (Decimal(user) + "/" + Rest(user, i))
  {
    i :| 0 <= i < 3 && Roots(user)[i] == root;
    assert root == RootAt(user, i);
    var u := Decimal(user);
    hide Decimal, Roots, Rest, Place;
    var y := path[|root|..];
    x := Rest(user, i) + y;
    assert path == root + y;
    Regroup(Place(i), u + "/", Rest(user, i), y);
  }

  lemma Regroup(a: string, b: string, c: string, d: string)
    ensures (a + (b + c)) + d == a + (b + (c + d))
  {
  }

  lemma SameNumber(i: nat, j: nat, u: string, v: string, x: string, y: string)
    requires i < 3 && j < 3 && Place(i) + (u + "/" + x) == Place(j) + (v + "/" + y)
    requires (forall c :: c in u ==> c != '/') && (forall c :: c in v ==> c != '/')
    ensures i == j && u == v
  {
    var a, b := u + "/" + x, v + "/" + y;
    assert (Place(i) + a)[1] == Place(i)[1] && (Place(j) + b)[1] == Place(j)[1];
    assert i == j;
    assert (Place(i) + a)[|Place(i)|..] == a && (Place(i) + b)[|Place(i)|..] == b;
    UpToSlash(u, v, x, y);
  }

  /** A path lies under one root of one user at most. */
  lemma OneRoot(path: string, u: nat, r: string, v: nat, q: string)
    requires IsRoot(u, r, path) && IsRoot(v, q, path)
    ensures u == v && r == q
  {
    hide *;
    var i, x := RootParts(u, r, path);
    var j, y := RootParts(v, q, path);
    DecimalReadsBack(u);
    DecimalReadsBack(v);
    SameNumber(i, j, Decimal(u), Decimal(v), x, y);
  }

  // -------------------------------------------------------------------- tails

  predicate IsDots(c: string) { c == "." || c == ".." }

  predicate Safe(tail: string) { forall c :: c in Split(tail, '/') ==> !IsDots(c) }

  lemma SafeSkipsSlash(s: string)
    requires s != "" && s[0] == '/'
    ensures Safe(s) == Safe(s[1..])
  {
    var rest := Split(s[1..], '/');
    assert Split(s, '/') == [""] + rest;
    forall c ensures c in Split(s, '/') <==> c == "" || c in rest { }
  }

  lemma SafeAtComponent(s: string)
    ensures var n := PieceEnd(s, '/');
      Safe(s) <==> !IsDots(s[..n]) && (n < |s| ==> Safe(s[n + 1..]))
  {
    SplitAtPiece(s, '/');
    var n := PieceEnd(s, '/');
    var rest := if n < |s| then Split(s[n + 1..], '/') else [];
    forall c ensures c in Split(s, '/') <==> c == s[..n] || c in rest { }
  }

  lemma NothingIsSafe()
    ensures Safe("")
  {
    assert Split("", '/') == [""];
  }

  method HasSafeTail(tail: string) returns (safe: bool)
    ensures safe == Safe(tail)
  {
    hide Safe, Split, PieceEnd;
    NothingIsSafe();
    var component := 0;
    assert tail[0..] == tail;
    while component < |tail|
      invariant component <= |tail| && Safe(tail[component..]) == Safe(tail)
    {
      while component < |tail| && tail[component] == '/'
        invariant component <= |tail| && Safe(tail[component..]) == Safe(tail)
      {
        SafeSkipsSlash(tail[component..]);
        assert tail[component..][1..] == tail[component + 1..];
        component := component + 1;
      }
      if component == |tail| {
        break;
      }
      var end := FindSeparator(tail, '/', component);
      SafeAtComponent(tail[component..]);
      assert tail[component..][..end - component] == tail[component..end];
      if IsDots(tail[component..end]) {
        return false;
      }
      if end < |tail| {
        assert tail[component..][end - component + 1..] == tail[end + 1..];
        component := end + 1;
      } else {
        assert tail[|tail|..] == "";
        component := end;
      }
    }
    assert tail[component..] == "";
    return true;
  }

  // ---------------------------------------------------------------- selection

  /** Which side of a rule a path is matched against, and which replaces it. */
  function Pattern(r: PathRule, restoring: bool): string { if restoring then r.backing else r.visible }

  function Other(r: PathRule, restoring: bool): string { if restoring then r.visible else r.backing }

  /** A match: the rule, the root the path lies under, and what follows the matched part. */
  datatype Match = Match(rule: PathRule, root: string, tail: string)

  predicate Fits(m: Match, path: string, restoring: bool) {
    && IsRoot(m.rule.user, m.root, path)
    && path == m.root + Pattern(m.rule, restoring) + m.tail
    && (m.tail == "" || m.tail[0] == '/')
  }

  function MatchOf(r: PathRule, path: string, restoring: bool): (m: Option<Match>)
    ensures m.Some? ==> m.value.rule == r && Fits(m.value, path, restoring)
  {
    var root := Root(r.user, path);
    if root.None? then None
    else
      var suffix, pattern := path[|root.value|..], Pattern(r, restoring);
      if IsSameOrAncestor(pattern, suffix) then
        assert path == root.value + suffix && suffix == pattern + suffix[|pattern|..];
        Some(Match(r, root.value, suffix[|pattern|..]))
      else None
  }

  lemma MatchIsFound(m: Match, path: string, restoring: bool)
    requires Fits(m, path, restoring)
    ensures MatchOf(m.rule, path, restoring) == Some(m)
  {
    var root := Root(m.rule.user, path);
    assert root.Some? by {
      var i :| 0 <= i < 3 && Roots(m.rule.user)[i] == m.root;
      assert IsRoot(m.rule.user, Roots(m.rule.user)[i], path);
    }
    OneRoot(path, m.rule.user, m.root, m.rule.user, root.value);
    var pattern := Pattern(m.rule, restoring);
    assert path[|m.root|..] == pattern + m.tail;
    assert (pattern + m.tail)[|pattern|..] == m.tail && (pattern + m.tail)[..|pattern|] == pattern;
  }

  /** Longer patterns win; between equally long backings the smaller visible path does. */
  predicate Beats(a: PathRule, b: PathRule, restoring: bool) {
    || |Pattern(a, restoring)| > |Pattern(b, restoring)|
    || (restoring && |a.backing| == |b.backing| && Less(a.visible, b.visible))
  }

  datatype Choice = Unsafe | Nothing | Chosen(m: Match)

  /** The rules of a caller, one after the other. */
  function Choose(rules: seq<PathRule>, caller: int, path: string, restoring: bool): Choice {
    if rules == [] then Nothing
    else
      var best, r := Choose(rules[..|rules| - 1], caller, path, restoring), rules[|rules| - 1];
      var m := MatchOf(r, path, restoring);
      if best.Unsafe? || r.caller != caller || m.None? then best
      else if !Safe(m.value.tail) then Unsafe
      else if best.Nothing? || Beats(r, best.m.rule, restoring) then Chosen(m.value)
      else best
  }

  function Mapped(rules: seq<PathRule>, caller: int, path: string, capacity: nat, restoring: bool): Option<string> {
    if capacity == 0 || caller < FIRST_APP_UID || path == "" || path[0] != '/' then None
    else
      var choice := Choose(rules, caller, path, restoring);
      if !choice.Chosen? then None
      else
        var output := choice.m.root + Other(choice.m.rule, restoring) + choice.m.tail;
        if |output| < capacity && output != path then Some(output) else None
  }

  method Select(rules: seq<PathRule>, caller: int, path: string, restoring: bool) returns (selected: Choice)
    ensures selected == Choose(rules, caller, path, restoring)
  {
    selected := Nothing;
    for i := 0 to |rules|
      invariant selected == Choose(rules[..i], caller, path, restoring) && !selected.Unsafe?
    {
      var rule := rules[i];
      assert rules[..i + 1][..i] == rules[..i];
      if rule.caller != caller {
        continue;
      }
      var root := LogicalSuffix(path, rule.user);
      if root.None? {
        continue;
      }
      var suffix, pattern := path[|root.value|..], Pattern(rule, restoring);
      if !IsSameOrAncestor(pattern, suffix) {
        continue;
      }
      var tail := suffix[|pattern|..];
      var safe := HasSafeTail(tail);
      if !safe {
        UnsafeStays(rules, i + 1, caller, path, restoring);
        return Unsafe;
      }
      if selected.Nothing? || Beats(rule, selected.m.rule, restoring) {
        selected := Chosen(Match(rule, root.value, tail));
      }
    }
    assert rules[..|rules|] == rules;
  }

  lemma {:induction false} UnsafeStays(rules: seq<PathRule>, i: nat, caller: int, path: string, restoring: bool)
    requires i <= |rules| && Choose(rules[..i], caller, path, restoring).Unsafe?
    ensures Choose(rules, caller, path, restoring).Unsafe?
    decreases |rules|
  {
    if i < |rules| {
      assert rules[..|rules| - 1][..i] == rules[..i];
      UnsafeStays(rules[..|rules| - 1], i, caller, path, restoring);
    } else {
      assert rules[..i] == rules;
    }
  }

  method RewriteAbsolutePath(rules: seq<PathRule>, caller: int, path: string, capacity: nat) returns (r: Option<string>)
    ensures r == Mapped(rules, caller, path, capacity, false)
  {
    if capacity == 0 || caller < FIRST_APP_UID || path == "" || path[0] != '/' {
      return None;
    }
    var selected := Select(rules, caller, path, false);
    if !selected.Chosen? {
      return None;
    }
    var output := selected.m.root + selected.m.rule.backing + selected.m.tail;
    return if |output| < capacity && path != output then Some(output) else None;
  }

  method RestoreAbsolutePath(rules: seq<PathRule>, caller: int, path: string, capacity: nat) returns (r: Option<string>)
    ensures r == Mapped(rules, caller, path, capacity, true)
  {
    if capacity == 0 || caller < FIRST_APP_UID || path == "" || path[0] != '/' {
      return None;
    }
    var selected := Select(rules, caller, path, true);
    if !selected.Chosen? {
      return None;
    }
    var output := selected.m.root + selected.m.rule.visible + selected.m.tail;
    return if |output| < capacity && path != output then Some(output) else None;
  }

  predicate VisibleBy(r: PathRule, path: string) {
    MatchOf(r, path, false).Some? && Safe(MatchOf(r, path, false).value.tail)
  }

  predicate Visible(rules: seq<PathRule>, path: string) { exists r :: r in rules && VisibleBy(r, path) }

  method MatchesRule(rule: PathRule, path: string) returns (b: bool)
    ensures b == VisibleBy(rule, path)
  {
    var root := LogicalSuffix(path, rule.user);
    if root.None? {
      return false;
    }
    var suffix := path[|root.value|..];
    if !IsSameOrAncestor(rule.visible, suffix) {
      return false;
    }
    b := HasSafeTail(suffix[|rule.visible|..]);
  }

  method MatchesVisiblePath(rules: seq<PathRule>, path: string) returns (b: bool)
    ensures b <==> path != "" && path[0] == '/' && Visible(rules, path)
  {
    hide VisibleBy;
    if path == "" || path[0] != '/' {
      return false;
    }
    for i := 0 to |rules|
      invariant forall j :: 0 <= j < i ==> !VisibleBy(rules[j], path)
    {
      var matches := MatchesRule(rules[i], path);
      if matches {
        return true;
      }
    }
    return false;
  }

  // -------------------------------------------------------------- main results

  predicate Applies(r: PathRule, caller: int, path: string, restoring: bool) {
    r.caller == caller && MatchOf(r, path, restoring).Some?
  }

  /** What is chosen is a match of one of the caller's rules, with a safe tail. */
  lemma {:induction false} ChosenFits(rules: seq<PathRule>, caller: int, path: string, restoring: bool)
    requires Choose(rules, caller, path, restoring).Chosen?
    ensures var m := Choose(rules, caller, path, restoring).m;
      m.rule in rules && m.rule.caller == caller && Fits(m, path, restoring) && Safe(m.tail)
  {
    var init := rules[..|rules| - 1];
    if Choose(rules, caller, path, restoring) == Choose(init, caller, path, restoring) {
      ChosenFits(init, caller, path, restoring);
      assert forall r :: r in init ==> r in rules;
    }
  }

  /** No rule of the caller that matches has a longer pattern, and none has an unsafe tail. */
  lemma {:induction false} ChosenIsLongest(rules: seq<PathRule>, caller: int, path: string, restoring: bool, r: PathRule)
    requires Choose(rules, caller, path, restoring).Chosen? && r in rules && Applies(r, caller, path, restoring)
    ensures |Pattern(r, restoring)| <= |Pattern(Choose(rules, caller, path, restoring).m.rule, restoring)|
    ensures Safe(MatchOf(r, path, restoring).value.tail)
  {
    hide Safe;
    var init, last := rules[..|rules| - 1], rules[|rules| - 1];
    if r in init {
      if Choose(init, caller, path, restoring).Nothing? {
        AppliesMatters(init, caller, path, restoring, r);
      } else {
        ChosenIsLongest(init, caller, path, restoring, r);
      }
    } else {
      assert r == last;
    }
  }

  lemma {:induction false} AppliesMatters(rules: seq<PathRule>, caller: int, path: string, restoring: bool, r: PathRule)
    requires r in rules && Applies(r, caller, path, restoring)
    ensures !Choose(rules, caller, path, restoring).Nothing?
  {
    hide Safe, MatchOf;
    var init, last := rules[..|rules| - 1], rules[|rules| - 1];
    if r in init {
      AppliesMatters(init, caller, path, restoring, r);
    } else {
      assert r == last;
    }
  }

  /** MAIN RESULT. A rewritten path lies under the same root and the backing path of one of the
      caller's rules, and what follows it is the safe remainder of the original. */
  lemma RewriteStaysInside(rules: seq<PathRule>, caller: int, path: string, capacity: nat)
    requires Mapped(rules, caller, path, capacity, false).Some?
    ensures var out := Mapped(rules, caller, path, capacity, false).value;
      exists m: Match :: m.rule in rules && m.rule.caller == caller && Fits(m, path, false) && Safe(m.tail)
                  && out == m.root + m.rule.backing + m.tail && |out| < capacity
  {
    ChosenFits(rules, caller, path, false);
    var m := Choose(rules, caller, path, false).m;
    assert m.rule in rules && m.rule.caller == caller && Fits(m, path, false) && Safe(m.tail);
  }

  /** MAIN RESULT. The filter that does not know the caller never rejects a path that would be
      rewritten. */
  lemma PrefilterNeverVetoes(rules: seq<PathRule>, caller: int, path: string, capacity: nat)
    requires Mapped(rules, caller, path, capacity, false).Some?
    ensures path != "" && path[0] == '/' && Visible(rules, path)
  {
    ChosenFits(rules, caller, path, false);
    var m := Choose(rules, caller, path, false).m;
    MatchIsFound(m, path, false);
    assert VisibleBy(m.rule, path);
  }

  /** The backing paths of a caller's rules are not inside one another. */
  predicate BackingsApart(rules: seq<PathRule>, caller: int) {
    forall a, b :: a in rules && b in rules && a.caller == caller && b.caller == caller && a != b
                   ==> !Overlap(a.backing, b.backing)
  }

  lemma BothCover(a: string, b: string, p: string)
    requires IsSameOrAncestor(a, p) && IsSameOrAncestor(b, p)
    ensures Overlap(a, b)
  {
    if |a| <= |b| {
      assert b[..|a|] == p[..|b|][..|a|] == p[..|a|] == a;
      assert |a| < |b| ==> b[|a|] == p[|a|];
    } else {
      assert a[..|b|] == p[..|a|][..|b|] == p[..|b|] == b;
      assert a[|b|] == p[|b|];
    }
  }

  /** Only one rule of the caller can have produced a path. */
  lemma OnlyOneRestores(rules: seq<PathRule>, caller: int, m: Match, out: string, q: PathRule)
    requires BackingsApart(rules, caller) && m.rule in rules && m.rule.caller == caller
    requires Fits(m, out, true) && q in rules && Applies(q, caller, out, true)
    ensures q == m.rule
  {
    hide MatchOf, Root, Roots, Decimal, Overlap, Safe, IsRoot;
    var n := MatchOf(q, out, true).value;
    OneRoot(out, m.rule.user, m.root, q.user, n.root);
    var suffix := out[|m.root|..];
    assert suffix == m.rule.backing + m.tail && suffix == q.backing + n.tail;
    assert suffix[..|m.rule.backing|] == m.rule.backing && suffix[..|q.backing|] == q.backing;
    BothCover(m.rule.backing, q.backing, suffix);
  }

  /** A match whose rule beats every other one that applies is chosen. */
  lemma {:induction false} UnbeatenIsChosen(rules: seq<PathRule>, caller: int, path: string, restoring: bool, m: Match)
    requires m.rule.caller == caller && MatchOf(m.rule, path, restoring) == Some(m)
    requires forall q :: q in rules && Applies(q, caller, path, restoring) ==>
      (q == m.rule || Beats(m.rule, q, restoring)) && Safe(MatchOf(q, path, restoring).value.tail)
    ensures !Choose(rules, caller, path, restoring).Unsafe?
    ensures m.rule in rules ==> Choose(rules, caller, path, restoring) == Chosen(m)
  {
    hide MatchOf, Safe, Beats;
    if rules != [] {
      var init, r := rules[..|rules| - 1], rules[|rules| - 1];
      assert rules == init + [r];
      assert r in rules && forall q :: q in init ==> q in rules;
      UnbeatenIsChosen(init, caller, path, restoring, m);
      NoneBeatsBack(rules, caller, path, restoring, m);
      if Choose(init, caller, path, restoring).Chosen? {
        ChosenApplies(init, caller, path, restoring);
      }
    }
  }

  lemma NoneBeatsBack(rules: seq<PathRule>, caller: int, path: string, restoring: bool, m: Match)
    requires forall q :: q in rules && Applies(q, caller, path, restoring) ==> q == m.rule || Beats(m.rule, q, restoring)
    ensures forall q :: q in rules && Applies(q, caller, path, restoring) ==> !Beats(q, m.rule, restoring)
  {
    hide MatchOf;
    forall q | q in rules && Applies(q, caller, path, restoring) ensures !Beats(q, m.rule, restoring) {
      LessIsStrict(q.visible, m.rule.visible);
    }
  }

  lemma {:induction false} ChosenApplies(rules: seq<PathRule>, caller: int, path: string, restoring: bool)
    requires Choose(rules, caller, path, restoring).Chosen?
    ensures var m := Choose(rules, caller, path, restoring).m;
      m.rule in rules && Applies(m.rule, caller, path, restoring) && MatchOf(m.rule, path, restoring) == Some(m)
  {
    hide Safe, Beats;
    var init, r := rules[..|rules| - 1], rules[|rules| - 1];
    if Choose(init, caller, path, restoring).Chosen? {
      ChosenApplies(init, caller, path, restoring);
      assert forall q :: q in init ==> q in rules;
    }
  }

  /** MAIN RESULT. Restoring undoes every rewrite, given room for the original path. */
  lemma RestoreUndoesRewrite(rules: seq<PathRule>, caller: int, path: string, capacity: nat, room: nat)
    requires BackingsApart(rules, caller) && |path| < room
    requires Mapped(rules, caller, path, capacity, false).Some?
    ensures Mapped(rules, caller, Mapped(rules, caller, path, capacity, false).value, room, true) == Some(path)
  {
    ChosenFits(rules, caller, path, false);
    var m := Choose(rules, caller, path, false).m;
    var out := m.root + m.rule.backing + m.tail;
    RootsAreAbsolute(m.rule.user, m.root, path);
    RootStays(m, path, out);
    MatchIsFound(m, out, true);
    forall q | q in rules && Applies(q, caller, out, true) ensures q == m.rule {
      OnlyOneRestores(rules, caller, m, out, q);
    }
    UnbeatenIsChosen(rules, caller, out, true, m);
  }

  lemma RootsAreAbsolute(user: nat, root: string, path: string)
    requires IsRoot(user, root, path)
    ensures root != "" && root[0] == '/'
  {
    var i, x := RootParts(user, root, path);
  }

  lemma RootStays(m: Match, path: string, out: string)
    requires Fits(m, path, false) && out == m.root + m.rule.backing + m.tail
    ensures Fits(m, out, true)
  {
    assert m.root <= out;
  }

  // ------------------------------------------------------- when restoring is exact

  const PATH_MAX := 4096
  const NAME_MAX := 255
  const MAX_RULES := 64
  const UINT32_MAX := 0xFFFF_FFFF

  predicate IsName(c: string) { 0 < |c| <= NAME_MAX && !IsDots(c) }

  /** Proper names between the separators; the last may be empty. */
  predicate NamesOnly(p: string) {
    forall k :: 0 <= k < |Split(p, '/')| ==>
      IsName(Split(p, '/')[k]) || (k == |Split(p, '/')| - 1 && Split(p, '/')[k] == "")
  }

  predicate IsRulePath(p: string) {
    p != "" && p[0] != '/' && |p| < PATH_MAX && '{' !in p && '}' !in p && NamesOnly(p)
  }

  lemma NamesAtPiece(p: string)
    ensures var n := PieceEnd(p, '/');
      NamesOnly(p) <==> if n < |p| then IsName(p[..n]) && NamesOnly(p[n + 1..]) else p == "" || IsName(p)
  {
    SplitAtPiece(p, '/');
    var n := PieceEnd(p, '/');
    hide Split, PieceEnd, IsName;
    if n < |p| {
      var s, t := Split(p, '/'), Split(p[n + 1..], '/');
      if NamesOnly(p) {
        assert s[0] == p[..n];
        forall k | 0 <= k < |t| ensures IsName(t[k]) || (k == |t| - 1 && t[k] == "") { assert s[k + 1] == t[k]; }
      }
    } else {
      assert p[..n] == p && Split(p, '/')[0] == p && |Split(p, '/')| == 1;
    }
  }

  method ValidLogicalRulePath(path: string) returns (valid: bool)
    ensures valid == IsRulePath(path)
  {
    hide NamesOnly, IsName;
    if path == "" || path[0] == '/' || |path| >= PATH_MAX || '{' in path || '}' in path {
      return false;
    }
    var component := 0;
    assert path[0..] == path;
    while component < |path|
      invariant component <= |path| && NamesOnly(path[component..]) == NamesOnly(path)
    {
      var separator := FindSeparator(path, '/', component);
      NamesAtPiece(path[component..]);
      assert path[component..][..separator - component] == path[component..separator];
      assert separator == |path| ==> path[component..separator] == path[component..];
      if !IsName(path[component..separator]) {
        return false;
      }
      if separator == |path| {
        return true;
      }
      assert path[component..][separator - component + 1..] == path[separator + 1..];
      component := separator + 1;
    }
    NamesAtPiece("");
    assert path[component..] == "";
    return true;
  }

  predicate SameScope(a: PathRule, b: PathRule) { a.caller == b.caller && a.user == b.user }

  predicate IsRule(r: PathRule) {
    r.caller >= FIRST_APP_UID && r.user <= UINT32_MAX && IsRulePath(r.visible) && IsRulePath(r.backing)
  }

  /** What the installer takes: proper rules, and one backing path for each visible path of a scope. */
  predicate Installable(rules: seq<PathRule>) {
    && (forall r :: r in rules ==> IsRule(r))
    && forall a, b :: a in rules && b in rules && SameScope(a, b) && a.visible == b.visible ==> a.backing == b.backing
  }

  predicate Ambiguous(a: PathRule, b: PathRule) { SameScope(a, b) && a.visible == b.visible && a.backing != b.backing }

  method Install(input: seq<PathRule>) returns (installed: bool)
    requires forall r :: r in input ==> r.user <= UINT32_MAX
    ensures installed <==> 0 < |input| <= MAX_RULES && Installable(input)
  {
    hide IsRulePath;
    if |input| == 0 || |input| > MAX_RULES {
      return false;
    }
    for index := 0 to |input|
      invariant forall i :: 0 <= i < index ==> IsRule(input[i])
      invariant forall i, j :: 0 <= j < i < index ==> !Ambiguous(input[j], input[i])
    {
      var rule := input[index];
      var visible := ValidLogicalRulePath(rule.visible);
      var backing := ValidLogicalRulePath(rule.backing);
      if rule.caller < FIRST_APP_UID || !visible || !backing {
        assert !IsRule(input[index]);
        return false;
      }
      for existing := 0 to index
        invariant forall j :: 0 <= j < existing ==> !Ambiguous(input[j], rule)
      {
        if Ambiguous(input[existing], rule) {
          assert input[existing] in input && rule in input;
          return false;
        }
      }
    }
    NoneAmbiguous(input);
    return true;
  }

  lemma NoneAmbiguous(rules: seq<PathRule>)
    requires forall i :: 0 <= i < |rules| ==> IsRule(rules[i])
    requires forall i, j :: 0 <= j < i < |rules| ==> !Ambiguous(rules[j], rules[i])
    ensures Installable(rules)
  {
    hide IsRule;
    forall a, b | a in rules && b in rules && SameScope(a, b) && a.visible == b.visible ensures a.backing == b.backing {
      var i: nat :| i < |rules| && rules[i] == a;
      var j: nat :| j < |rules| && rules[j] == b;
      assert i < j ==> !Ambiguous(rules[i], rules[j]);
      assert j < i ==> !Ambiguous(rules[j], rules[i]);
    }
  }

  /** What was made from rule `a` is restored by rule `b`: its backing path is at or below that of
      `a`, it wins if the two are equal, and no longer visible path takes the place of `a`'s. */
  predicate Confuses(rules: seq<PathRule>, a: PathRule, b: PathRule) {
    && a in rules && b in rules && SameScope(a, b) && a.visible != a.backing
    && IsSameOrAncestor(a.backing, b.backing) && (a.backing == b.backing ==> Less(b.visible, a.visible))
    && forall c :: c in rules && SameScope(a, c) && |c.visible| > |a.visible| ==>
         !IsSameOrAncestor(c.visible, a.visible + b.backing[|a.backing|..])
  }

  /** Restoring gives back every path that is rewritten, given room for it. */
  predicate Undone(rules: seq<PathRule>, caller: int, path: string, capacity: nat, room: nat) {
    var out := Mapped(rules, caller, path, capacity, false);
    out.Some? && |path| < room ==> Mapped(rules, caller, out.value, room, true) == Some(path)
  }

  lemma SafeConcat(x: string, y: string)
    requires y == "" || y[0] == '/'
    ensures Safe(x + y) <==> Safe(x) && Safe(y)
  {
    if y == "" {
      NothingIsSafe();
      assert x + y == x;
    } else {
      SafeSkipsSlash(y);
      assert x + y == x + ['/'] + y[1..];
      SplitConcat(x, y[1..], '/');
      var s, t := Split(x, '/'), Split(y[1..], '/');
      forall c ensures c in s + t <==> c in s || c in t { }
    }
  }

  lemma RulePathIsSafe(p: string)
    requires IsRulePath(p)
    ensures Safe(p)
  {
    hide Split;
    var s := Split(p, '/');
    forall c | c in s ensures !IsDots(c) {
      var k: nat :| k < |s| && s[k] == c;
    }
  }

  /** A rule that applies to a path under a root matches it there. */
  lemma MatchesAt(user: nat, root: string, path: string, q: PathRule, restoring: bool)
    requires IsRoot(user, root, path) && MatchOf(q, path, restoring).Some?
    ensures var n := MatchOf(q, path, restoring).value;
      && q.user == user && n.root == root && path == root + (Pattern(q, restoring) + n.tail)
      && (n.tail == "" || n.tail[0] == '/')
  {
    hide MatchOf, IsRoot, Pattern;
    var n := MatchOf(q, path, restoring).value;
    OneRoot(path, user, root, q.user, n.root);
    Grouped(root, Pattern(q, restoring), n.tail);
  }

  lemma Grouped(a: string, b: string, c: string)
    ensures a + b + c == a + (b + c)
  {
  }

  lemma SameSuffix(root: string, x: string, y: string)
    requires root + x == root + y
    ensures x == y
  {
    assert (root + x)[|root|..] == x && (root + y)[|root|..] == y;
  }

  /** The tails of all rules that apply are safe if one of them is. */
  lemma OtherTailIsSafe(p: string, t: string, q: string, u: string)
    requires p + t == q + u && Safe(p) && Safe(t)
    requires (t == "" || t[0] == '/') && (u == "" || u[0] == '/')
    ensures Safe(u)
  {
    SafeConcat(p, t);
    SafeConcat(q, u);
  }

  /** Of two patterns that cover the same the longer one lies below the other. */
  lemma LongerIsBelow(p: string, t: string, q: string, u: string)
    requires p + t == q + u && |p| <= |q|
    requires t == "" || t[0] == '/'
    ensures IsSameOrAncestor(p, q) && t == q[|p|..] + u
  {
    assert (p + t)[..|p|] == p && (q + u)[..|p|] == q[..|p|] && (p + t)[|p|..] == t && (q + u)[|p|..] == q[|p|..] + u;
    assert |p| < |q| ==> t[0] == (p + t)[|p|] == (q + u)[|p|] == q[|p|];
  }

  lemma CoversMore(a: string, p: string, t: string)
    requires IsSameOrAncestor(a, p) && (t == "" || t[0] == '/')
    ensures IsSameOrAncestor(a, p + t)
  {
    assert t == "" ==> p + t == p;
  }

  /** What a chosen rule was chosen over. */
  lemma {:induction false} ChosenIsUnbeaten(rules: seq<PathRule>, caller: int, path: string, restoring: bool, r: PathRule)
    requires Choose(rules, caller, path, restoring).Chosen? && r in rules && Applies(r, caller, path, restoring)
    ensures !Beats(r, Choose(rules, caller, path, restoring).m.rule, restoring)
  {
    hide Safe, MatchOf, Beats;
    var init, last := rules[..|rules| - 1], rules[|rules| - 1];
    NotItself(last, restoring);
    if r in init {
      var best := Choose(init, caller, path, restoring);
      if best.Nothing? {
        AppliesMatters(init, caller, path, restoring, r);
      } else {
        ChosenIsUnbeaten(init, caller, path, restoring, r);
        BeatsOn(r, last, best.m.rule, restoring);
      }
    } else {
      assert r == last;
    }
  }

  lemma NotItself(a: PathRule, restoring: bool)
    ensures !Beats(a, a, restoring)
  {
    LessIsStrict(a.visible, a.visible);
  }

  lemma BeatsOn(a: PathRule, b: PathRule, c: PathRule, restoring: bool)
    ensures Beats(a, b, restoring) && Beats(b, c, restoring) ==> Beats(a, c, restoring)
  {
    if Less(a.visible, b.visible) && Less(b.visible, c.visible) {
      LessTransitive(a.visible, b.visible, c.visible);
    }
  }

  /** A rule that applies and has a pattern of the same length has the same pattern; of two that
      do not beat each other only one is installed. */
  lemma Unbeaten(rules: seq<PathRule>, a: PathRule, q: PathRule, t: string, u: string, restoring: bool)
    requires Installable(rules) && a in rules && q in rules && SameScope(a, q)
    requires Pattern(a, restoring) + t == Pattern(q, restoring) + u && (t == "" || t[0] == '/')
    requires !Beats(q, a, restoring)
    ensures q == a || Beats(a, q, restoring)
  {
    hide IsRule;
    LessIsTotal(a.visible, q.visible);
    if |Pattern(a, restoring)| == |Pattern(q, restoring)| {
      LongerIsBelow(Pattern(a, restoring), t, Pattern(q, restoring), u);
    }
  }

  /** A match that no applying rule beats is chosen, from rules as they are installed. */
  lemma InstalledChoice(rules: seq<PathRule>, m: Match, path: string, restoring: bool)
    requires Installable(rules) && m.rule in rules && Fits(m, path, restoring) && Safe(m.tail)
    requires forall q :: q in rules && Applies(q, m.rule.caller, path, restoring) ==> !Beats(q, m.rule, restoring)
    ensures Choose(rules, m.rule.caller, path, restoring) == Chosen(m)
  {
    var p := Pattern(m.rule, restoring);
    assert IsRule(m.rule);
    RulePathIsSafe(p);
    MatchIsFound(m, path, restoring);
    assert m.root + p + m.tail == m.root + (p + m.tail);
    hide MatchOf, Safe, Beats, IsRoot, IsRule, Pattern;
    forall q | q in rules && Applies(q, m.rule.caller, path, restoring)
      ensures (q == m.rule || Beats(m.rule, q, restoring)) && Safe(MatchOf(q, path, restoring).value.tail)
    {
      var n := MatchOf(q, path, restoring).value;
      MatchesAt(m.rule.user, m.root, path, q, restoring);
      SameSuffix(m.root, p + m.tail, Pattern(q, restoring) + n.tail);
      OtherTailIsSafe(p, m.tail, Pattern(q, restoring), n.tail);
      Unbeaten(rules, m.rule, q, m.tail, n.tail, restoring);
    }
    UnbeatenIsChosen(rules, m.rule.caller, path, restoring, m);
  }

  /** Nothing longer than the chosen rule covers a front of what it was chosen for. */
  lemma NoneLonger(rules: seq<PathRule>, m: Match, path: string, u: string, t: string, c: PathRule)
    requires Choose(rules, m.rule.caller, path, false) == Chosen(m) && Fits(m, path, false)
    requires m.tail == u + t && (t == "" || t[0] == '/')
    requires c in rules && SameScope(m.rule, c) && |c.visible| > |m.rule.visible|
    ensures !IsSameOrAncestor(c.visible, m.rule.visible + u)
  {
    hide *;
    if IsSameOrAncestor(c.visible, m.rule.visible + u) {
      CoversMore(c.visible, m.rule.visible + u, t);
      assert m.rule.visible + u + t == m.rule.visible + m.tail;
      AppliesThere(m, path, c);
      ChosenIsLongest(rules, m.rule.caller, path, false, c);
      VisibleIsPattern(c);
      VisibleIsPattern(m.rule);
    }
  }

  lemma VisibleIsPattern(r: PathRule)
    ensures Pattern(r, false) == r.visible && Pattern(r, true) == r.backing
  {
  }

  /** A rule that restores in the place of the one that rewrote confuses it. */
  lemma BeatenIsConfused(rules: seq<PathRule>, m: Match, path: string, out: string, q: PathRule)
    requires m.rule.visible != m.rule.backing && Choose(rules, m.rule.caller, path, false) == Chosen(m)
    requires m.rule in rules && Fits(m, path, false) && Fits(m, out, true)
    requires q in rules && Applies(q, m.rule.caller, out, true) && Beats(q, m.rule, true)
    ensures Confuses(rules, m.rule, q)
  {
    hide MatchOf, Choose, IsRoot, Safe;
    var a, n := m.rule, MatchOf(q, out, true).value;
    MatchesAt(a.user, m.root, out, q, true);
    assert m.root + a.backing + m.tail == m.root + (a.backing + m.tail);
    SameSuffix(m.root, a.backing + m.tail, q.backing + n.tail);
    LongerIsBelow(a.backing, m.tail, q.backing, n.tail);
    hide IsSameOrAncestor, Less, Fits;
    var u := q.backing[|a.backing|..];
    forall c | c in rules && SameScope(a, c) && |c.visible| > |a.visible|
      ensures !IsSameOrAncestor(c.visible, a.visible + u)
    {
      NoneLonger(rules, m, path, u, n.tail, c);
    }
  }

  lemma AppliesThere(m: Match, path: string, c: PathRule)
    requires Fits(m, path, false) && SameScope(m.rule, c) && IsSameOrAncestor(c.visible, m.rule.visible + m.tail)
    ensures Applies(c, m.rule.caller, path, false)
  {
    hide IsRoot, Root;
    var s := m.rule.visible + m.tail;
    var n := Match(c, m.root, s[|c.visible|..]);
    assert s == c.visible + n.tail;
    assert m.root + m.rule.visible + m.tail == m.root + s == m.root + c.visible + n.tail;
    assert Fits(n, path, false);
    MatchIsFound(n, path, false);
  }

  lemma UnconfusedIsUndone(rules: seq<PathRule>, caller: int, path: string, capacity: nat, room: nat)
    requires Installable(rules) && !(exists a, b :: Confuses(rules, a, b) && a.caller == caller)
    ensures Undone(rules, caller, path, capacity, room)
  {
    if Mapped(rules, caller, path, capacity, false).Some? && |path| < room {
      ChosenFits(rules, caller, path, false);
      var m := Choose(rules, caller, path, false).m;
      var out := m.root + m.rule.backing + m.tail;
      RootsAreAbsolute(m.rule.user, m.root, path);
      RootStays(m, path, out);
      hide Choose, Installable, Confuses, MatchOf, IsRoot, Safe;
      forall q | q in rules && Applies(q, caller, out, true) ensures !Beats(q, m.rule, true) {
        if Beats(q, m.rule, true) {
          BeatenIsConfused(rules, m, path, out, q);
        }
      }
      InstalledChoice(rules, m, out, true);
    }
  }

  /** The path that shows a confusion. */
  lemma ConfusedPath(rules: seq<PathRule>, a: PathRule, b: PathRule) returns (path: string, out: string, root: string)
    requires Installable(rules) && Confuses(rules, a, b)
    ensures IsRoot(a.user, root, path) && IsRoot(a.user, root, out) && out == root + b.backing
    ensures path == root + (a.visible + b.backing[|a.backing|..])
    ensures Mapped(rules, a.caller, path, |out| + 1, false) == Some(out)
  {
    hide Installable, MatchOf, IsRoot, Safe, IsRule, MediaRoot, Choose;
    var u := b.backing[|a.backing|..];
    root := MediaRoot(a.user);
    path, out := root + (a.visible + u), root + b.backing;
    MediaPaths(rules, a, a.visible + u);
    MediaPaths(rules, a, b.backing);
    TailIsSafe(rules, a, b);
    assert root + a.visible + u == path && root + a.backing + u == out;
    ConfusedChoice(rules, a, b, root, path);
    SameFront(a.visible, a.backing, u);
    if path == out {
      SameSuffix(root, a.visible + u, b.backing);
    }
  }

  lemma MediaPaths(rules: seq<PathRule>, a: PathRule, rest: string)
    requires Installable(rules) && a in rules
    ensures var root := MediaRoot(a.user);
      IsRoot(a.user, root, root + rest) && root != "" && (root + rest)[0] == '/' && a.caller >= FIRST_APP_UID
  {
    hide IsRoot, IsRulePath, MediaRoot;
    assert IsRule(a);
    MediaRootFits(a.user, rest);
    RootsAreAbsolute(a.user, MediaRoot(a.user), MediaRoot(a.user) + rest);
  }

  lemma TailIsSafe(rules: seq<PathRule>, a: PathRule, b: PathRule)
    requires Installable(rules) && b in rules && IsSameOrAncestor(a.backing, b.backing)
    ensures var u := b.backing[|a.backing|..]; Safe(u) && b.backing == a.backing + u && (u == "" || u[0] == '/')
  {
    hide Safe, IsRulePath;
    assert IsRule(b);
    RulePathIsSafe(b.backing);
    assert b.backing == a.backing + b.backing[|a.backing|..];
    SafeConcat(a.backing, b.backing[|a.backing|..]);
  }

  lemma ConfusedChoice(rules: seq<PathRule>, a: PathRule, b: PathRule, root: string, path: string)
    requires Installable(rules) && Confuses(rules, a, b) && IsRoot(a.user, root, path)
    requires path == root + (a.visible + b.backing[|a.backing|..])
    ensures Choose(rules, a.caller, path, false) == Chosen(Match(a, root, b.backing[|a.backing|..]))
  {
    hide Installable, MatchOf, IsRoot, Safe, Choose;
    TailIsSafe(rules, a, b);
    var u := b.backing[|a.backing|..];
    assert root + a.visible + u == path;
    forall q | q in rules && Applies(q, a.caller, path, false) ensures !Beats(q, a, false) {
      MatchesAt(a.user, root, path, q, false);
      var n := MatchOf(q, path, false).value;
      SameSuffix(root, a.visible + u, q.visible + n.tail);
      CoversFront(q.visible, n.tail);
    }
    InstalledChoice(rules, Match(a, root, u), path, false);
  }

  lemma CoversFront(p: string, t: string)
    requires t == "" || t[0] == '/'
    ensures IsSameOrAncestor(p, p + t)
  {
    assert t == "" ==> p + t == p;
  }

  lemma SameFront(x: string, y: string, z: string)
    ensures x + z == y + z ==> x == y
  {
    if x + z == y + z {
      assert |x| == |y| && (x + z)[..|x|] == x && (y + z)[..|x|] == y;
    }
  }

  function MediaRoot(user: nat): string { RootAt(user, 2) }

  lemma MediaRootFits(user: nat, rest: string)
    requires user <= UINT32_MAX
    ensures IsRoot(user, MediaRoot(user), MediaRoot(user) + rest)
  {
    assert Pow10(5) == 100000;
    assert Pow10(10) == 10000000000;
    DecimalFits(user, 10);
    hide Decimal;
    assert Roots(user)[2] == MediaRoot(user);
  }

  lemma ConfusedIsNotUndone(rules: seq<PathRule>, a: PathRule, b: PathRule)
    requires Installable(rules) && Confuses(rules, a, b)
    ensures exists path, capacity: nat, room: nat :: !Undone(rules, a.caller, path, capacity, room)
  {
    var path, out, root := ConfusedPath(rules, a, b);
    hide Installable, MatchOf, IsRoot, Safe, Choose, Mapped;
    var room := |path| + 1;
    if Mapped(rules, a.caller, out, room, true) == Some(path) {
      RestoredElsewhere(rules, a, b, path, out, root, room);
    }
    assert !Undone(rules, a.caller, path, |out| + 1, room);
  }

  lemma RestoredElsewhere(
      rules: seq<PathRule>, a: PathRule, b: PathRule, path: string, out: string, root: string, room: nat)
    requires Installable(rules) && Confuses(rules, a, b) && out == root + b.backing
    requires IsRoot(a.user, root, out) && path == root + (a.visible + b.backing[|a.backing|..])
    ensures Mapped(rules, a.caller, out, room, true) != Some(path)
  {
    if Mapped(rules, a.caller, out, room, true) == Some(path) {
      ChosenFits(rules, a.caller, out, true);
      var n := Choose(rules, a.caller, out, true).m;
      var c := n.rule;
      MatchIsFound(Match(b, root, ""), out, true);
      ChosenIsUnbeaten(rules, a.caller, out, true, b);
      OneRoot(out, a.user, root, c.user, n.root);
      hide Installable, MatchOf, IsRoot, Safe, Choose;
      assert root + c.backing + n.tail == root + (c.backing + n.tail);
      SameSuffix(root, b.backing, c.backing + n.tail);
      assert c.backing == b.backing && n.tail == "";
      assert root + c.visible + n.tail == root + c.visible;
      SameSuffix(root, c.visible, a.visible + b.backing[|a.backing|..]);
      OnlyOneVisible(rules, a, b, c);
    }
  }

  lemma OnlyOneVisible(rules: seq<PathRule>, a: PathRule, b: PathRule, c: PathRule)
    requires Confuses(rules, a, b) && c in rules && SameScope(a, c) && c.backing == b.backing
    requires c.visible == a.visible + b.backing[|a.backing|..]
    ensures Beats(b, c, true)
  {
    assert a.backing == b.backing ==> b.backing[|a.backing|..] == "" && c.visible == a.visible;
  }

  /** MAIN RESULT. Of the rules the installer takes, restoring undoes every rewrite of a caller if
      and only if none of its rules confuses another. */
  lemma RestoreExactly(rules: seq<PathRule>, caller: int)
    requires Installable(rules)
    ensures (forall path, capacity: nat, room: nat :: Undone(rules, caller, path, capacity, room))
       <==> !(exists a, b :: Confuses(rules, a, b) && a.caller == caller)
  {
    hide Undone, Confuses, Installable;
    if a, b :| Confuses(rules, a, b) && a.caller == caller {
      ConfusedIsNotUndone(rules, a, b);
    } else {
      forall path, capacity: nat, room: nat ensures Undone(rules, caller, path, capacity, room) {
        UnconfusedIsUndone(rules, caller, path, capacity, room);
      }
    }
  }

  /** Rules whose backing paths do not overlap confuse none. */
  lemma ApartConfusesNone(rules: seq<PathRule>, caller: int, a: PathRule, b: PathRule)
    requires BackingsApart(rules, caller) && a.caller == caller
    ensures !Confuses(rules, a, b)
  {
    LessIsStrict(a.visible, a.visible);
  }

  const SHARED := [PathRule(10000, 0, "b", "x"), PathRule(10000, 0, "a", "x")]

  lemma NameIsPath(c: char)
    requires c != '/' && c != '.' && c != '{' && c != '}'
    ensures IsRulePath([c])
  {
    assert PieceEnd([c], '/') == 1;
    NamesAtPiece([c]);
  }

  /** Two rules with one backing path: what was made from the one is restored as the other. */
  lemma SharedBackingIsAmbiguous()
    ensures Installable(SHARED) && exists path, capacity: nat, room: nat :: !Undone(SHARED, 10000, path, capacity, room)
  {
    NameIsPath('a');
    NameIsPath('b');
    NameIsPath('x');
    hide IsRulePath, Undone;
    assert SHARED[0] in SHARED && SHARED[1] in SHARED && Less("a", "b");
    ConfusedIsNotUndone(SHARED, SHARED[0], SHARED[1]);
  }
}
