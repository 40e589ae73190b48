/** The conflict checks and the canonical form of one application's rules:
    ValidateRedirects, ValidateDeny and CompileRules of rules/src/semantic.cpp. */
module Semantic {
  import opened PathOrder
  import opened Sorting
  import opened Neighbours
  import opened RedirectCycle

  datatype DenyRule = DenyRule(path: string, id: nat)

  // ------------------------------------------------------------- diagnostics

  datatype FindingKind =
    | DuplicateRedirect | RedundantDeny
    | SourceTargetOverlap | SourceConflict | CycleFound | PickerWithoutRedirect | DenyConflict

  datatype Finding = Finding(kind: FindingKind, rule: nat) {
    predicate IsError() { kind != DuplicateRedirect && kind != RedundantDeny }
  }

  /** A full list takes nothing more, errors included. */
  function Add(ds: seq<Finding>, f: Finding, limit: nat): seq<Finding> {
    if |ds| >= limit then ds else ds + [f]
  }

  function AddAll(ds: seq<Finding>, fs: seq<Finding>, limit: nat): seq<Finding> {
    if fs == [] then ds else Add(AddAll(ds, fs[..|fs| - 1], limit), fs[|fs| - 1], limit)
  }

  predicate HasErrors(ds: seq<Finding>) { exists f :: f in ds && f.IsError() }

  predicate Raises(fs: seq<Finding>, kind: FindingKind) { exists f :: f in fs && f.kind == kind }

  /** A list that did not fill up holds everything that was found. */
  lemma {:induction false} NothingLost(ds: seq<Finding>, fs: seq<Finding>, limit: nat)
    ensures |ds| <= |AddAll(ds, fs, limit)|
    ensures |AddAll(ds, fs, limit)| < limit ==> AddAll(ds, fs, limit) == ds + fs
  {
    if fs == [] {
      assert ds + fs == ds;
    } else {
      NothingLost(ds, fs[..|fs| - 1], limit);
      assert fs == fs[..|fs| - 1] + [fs[|fs| - 1]];
    }
  }

  lemma NothingAdded(ds: seq<Finding>, limit: nat)
    ensures AddAll(ds, [], limit) == ds
  {
  }

  lemma {:induction false} AddAllConcat(ds: seq<Finding>, a: seq<Finding>, b: seq<Finding>, limit: nat)
    ensures AddAll(AddAll(ds, a, limit), b, limit) == AddAll(ds, a + b, limit)
  {
    if b == [] {
      assert a + b == a;
    } else {
      var init := b[..|b| - 1];
      AddAllConcat(ds, a, init, limit);
      assert (a + b)[..|a + b| - 1] == a + init;
    }
  }

  lemma AddOne(ds: seq<Finding>, fs: seq<Finding>, f: Finding, limit: nat)
    ensures Add(AddAll(ds, fs, limit), f, limit) == AddAll(ds, fs + [f], limit)
  {
    assert (fs + [f])[..|fs|] == fs;
  }

  // ----------------------------------------------------------------- orders

  predicate PairAtMost(a: (string, string), b: (string, string)) {
    Less(a.0, b.0) || (a.0 == b.0 && AtMost(a.1, b.1))
  }

  predicate RuleAtMost(a: Rule, b: Rule) {
    || Less(a.source, b.source)
    || (a.source == b.source && (Less(a.target, b.target) || (a.target == b.target && a.id <= b.id)))
  }

  predicate DenyAtMost(a: DenyRule, b: DenyRule) { Less(a.path, b.path) || (a.path == b.path && a.id <= b.id) }

  lemma PathsAreOrdered()
    ensures TotalOrder(AtMost)
  {
    forall a, b ensures AtMost(a, b) || AtMost(b, a) { LessIsTotal(a, b); }
    forall a, b ensures AtMost(a, b) && AtMost(b, a) ==> a == b { LessIsStrict(a, b); }
    forall a, b, c ensures AtMost(a, b) && AtMost(b, c) ==> AtMost(a, c) {
      if Less(a, b) && Less(b, c) { LessTransitive(a, b, c); }
    }
  }

  lemma PairsAreOrdered()
    ensures TotalOrder(PairAtMost)
  {
    forall a, b ensures PairAtMost(a, b) || PairAtMost(b, a) { LessIsTotal(a.0, b.0); LessIsTotal(a.1, b.1); }
    forall a, b ensures PairAtMost(a, b) && PairAtMost(b, a) ==> a == b { LessIsStrict(a.0, b.0); LessIsStrict(a.1, b.1); }
    forall a, b, c ensures PairAtMost(a, b) && PairAtMost(b, c) ==> PairAtMost(a, c) {
      if Less(a.0, b.0) && Less(b.0, c.0) { LessTransitive(a.0, b.0, c.0); }
      if Less(a.1, b.1) && Less(b.1, c.1) { LessTransitive(a.1, b.1, c.1); }
    }
  }

  lemma RulesAreOrdered()
    ensures TotalOrder(RuleAtMost)
  {
    forall a, b ensures RuleAtMost(a, b) || RuleAtMost(b, a) {
      LessIsTotal(a.source, b.source); LessIsTotal(a.target, b.target);
    }
    forall a, b ensures RuleAtMost(a, b) && RuleAtMost(b, a) ==> a == b {
      LessIsStrict(a.source, b.source); LessIsStrict(a.target, b.target);
    }
    forall a, b, c ensures RuleAtMost(a, b) && RuleAtMost(b, c) ==> RuleAtMost(a, c) {
      if Less(a.source, b.source) && Less(b.source, c.source) { LessTransitive(a.source, b.source, c.source); }
      if Less(a.target, b.target) && Less(b.target, c.target) { LessTransitive(a.target, b.target, c.target); }
    }
  }

  lemma DeniesAreOrdered()
    ensures TotalOrder(DenyAtMost)
  {
    forall a, b ensures DenyAtMost(a, b) || DenyAtMost(b, a) { LessIsTotal(a.path, b.path); }
    forall a, b ensures DenyAtMost(a, b) && DenyAtMost(b, a) ==> a == b { LessIsStrict(a.path, b.path); }
    forall a, b, c ensures DenyAtMost(a, b) && DenyAtMost(b, c) ==> DenyAtMost(a, c) {
      if Less(a.path, b.path) && Less(b.path, c.path) { LessTransitive(a.path, b.path, c.path); }
    }
  }

  // ------------------------------------------------------------- projections

  function Source(r: Rule): string { r.source }

  function Pair(r: Rule): (string, string) { (r.source, r.target) }

  function Path(d: DenyRule): string { d.path }

  function Sources(rules: seq<Rule>): seq<string> { Map(Source, rules) }

  function Pairs(rules: seq<Rule>): seq<(string, string)> { Map(Pair, rules) }

  function Paths(deny: seq<DenyRule>): seq<string> { Map(Path, deny) }

  // ----------------------------------------------------------------- redirects

  method DropDuplicates(sorted: seq<Rule>, ds: seq<Finding>, limit: nat)
    returns (unique: seq<Rule>, out: seq<Finding>, ghost fs: seq<Finding>)
    ensures Pairs(unique) == Unique(Pairs(sorted))
    ensures out == AddAll(ds, fs, limit) && forall f :: f in fs ==> f.kind == DuplicateRedirect
  {
    unique, out, fs := [], ds, [];
    for i := 0 to |sorted|
      invariant Pairs(unique) == Unique(Pairs(sorted[..i]))
      invariant out == AddAll(ds, fs, limit) && forall f :: f in fs ==> f.kind == DuplicateRedirect
    {
      var rule := sorted[i];
      assert Pairs(sorted[..i + 1])[..i] == Pairs(sorted[..i]);
      if unique != [] && unique[|unique| - 1].source == rule.source && unique[|unique| - 1].target == rule.target {
        AddOne(ds, fs, Finding(DuplicateRedirect, rule.id), limit);
        out, fs := Add(out, Finding(DuplicateRedirect, rule.id), limit), fs + [Finding(DuplicateRedirect, rule.id)];
      } else {
        unique := unique + [rule];
      }
    }
    assert sorted[..|sorted|] == sorted;
  }

  predicate SelfOverlap(rules: seq<Rule>) { exists i :: 0 <= i < |rules| && Overlap(rules[i].source, rules[i].target) }

  method CheckOverlaps(rules: seq<Rule>, ds: seq<Finding>, limit: nat) returns (out: seq<Finding>, ghost fs: seq<Finding>)
    ensures out == AddAll(ds, fs, limit)
    ensures forall f :: f in fs ==> f.kind == SourceTargetOverlap || f.kind == SourceConflict
    ensures Raises(fs, SourceTargetOverlap) <==> SelfOverlap(rules)
    ensures Raises(fs, SourceConflict) <==> NeighbourOverlap(Sources(rules))
  {
    hide Overlap, AddAll;
    out, fs := ds, [];
    ghost var sources := Sources(rules);
    NothingAdded(ds, limit);
    for i := 0 to |rules|
      invariant out == AddAll(ds, fs, limit)
      invariant forall f :: f in fs ==> f.kind == SourceTargetOverlap || f.kind == SourceConflict
      invariant Raises(fs, SourceTargetOverlap) <==> exists j :: 0 <= j < i && Overlap(rules[j].source, rules[j].target)
      invariant Raises(fs, SourceConflict) <==> exists j :: 0 < j < i && Overlap(sources[j - 1], sources[j])
    {
      var current := rules[i];
      if Overlap(current.source, current.target) {
        out, fs := Report(ds, out, fs, Finding(SourceTargetOverlap, current.id), limit);
      }
      if i > 0 && Overlap(rules[i - 1].source, current.source) {
        out, fs := Report(ds, out, fs, Finding(SourceConflict, current.id), limit);
      }
      assert i > 0 ==> Overlap(sources[i - 1], sources[i]) == Overlap(rules[i - 1].source, current.source);
    }
  }

  method Report(ghost ds: seq<Finding>, had: seq<Finding>, ghost fs: seq<Finding>, f: Finding, limit: nat)
    returns (out: seq<Finding>, ghost fs': seq<Finding>)
    requires had == AddAll(ds, fs, limit)
    ensures out == AddAll(ds, fs', limit) && fs' == fs + [f]
    ensures forall k :: Raises(fs', k) <==> Raises(fs, k) || k == f.kind
  {
    AddOne(ds, fs, f, limit);
    out, fs' := Add(had, f, limit), fs + [f];
    forall k ensures Raises(fs', k) <==> Raises(fs, k) || k == f.kind {
      if Raises(fs, k) {
        var g :| g in fs && g.kind == k;
        assert g in fs';
      }
      if k == f.kind {
        assert f in fs';
      }
    }
  }

  // ---------------------------------------------------------------------- deny

  method DropCovered(sorted: seq<DenyRule>, ds: seq<Finding>, limit: nat)
    returns (unique: seq<DenyRule>, out: seq<Finding>, ghost fs: seq<Finding>)
    ensures Paths(unique) == Reduced(Paths(sorted))
    ensures out == AddAll(ds, fs, limit) && forall f :: f in fs ==> f.kind == RedundantDeny
  {
    unique, out, fs := [], ds, [];
    for i := 0 to |sorted|
      invariant Paths(unique) == Reduced(Paths(sorted[..i]))
      invariant out == AddAll(ds, fs, limit) && forall f :: f in fs ==> f.kind == RedundantDeny
    {
      var current := sorted[i];
      assert Paths(sorted[..i + 1])[..i] == Paths(sorted[..i]);
      if unique != [] && IsSameOrAncestor(unique[|unique| - 1].path, current.path) {
        AddOne(ds, fs, Finding(RedundantDeny, current.id), limit);
        out, fs := Add(out, Finding(RedundantDeny, current.id), limit), fs + [Finding(RedundantDeny, current.id)];
      } else {
        unique := unique + [current];
      }
    }
    assert sorted[..|sorted|] == sorted;
  }

  method LowerBound(deny: seq<DenyRule>, path: string) returns (k: nat)
    requires StrictlySorted(Paths(deny))
    ensures k <= |deny|
    ensures forall i :: 0 <= i < k ==> Less(deny[i].path, path)
    ensures forall i :: k <= i < |deny| ==> !Less(deny[i].path, path)
  {
    k := 0;
    var high := |deny|;
    ghost var s := Paths(deny);
    while k < high
      invariant k <= high <= |deny|
      invariant forall i :: 0 <= i < k ==> Less(deny[i].path, path)
      invariant forall i :: high <= i < |deny| ==> !Less(deny[i].path, path)
    {
      var mid := (k + high) / 2;
      if Less(deny[mid].path, path) {
        forall i | k <= i < mid ensures Less(deny[i].path, path) {
          assert Less(s[i], s[mid]);
          LessTransitive(deny[i].path, deny[mid].path, path);
        }
        k := mid + 1;
      } else {
        forall i | mid < i < high ensures !Less(deny[i].path, path) {
          assert Less(s[mid], s[i]);
          if Less(deny[i].path, path) { LessTransitive(deny[mid].path, deny[i].path, path); }
        }
        high := mid;
      }
    }
  }

  predicate DeniedSource(deny: seq<string>, rules: seq<Rule>) {
    exists i :: 0 <= i < |rules| && Meets(deny, rules[i].source)
  }

  method CheckDenied(deny: seq<DenyRule>, rules: seq<Rule>, ds: seq<Finding>, limit: nat)
    returns (out: seq<Finding>, ghost fs: seq<Finding>)
    requires StrictlySorted(Paths(deny))
    ensures out == AddAll(ds, fs, limit) && forall f :: f in fs ==> f.kind == DenyConflict
    ensures Raises(fs, DenyConflict) <==> DeniedSource(Paths(deny), rules)
  {
    out, fs := ds, [];
    for i := 0 to |rules|
      invariant out == AddAll(ds, fs, limit) && forall f :: f in fs ==> f.kind == DenyConflict
      invariant Raises(fs, DenyConflict) <==> exists j :: 0 <= j < i && Meets(Paths(deny), rules[j].source)
    {
      var source := rules[i].source;
      var next := LowerBound(deny, source);
      InsertionPoint(Paths(deny), source, next);
      var conflict := next < |deny| && source == deny[next].path;
      if next > 0 && IsSameOrAncestor(deny[next - 1].path, source) {
        conflict := true;
      }
      if conflict {
        out, fs := Report(ds, out, fs, Finding(DenyConflict, rules[i].id), limit);
      }
    }
  }

  // ------------------------------------------------------------- one application

  /** What the redirect checks report about the list they leave behind. */
  predicate RedirectFindings(fs: seq<Finding>, rules: seq<Rule>, filePicker: bool, cyclic: bool) {
    && (Raises(fs, SourceTargetOverlap) <==> SelfOverlap(rules))
    && (Raises(fs, SourceConflict) <==> NeighbourOverlap(Sources(rules)))
    && (Raises(fs, CycleFound) <==> cyclic)
    && (Raises(fs, PickerWithoutRedirect) <==> filePicker && rules == [])
    && !Raises(fs, DenyConflict)
  }

  lemma RaisesConcat(a: seq<Finding>, b: seq<Finding>, k: FindingKind)
    ensures Raises(a + b, k) <==> Raises(a, k) || Raises(b, k)
  {
    if Raises(a, k) {
      var f :| f in a && f.kind == k;
      assert f in a + b;
    }
    if Raises(b, k) {
      var f :| f in b && f.kind == k;
      assert f in a + b;
    }
  }

  class App {
    var redirects: seq<Rule>
    var deny: seq<DenyRule>
    const filePicker: bool

    constructor (redirects: seq<Rule>, deny: seq<DenyRule>, filePicker: bool)
      ensures this.redirects == redirects && this.deny == deny && this.filePicker == filePicker
    {
      this.redirects, this.deny, this.filePicker := redirects, deny, filePicker;
    }

    method ValidateRedirects(ds: seq<Finding>, limit: nat) returns (out: seq<Finding>, ghost fs: seq<Finding>)
      modifies this`redirects
      ensures Pairs(redirects) == Unique(Pairs(SortBy(RuleAtMost, old(redirects))))
      ensures out == AddAll(ds, fs, limit)
      ensures RedirectFindings(fs, redirects, filePicker, Cyclic(redirects))
    {
      hide Cyclic, SelfOverlap, NeighbourOverlap, AddAll, Unique, SortBy;
      var sorted := SortBy(RuleAtMost, redirects);
      var unique, out1, dropped := DropDuplicates(sorted, ds, limit);
      redirects := unique;
      out, fs := CheckOverlaps(redirects, out1, limit);
      assert !Raises(fs, CycleFound) && !Raises(fs, PickerWithoutRedirect) && !Raises(fs, DenyConflict);
      var cycle := FindCycle(redirects);
      if cycle.Some? {
        out, fs := Report(out1, out, fs, Finding(CycleFound, redirects[cycle.value].id), limit);
      }
      if filePicker && redirects == [] {
        out, fs := Report(out1, out, fs, Finding(PickerWithoutRedirect, 0), limit);
      }
      AddAllConcat(ds, dropped, fs, limit);
      forall k ensures Raises(dropped + fs, k) <==> Raises(dropped, k) || Raises(fs, k) { RaisesConcat(dropped, fs, k); }
      fs := dropped + fs;
    }

    method ValidateDeny(ds: seq<Finding>, limit: nat) returns (out: seq<Finding>, ghost fs: seq<Finding>)
      modifies this`deny
      ensures Paths(deny) == Reduced(Paths(SortBy(DenyAtMost, old(deny))))
      ensures out == AddAll(ds, fs, limit)
      ensures Raises(fs, DenyConflict) <==> DeniedSource(Paths(deny), redirects)
      ensures forall f :: f in fs && f.IsError() ==> f.kind == DenyConflict
    {
      DeniesAreOrdered();
      SortBySorts(DenyAtMost, deny);
      hide DeniedSource, AddAll, Reduced, SortBy, TotalOrder;
      var sorted := SortBy(DenyAtMost, deny);
      SortedDenyPaths(sorted);
      ReducedStaysSorted(Paths(sorted));
      var unique, out1, dropped := DropCovered(sorted, ds, limit);
      deny := unique;
      ghost var checked;
      out, checked := CheckDenied(deny, redirects, out1, limit);
      AddAllConcat(ds, dropped, checked, limit);
      RaisesConcat(dropped, checked, DenyConflict);
      fs := dropped + checked;
    }

    /** MAIN RESULT. If no path has a byte sorting before the separator and the list of
        diagnostics did not fill up, an error is reported exactly when the rules are in each
        other's way. */
    method Validate(ds: seq<Finding>, limit: nat) returns (out: seq<Finding>)
      requires !HasErrors(ds)
      modifies this`redirects, this`deny
      ensures |out| < limit
              && (forall r :: r in old(redirects) ==> PathOrder.Plain(r.source))
              && (forall d :: d in old(deny) ==> PathOrder.Plain(d.path))
           ==> (HasErrors(out) <==>
                !Consistent(old(redirects), old(deny)) || (filePicker && old(redirects) == []))
      ensures Pairs(redirects) == Unique(Pairs(SortBy(RuleAtMost, old(redirects))))
      ensures Paths(deny) == Reduced(Paths(SortBy(DenyAtMost, old(deny))))
    {
      hide *;
      ghost var rules0, deny0 := redirects, deny;
      var mid, fs1 := ValidateRedirects(ds, limit);
      ghost var fs2;
      out, fs2 := ValidateDeny(mid, limit);
      SilenceMeansConsistent(rules0, deny0, redirects, deny, filePicker, ds, mid, out, fs1, fs2, limit);
      ErrorMeansConflict(rules0, deny0, redirects, deny, filePicker, ds, mid, out, fs1, fs2, limit);
    }
  }

  /** No two redirects overlap at their sources, none overlaps its own target, no deny covers a
      redirect's source, and no chain of redirects comes back. */
  ghost predicate Consistent(rules: seq<Rule>, deny: seq<DenyRule>) {
    && (forall r, q :: r in rules && q in rules && Overlap(r.source, q.source) ==> Pair(r) == Pair(q))
    && (forall r :: r in rules ==> !Overlap(r.source, r.target))
    && (forall r, d :: r in rules && d in deny ==> !IsSameOrAncestor(d.path, r.source))
    && !PathCycle(rules)
  }

  // --------------------------------------------------------------- the argument

  lemma SortedDenyPaths(sorted: seq<DenyRule>)
    requires SortedBy(DenyAtMost, sorted)
    ensures SortedPaths(Paths(sorted))
  {
    var s := Paths(sorted);
    forall i, j | 0 <= i < j < |s| ensures AtMost(s[i], s[j]) {
      assert DenyAtMost(sorted[i], sorted[j]);
    }
  }

  lemma SortedRulePairs(sorted: seq<Rule>)
    requires SortedBy(RuleAtMost, sorted)
    ensures SortedBy(PairAtMost, Pairs(sorted))
  {
    var s := Pairs(sorted);
    forall i, j | 0 <= i < j < |s| ensures PairAtMost(s[i], s[j]) {
      assert RuleAtMost(sorted[i], sorted[j]);
    }
  }

  lemma PairsSortSources(rules: seq<Rule>)
    requires SortedBy(PairAtMost, Pairs(rules))
    ensures SortedPaths(Sources(rules))
  {
    var s := Sources(rules);
    forall i, j | 0 <= i < j < |s| ensures AtMost(s[i], s[j]) {
      assert PairAtMost(Pairs(rules)[i], Pairs(rules)[j]);
    }
  }

  /** Sorting and merging neither lose nor invent a rule. */
  lemma SamePairs(rules0: seq<Rule>, rules: seq<Rule>, p: (string, string))
    requires Pairs(rules) == Unique(Pairs(SortBy(RuleAtMost, rules0)))
    ensures p in Pairs(rules) <==> p in Pairs(rules0)
  {
    RulesAreOrdered();
    SortBySorts(RuleAtMost, rules0);
    hide *;
    var sorted := SortBy(RuleAtMost, rules0);
    UniqueKeepsMembers(Pairs(sorted), p);
    PairsOf(sorted, p);
    PairsOf(rules0, p);
    forall r ensures r in sorted <==> r in rules0 { SameMembers(sorted, rules0, r); }
  }

  lemma PairsOf(rules: seq<Rule>, p: (string, string))
    ensures p in Pairs(rules) <==> exists r :: r in rules && Pair(r) == p
  {
    MapMembers(Pair, rules, p);
  }

  /** The rules that are left, sorted, with sources from the original ones. */
  lemma LeftSorted(rules0: seq<Rule>, rules: seq<Rule>)
    requires Pairs(rules) == Unique(Pairs(SortBy(RuleAtMost, rules0)))
    ensures SortedPaths(Sources(rules))
  {
    RulesAreOrdered();
    SortBySorts(RuleAtMost, rules0);
    hide *;
    SortedRulePairs(SortBy(RuleAtMost, rules0));
    UniqueStaysSorted(PairAtMost, Pairs(SortBy(RuleAtMost, rules0)));
    PairsSortSources(rules);
  }

  lemma LeftPlain(rules0: seq<Rule>, rules: seq<Rule>)
    requires Pairs(rules) == Unique(Pairs(SortBy(RuleAtMost, rules0)))
    requires forall r :: r in rules0 ==> PathOrder.Plain(r.source)
    ensures AllPlain(Sources(rules))
  {
    hide Unique, SortBy, PathOrder.Plain;
    forall p | p in Sources(rules) ensures PathOrder.Plain(p) {
      MapMembers(Source, rules, p);
      var r :| r in rules && r.source == p;
      PairsOf(rules, Pair(r));
      SamePairs(rules0, rules, Pair(r));
      PairsOf(rules0, Pair(r));
      var q :| q in rules0 && Pair(q) == Pair(r);
    }
  }

  lemma NoErrorNoFinding(ds: seq<Finding>, fs: seq<Finding>, limit: nat, out: seq<Finding>, k: FindingKind)
    requires AddAll(ds, fs, limit) == out && |out| < limit && !HasErrors(out)
    requires k != DuplicateRedirect && k != RedundantDeny
    ensures !Raises(fs, k) && |ds| <= |out| && !HasErrors(ds)
  {
    NothingLost(ds, fs, limit);
    hide AddAll;
    assert out == ds + fs;
    forall f | f in fs ensures !f.IsError() { assert f in out; }
    forall f | f in ds ensures !f.IsError() { assert f in out; }
  }

  lemma NoPairOverlaps(rules: seq<Rule>)
    requires !AnyOverlap(Sources(rules))
    ensures DistinctSources(rules)
    ensures forall r, q :: r in rules && q in rules && Overlap(r.source, q.source) ==> r == q
  {
    var s := Sources(rules);
    forall i, j | 0 <= i < j < |rules| ensures rules[i].source != rules[j].source { assert !Overlap(s[i], s[j]); }
    forall r, q | r in rules && q in rules && r != q ensures !Overlap(r.source, q.source) {
      var i :| 0 <= i < |rules| && rules[i] == r;
      var j :| 0 <= j < |rules| && rules[j] == q;
      assert i < j ==> !Overlap(s[i], s[j]);
      assert j < i ==> !Overlap(s[j], s[i]);
    }
  }

  ghost function PairIndex(rules: seq<Rule>, p: (string, string)): (i: nat)
    requires p in Pairs(rules)
    ensures i < |rules| && Pair(rules[i]) == p
  {
    var i :| 0 <= i < |rules| && Pairs(rules)[i] == p;
    i
  }

  /** A closed walk along some rules is one along any rules that have the same pairs. */
  lemma WalkTransfers(a: seq<Rule>, b: seq<Rule>)
    requires PathCycle(a) && forall p :: p in Pairs(a) ==> p in Pairs(b)
    ensures PathCycle(b)
  {
    var walk :| ClosedWalk(a, walk);
    forall t | 0 <= t < |walk| ensures Pair(a[walk[t]]) in Pairs(b) {
      assert Pairs(a)[walk[t]] == Pair(a[walk[t]]);
    }
    var image := seq(|walk|, t requires 0 <= t < |walk| => PairIndex(b, Pair(a[walk[t]])));
    forall t | 0 < t < |image| ensures b[image[t - 1]].target == b[image[t]].source {
      assert a[walk[t - 1]].target == a[walk[t]].source;
    }
    assert ClosedWalk(b, image);
  }

  lemma DenyCoversNone(deny0: seq<DenyRule>, deny: seq<DenyRule>, rules: seq<Rule>)
    requires Paths(deny) == Reduced(Paths(SortBy(DenyAtMost, deny0)))
    requires forall d :: d in deny0 ==> PathOrder.Plain(d.path)
    requires !DeniedSource(Paths(deny), rules)
    ensures forall r, d :: r in rules && d in deny0 ==> !IsSameOrAncestor(d.path, r.source)
  {
    DeniesAreOrdered();
    SortBySorts(DenyAtMost, deny0);
    hide TotalOrder, SortBy, Reduced, PathOrder.Plain, IsSameOrAncestor, Meets;
    var sorted := SortBy(DenyAtMost, deny0);
    SortedDenyPaths(sorted);
    forall p | p in Paths(sorted) ensures PathOrder.Plain(p) {
      MapMembers(Path, sorted, p);
      var d :| d in sorted && d.path == p;
      SameMembers(sorted, deny0, d);
    }
    ReducedIsMinimal(Paths(sorted));
    forall p | p in Paths(deny) ensures PathOrder.Plain(p) { ReducedIsPart(Paths(sorted), p); }
    forall r, d | r in rules && d in deny0 ensures !IsSameOrAncestor(d.path, r.source) {
      MeetsIsCovered(Paths(deny), r.source);
      ReductionKeepsCoverage(Paths(sorted), r.source);
      SameMembers(sorted, deny0, d);
      MapMembers(Path, sorted, d.path);
    }
  }

  lemma SilenceMeansConsistent(
      rules0: seq<Rule>, deny0: seq<DenyRule>, rules: seq<Rule>, deny: seq<DenyRule>, filePicker: bool,
      ds: seq<Finding>, mid: seq<Finding>, out: seq<Finding>, fs1: seq<Finding>, fs2: seq<Finding>, limit: nat)
    requires Pairs(rules) == Unique(Pairs(SortBy(RuleAtMost, rules0)))
    requires Paths(deny) == Reduced(Paths(SortBy(DenyAtMost, deny0)))
    requires mid == AddAll(ds, fs1, limit) && out == AddAll(mid, fs2, limit)
    requires RedirectFindings(fs1, rules, filePicker, Cyclic(rules))
    requires Raises(fs2, DenyConflict) <==> DeniedSource(Paths(deny), rules)
    ensures |out| < limit && !HasErrors(out)
            && (forall r :: r in rules0 ==> PathOrder.Plain(r.source))
            && (forall d :: d in deny0 ==> PathOrder.Plain(d.path))
         ==> Consistent(rules0, deny0) && !(filePicker && rules0 == [])
  {
    if |out| < limit && !HasErrors(out) && (forall r :: r in rules0 ==> PathOrder.Plain(r.source))
       && (forall d :: d in deny0 ==> PathOrder.Plain(d.path)) {
      hide *;
      NoErrorNoFinding(mid, fs2, limit, out, DenyConflict);
      NoErrorNoFinding(ds, fs1, limit, mid, SourceTargetOverlap);
      NoErrorNoFinding(ds, fs1, limit, mid, SourceConflict);
      NoErrorNoFinding(ds, fs1, limit, mid, CycleFound);
      NoErrorNoFinding(ds, fs1, limit, mid, PickerWithoutRedirect);
      SameEmptiness(rules0, rules);
      ReadFindings(fs1, rules, filePicker, Cyclic(rules));
      LeftSorted(rules0, rules);
      LeftPlain(rules0, rules);
      NeighbourCheckComplete(Sources(rules));
      NoPairOverlaps(rules);
      DistinctSourcesMissNothing(rules);
      DenyCoversNone(deny0, deny, rules);
      Assemble(rules0, deny0, rules);
    }
  }

  lemma ReadFindings(fs: seq<Finding>, rules: seq<Rule>, filePicker: bool, cyclic: bool)
    requires RedirectFindings(fs, rules, filePicker, cyclic)
    ensures Raises(fs, SourceTargetOverlap) <==> SelfOverlap(rules)
    ensures Raises(fs, SourceConflict) <==> NeighbourOverlap(Sources(rules))
    ensures Raises(fs, CycleFound) <==> cyclic
    ensures Raises(fs, PickerWithoutRedirect) <==> filePicker && rules == []
  {
  }

  lemma SameEmptiness(rules0: seq<Rule>, rules: seq<Rule>)
    requires Pairs(rules) == Unique(Pairs(SortBy(RuleAtMost, rules0)))
    ensures rules == [] <==> rules0 == []
  {
    hide Unique, SortBy;
    if rules != [] {
      assert Pairs(rules)[0] in Pairs(rules);
      SamePairs(rules0, rules, Pairs(rules)[0]);
      assert rules0 != [];
    }
    if rules0 != [] {
      assert Pairs(rules0)[0] in Pairs(rules0);
      SamePairs(rules0, rules, Pairs(rules0)[0]);
      assert rules != [];
    }
  }

  /** The other half: an error names a real conflict. */
  lemma ErrorMeansConflict(
      rules0: seq<Rule>, deny0: seq<DenyRule>, rules: seq<Rule>, deny: seq<DenyRule>, filePicker: bool,
      ds: seq<Finding>, mid: seq<Finding>, out: seq<Finding>, fs1: seq<Finding>, fs2: seq<Finding>, limit: nat)
    requires Pairs(rules) == Unique(Pairs(SortBy(RuleAtMost, rules0)))
    requires Paths(deny) == Reduced(Paths(SortBy(DenyAtMost, deny0)))
    requires mid == AddAll(ds, fs1, limit) && out == AddAll(mid, fs2, limit) && !HasErrors(ds)
    requires RedirectFindings(fs1, rules, filePicker, Cyclic(rules))
    requires Raises(fs2, DenyConflict) <==> DeniedSource(Paths(deny), rules)
    requires forall f :: f in fs2 && f.IsError() ==> f.kind == DenyConflict
    ensures HasErrors(out) ==> !Consistent(rules0, deny0) || (filePicker && rules0 == [])
  {
    if Consistent(rules0, deny0) && !(filePicker && rules0 == []) {
      hide *;
      SameEmptiness(rules0, rules);
      ConsistentRedirects(rules0, deny0, rules);
      ConsistentDeny(rules0, deny0, rules, deny);
      SilentRedirects(fs1, rules, filePicker, Cyclic(rules));
      SilentDeny(fs2);
      AddedFrom(ds, fs1, limit);
      AddedFrom(mid, fs2, limit);
    }
  }

  lemma {:induction false} AddedFrom(ds: seq<Finding>, fs: seq<Finding>, limit: nat)
    requires !HasErrors(ds) && !HasErrors(fs)
    ensures !HasErrors(AddAll(ds, fs, limit))
  {
    if fs != [] {
      var init, f := fs[..|fs| - 1], fs[|fs| - 1];
      assert f in fs && forall g :: g in init ==> g in fs;
      AddedFrom(ds, init, limit);
      var had := AddAll(ds, init, limit);
      forall g | g in Add(had, f, limit) ensures !g.IsError() {
        assert g in had || g == f;
      }
    }
  }

  lemma SilentRedirects(fs: seq<Finding>, rules: seq<Rule>, filePicker: bool, cyclic: bool)
    requires RedirectFindings(fs, rules, filePicker, cyclic)
    requires !SelfOverlap(rules) && !NeighbourOverlap(Sources(rules)) && !cyclic && !(filePicker && rules == [])
    ensures !HasErrors(fs)
  {
    hide SelfOverlap, NeighbourOverlap;
    forall f | f in fs ensures !f.IsError() {
      assert Raises(fs, f.kind);
    }
  }

  lemma SilentDeny(fs: seq<Finding>)
    requires !Raises(fs, DenyConflict) && forall f :: f in fs && f.IsError() ==> f.kind == DenyConflict
    ensures !HasErrors(fs)
  {
  }

  /** A rule that is left stands for an original one. */
  lemma LeftFrom(rules0: seq<Rule>, rules: seq<Rule>, i: nat) returns (r: Rule)
    requires Pairs(rules) == Unique(Pairs(SortBy(RuleAtMost, rules0))) && i < |rules|
    ensures r in rules0 && Pair(r) == Pair(rules[i])
  {
    hide Unique, SortBy;
    assert Pairs(rules)[i] in Pairs(rules);
    SamePairs(rules0, rules, Pair(rules[i]));
    PairsOf(rules0, Pair(rules[i]));
    r :| r in rules0 && Pair(r) == Pair(rules[i]);
  }

  lemma ConsistentRedirects(rules0: seq<Rule>, deny0: seq<DenyRule>, rules: seq<Rule>)
    requires Pairs(rules) == Unique(Pairs(SortBy(RuleAtMost, rules0)))
    requires Consistent(rules0, deny0)
    ensures !SelfOverlap(rules) && !NeighbourOverlap(Sources(rules)) && !Cyclic(rules)
  {
    hide Unique, SortBy, Overlap, PathCycle, Cyclic;
    forall i | 0 <= i < |rules| ensures !Overlap(rules[i].source, rules[i].target) {
      var r := LeftFrom(rules0, rules, i);
    }
    var s := Sources(rules);
    forall i | 0 < i < |s| ensures !Overlap(s[i - 1], s[i]) {
      var r := LeftFrom(rules0, rules, i - 1);
      var q := LeftFrom(rules0, rules, i);
      UniqueNeighboursDiffer(Pairs(SortBy(RuleAtMost, rules0)), i);
      assert Pairs(rules)[i - 1] == Pair(r) && Pairs(rules)[i] == Pair(q);
    }
    if Cyclic(rules) {
      ReportedCycleIsReal(rules);
      forall p ensures p in Pairs(rules) ==> p in Pairs(rules0) { SamePairs(rules0, rules, p); }
      WalkTransfers(rules, rules0);
    }
  }

  lemma ConsistentDeny(rules0: seq<Rule>, deny0: seq<DenyRule>, rules: seq<Rule>, deny: seq<DenyRule>)
    requires Pairs(rules) == Unique(Pairs(SortBy(RuleAtMost, rules0)))
    requires Paths(deny) == Reduced(Paths(SortBy(DenyAtMost, deny0)))
    requires Consistent(rules0, deny0)
    ensures !DeniedSource(Paths(deny), rules)
  {
    DeniesAreOrdered();
    SortBySorts(DenyAtMost, deny0);
    hide TotalOrder, Unique, SortBy, Overlap, PathCycle, Reduced;
    var sorted := SortBy(DenyAtMost, deny0);
    forall i | 0 <= i < |rules| ensures !Meets(Paths(deny), rules[i].source) {
      var r := LeftFrom(rules0, rules, i);
      forall p | p in Paths(deny) ensures !IsSameOrAncestor(p, r.source) {
        ReducedIsPart(Paths(sorted), p);
        MapMembers(Path, sorted, p);
        var d :| d in sorted && d.path == p;
        SameMembers(sorted, deny0, d);
      }
    }
  }

  /** What holds of the rules that are left holds of the original ones. */
  lemma Assemble(rules0: seq<Rule>, deny0: seq<DenyRule>, rules: seq<Rule>)
    requires Pairs(rules) == Unique(Pairs(SortBy(RuleAtMost, rules0)))
    requires !SelfOverlap(rules) && DistinctSources(rules) && !PathCycle(rules)
    requires forall r, q :: r in rules && q in rules && Overlap(r.source, q.source) ==> r == q
    requires forall r, d :: r in rules && d in deny0 ==> !IsSameOrAncestor(d.path, r.source)
    ensures Consistent(rules0, deny0)
  {
    hide Unique, SortBy, PathCycle, Overlap, IsSameOrAncestor, DistinctSources;
    forall p ensures p in Pairs(rules) <==> p in Pairs(rules0) { SamePairs(rules0, rules, p); }
    if PathCycle(rules0) {
      WalkTransfers(rules0, rules);
    }
    forall r | r in rules0 ensures exists q :: q in rules && Pair(q) == Pair(r) {
      PairsOf(rules0, Pair(r));
      PairsOf(rules, Pair(r));
    }
    forall r | r in rules0 ensures !Overlap(r.source, r.target) {
      var q :| q in rules && Pair(q) == Pair(r);
      var i :| 0 <= i < |rules| && rules[i] == q;
    }
    forall r, q | r in rules0 && q in rules0 && Overlap(r.source, q.source) ensures Pair(r) == Pair(q) {
      var r' :| r' in rules && Pair(r') == Pair(r);
      var q' :| q' in rules && Pair(q') == Pair(q);
    }
    forall r, d | r in rules0 && d in deny0 ensures !IsSameOrAncestor(d.path, r.source) {
      var q :| q in rules && Pair(q) == Pair(r);
    }
  }

  // ------------------------------------------------------------ canonical form

  datatype AppRules = AppRules(
    package: string, enabled: bool, filePicker: bool, users: seq<int>, processes: seq<string>,
    redirects: seq<Rule>, deny: seq<DenyRule>)

  datatype CanonicalApp = CanonicalApp(
    package: string, filePicker: bool, users: seq<int>, processes: seq<string>,
    deny: seq<string>, redirects: seq<(string, string)>)

  predicate UserAtMost(a: int, b: int) { a <= b }

  /** The canonical form of an application whose rules passed the checks. */
  function Canonical(a: AppRules): CanonicalApp {
    CanonicalApp(
      a.package, a.filePicker,
      Unique(SortBy(UserAtMost, a.users)), Unique(SortBy(AtMost, a.processes)),
      SortBy(AtMost, Reduced(Paths(SortBy(DenyAtMost, a.deny)))),
      SortBy(PairAtMost, Unique(Pairs(SortBy(RuleAtMost, a.redirects)))))
  }

  predicate PackageAtMost(a: CanonicalApp, b: CanonicalApp) { AtMost(a.package, b.package) }

  function Enabled(apps: seq<AppRules>): seq<AppRules> {
    if apps == [] then []
    else
      var init, a := Enabled(apps[..|apps| - 1]), apps[|apps| - 1];
      if a.enabled then init + [a] else init
  }

  function CanonicalPolicy(apps: seq<AppRules>): seq<CanonicalApp> {
    SortBy(PackageAtMost, Map(Canonical, Enabled(apps)))
  }

  /** Numbering the rules differently or listing them in another order sorts them alike. */
  lemma SortedPairsAgree(a: seq<Rule>, b: seq<Rule>)
    requires multiset(Pairs(a)) == multiset(Pairs(b))
    ensures Pairs(SortBy(RuleAtMost, a)) == Pairs(SortBy(RuleAtMost, b))
  {
    RulesAreOrdered();
    PairsAreOrdered();
    SortBySorts(RuleAtMost, a);
    SortBySorts(RuleAtMost, b);
    hide *;
    var x, y := SortBy(RuleAtMost, a), SortBy(RuleAtMost, b);
    MapMultiset(Pair, x, a);
    MapMultiset(Pair, y, b);
    SortedRulePairs(x);
    SortedRulePairs(y);
    OrderSeparates(PairAtMost, Pairs(x));
    SortedIsUnique(PairAtMost, Pairs(x), Pairs(y));
  }

  lemma SortedPathsAgree(a: seq<DenyRule>, b: seq<DenyRule>)
    requires multiset(Paths(a)) == multiset(Paths(b))
    ensures Paths(SortBy(DenyAtMost, a)) == Paths(SortBy(DenyAtMost, b))
  {
    DeniesAreOrdered();
    PathsAreOrdered();
    SortBySorts(DenyAtMost, a);
    SortBySorts(DenyAtMost, b);
    hide *;
    var x, y := SortBy(DenyAtMost, a), SortBy(DenyAtMost, b);
    MapMultiset(Path, x, a);
    MapMultiset(Path, y, b);
    SortedDenyPaths(x);
    SortedDenyPaths(y);
    OrderSeparates(AtMost, Paths(x));
    SortedIsUnique(AtMost, Paths(x), Paths(y));
  }

  /** The same application up to the order of its lists and the numbers of its rules. */
  predicate Reordered(a: AppRules, b: AppRules) {
    && a.package == b.package && a.enabled == b.enabled && a.filePicker == b.filePicker
    && multiset(a.users) == multiset(b.users) && multiset(a.processes) == multiset(b.processes)
    && multiset(Pairs(a.redirects)) == multiset(Pairs(b.redirects))
    && multiset(Paths(a.deny)) == multiset(Paths(b.deny))
  }

  lemma CanonicalIgnoresOrder(a: AppRules, b: AppRules)
    requires Reordered(a, b)
    ensures Canonical(a) == Canonical(b)
  {
    assert TotalOrder(UserAtMost);
    PathsAreOrdered();
    hide SortBy, Unique, Reduced, TotalOrder, SortedBy;
    OrderDoesNotMatter(UserAtMost, a.users, b.users);
    OrderDoesNotMatter(AtMost, a.processes, b.processes);
    SortedPairsAgree(a.redirects, b.redirects);
    SortedPathsAgree(a.deny, b.deny);
  }

  lemma {:induction false} EnabledCount(apps: seq<AppRules>, x: AppRules)
    ensures multiset(Enabled(apps))[x] == if x.enabled then multiset(apps)[x] else 0
  {
    if apps != [] {
      EnabledCount(apps[..|apps| - 1], x);
      assert apps == apps[..|apps| - 1] + [apps[|apps| - 1]];
    }
  }

  lemma EnabledPermuted(a: seq<AppRules>, b: seq<AppRules>)
    requires multiset(a) == multiset(b)
    ensures multiset(Enabled(a)) == multiset(Enabled(b))
  {
    forall x ensures multiset(Enabled(a))[x] == multiset(Enabled(b))[x] {
      EnabledCount(a, x);
      EnabledCount(b, x);
    }
  }

  lemma {:induction false} EnabledAlike(a: seq<AppRules>, b: seq<AppRules>)
    requires |a| == |b| && forall i :: 0 <= i < |a| ==> Reordered(a[i], b[i])
    ensures Map(Canonical, Enabled(a)) == Map(Canonical, Enabled(b))
  {
    hide Canonical;
    if a != [] {
      var n := |a| - 1;
      EnabledAlike(a[..n], b[..n]);
      assert Reordered(a[n], b[n]);
      CanonicalIgnoresOrder(a[n], b[n]);
      MapMore(Enabled(a[..n]), a[n]);
      MapMore(Enabled(b[..n]), b[n]);
    }
  }

  lemma MapMore(s: seq<AppRules>, x: AppRules)
    ensures Map(Canonical, s + [x]) == Map(Canonical, s) + [Canonical(x)]
  {
  }

  /** Two documents that differ in order only: `order` is the second one with its applications
      where the first has them. */
  ghost predicate OrderedOtherwise(a: seq<AppRules>, b: seq<AppRules>, order: seq<AppRules>) {
    |order| == |a| && (forall i :: 0 <= i < |a| ==> Reordered(a[i], order[i])) && multiset(order) == multiset(b)
  }

  lemma PolicyPermuted(a: seq<AppRules>, b: seq<AppRules>, order: seq<AppRules>)
    requires OrderedOtherwise(a, b, order)
    ensures multiset(CanonicalPolicy(a)) == multiset(CanonicalPolicy(b))
    ensures SortedBy(PackageAtMost, CanonicalPolicy(a)) && SortedBy(PackageAtMost, CanonicalPolicy(b))
  {
    PackagesPreordered();
    hide Canonical, SortBy, Preorder, Reordered;
    EnabledAlike(a, order);
    EnabledPermuted(order, b);
    MapMultiset(Canonical, Enabled(order), Enabled(b));
    SortBySorts(PackageAtMost, Map(Canonical, Enabled(a)));
    SortBySorts(PackageAtMost, Map(Canonical, Enabled(b)));
  }

  /** MAIN RESULT. Reordering the applications of a document, and the lists inside each, leaves
      its canonical policy as it is, if its packages are different. */
  lemma PolicyIgnoresOrder(a: seq<AppRules>, b: seq<AppRules>, order: seq<AppRules>)
    requires OrderedOtherwise(a, b, order) && PackagesDiffer(CanonicalPolicy(b))
    ensures CanonicalPolicy(a) == CanonicalPolicy(b)
  {
    PackagesPreordered();
    hide CanonicalPolicy, Preorder;
    PolicyPermuted(a, b, order);
    PackagesTell(CanonicalPolicy(b));
    SortedIsUnique(PackageAtMost, CanonicalPolicy(b), CanonicalPolicy(a));
  }

  predicate PackagesDiffer(apps: seq<CanonicalApp>) {
    forall i, j :: 0 <= i < j < |apps| ==> apps[i].package != apps[j].package
  }

  lemma PackagesPreordered()
    ensures Preorder(PackageAtMost)
  {
    PathsAreOrdered();
    forall a, b ensures PackageAtMost(a, b) || PackageAtMost(b, a) { LessIsTotal(a.package, b.package); }
  }

  lemma PackagesTell(apps: seq<CanonicalApp>)
    requires PackagesDiffer(apps)
    ensures Separates(PackageAtMost, apps)
  {
    forall c, d | c in apps && d in apps && PackageAtMost(c, d) && PackageAtMost(d, c) ensures c == d {
      var i: nat :| i < |apps| && apps[i] == c;
      var j: nat :| j < |apps| && apps[j] == d;
      LessIsStrict(c.package, d.package);
      SamePlace(apps, i, j);
    }
  }

  lemma SamePlace(apps: seq<CanonicalApp>, i: nat, j: nat)
    requires PackagesDiffer(apps) && i < |apps| && j < |apps| && apps[i].package == apps[j].package
    ensures i == j
  {
  }
}
