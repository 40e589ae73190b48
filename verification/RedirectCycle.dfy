/** The three-colour search for redirect cycles in ValidateRedirects, rules/src/semantic.cpp. */
module RedirectCycle {
  import opened Wrappers

  datatype Rule = Rule(source: string, target: string, id: nat)

  /** The rule whose source is `path`; of several, the first. */
  function FirstIndex(rules: seq<Rule>, path: string): (r: Option<nat>)
    ensures r.Some? ==> r.value < |rules| && rules[r.value].source == path
    ensures r.Some? ==> forall i :: 0 <= i < r.value ==> rules[i].source != path
    ensures r.None? ==> forall i :: 0 <= i < |rules| ==> rules[i].source != path
  {
    if rules == [] then None
    else if rules[0].source == path then Some(0)
    else
      var r := FirstIndex(rules[1..], path);
      assert forall i :: 0 < i < |rules| ==> rules[i] == rules[1..][i - 1];
      if r.None? then None else Some(r.value + 1)
  }

  function Next(rules: seq<Rule>, i: nat): Option<nat>
    requires i < |rules|
  {
    FirstIndex(rules, rules[i].target)
  }

  /** Where `k` redirects lead from rule `i`. */
  function Follow(rules: seq<Rule>, i: nat, k: nat): (r: Option<nat>)
    requires i < |rules|
    ensures r.Some? ==> r.value < |rules|
    decreases k
  {
    if k == 0 then Some(i)
    else if Next(rules, i).None? then None
    else Follow(rules, Next(rules, i).value, k - 1)
  }

  ghost predicate Ends(rules: seq<Rule>, i: nat)
    requires i < |rules|
  {
    exists k :: Follow(rules, i, k).None?
  }

  ghost predicate Returns(rules: seq<Rule>, i: nat, k: nat) {
    k > 0 && i < |rules| && Follow(rules, i, k) == Some(i)
  }

  /** Some rule is reached again from itself. */
  ghost predicate Cyclic(rules: seq<Rule>) { exists i, k :: Returns(rules, i, k) }

  lemma {:induction false} FollowOn(rules: seq<Rule>, i: nat, k: nat, m: nat)
    requires i < |rules| && Follow(rules, i, k).Some?
    ensures Follow(rules, i, k + m) == Follow(rules, Follow(rules, i, k).value, m)
    decreases k
  {
    if k > 0 {
      FollowOn(rules, Next(rules, i).value, k - 1, m);
    }
  }

  lemma {:induction false} FollowBack(rules: seq<Rule>, i: nat, k: nat, m: nat)
    requires i < |rules| && k <= m && Follow(rules, i, m).Some?
    ensures Follow(rules, i, k).Some?
    decreases k
  {
    if k > 0 {
      FollowBack(rules, Next(rules, i).value, k - 1, m - 1);
    }
  }

  /** A rule on a cycle never runs out. */
  lemma {:induction false} ReturningNeverEnds(rules: seq<Rule>, i: nat, period: nat, k: nat)
    requires Returns(rules, i, period)
    ensures Follow(rules, i, k).Some?
    decreases k
  {
    if k <= period {
      FollowBack(rules, i, k, period);
    } else {
      ReturningNeverEnds(rules, i, period, k - period);
      FollowOn(rules, i, period, k - period);
    }
  }

  lemma StepEnds(rules: seq<Rule>, i: nat)
    requires i < |rules| && (Next(rules, i).Some? ==> Ends(rules, Next(rules, i).value))
    ensures Ends(rules, i)
  {
    if Next(rules, i).None? {
      assert Follow(rules, i, 1).None?;
    } else {
      var n := Next(rules, i).value;
      var k: nat :| Follow(rules, n, k).None?;
      assert Follow(rules, i, k + 1) == Follow(rules, n, k);
    }
  }

  // ------------------------------------------------------------------ search

  const WHITE := 0
  const GREY := 1
  const BLACK := 2

  ghost predicate Leads(rules: seq<Rule>, g: nat, index: nat) {
    g < |rules| && exists m :: m > 0 && Follow(rules, g, m) == Some(index)
  }

  /** What the colours stand for while `index` is visited. */
  ghost predicate Coloured(rules: seq<Rule>, colors: seq<nat>) {
    && |colors| == |rules|
    && (forall i :: 0 <= i < |rules| ==> colors[i] <= BLACK)
    && (forall i :: 0 <= i < |rules| && colors[i] == BLACK ==> Ends(rules, i))
  }

  ghost predicate GreyLeadTo(rules: seq<Rule>, colors: seq<nat>, index: nat)
    requires |colors| == |rules|
  {
    forall g :: 0 <= g < |rules| && colors[g] == GREY ==> Leads(rules, g, index)
  }

  ghost function Whites(colors: seq<nat>): set<nat> { set i: nat | i < |colors| && colors[i] == WHITE }

  lemma LeadsOn(rules: seq<Rule>, g: nat, index: nat)
    requires index < |rules| && Next(rules, index).Some? && (g == index || Leads(rules, g, index))
    ensures Leads(rules, g, Next(rules, index).value)
  {
    var n := Next(rules, index).value;
    assert Follow(rules, index, 1) == Some(n) by { assert Follow(rules, n, 0) == Some(n); }
    if g != index {
      var m :| m > 0 && Follow(rules, g, m) == Some(index);
      FollowOn(rules, g, m, 1);
    }
  }

  ghost predicate IsIndexOf(first: map<string, nat>, rules: seq<Rule>) {
    forall p :: if p in first then FirstIndex(rules, p) == Some(first[p]) else FirstIndex(rules, p).None?
  }

  method Visit(rules: seq<Rule>, first: map<string, nat>, index: nat, colors: array<nat>) returns (cycle: bool)
    requires IsIndexOf(first, rules) && index < |rules|
    requires Coloured(rules, colors[..]) && GreyLeadTo(rules, colors[..], index)
    modifies colors
    ensures Coloured(rules, colors[..])
    ensures cycle ==> Cyclic(rules)
    ensures !cycle ==> colors[index] == BLACK
    ensures !cycle ==> forall g :: 0 <= g < |rules| ==> (colors[g] == GREY <==> old(colors[g]) == GREY)
    ensures !cycle ==> forall i :: 0 <= i < |rules| && old(colors[i]) == BLACK ==> colors[i] == BLACK
    decreases |Whites(colors[..])|
  {
    if colors[index] == GREY {
      assert Leads(rules, index, index);
      var m :| m > 0 && Follow(rules, index, m) == Some(index);
      assert Returns(rules, index, m);
      return true;
    }
    if colors[index] == BLACK {
      return false;
    }
    ghost var before := colors[..];
    colors[index] := GREY;
    Shrinks(before, colors[..], index);
    var target := rules[index].target;
    if target in first {
      assert FirstIndex(rules, target) == Some(first[target]);
      forall g | 0 <= g < |rules| && colors[g] == GREY ensures Leads(rules, g, first[target]) {
        LeadsOn(rules, g, index);
      }
      var deeper := Visit(rules, first, first[target], colors);
      if deeper {
        return true;
      }
    } else {
      assert FirstIndex(rules, target).None?;
    }
    StepEnds(rules, index);
    colors[index] := BLACK;
    return false;
  }

  lemma Shrinks(before: seq<nat>, after: seq<nat>, index: nat)
    requires index < |before| && before[index] == WHITE && after == before[index := GREY]
    ensures |Whites(after)| < |Whites(before)|
  {
    assert Whites(after) == Whites(before) - {index};
    assert index in Whites(before);
  }

  /** Every source with the first rule that has it. */
  method IndexSources(rules: seq<Rule>) returns (first: map<string, nat>)
    ensures IsIndexOf(first, rules)
  {
    first := map[];
    for i := 0 to |rules|
      invariant forall p :: p in first <==> exists j :: 0 <= j < i && rules[j].source == p
      invariant forall p :: p in first ==> first[p] < i && rules[first[p]].source == p
      invariant forall p, j :: p in first && 0 <= j < first[p] ==> rules[j].source != p
    {
      if rules[i].source !in first {
        first := first[rules[i].source := i];
      }
    }
  }

  /** MAIN RESULT. The search reports a rule exactly when following redirects, each to the first
      rule with that source, comes back to where it started. */
  method FindCycle(rules: seq<Rule>) returns (at: Option<nat>)
    ensures at.Some? <==> Cyclic(rules)
    ensures at.Some? ==> at.value < |rules|
  {
    var first := IndexSources(rules);
    var colors := new nat[|rules|](i => WHITE);
    for i := 0 to |rules|
      invariant Coloured(rules, colors[..])
      invariant forall j :: 0 <= j < |rules| ==> colors[j] != GREY
      invariant forall j :: 0 <= j < i ==> colors[j] == BLACK
    {
      var cycle := Visit(rules, first, i, colors);
      if cycle {
        return Some(i);
      }
    }
    AllEnd(rules, colors[..]);
    return None;
  }

  lemma AllEnd(rules: seq<Rule>, colors: seq<nat>)
    requires Coloured(rules, colors) && forall i :: 0 <= i < |rules| ==> colors[i] == BLACK
    ensures !Cyclic(rules)
  {
    forall i, k ensures !Returns(rules, i, k) {
      if Returns(rules, i, k) {
        assert Ends(rules, i);
        var m :| Follow(rules, i, m).None?;
        ReturningNeverEnds(rules, i, k, m);
      }
    }
  }

  // -------------------------------------------------------------- path graph

  /** A closed walk along the rules themselves, whichever rule of a source it takes. */
  ghost predicate ClosedWalk(rules: seq<Rule>, walk: seq<nat>) {
    && |walk| > 1 && walk[0] == walk[|walk| - 1]
    && (forall t :: 0 <= t < |walk| ==> walk[t] < |rules|)
    && (forall t :: 0 < t < |walk| ==> rules[walk[t - 1]].target == rules[walk[t]].source)
  }

  ghost predicate PathCycle(rules: seq<Rule>) { exists walk :: ClosedWalk(rules, walk) }

  predicate DistinctSources(rules: seq<Rule>) {
    forall i, j :: 0 <= i < j < |rules| ==> rules[i].source != rules[j].source
  }

  ghost function Trail(rules: seq<Rule>, i: nat, k: nat): (walk: seq<nat>)
    requires i < |rules| && Follow(rules, i, k).Some?
    ensures |walk| == k + 1 && walk[0] == i && walk[k] == Follow(rules, i, k).value
    ensures forall t :: 0 <= t < |walk| ==> walk[t] < |rules|
    ensures forall t :: 0 < t < |walk| ==> rules[walk[t - 1]].target == rules[walk[t]].source
    decreases k
  {
    if k == 0 then [i]
    else
      var rest := Trail(rules, Next(rules, i).value, k - 1);
      var walk := [i] + rest;
      assert forall t :: 0 < t < |walk| ==> walk[t] == rest[t - 1];
      walk
  }

  /** What is reported is a cycle of the rules. */
  lemma ReportedCycleIsReal(rules: seq<Rule>)
    requires Cyclic(rules)
    ensures PathCycle(rules)
  {
    var i, k :| Returns(rules, i, k);
    assert ClosedWalk(rules, Trail(rules, i, k));
  }

  lemma {:induction false} WalkFollows(rules: seq<Rule>, walk: seq<nat>, t: nat)
    requires DistinctSources(rules) && t < |walk|
    requires forall t :: 0 <= t < |walk| ==> walk[t] < |rules|
    requires forall t :: 0 < t < |walk| ==> rules[walk[t - 1]].target == rules[walk[t]].source
    ensures Follow(rules, walk[0], t) == Some(walk[t])
  {
    if t > 0 {
      WalkFollows(rules, walk, t - 1);
      var u := walk[t - 1];
      assert rules[u].target == rules[walk[t]].source;
      assert Next(rules, u) == Some(walk[t]);
      assert Follow(rules, u, 1) == Some(walk[t]) by { assert Follow(rules, walk[t], 0) == Some(walk[t]); }
      FollowOn(rules, walk[0], t - 1, 1);
    }
  }

  /** With one rule per source nothing is missed. */
  lemma DistinctSourcesMissNothing(rules: seq<Rule>)
    requires DistinctSources(rules)
    ensures Cyclic(rules) <==> PathCycle(rules)
  {
    if PathCycle(rules) {
      var walk :| ClosedWalk(rules, walk);
      WalkFollows(rules, walk, |walk| - 1);
      assert Returns(rules, walk[0], |walk| - 1);
    }
    if Cyclic(rules) {
      ReportedCycleIsReal(rules);
    }
  }

  // ------------------------------------------------- several rules per source

  function WithTargets(sources: seq<string>, targets: seq<string>): (rules: seq<Rule>)
    requires |sources| == |targets|
    ensures |rules| == |sources|
  {
    seq(|sources|, i requires 0 <= i < |sources| => Rule(sources[i], targets[i], i))
  }

  function {:induction false} Longer(sources: seq<string>): (p: string)
    ensures forall s :: s in sources ==> |s| < |p|
  {
    if sources == [] then "a"
    else
      var p := Longer(sources[1..]);
      if |sources[0]| < |p| then p else sources[0] + "a"
  }

  /** The search agrees with the rules themselves whatever the targets are, if and only if no
      source occurs twice. */
  lemma ExactlyForDistinctSources(sources: seq<string>)
    ensures (forall targets :: |targets| == |sources| ==>
               (Cyclic(WithTargets(sources, targets)) <==> PathCycle(WithTargets(sources, targets))))
       <==> forall i, j :: 0 <= i < j < |sources| ==> sources[i] != sources[j]
  {
    if i, j :| 0 <= i < j < |sources| && sources[i] == sources[j] {
      var targets := MissedTargets(sources, i, j);
    } else {
      forall targets | |targets| == |sources|
        ensures Cyclic(WithTargets(sources, targets)) <==> PathCycle(WithTargets(sources, targets))
      {
        DistinctSourcesMissNothing(WithTargets(sources, targets));
      }
    }
  }

  /** A later rule for the same source that redirects the source to itself goes unnoticed when
      every other rule leads nowhere. */
  lemma MissedTargets(sources: seq<string>, i: nat, j: nat) returns (targets: seq<string>)
    requires i < j < |sources| && sources[i] == sources[j]
    ensures |targets| == |sources|
    ensures PathCycle(WithTargets(sources, targets)) && !Cyclic(WithTargets(sources, targets))
  {
    var nowhere := Longer(sources);
    targets := seq(|sources|, n requires 0 <= n < |sources| => if n == j then sources[j] else nowhere);
    var rules := WithTargets(sources, targets);
    assert ClosedWalk(rules, [j, j]);
    forall n | 0 <= n < |rules| ensures Ends(rules, n) {
      if n != j {
        assert sources[n] in sources;
        assert Next(rules, n).None? by {
          forall m | 0 <= m < |rules| ensures rules[m].source != nowhere { assert sources[m] in sources; }
        }
        StepEnds(rules, n);
      } else {
        var f := FirstIndex(rules, sources[j]);
        assert rules[i].source == sources[j];
        assert f.Some? && f.value <= i;
        assert Next(rules, f.value).None? by {
          forall m | 0 <= m < |rules| ensures rules[m].source != nowhere { assert sources[m] in sources; }
        }
        StepEnds(rules, f.value);
        StepEnds(rules, n);
      }
    }
    AllEnd(rules, seq(|rules|, n => BLACK));
  }
}
