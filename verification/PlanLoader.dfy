/** LoadProcessPlan of zygisk/src/module_entry.cpp: a process reads its mounts straight from the
    policy file, without decoding the rest. */
module PlanLoader {
  import opened Wrappers
  import opened PathOrder
  import opened Sorting
  import opened Separated
  import opened DecimalText
  import opened ByteLayout
  import opened Validation
  import opened PolicyFormat
  import opened PolicyDecoder
  import opened PolicyIndex

  const MAX_RULES := 64
  const MAX_PLAN_PATHS := 65536
  const MAX_PROCESS_NAME := 256
  const PATH_MAX := 4096
  const USERS_PER_ID := 100000

  // --------------------------------------------------------------------- lists

  /** The scan of a joined list. */
  method ListContains(list: string, expected: string) returns (found: bool)
    ensures expected != "" ==> (found <==> list == "*" || expected in Split(list, ','))
  {
    hide Split, PieceEnd;
    if list == "*" {
      return true;
    }
    var current := 0;
    assert list[0..] == list;
    NothingInEmpty(expected);
    while current < |list|
      invariant current <= |list|
      invariant expected != "" ==> (expected in Split(list, ',') <==> expected in Split(list[current..], ','))
    {
      var separator := FindSeparator(list, ',', current);
      SplitAtPiece(list[current..], ',');
      assert list[current..][..separator - current] == list[current..separator];
      if list[current..separator] == expected {
        return true;
      }
      if separator == |list| {
        return false;
      }
      assert list[current..][separator - current + 1..] == list[separator + 1..];
      current := separator + 1;
    }
    assert list[current..] == "";
    return false;
  }

  lemma NothingInEmpty(expected: string)
    ensures expected != "" ==> expected !in Split("", ',')
  {
    assert Split("", ',') == [""];
  }

  /** The part of a process name before its colon. */
  function PackagePart(process: string): string { process[..PieceEnd(process, ':')] }

  predicate ListAdmits(items: seq<string>, expected: string) { items == ["*"] || expected in items }

  /** With no list of its own an application means its main process and those named after it. */
  predicate ProcessAdmitted(package: string, items: seq<string>, process: string) {
    if items == ["*"] then process == package || package + ":" <= process else process in items
  }

  method ProcessMatches(package: string, list: string, process: string) returns (matches: bool)
    requires process != ""
    ensures ListItems(list).Some? ==> matches == ProcessAdmitted(package, ListItems(list).value, process)
  {
    StarAlone(list);
    if list != "*" {
      matches := ListContains(list, process);
      return;
    }
    assert package + ":" <= process <==> package <= process && |process| > |package| && process[|package|] == ':';
    return package == process || (package <= process && |process| > |package| && process[|package|] == ':');
  }

  /** Only the list of a star alone is stored as a star. */
  lemma StarAlone(list: string)
    ensures Split(list, ',') == ["*"] <==> list == "*"
  {
    JoinSplit(list, ',');
    if list == "*" {
      SplitJoined(["*"], ',');
      assert Join(["*"], ',') == "*";
    }
  }

  // --------------------------------------------------------------------- paths

  /** Proper pieces only, save for an empty one at the very end. */
  predicate IsAllowedTarget(p: string) {
    && p != "" && p[0] != '/' && '{' !in p && '}' !in p
    && forall k :: 0 <= k < |Split(p, '/')| ==>
         IsProper(Split(p, '/')[k]) || (0 < k == |Split(p, '/')| - 1 && Split(p, '/')[k] == "")
  }

  predicate IsProper(c: string) { c != "" && c != "." && c != ".." }

  /** Every `{user}` replaced; no other brace is let through. */
  function ForUser(s: string, user: string): Option<string> {
    if s == "" then Some("")
    else if |s| >= 6 && s[..6] == "{user}" then
      var rest := ForUser(s[6..], user);
      if rest.None? then None else Some(user + rest.value)
    else if s[0] == '{' || s[0] == '}' then None
    else
      var rest := ForUser(s[1..], user);
      if rest.None? then None else Some([s[0]] + rest.value)
  }

  function RuntimePath(s: string, user: string): Option<string> {
    var p := ForUser(s, user);
    if p.Some? && |p.value| < PATH_MAX && IsAllowedTarget(p.value) then p else None
  }

  method ExpandRuntimePath(input: string, user: string) returns (r: Option<string>)
    ensures r == RuntimePath(input, user)
  {
    hide IsAllowedTarget;
    var output := "";
    var current := 0;
    assert input[0..] == input && (ForUser(input, user).Some? ==> output + ForUser(input, user).value == ForUser(input, user).value);
    while current < |input|
      invariant current <= |input| && |output| < PATH_MAX
      invariant ForUser(input, user) == if ForUser(input[current..], user).None? then None
                                        else Some(output + ForUser(input[current..], user).value)
    {
      ghost var rest := input[current..];
      if current + 6 <= |input| && input[current..current + 6] == "{user}" {
        assert rest[..6] == "{user}" && rest[6..] == input[current + 6..];
        Associate(output, user, ForUser(rest[6..], user));
        if |output| + |user| >= PATH_MAX {
          return None;
        }
        output := output + user;
        current := current + 6;
      } else {
        assert rest[1..] == input[current + 1..] && (|rest| >= 6 ==> rest[..6] == input[current..current + 6]);
        if input[current] == '{' || input[current] == '}' {
          return None;
        }
        Associate(output, [input[current]], ForUser(rest[1..], user));
        if |output| + 1 >= PATH_MAX {
          return None;
        }
        output := output + [input[current]];
        current := current + 1;
      }
    }
    assert input[current..] == "" && output + "" == output;
    return if IsAllowedTarget(output) then Some(output) else None;
  }

  lemma Associate(a: string, b: string, c: Option<string>)
    ensures c.Some? ==> a + (b + c.value) == (a + b) + c.value
  {
  }

  // ---------------------------------------------------------------------- plans

  datatype PlannedRule = PlannedRule(deny: bool, visible: string, backing: string)

  datatype Plan = Plan(
    rules: seq<PlannedRule>, legacy: bool, contentGeneration: nat, planGeneration: nat, media: bool, provider: bool)

  function RuleFor(m: Mount, user: string): Option<PlannedRule> {
    if (m.action != Deny && m.action != Redirect) || !IsAllowedTarget(m.visible) || |m.visible| >= PATH_MAX then None
    else if m.action == Deny then if m.backing != "" then None else Some(PlannedRule(true, m.visible, ""))
    else
      var backing := RuntimePath(m.backing, user);
      if backing.None? then None else Some(PlannedRule(false, m.visible, backing.value))
  }

  /** The planned rules and the bytes their paths take, up to the limit. */
  function RulesFor(ms: seq<Mount>, user: string): Option<(seq<PlannedRule>, nat)> {
    if ms == [] then Some(([], 1))
    else
      var init, r := RulesFor(ms[..|ms| - 1], user), RuleFor(ms[|ms| - 1], user);
      if init.None? || r.None? then None else WithRule(init.value, r.value)
  }

  function WithRule(planned: (seq<PlannedRule>, nat), r: PlannedRule): Option<(seq<PlannedRule>, nat)> {
    var size := planned.1 + |r.visible| + 1 + |r.backing| + 1;
    if size > MAX_PLAN_PATHS then None else Some((planned.0 + [r], size))
  }

  /** The application of a document with this package. */
  function FindApp(apps: seq<App>, package: string): (r: Option<nat>)
    ensures r.Some? ==> r.value < |apps| && apps[r.value].package == package
    ensures r.None? ==> forall i :: 0 <= i < |apps| ==> apps[i].package != package
  {
    if apps == [] then None
    else if apps[|apps| - 1].package == package then Some(|apps| - 1)
    else FindApp(apps[..|apps| - 1], package)
  }

  /** MAIN DEFINITION. What a process is to mount according to a decoded document. */
  function PlanFor(d: Document, process: string, uid: nat): Option<Plan> {
    if |process| >= MAX_PROCESS_NAME || PackagePart(process) == "" then None
    else
      var i := FindApp(d.apps, PackagePart(process));
      if i.None? then None else PlanForApp(d, d.apps[i.value], process, Decimal(uid / USERS_PER_ID))
  }

  function PlanForApp(d: Document, a: App, process: string, user: string): Option<Plan> {
    if a.events != [] || |a.mounts| > MAX_RULES || a.mounts == [] then None
    else if !ProcessAdmitted(a.package, a.processes, process) || !ListAdmits(a.users, user) then None
    else
      var rules := RulesFor(a.mounts, user);
      if rules.None? then None
      else Some(Plan(rules.value.0, d.legacy, d.generation, PlanGeneration(a, d.legacy), a.media, a.provider))
  }

  // ------------------------------------------------------------ checks of the file

  function NameAt(t: Tables, i: nat): Option<string>
    requires 48 * (i + 1) <= |t.packages|
  {
    StringAt(t.strings, NameOffset(t, i))
  }

  /** ValidPackageIndex: every name is there, hashes to its hash and follows the one before. */
  predicate IndexValid(t: Tables, n: nat)
    requires 48 * n <= |t.packages|
  {
    forall i :: 0 <= i < n ==>
      && NameAt(t, i).Some? && PackageHash(NameAt(t, i).value) == HashAt(t, i)
      && (i > 0 ==> NameAt(t, i - 1).Some? && Precedes(NameAt(t, i - 1).value, NameAt(t, i).value))
  }

  function CountsBefore(t: Tables, i: nat, at: nat): nat
    requires 48 * i <= |t.packages| && at + 4 <= 48
  {
    if i == 0 then 0 else CountsBefore(t, i - 1, at) + Read(PackageRow(t, i - 1), at, 4)
  }

  predicate RowValid(t: Tables, i: nat)
    requires 48 * (i + 1) <= |t.packages|
  {
    var row := PackageRow(t, i);
    && Read(row, 16, 4) == CountsBefore(t, i, 20) && 16 * (Read(row, 16, 4) + Read(row, 20, 4)) <= |t.mounts|
    && Read(row, 24, 4) == CountsBefore(t, i, 28) && 16 * (Read(row, 24, 4) + Read(row, 28, 4)) <= |t.events|
    && Read(row, 40, 1) <= 1 && Read(row, 41, 1) <= 1 && Read(row, 42, 1) <= 1
    && Read(row, 43, 1) == 0 && Read(row, 44, 4) == 0
  }

  /** ValidPolicyTables: the ranges follow each other and use up the tables, whose rows are well formed. */
  predicate TablesValid(t: Tables, n: nat)
    requires 48 * n <= |t.packages|
  {
    && (forall i :: 0 <= i < n ==> RowValid(t, i))
    && 16 * CountsBefore(t, n, 20) == |t.mounts| && 16 * CountsBefore(t, n, 28) == |t.events|
    && (forall j :: 0 <= j < |t.mounts| / 16 ==> MountOf(MountRow(t, j), t.strings).Some?)
    && (forall j :: 0 <= j < |t.events| / 16 ==> EventOf(EventRow(t, j), t.strings).Some?)
  }

  /** What the walk over the index compares: the stored hash and the name before. */
  lemma ComparesInOrder(previous: string, name: string)
    ensures Precedes(previous, name) <==>
      !(PackageHash(name) < PackageHash(previous)
        || (PackageHash(name) == PackageHash(previous) && AtMost(name, previous)))
  {
    hide PackageHash;
    LessIsStrict(name, previous);
    LessIsTotal(name, previous);
  }

  method ValidPackageIndex(t: Tables, n: nat) returns (valid: bool)
    requires 48 * n <= |t.packages|
    ensures valid <==> IndexValid(t, n)
  {
    hide PackageHash, NameAt, HashAt, Precedes;
    var previousHash, previousName := 0, "";
    for i := 0 to n
      invariant IndexValid(t, i)
      invariant i > 0 ==> NameAt(t, i - 1) == Some(previousName) && PackageHash(previousName) == previousHash
    {
      var hash, name := HashAt(t, i), NameAt(t, i);
      if name.None? || PackageHash(name.value) != hash {
        return false;
      }
      ComparesInOrder(previousName, name.value);
      if i > 0 && (hash < previousHash || (hash == previousHash && AtMost(name.value, previousName))) {
        return false;
      }
      previousHash, previousName := hash, name.value;
    }
    return true;
  }

  method ValidRanges(t: Tables, n: nat) returns (valid: bool)
    requires 48 * n <= |t.packages|
    ensures valid <==> (forall i :: 0 <= i < n ==> RowValid(t, i))
                       && 16 * CountsBefore(t, n, 20) == |t.mounts| && 16 * CountsBefore(t, n, 28) == |t.events|
  {
    hide Read, PackageRow;
    var firstMount, firstEvent := 0, 0;
    for i := 0 to n
      invariant forall j :: 0 <= j < i ==> RowValid(t, j)
      invariant firstMount == CountsBefore(t, i, 20) && firstEvent == CountsBefore(t, i, 28)
    {
      var row := PackageRow(t, i);
      var mounts, events := Read(row, 20, 4), Read(row, 28, 4);
      if Read(row, 16, 4) != firstMount || 16 * (firstMount + mounts) > |t.mounts|
         || Read(row, 24, 4) != firstEvent || 16 * (firstEvent + events) > |t.events|
         || Read(row, 40, 1) > 1 || Read(row, 41, 1) > 1 || Read(row, 42, 1) > 1
         || Read(row, 43, 1) != 0 || Read(row, 44, 4) != 0 {
        assert !RowValid(t, i);
        return false;
      }
      firstMount, firstEvent := firstMount + mounts, firstEvent + events;
    }
    return 16 * firstMount == |t.mounts| && 16 * firstEvent == |t.events|;
  }

  method ValidPolicyTables(t: Tables, n: nat) returns (valid: bool)
    requires 48 * n <= |t.packages|
    ensures valid <==> TablesValid(t, n)
  {
    hide RowValid, MountOf, EventOf, CountsBefore;
    var ranges := ValidRanges(t, n);
    if !ranges {
      return false;
    }
    for j := 0 to |t.mounts| / 16
      invariant forall k :: 0 <= k < j ==> MountOf(MountRow(t, k), t.strings).Some?
    {
      if MountOf(MountRow(t, j), t.strings).None? {
        return false;
      }
    }
    for j := 0 to |t.events| / 16
      invariant forall k :: 0 <= k < j ==> EventOf(EventRow(t, k), t.strings).Some?
    {
      if EventOf(EventRow(t, j), t.strings).None? {
        return false;
      }
    }
    return true;
  }

  function NamesOf(t: Tables, n: nat): (r: seq<string>)
    requires 48 * n <= |t.packages| && IndexValid(t, n)
    ensures |r| == n
  {
    seq(n, i requires 0 <= i < n => NameAt(t, i).value)
  }

  lemma {:induction false} NamesInOrder(t: Tables, n: nat, i: nat, j: nat)
    requires 48 * n <= |t.packages| && IndexValid(t, n) && i < j < n
    ensures Precedes(NameAt(t, i).value, NameAt(t, j).value)
  {
    hide Precedes, NameAt;
    if i + 1 < j {
      NamesInOrder(t, n, i, j - 1);
      PrecedesTransitive(NameAt(t, i).value, NameAt(t, j - 1).value, NameAt(t, j).value);
    }
  }

  lemma ValidIndexes(t: Tables, n: nat)
    requires 48 * n <= |t.packages| && IndexValid(t, n)
    ensures Indexes(t, NamesOf(t, n))
  {
    hide Precedes, PackageHash, HashAt, StringAt, NameOffset;
    var names := NamesOf(t, n);
    forall i, j | 0 <= i < j < |names| ensures Precedes(names[i], names[j]) { NamesInOrder(t, n, i, j); }
  }

  // -------------------------------------------------------------------- the loader

  method LoadRules(t: Tables, first: nat, count: nat, user: string) returns (r: Option<seq<PlannedRule>>)
    requires 16 * (first + count) <= |t.mounts|
    ensures var ms := MountsAt(t, first, count);
      ms.Some? ==> r == if RulesFor(ms.value, user).None? then None else Some(RulesFor(ms.value, user).value.0)
  {
    hide MountOf, RuleFor, MountsAt, RulesFor;
    var rules: seq<PlannedRule> := [];
    var bytes: nat := 1;
    NoRules(t, first, user);
    for i := 0 to count
      invariant var ms := MountsAt(t, first, i); ms.Some? ==> RulesFor(ms.value, user) == Some((rules, bytes))
    {
      var m := MountOf(MountRow(t, first + i), t.strings);
      if m.None? {
        MountFails(t, first, i, count);
        return None;
      }
      RulesGrow(t, first, i, count, m.value, user);
      var rule := LoadRule(m.value, user);
      if rule.None? {
        return None;
      }
      bytes := bytes + |rule.value.visible| + 1 + |rule.value.backing| + 1;
      if bytes > MAX_PLAN_PATHS {
        return None;
      }
      rules := rules + [rule.value];
    }
    return Some(rules);
  }

  lemma NoRules(t: Tables, first: nat, user: string)
    requires 16 * first <= |t.mounts|
    ensures MountsAt(t, first, 0) == Some([]) && RulesFor([], user) == Some(([], 1))
  {
  }

  lemma MountFails(t: Tables, first: nat, i: nat, count: nat)
    requires 16 * (first + count) <= |t.mounts| && i < count && MountOf(MountRow(t, first + i), t.strings).None?
    ensures MountsAt(t, first, count).None?
  {
    MountsFail(t, first, i + 1, count);
  }

  /** One mount more, and what it means for the whole stretch when it cannot be planned. */
  lemma RulesGrow(t: Tables, first: nat, i: nat, count: nat, m: Mount, user: string)
    requires 16 * (first + count) <= |t.mounts| && i < count && MountOf(MountRow(t, first + i), t.strings) == Some(m)
    ensures MountsAt(t, first, i + 1).Some? <==> MountsAt(t, first, i).Some?
    ensures MountsAt(t, first, count).Some? ==> MountsAt(t, first, i).Some?
    ensures MountsAt(t, first, i).Some? ==>
      var before, now := RulesFor(MountsAt(t, first, i).value, user), RulesFor(MountsAt(t, first, i + 1).value, user);
      && now == (if before.None? || RuleFor(m, user).None? then None else WithRule(before.value, RuleFor(m, user).value))
      && (now.None? && MountsAt(t, first, count).Some? ==> RulesFor(MountsAt(t, first, count).value, user).None?)
  {
    hide MountOf, RuleFor, WithRule;
    MountsPrefix(t, first, i, count);
    var before := MountsAt(t, first, i);
    if before.Some? {
      assert (before.value + [m])[..|before.value|] == before.value;
    }
    if MountsAt(t, first, count).Some? {
      RulesFail(MountsAt(t, first, count).value, i + 1, user);
    }
  }

  /** The first mounts of a stretch are those of the shorter stretch. */
  lemma {:induction false} MountsPrefix(t: Tables, first: nat, i: nat, count: nat)
    requires 16 * (first + count) <= |t.mounts| && i < count
    ensures MountsAt(t, first, count).Some? ==>
      && MountsAt(t, first, i + 1).Some? && |MountsAt(t, first, count).value| == count
      && MountsAt(t, first, count).value[..i + 1] == MountsAt(t, first, i + 1).value
    decreases count
  {
    hide MountOf;
    CountsAreLengths(t, first, count);
    if i + 1 < count {
      MountsPrefix(t, first, i, count - 1);
    } else if MountsAt(t, first, count).Some? {
      assert MountsAt(t, first, count).value[..count] == MountsAt(t, first, count).value;
    }
  }

  lemma {:induction false} RulesFail(ms: seq<Mount>, i: nat, user: string)
    requires i <= |ms|
    ensures RulesFor(ms[..i], user).None? ==> RulesFor(ms, user).None?
    decreases |ms|
  {
    hide RuleFor;
    if i < |ms| {
      assert ms[..|ms| - 1][..i] == ms[..i];
      RulesFail(ms[..|ms| - 1], i, user);
    } else {
      assert ms[..i] == ms;
    }
  }

  method LoadRule(m: Mount, user: string) returns (r: Option<PlannedRule>)
    ensures r == RuleFor(m, user)
  {
    hide IsAllowedTarget, RuntimePath;
    if (m.action != Deny && m.action != Redirect) || !IsAllowedTarget(m.visible) || |m.visible| >= PATH_MAX {
      return None;
    }
    if m.action == Deny {
      return if m.backing != "" then None else Some(PlannedRule(true, m.visible, ""));
    }
    var backing := ExpandRuntimePath(m.backing, user);
    return if backing.None? then None else Some(PlannedRule(false, m.visible, backing.value));
  }

  // ------------------------------------------------------- agreement with the decoder

  /** What a row of an accepted file says about its application, up to the order of the lists. */
  predicate RowMatches(e: Entry, a: App, legacy: bool) {
    && e.package == a.package && multiset(e.users) == multiset(a.users) && multiset(e.processes) == multiset(a.processes)
    && e.media == a.media && e.provider == a.provider && e.generation == PlanGeneration(a, legacy)
    && e.mountCount == |a.mounts| && e.eventCount == |a.events|
  }

  lemma ValidatedKeepsLists(raw: App)
    requires Validated(raw).Some?
    ensures var a := Validated(raw).value;
      && a.package == raw.package && a.media == raw.media && a.provider == raw.provider
      && multiset(a.users) == multiset(raw.users) && multiset(a.processes) == multiset(raw.processes)
  {
    UsersPreordered();
    SortBySorts(UserAtMost, raw.users);
    PathsPreordered();
    SortBySorts(AtMost, raw.processes);
    hide SortBy, Preorder, NormalMounts, NormalEvents;
  }

  lemma AdvanceMatches(t: Tables, p: Progress, row: string)
    requires |row| == PACKAGE_SIZE && p.Within(t) && Advance(t, p, row).Some?
    ensures var q, e := Advance(t, p, row).value, EntryOf(row, t.strings);
      e.Some? && |q.apps| == |p.apps| + 1 && RowMatches(e.value, q.apps[|p.apps|], t.legacy)
  {
    AdvanceTells(t, p, row);
    var e := EntryOf(row, t.strings).value;
    var raw := AppOf(e, MountsAt(t, p.mounts, e.mountCount).value, EventsAt(t, p.events, e.eventCount).value);
    ValidatedKeepsLists(raw);
    hide EntryOf, MountsAt, EventsAt, Validated, PlanGeneration, Precedes, PackageHash;
  }

  lemma {:induction false} RowsMatch(t: Tables, n: nat, i: nat)
    requires 48 * n <= |t.packages| && AppsUpTo(t, n).Some? && i < n
    ensures var e, apps := EntryOf(PackageRow(t, i), t.strings), AppsUpTo(t, n).value.apps;
      e.Some? && |apps| == n && RowMatches(e.value, apps[i], t.legacy)
    decreases n
  {
    hide Advance, EntryOf, RowMatches;
    RangesPartition(t, n);
    RangesPartition(t, n - 1);
    AdvanceTells(t, AppsUpTo(t, n - 1).value, PackageRow(t, n - 1));
    if i < n - 1 {
      RowsMatch(t, n - 1, i);
      assert AppsUpTo(t, n).value.apps[i] == AppsUpTo(t, n - 1).value.apps[i];
    } else {
      AdvanceMatches(t, AppsUpTo(t, n - 1).value, PackageRow(t, n - 1));
    }
  }

  lemma SingletonsAgree(s: seq<string>, t: seq<string>, x: string)
    requires multiset(s) == multiset(t)
    ensures s == [x] <==> t == [x]
  {
    assert |s| == |multiset(s)| == |multiset(t)| == |t|;
    SameMembers(s, t, x);
  }

  /** Membership does not depend on the order of a list. */
  lemma ListsAgree(e: Entry, a: App, process: string, user: string)
    requires multiset(e.users) == multiset(a.users) && multiset(e.processes) == multiset(a.processes)
    ensures ListAdmits(e.users, user) == ListAdmits(a.users, user)
    ensures ProcessAdmitted(a.package, e.processes, process) == ProcessAdmitted(a.package, a.processes, process)
  {
    SingletonsAgree(e.users, a.users, "*");
    SameMembers(e.users, a.users, user);
    SingletonsAgree(e.processes, a.processes, "*");
    SameMembers(e.processes, a.processes, process);
  }

  lemma CountsTold(t: Tables, apps: seq<App>, i: nat)
    requires i < |apps| && 48 * (i + 1) <= |t.packages| && RowTells(t, apps, i)
    ensures Read(PackageRow(t, i), 20, 4) == |apps[i].mounts| && Read(PackageRow(t, i), 28, 4) == |apps[i].events|
  {
    hide StringAt, ListItems, PackageHash, Read, PackageRow;
  }

  lemma {:induction false} CountsAgree(t: Tables, n: nat, i: nat)
    requires 48 * n <= |t.packages| && AppsUpTo(t, n).Some? && i <= n
    ensures |AppsUpTo(t, n).value.apps| == n
    ensures CountsBefore(t, i, 20) == MountsBefore(AppsUpTo(t, n).value.apps, i)
    ensures CountsBefore(t, i, 28) == EventsBefore(AppsUpTo(t, n).value.apps, i)
    decreases i
  {
    hide AppsUpTo, EntryOf, RowTells, PackageRow, Read;
    RangesPartition(t, n);
    if i > 0 {
      CountsAgree(t, n, i - 1);
      CountsTold(t, AppsUpTo(t, n).value.apps, i - 1);
    }
  }

  lemma {:induction false} AllMountsReadable(t: Tables, n: nat, j: nat)
    requires 48 * n <= |t.packages| && AppsUpTo(t, n).Some? && j < AppsUpTo(t, n).value.mounts
    ensures 16 * (j + 1) <= |t.mounts| && MountOf(MountRow(t, j), t.strings).Some?
    decreases n
  {
    hide Advance, MountOf, EntryOf, PackageHash, MountsAt;
    assert n > 0;
    var p, q := AppsUpTo(t, n - 1).value, AppsUpTo(t, n).value;
    AdvanceTells(t, p, PackageRow(t, n - 1));
    if j < p.mounts {
      AllMountsReadable(t, n - 1, j);
    } else {
      StretchReadable(t, p.mounts, q.mounts - p.mounts, j);
    }
  }

  lemma {:induction false} StretchReadable(t: Tables, first: nat, count: nat, j: nat)
    requires 16 * (first + count) <= |t.mounts| && MountsAt(t, first, count).Some? && first <= j < first + count
    ensures MountOf(MountRow(t, j), t.strings).Some?
    decreases count
  {
    hide MountOf;
    if j < first + count - 1 {
      StretchReadable(t, first, count - 1, j);
    }
  }

  lemma {:induction false} AllEventsReadable(t: Tables, n: nat, j: nat)
    requires 48 * n <= |t.packages| && AppsUpTo(t, n).Some? && j < AppsUpTo(t, n).value.events
    ensures 16 * (j + 1) <= |t.events| && EventOf(EventRow(t, j), t.strings).Some?
    decreases n
  {
    hide EventOf, EntryOf, MountsAt, CanonicalApp, PackageHash;
    assert n > 0;
    var p := AppsUpTo(t, n - 1).value;
    var e := EntryOf(PackageRow(t, n - 1), t.strings).value;
    if j < p.events {
      AllEventsReadable(t, n - 1, j);
    } else {
      EventStretchReadable(t, p.events, e.eventCount, j);
    }
  }

  lemma {:induction false} EventStretchReadable(t: Tables, first: nat, count: nat, j: nat)
    requires 16 * (first + count) <= |t.events| && EventsAt(t, first, count).Some? && first <= j < first + count
    ensures EventOf(EventRow(t, j), t.strings).Some?
    decreases count
  {
    hide EventOf;
    if j < first + count - 1 {
      EventStretchReadable(t, first, count - 1, j);
    }
  }

  lemma RowsAreValid(t: Tables, n: nat, i: nat)
    requires 48 * n <= |t.packages| && AppsUpTo(t, n).Some? && i < n
    ensures RowValid(t, i)
  {
    hide AppsUpTo, RowTells, MountsBefore, EventsBefore, CountsBefore, RowValid;
    RangesPartition(t, n);
    var apps := AppsUpTo(t, n).value.apps;
    CountsAgree(t, n, i);
    CountsAgree(t, n, n);
    GrowsTo(apps, i + 1, n);
    NextBefore(apps, i);
    ToldIsValid(t, apps, i);
  }

  lemma ToldIsValid(t: Tables, apps: seq<App>, i: nat)
    requires i < |apps| && 48 * (i + 1) <= |t.packages| && RowTells(t, apps, i)
    requires CountsBefore(t, i, 20) == MountsBefore(apps, i) && CountsBefore(t, i, 28) == EventsBefore(apps, i)
    requires 16 * (MountsBefore(apps, i) + |apps[i].mounts|) <= |t.mounts|
    requires 16 * (EventsBefore(apps, i) + |apps[i].events|) <= |t.events|
    ensures RowValid(t, i)
  {
    hide StringAt, ListItems, PackageHash, CountsBefore, MountsBefore, EventsBefore, Read, PackageRow;
  }

  lemma NextBefore(apps: seq<App>, i: nat)
    requires i < |apps|
    ensures MountsBefore(apps, i + 1) == MountsBefore(apps, i) + |apps[i].mounts|
    ensures EventsBefore(apps, i + 1) == EventsBefore(apps, i) + |apps[i].events|
  {
  }

  lemma {:induction false} GrowsTo(apps: seq<App>, i: nat, j: nat)
    requires i <= j <= |apps|
    ensures MountsBefore(apps, i) <= MountsBefore(apps, j) && EventsBefore(apps, i) <= EventsBefore(apps, j)
    decreases j
  {
    if i < j {
      GrowsTo(apps, i, j - 1);
    }
  }

  lemma NamesAreValid(t: Tables, n: nat)
    requires 48 * n <= |t.packages| && AppsUpTo(t, n).Some?
    ensures |AppsUpTo(t, n).value.apps| == n && IndexValid(t, n) && NamesOf(t, n) == Names(AppsUpTo(t, n).value.apps)
  {
    RangesPartition(t, n);
    AcceptedIsIndexed(t, n);
    hide AppsUpTo, Indexes, IndexValid;
    IndexedIsValid(t, Names(AppsUpTo(t, n).value.apps));
  }

  lemma IndexedIsValid(t: Tables, names: seq<string>)
    requires Indexes(t, names)
    ensures IndexValid(t, |names|) && NamesOf(t, |names|) == names
  {
    hide StringAt, PackageHash, Precedes, HashAt, NameOffset;
    forall i | 0 <= i < |names| ensures NameAt(t, i) == Some(names[i]) { }
  }

  /** MAIN RESULT. Whatever the decoder accepts, the loader's own checks accept. */
  lemma AcceptedIsLoadable(bytes: string)
    requires Decoded(bytes).Some?
    ensures HeaderFits(bytes)
    ensures var t, n := TablesOf(bytes), Read(bytes, 24, 4); IndexValid(t, n) && TablesValid(t, n)
  {
    var t, n := TablesOf(bytes), Read(bytes, 24, 4);
    hide AppsUpTo, ContentGeneration, Read;
    var p := AppsUpTo(t, n).value;
    RangesPartition(t, n);
    NamesAreValid(t, n);
    CountsAgree(t, n, n);
    hide NamesOf, NameAt, RowTells, PackageRow, IndexValid, RowValid, MountOf, EventOf, CountsBefore;
    forall i | 0 <= i < n ensures RowValid(t, i) { RowsAreValid(t, n, i); }
    forall j | 0 <= j < |t.mounts| / 16 ensures MountOf(MountRow(t, j), t.strings).Some? { AllMountsReadable(t, n, j); }
    forall j | 0 <= j < |t.events| / 16 ensures EventOf(EventRow(t, j), t.strings).Some? { AllEventsReadable(t, n, j); }
  }

  lemma NotItself(a: string)
    ensures !Precedes(a, a)
  {
    LessIsStrict(a, a);
  }

  /** A package occurs once, so its place is the one found by name. */
  lemma {:induction false} FoundByName(apps: seq<App>, i: nat)
    requires InOrder(apps) && i < |apps|
    ensures FindApp(apps, apps[i].package) == Some(i)
  {
    hide Precedes;
    NotItself(apps[i].package);
  }

  lemma NotFoundByName(apps: seq<App>, package: string)
    requires package !in Names(apps)
    ensures FindApp(apps, package).None?
  {
    forall i | 0 <= i < |apps| ensures apps[i].package != package {
      assert Names(apps)[i] == apps[i].package;
    }
  }

  lemma PartIsNulFree(process: string)
    requires NulFree(process)
    ensures NulFree(PackagePart(process))
  {
    forall c | c in PackagePart(process) ensures c != '\0' { assert c in process; }
  }

  /** What the loader takes from one row of the package table. */
  method LoadEntry(t: Tables, i: nat, process: string, user: string, contentGeneration: nat) returns (plan: Option<Plan>)
    requires 48 * (i + 1) <= |t.packages| && RowValid(t, i) && process != "" && user != ""
    ensures var e := EntryOf(PackageRow(t, i), t.strings);
      e.Some? && RowValid(t, i) && MountsAt(t, e.value.firstMount, e.value.mountCount).Some? ==>
        plan == PlanFromRow(t, e.value, process, user, contentGeneration)
  {
    hide StringAt, ListItems, MountsAt, RulesFor, PackageHash;
    var row := PackageRow(t, i);
    var package, users, processes :=
      StringAt(t.strings, Read(row, 4, 4)), StringAt(t.strings, Read(row, 8, 4)), StringAt(t.strings, Read(row, 12, 4));
    var first, count := Read(row, 16, 4), Read(row, 20, 4);
    if Read(row, 40, 1) != 0 || Read(row, 28, 4) != 0 {
      return None;
    }
    if package.None? || users.None? || processes.None? {
      return None;
    }
    var inProcess := ProcessMatches(package.value, processes.value, process);
    if !inProcess {
      return None;
    }
    var inUsers := ListContains(users.value, user);
    StarAlone(users.value);
    ItemsAreSplit(users.value);
    if !inUsers {
      return None;
    }
    if count > MAX_RULES {
      return None;
    }
    var rules := LoadRules(t, first, count, user);
    if rules.None? || rules.value == [] {
      return None;
    }
    return Some(Plan(rules.value, t.legacy, contentGeneration, Read(row, 32, 8), Read(row, 41, 1) == 1, Read(row, 42, 1) == 1));
  }

  lemma ItemsAreSplit(s: string)
    ensures ListItems(s).Some? ==> ListItems(s).value == Split(s, ',')
  {
  }

  /** The plan of a row whose mounts can be read. */
  function PlanFromRow(t: Tables, e: Entry, process: string, user: string, contentGeneration: nat): Option<Plan>
    requires 16 * (e.firstMount + e.mountCount) <= |t.mounts| && MountsAt(t, e.firstMount, e.mountCount).Some?
  {
    if e.eventCount != 0 || e.mountCount > MAX_RULES then None
    else if !ProcessAdmitted(e.package, e.processes, process) || !ListAdmits(e.users, user) then None
    else
      var rules := RulesFor(MountsAt(t, e.firstMount, e.mountCount).value, user);
      if rules.None? || rules.value.0 == [] then None
      else Some(Plan(rules.value.0, t.legacy, contentGeneration, e.generation, e.media, e.provider))
  }

  lemma {:induction false} OneRuleEach(ms: seq<Mount>, user: string)
    ensures RulesFor(ms, user).Some? ==> |RulesFor(ms, user).value.0| == |ms|
  {
    hide RuleFor;
    if ms != [] {
      OneRuleEach(ms[..|ms| - 1], user);
    }
  }

  /** The row's plan is the application's. */
  lemma RowPlanIsAppPlan(t: Tables, e: Entry, d: Document, a: App, process: string, user: string)
    requires 16 * (e.firstMount + e.mountCount) <= |t.mounts| && MountsAt(t, e.firstMount, e.mountCount) == Some(a.mounts)
    requires RowMatches(e, a, t.legacy) && d.legacy == t.legacy
    ensures PlanFromRow(t, e, process, user, d.generation) == PlanForApp(d, a, process, user)
  {
    ListsAgree(e, a, process, user);
    OneRuleEach(a.mounts, user);
    hide MountsAt, RulesFor, ProcessAdmitted, ListAdmits, PlanGeneration;
  }

  /** MAIN RESULT. On every policy file the decoder accepts, the loader plans exactly what the
      decoded document says: the mounts of the process's package, in order, for its user. */
  method LoadProcessPlan(bytes: string, process: string, uid: nat) returns (plan: Option<Plan>)
    requires NulFree(process)
    ensures Decoded(bytes).Some? ==> plan == PlanFor(Decoded(bytes).value, process, uid)
  {
    hide IndexValid, TablesValid, AppsUpTo, ContentGeneration, Read, PlanForApp, PlanFromRow, EntryOf, MountsAt, RowMatches;
    if |process| >= MAX_PROCESS_NAME || !HeaderFits(bytes) {
      return None;
    }
    var t, n := TablesOf(bytes), Read(bytes, 24, 4);
    if Decoded(bytes).Some? {
      AcceptedIsLoadable(bytes);
    }
    var indexed := ValidPackageIndex(t, n);
    if !indexed {
      return None;
    }
    var valid := ValidPolicyTables(t, n);
    if !valid {
      return None;
    }
    var colon := FindSeparator(process, ':', 0);
    assert process[0..] == process;
    var package := process[..colon];
    if package == "" {
      return None;
    }
    ValidIndexes(t, n);
    PartIsNulFree(process);
    var i := FindPackageEntry(t, package, NamesOf(t, n), n);
    if Decoded(bytes).Some? {
      NamesAreValid(t, n);
      PackagesInOrder(t, n);
    }
    if i.None? {
      if Decoded(bytes).Some? {
        NotFoundByName(Decoded(bytes).value.apps, package);
      }
      return None;
    }
    RowIsValid(t, n, i.value);
    DecimalNonEmpty(uid / USERS_PER_ID);
    var user := Decimal(uid / USERS_PER_ID);
    plan := LoadEntry(t, i.value, process, user, Read(bytes, 16, 8));
    if Decoded(bytes).Some? {
      var d := Decoded(bytes).value;
      FoundByName(d.apps, i.value);
      AppFromRow(t, n, i.value);
      RowPlanIsAppPlan(t, EntryOf(PackageRow(t, i.value), t.strings).value, d, d.apps[i.value], process, user);
    }
  }

  lemma RowIsValid(t: Tables, n: nat, i: nat)
    requires 48 * n <= |t.packages| && TablesValid(t, n) && i < n
    ensures RowValid(t, i)
  {
  }

  lemma DecimalNonEmpty(n: nat)
    ensures Decimal(n) != ""
  {
  }

  lemma AppFromRow(t: Tables, n: nat, i: nat)
    requires 48 * n <= |t.packages| && AppsUpTo(t, n).Some? && i < n
    ensures var e, apps := EntryOf(PackageRow(t, i), t.strings), AppsUpTo(t, n).value.apps;
      && e.Some? && |apps| == n && RowMatches(e.value, apps[i], t.legacy)
      && 16 * (e.value.firstMount + e.value.mountCount) <= |t.mounts|
      && MountsAt(t, e.value.firstMount, e.value.mountCount) == Some(apps[i].mounts)
  {
    RangesPartition(t, n);
    hide AppsUpTo, EntryOf, MountsAt, RowMatches;
    RowsMatch(t, n, i);
    MountsAreTheirs(t, n, i);
    assert RowTells(t, AppsUpTo(t, n).value.apps, i);
  }

  // --------------------------------------------------------------- distinct targets

  lemma AdvanceAgrees(t: Tables, p: Progress, row: string)
    requires |row| == PACKAGE_SIZE && p.Within(t) && Advance(t, p, row).Some?
    ensures var q := Advance(t, p, row).value; |q.apps| == |p.apps| + 1 && NoCollisions(q.apps[|p.apps|].mounts)
  {
    AdvanceTells(t, p, row);
    var e := EntryOf(row, t.strings).value;
    var raw := AppOf(e, MountsAt(t, p.mounts, e.mountCount).value, EventsAt(t, p.events, e.eventCount).value);
    MountsOnce(raw);
    hide EntryOf, MountsAt, EventsAt, Validated, PlanGeneration, Precedes, PackageHash, NoCollisions;
  }

  lemma {:induction false} DecodedAgree(t: Tables, n: nat, i: nat)
    requires 48 * n <= |t.packages| && AppsUpTo(t, n).Some? && i < n
    ensures |AppsUpTo(t, n).value.apps| == n && NoCollisions(AppsUpTo(t, n).value.apps[i].mounts)
    decreases n
  {
    hide Advance, NoCollisions, RowTells, PackageRow;
    RangesPartition(t, n);
    RangesPartition(t, n - 1);
    if i < n - 1 {
      DecodedAgree(t, n - 1, i);
      AdvanceTells(t, AppsUpTo(t, n - 1).value, PackageRow(t, n - 1));
      assert AppsUpTo(t, n).value.apps[i] == AppsUpTo(t, n - 1).value.apps[i];
    } else {
      AdvanceAgrees(t, AppsUpTo(t, n - 1).value, PackageRow(t, n - 1));
    }
  }

  /** The planned rules are the mounts, one for one. */
  lemma {:induction false} RulesAreMounts(ms: seq<Mount>, user: string, i: nat)
    requires RulesFor(ms, user).Some? && i < |ms|
    ensures |RulesFor(ms, user).value.0| == |ms| && RulesFor(ms, user).value.0[i].visible == ms[i].visible
    ensures ms[i].action == Deny || ms[i].action == Redirect
    decreases |ms|
  {
    hide IsAllowedTarget, RuntimePath;
    OneRuleEach(ms, user);
    OneRuleEach(ms[..|ms| - 1], user);
    if i < |ms| - 1 {
      RulesAreMounts(ms[..|ms| - 1], user, i);
    }
  }

  /** MAIN RESULT. A plan taken from an accepted file has between one and 64 rules, and no two of
      them have the same target. */
  lemma PlannedTargetsDiffer(bytes: string, process: string, uid: nat)
    requires Decoded(bytes).Some? && PlanFor(Decoded(bytes).value, process, uid).Some?
    ensures var rules := PlanFor(Decoded(bytes).value, process, uid).value.rules;
      && 0 < |rules| <= MAX_RULES
      && forall i, j :: 0 <= i < j < |rules| ==> rules[i].visible != rules[j].visible
  {
    hide AppsUpTo, ContentGeneration, Read, RulesFor, ProcessAdmitted, ListAdmits, PlanGeneration, NoCollisions;
    var d, t, n := Decoded(bytes).value, TablesOf(bytes), Read(bytes, 24, 4);
    RangesPartition(t, n);
    var k := FindApp(d.apps, PackagePart(process)).value;
    DecodedAgree(t, n, k);
    var a, user := d.apps[k], Decimal(uid / USERS_PER_ID);
    OneRuleEach(a.mounts, user);
    RulesDiffer(a.mounts, user);
  }

  lemma RulesDiffer(ms: seq<Mount>, user: string)
    requires NoCollisions(ms) && RulesFor(ms, user).Some?
    ensures var rules := RulesFor(ms, user).value.0;
      |rules| == |ms| && forall i, j :: 0 <= i < j < |rules| ==> rules[i].visible != rules[j].visible
  {
    hide RulesFor;
    OneRuleEach(ms, user);
    var rules := RulesFor(ms, user).value.0;
    forall i, j | 0 <= i < j < |rules| ensures rules[i].visible != rules[j].visible {
      RulesAreMounts(ms, user, i);
      RulesAreMounts(ms, user, j);
      assert !Collide(ms[i], ms[j]);
    }
  }
}
