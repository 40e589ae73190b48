/** ValidatePolicy of core/src/validation.cpp: one application's plan is checked, its paths are
    normalised and its lists are put in order. */
module Validation {
  import opened Wrappers
  import opened PathOrder
  import opened Sorting
  import opened DecimalText
  import opened LogicalPath

  datatype MountAction = Deny | Redirect | Restore | IsolateRoot

  datatype EventAction = Observe | Export

  datatype Mount = Mount(action: MountAction, visible: string, backing: string, depth: nat, flags: nat)

  datatype Event = Event(action: EventAction, source: string, target: string, options: nat)

  /** One application's plan; `media` and `provider` say whether these are made compatible. */
  datatype App = App(
    package: string, media: bool, provider: bool, users: seq<string>, processes: seq<string>,
    mounts: seq<Mount>, events: seq<Event>)

  // -------------------------------------------------------------------- users

  const UINT_MAX: nat := 0xFFFF_FFFF

  predicate IsUser(s: string) {
    s != "" && (forall c :: c in s ==> '0' <= c <= '9') && Value(s) <= UINT_MAX
  }

  predicate UserAtMost(a: string, b: string) { Value(a) <= Value(b) }

  function NormalUsers(users: seq<string>): Option<seq<string>> {
    if users == ["*"] then Some(users)
    else if forall u :: u in users ==> IsUser(u) then Some(SortBy(UserAtMost, users))
    else None
  }

  // -------------------------------------------------------------------- mounts

  predicate IsVisible(p: string) { '{' !in p && '}' !in p && IsLogical(p) }

  function NormalBacking(p: string, package: string): Option<string> {
    var e := Expanded(p, package);
    if e.Some? && IsLogical(e.value) then e else None
  }

  function Slashes(p: string): nat { if p == "" then 0 else (if p[0] == '/' then 1 else 0) + Slashes(p[1..]) }

  function NormalMount(m: Mount, package: string): Option<Mount> {
    if m.action == IsolateRoot then
      var backing := NormalBacking(m.backing, package);
      if backing.None? then None else Some(m.(visible := "", backing := backing.value, depth := 0))
    else if !IsVisible(m.visible) then None
    else
      var at := m.(depth := 1 + Slashes(m.visible));
      match m.action
      case Redirect =>
        var backing := NormalBacking(m.backing, package);
        if backing.None? then None else Some(at.(backing := backing.value))
      case Restore => Some(at.(backing := m.visible))
      case _ => Some(at.(backing := ""))
  }

  function NormalMounts(ms: seq<Mount>, package: string): Option<seq<Mount>> {
    if ms == [] then Some([])
    else
      var init, m := NormalMounts(ms[..|ms| - 1], package), NormalMount(ms[|ms| - 1], package);
      if init.Some? && m.Some? then Some(init.value + [m.value]) else None
  }

  /** Two mounts in one place: the same visible path, or two isolations of the root. */
  predicate Collide(a: Mount, b: Mount) {
    if a.action == IsolateRoot || b.action == IsolateRoot then a.action == b.action else a.visible == b.visible
  }

  predicate IsPathOrDescendant(path: string, directory: string) { IsSameOrAncestor(directory, path) }

  /** Nothing to restore without an isolation, and nothing visible in its way. */
  predicate Suits(m: Mount, ms: seq<Mount>) {
    && (m.action == Restore ==> exists r :: r in ms && r.action == IsolateRoot)
    && (m.action != IsolateRoot ==> forall r :: r in ms && r.action == IsolateRoot ==>
          !IsPathOrDescendant(m.visible, r.backing) && !IsPathOrDescendant(r.backing, m.visible))
  }

  predicate NoCollisions(ms: seq<Mount>) { forall i, j :: 0 <= i < j < |ms| ==> !Collide(ms[i], ms[j]) }

  predicate MountsAgree(ms: seq<Mount>) { NoCollisions(ms) && forall m :: m in ms ==> Suits(m, ms) }

  function Stage(a: MountAction): nat {
    match a
    case IsolateRoot => 0
    case Restore => 1
    case Redirect => 2
    case Deny => 3
  }

  predicate MountAtMost(a: Mount, b: Mount) {
    if Stage(a.action) != Stage(b.action) then Stage(a.action) < Stage(b.action)
    else if a.depth != b.depth then a.depth < b.depth
    else if a.visible != b.visible then Less(a.visible, b.visible)
    else if a.backing != b.backing then Less(a.backing, b.backing)
    else a.flags <= b.flags
  }

  // -------------------------------------------------------------------- events

  const MEDIA_SCAN: nat := 4

  /** Copy, move or trash, with or without a media scan. */
  predicate AreOptions(options: nat) { options % MEDIA_SCAN <= 2 && options < 2 * MEDIA_SCAN }

  function NormalEvent(e: Event, package: string): Option<Event> {
    if !IsVisible(e.source) then None
    else if e.action == Observe then Some(e.(target := "", options := 0))
    else
      var target := NormalBacking(e.target, package);
      if target.None? || IsPathOrDescendant(target.value, e.source) || !AreOptions(e.options) then None
      else Some(e.(target := target.value))
  }

  function NormalEvents(es: seq<Event>, package: string): Option<seq<Event>> {
    if es == [] then Some([])
    else
      var init, e := NormalEvents(es[..|es| - 1], package), NormalEvent(es[|es| - 1], package);
      if init.Some? && e.Some? then Some(init.value + [e.value]) else None
  }

  predicate NoRepeats<T(==)>(s: seq<T>) { forall i, j :: 0 <= i < j < |s| ==> s[i] != s[j] }

  predicate EventAtMost(a: Event, b: Event) {
    if a.action != b.action then a.action == Observe
    else if a.source != b.source then Less(a.source, b.source)
    else if a.target != b.target then Less(a.target, b.target)
    else a.options <= b.options
  }

  // ------------------------------------------------------------------ the plan

  /** File virtualisation needs named users and something redirected. */
  predicate ProviderFits(users: seq<string>, ms: seq<Mount>) {
    users != ["*"] && exists m :: m in ms && m.action == Redirect
  }

  function Validated(a: App): Option<App> {
    var users, ms, es := NormalUsers(a.users), NormalMounts(a.mounts, a.package), NormalEvents(a.events, a.package);
    if a.package == "" || users.None? || ms.None? || es.None? then None
    else if !MountsAgree(ms.value) || !NoRepeats(es.value) then None
    else if a.provider && !ProviderFits(users.value, ms.value) then None
    else
      Some(a.(users := users.value, processes := SortBy(AtMost, a.processes),
              mounts := SortBy(MountAtMost, ms.value), events := SortBy(EventAtMost, es.value)))
  }

  // ------------------------------------------------------------ step by step

  method NormalizeVisible(p: string) returns (ok: bool)
    ensures ok == IsVisible(p)
  {
    if '{' in p || '}' in p {
      return false;
    }
    var normal := NormalizeLogicalPath(p);
    return normal.Some?;
  }

  method NormalizeBacking(p: string, package: string) returns (r: Option<string>)
    ensures r == NormalBacking(p, package)
  {
    var expanded := ExpandPathPlaceholders(p, package);
    if expanded.None? {
      return None;
    }
    r := NormalizeLogicalPath(expanded.value);
  }

  method CountSlashes(p: string) returns (n: nat)
    ensures n == Slashes(p)
  {
    n := 0;
    assert p[0..] == p;
    for i := 0 to |p|
      invariant n + Slashes(p[i..]) == Slashes(p)
    {
      assert p[i..][1..] == p[i + 1..];
      if p[i] == '/' {
        n := n + 1;
      }
    }
  }

  method NormalizeMount(m: Mount, package: string) returns (r: Option<Mount>)
    ensures r == NormalMount(m, package)
  {
    hide IsVisible, NormalBacking, Slashes;
    if m.action == IsolateRoot {
      var backing := NormalizeBacking(m.backing, package);
      return if backing.None? then None else Some(m.(visible := "", backing := backing.value, depth := 0));
    }
    var visible := NormalizeVisible(m.visible);
    if !visible {
      return None;
    }
    var slashes := CountSlashes(m.visible);
    var rule := m.(depth := 1 + slashes);
    if m.action == Redirect {
      var backing := NormalizeBacking(m.backing, package);
      return if backing.None? then None else Some(rule.(backing := backing.value));
    }
    return Some(rule.(backing := if m.action == Restore then m.visible else ""));
  }

  lemma {:induction false} NormalPrefix(ms: seq<Mount>, package: string, i: nat)
    requires i <= |ms| && NormalMounts(ms, package).Some?
    ensures |NormalMounts(ms, package).value| == |ms|
    ensures NormalMounts(ms[..i], package).Some?
    ensures NormalMounts(ms[..i], package).value == NormalMounts(ms, package).value[..i]
    decreases |ms|
  {
    hide NormalMount;
    if ms == [] {
      assert ms[..i] == ms;
    } else {
      var init := ms[..|ms| - 1];
      NormalPrefix(init, package, |init|);
      assert init[..|init|] == init;
      if i < |ms| {
        NormalPrefix(init, package, i);
        assert init[..i] == ms[..i];
      } else {
        assert ms[..i] == ms;
      }
    }
  }

  /** What the loop remembers of the mounts behind it. */
  ghost predicate Remembers(visible: set<string>, isolated: bool, done: seq<Mount>) {
    && (isolated <==> exists m :: m in done && m.action == IsolateRoot)
    && (forall p :: p in visible <==> exists m :: m in done && m.action != IsolateRoot && m.visible == p)
  }

  predicate Taken(visible: set<string>, isolated: bool, m: Mount) {
    if m.action == IsolateRoot then isolated else m.visible in visible
  }

  lemma TakenCollides(visible: set<string>, isolated: bool, done: seq<Mount>, m: Mount)
    requires Remembers(visible, isolated, done) && NoCollisions(done)
    ensures NoCollisions(done + [m]) <==> !Taken(visible, isolated, m)
  {
    var next := done + [m];
    if Taken(visible, isolated, m) {
      var d :| d in done && Collide(d, m);
      var k :| 0 <= k < |done| && done[k] == d;
      assert Collide(next[k], next[|done|]);
    } else {
      forall i, j | 0 <= i < j < |next| ensures !Collide(next[i], next[j]) {
        assert next[i] in done && (j < |done| ==> next[i] == done[i] && next[j] == done[j]);
      }
    }
  }

  lemma RememberMore(visible: set<string>, isolated: bool, done: seq<Mount>, m: Mount)
    requires Remembers(visible, isolated, done)
    ensures if m.action == IsolateRoot then Remembers(visible, true, done + [m])
            else Remembers(visible + {m.visible}, isolated, done + [m])
  {
    assert m in done + [m] && forall x :: x in done + [m] <==> x in done || x == m;
  }

  lemma PrefixKeepsApart(ms: seq<Mount>, i: nat)
    requires i <= |ms| && NoCollisions(ms)
    ensures NoCollisions(ms[..i])
  {
  }

  /** The mounts in their normal form, if each has one and no two collide: a visible path may
      be named once, the root may be isolated once. */
  method NormalizeMounts(ms: seq<Mount>, package: string) returns (r: Option<seq<Mount>>)
    ensures r == if NormalMounts(ms, package).Some? && NoCollisions(NormalMounts(ms, package).value)
                 then NormalMounts(ms, package) else None
  {
    var done: seq<Mount> := [];
    var visible: set<string> := {};
    var isolated := false;
    assert Remembers(visible, isolated, done) && NoCollisions(done);
    hide NormalMount, NoCollisions, Remembers;
    for i := 0 to |ms|
      invariant NormalMounts(ms[..i], package) == Some(done)
      invariant NoCollisions(done) && Remembers(visible, isolated, done)
    {
      var rule := NormalizeMount(ms[i], package);
      assert ms[..i + 1][..i] == ms[..i];
      if NormalMounts(ms, package).Some? {
        NormalPrefix(ms, package, i + 1);
        if NoCollisions(NormalMounts(ms, package).value) {
          PrefixKeepsApart(NormalMounts(ms, package).value, i + 1);
        }
      }
      if rule.None? {
        return None;
      }
      TakenCollides(visible, isolated, done, rule.value);
      if Taken(visible, isolated, rule.value) {
        return None;
      }
      RememberMore(visible, isolated, done, rule.value);
      if rule.value.action == IsolateRoot {
        isolated := true;
      } else {
        visible := visible + {rule.value.visible};
      }
      done := done + [rule.value];
    }
    assert ms[..|ms|] == ms;
    return Some(done);
  }

  method NormalizeEvents(es: seq<Event>, package: string) returns (r: Option<seq<Event>>)
    ensures r == if NormalEvents(es, package).Some? && NoRepeats(NormalEvents(es, package).value)
                 then NormalEvents(es, package) else None
  {
    hide NormalEvent;
    var done: seq<Event> := [];
    for i := 0 to |es|
      invariant NormalEvents(es[..i], package) == Some(done) && NoRepeats(done) && |done| == i
    {
      var rule := NormalizeEvent(es[i], package);
      assert es[..i + 1][..i] == es[..i];
      if NormalEvents(es, package).Some? {
        NormalEventPrefix(es, package, i + 1);
      }
      if rule.None? {
        return None;
      }
      ghost var next := done + [rule.value];
      if rule.value in done {
        ghost var k :| 0 <= k < i && done[k] == rule.value;
        assert next[k] == next[i];
        return None;
      }
      done := done + [rule.value];
    }
    assert es[..|es|] == es;
    return Some(done);
  }

  lemma {:induction false} NormalEventPrefix(es: seq<Event>, package: string, i: nat)
    requires i <= |es| && NormalEvents(es, package).Some?
    ensures |NormalEvents(es, package).value| == |es|
    ensures NormalEvents(es[..i], package).Some?
    ensures NormalEvents(es[..i], package).value == NormalEvents(es, package).value[..i]
    decreases |es|
  {
    hide NormalEvent;
    if es == [] {
      assert es[..i] == es;
    } else {
      var init := es[..|es| - 1];
      NormalEventPrefix(init, package, |init|);
      assert init[..|init|] == init;
      if i < |es| {
        NormalEventPrefix(init, package, i);
        assert init[..i] == es[..i];
      } else {
        assert es[..i] == es;
      }
    }
  }

  method NormalizeEvent(e: Event, package: string) returns (r: Option<Event>)
    ensures r == NormalEvent(e, package)
  {
    hide IsVisible, NormalBacking;
    var visible := NormalizeVisible(e.source);
    if !visible {
      return None;
    }
    if e.action == Observe {
      return Some(e.(target := "", options := 0));
    }
    var target := NormalizeBacking(e.target, package);
    if target.None? || IsPathOrDescendant(target.value, e.source) || !AreOptions(e.options) {
      return None;
    }
    return Some(e.(target := target.value));
  }

  method ValidatePolicy(a: App) returns (r: Option<App>)
    ensures r == Validated(a)
  {
    hide NormalUsers, NormalMounts, NormalEvents, NoCollisions, Suits, NoRepeats, SortBy;
    if a.package == "" {
      return None;
    }
    var users := NormalUsers(a.users);
    if users.None? {
      return None;
    }
    var processes := SortBy(AtMost, a.processes);
    var mounts := NormalizeMounts(a.mounts, a.package);
    if mounts.None? || exists m :: m in mounts.value && !Suits(m, mounts.value) {
      return None;
    }
    if a.provider && !ProviderFits(users.value, mounts.value) {
      return None;
    }
    var events := NormalizeEvents(a.events, a.package);
    if events.None? {
      return None;
    }
    return Some(a.(users := users.value, processes := processes,
                   mounts := SortBy(MountAtMost, mounts.value), events := SortBy(EventAtMost, events.value)));
  }

  // --------------------------------------------------------------- only once

  lemma UsersPreordered()
    ensures Preorder(UserAtMost)
  {
  }

  lemma NormalUsersTwice(users: seq<string>)
    requires NormalUsers(users).Some?
    ensures NormalUsers(NormalUsers(users).value) == NormalUsers(users)
  {
    var sorted := NormalUsers(users).value;
    if users != ["*"] {
      UsersPreordered();
      SortBySorts(UserAtMost, users);
      hide Preorder, IsUser, SortBy;
      forall u | u in sorted ensures IsUser(u) { SameMembers(sorted, users, u); }
      SortOfSorted(UserAtMost, sorted);
      StarIsNoUser();
      assert sorted != ["*"] by { assert "*" in ["*"]; }
    }
  }

  lemma StarIsNoUser()
    ensures !IsUser("*")
  {
    assert '*' in "*";
  }

  lemma NormalBackingTwice(p: string, package: string)
    requires NormalBacking(p, package).Some?
    ensures NormalBacking(NormalBacking(p, package).value, package) == NormalBacking(p, package)
  {
    ExpandedTwice(p, package);
  }

  lemma NormalMountTwice(m: Mount, package: string)
    requires NormalMount(m, package).Some?
    ensures NormalMount(NormalMount(m, package).value, package) == NormalMount(m, package)
  {
    hide NormalBacking, IsVisible, Slashes;
    if m.action == IsolateRoot || m.action == Redirect {
      NormalBackingTwice(m.backing, package);
    }
  }

  lemma NormalEventTwice(e: Event, package: string)
    requires NormalEvent(e, package).Some?
    ensures NormalEvent(NormalEvent(e, package).value, package) == NormalEvent(e, package)
  {
    hide NormalBacking, IsVisible;
    if e.action == Export {
      NormalBackingTwice(e.target, package);
    }
  }

  predicate AllNormal(ms: seq<Mount>, package: string) { forall m :: m in ms ==> NormalMount(m, package) == Some(m) }

  lemma {:induction false} NormalMountsAre(ms: seq<Mount>, package: string)
    requires NormalMounts(ms, package).Some?
    ensures AllNormal(NormalMounts(ms, package).value, package)
  {
    hide NormalMount;
    if ms != [] {
      NormalMountsAre(ms[..|ms| - 1], package);
      NormalMountTwice(ms[|ms| - 1], package);
    }
  }

  lemma {:induction false} NormalMountsStay(ms: seq<Mount>, package: string)
    requires AllNormal(ms, package)
    ensures NormalMounts(ms, package) == Some(ms)
  {
    hide NormalMount;
    if ms != [] {
      var init, m := ms[..|ms| - 1], ms[|ms| - 1];
      assert m in ms && forall x :: x in init ==> x in ms;
      NormalMountsStay(init, package);
      assert init + [m] == ms;
    }
  }

  predicate AllNormalEvents(es: seq<Event>, package: string) {
    forall e :: e in es ==> NormalEvent(e, package) == Some(e)
  }

  lemma {:induction false} NormalEventsAre(es: seq<Event>, package: string)
    requires NormalEvents(es, package).Some?
    ensures AllNormalEvents(NormalEvents(es, package).value, package)
  {
    hide NormalEvent;
    if es != [] {
      NormalEventsAre(es[..|es| - 1], package);
      NormalEventTwice(es[|es| - 1], package);
    }
  }

  lemma {:induction false} NormalEventsStay(es: seq<Event>, package: string)
    requires AllNormalEvents(es, package)
    ensures NormalEvents(es, package) == Some(es)
  {
    hide NormalEvent;
    if es != [] {
      var init, e := es[..|es| - 1], es[|es| - 1];
      assert e in es && forall x :: x in init ==> x in es;
      NormalEventsStay(init, package);
      assert init + [e] == es;
    }
  }

  lemma MountsPreordered()
    ensures Preorder(MountAtMost)
  {
    forall a, b ensures MountAtMost(a, b) || MountAtMost(b, a) {
      LessIsTotal(a.visible, b.visible);
      LessIsTotal(a.backing, b.backing);
    }
    forall a, b, c ensures MountAtMost(a, b) && MountAtMost(b, c) ==> MountAtMost(a, c) {
      if Less(a.visible, b.visible) && Less(b.visible, c.visible) {
        LessTransitive(a.visible, b.visible, c.visible);
        LessIsStrict(a.visible, b.visible);
        LessIsStrict(a.visible, c.visible);
      }
      if Less(a.backing, b.backing) && Less(b.backing, c.backing) {
        LessTransitive(a.backing, b.backing, c.backing);
        LessIsStrict(a.backing, c.backing);
      }
    }
  }

  lemma EventsPreordered()
    ensures Preorder(EventAtMost)
  {
    forall a, b ensures EventAtMost(a, b) || EventAtMost(b, a) {
      LessIsTotal(a.source, b.source);
      LessIsTotal(a.target, b.target);
    }
    forall a, b, c ensures EventAtMost(a, b) && EventAtMost(b, c) ==> EventAtMost(a, c) {
      if Less(a.source, b.source) && Less(b.source, c.source) {
        LessTransitive(a.source, b.source, c.source);
        LessIsStrict(a.source, c.source);
      }
      if Less(a.target, b.target) && Less(b.target, c.target) {
        LessTransitive(a.target, b.target, c.target);
        LessIsStrict(a.target, c.target);
      }
    }
  }

  lemma {:induction false} NoRepeatsIsOrderless<T>(s: seq<T>, t: seq<T>)
    requires multiset(s) == multiset(t) && NoRepeats(s)
    ensures NoRepeats(t)
  {
    forall i, j | 0 <= i < j < |t| ensures t[i] != t[j] {
      OnceOnly(s, t[i]);
      if t[i] == t[j] {
        Twice(t, i, j);
      }
    }
  }

  lemma {:induction false} OnceOnly<T>(s: seq<T>, x: T)
    requires NoRepeats(s)
    ensures multiset(s)[x] <= 1
  {
    if s != [] {
      var init, y := s[..|s| - 1], s[|s| - 1];
      assert s == init + [y];
      OnceOnly(init, x);
      if x == y {
        assert x !in init;
        assert multiset(init)[x] == 0;
      }
    }
  }

  lemma Twice<T>(t: seq<T>, i: nat, j: nat)
    requires i < j < |t| && t[i] == t[j]
    ensures multiset(t)[t[i]] >= 2
  {
    assert t == t[..i] + [t[i]] + t[i + 1..j] + [t[j]] + t[j + 1..];
  }

  /** Whether mounts collide does not depend on their order. */
  lemma NoCollisionsIsOrderless(s: seq<Mount>, t: seq<Mount>)
    requires multiset(s) == multiset(t) && NoCollisions(s)
    ensures NoCollisions(t)
  {
    assert NoRepeats(s) by {
      forall i, j | 0 <= i < j < |s| ensures s[i] != s[j] { assert !Collide(s[i], s[j]); }
    }
    NoRepeatsIsOrderless(s, t);
    forall i, j | 0 <= i < j < |t| ensures !Collide(t[i], t[j]) {
      SameMembers(s, t, t[i]);
      SameMembers(s, t, t[j]);
      var a :| 0 <= a < |s| && s[a] == t[i];
      var b :| 0 <= b < |s| && s[b] == t[j];
      assert a < b ==> !Collide(s[a], s[b]);
      assert b < a ==> !Collide(s[b], s[a]);
    }
  }

  lemma AgreementIsOrderless(s: seq<Mount>, t: seq<Mount>)
    requires multiset(s) == multiset(t) && MountsAgree(s)
    ensures MountsAgree(t)
  {
    hide Collide, IsPathOrDescendant, NoCollisions;
    NoCollisionsIsOrderless(s, t);
    forall m ensures m in s <==> m in t { SameMembers(s, t, m); }
    forall m | m in t ensures Suits(m, t) {
      assert Suits(m, s);
    }
  }

  lemma MountsOnce(a: App)
    requires Validated(a).Some?
    ensures var b := Validated(a).value;
      NormalMounts(b.mounts, b.package) == Some(b.mounts) && MountsAgree(b.mounts) && SortBy(MountAtMost, b.mounts) == b.mounts
    ensures var ms := NormalMounts(a.mounts, a.package).value; multiset(Validated(a).value.mounts) == multiset(ms)
  {
    var ms, sorted := NormalMounts(a.mounts, a.package).value, Validated(a).value.mounts;
    MountsPreordered();
    SortBySorts(MountAtMost, ms);
    NormalMountsAre(a.mounts, a.package);
    hide SortBy, Preorder, NormalMount;
    forall m | m in sorted ensures NormalMount(m, a.package) == Some(m) { SameMembers(sorted, ms, m); }
    NormalMountsStay(sorted, a.package);
    AgreementIsOrderless(ms, sorted);
    SortOfSorted(MountAtMost, sorted);
  }

  lemma EventsOnce(a: App)
    requires Validated(a).Some?
    ensures var b := Validated(a).value;
      NormalEvents(b.events, b.package) == Some(b.events) && NoRepeats(b.events) && SortBy(EventAtMost, b.events) == b.events
  {
    var es, sorted := NormalEvents(a.events, a.package).value, Validated(a).value.events;
    EventsPreordered();
    SortBySorts(EventAtMost, es);
    NormalEventsAre(a.events, a.package);
    hide SortBy, Preorder, NormalEvent;
    forall e | e in sorted ensures NormalEvent(e, a.package) == Some(e) { SameMembers(sorted, es, e); }
    NormalEventsStay(sorted, a.package);
    NoRepeatsIsOrderless(es, sorted);
    SortOfSorted(EventAtMost, sorted);
  }

  lemma PathsPreordered()
    ensures Preorder(AtMost)
  {
    forall a, b ensures AtMost(a, b) || AtMost(b, a) { LessIsTotal(a, b); }
    forall a, b, c ensures AtMost(a, b) && AtMost(b, c) ==> AtMost(a, c) {
      if Less(a, b) && Less(b, c) { LessTransitive(a, b, c); }
    }
  }

  /** MAIN RESULT. A validated plan is its own validation. */
  lemma ValidatedTwice(a: App)
    requires Validated(a).Some?
    ensures Validated(Validated(a).value) == Validated(a)
  {
    var b := Validated(a).value;
    NormalUsersTwice(a.users);
    MountsOnce(a);
    EventsOnce(a);
    PathsPreordered();
    SortBySorts(AtMost, a.processes);
    SortOfSorted(AtMost, SortBy(AtMost, a.processes));
    hide SortBy, Preorder, NormalMounts, NormalEvents, MountsAgree, NoRepeats, NormalUsers;
    var ms := NormalMounts(a.mounts, a.package).value;
    forall m ensures m in b.mounts <==> m in ms { SameMembers(b.mounts, ms, m); }
    assert ProviderFits(b.users, b.mounts) == ProviderFits(b.users, ms);
  }
}
