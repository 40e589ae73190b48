/** The mount table as /proc/self/mountinfo lists it, the lookups of
    native/mount_info_snapshot.cpp, and an abstract kernel that binds and detaches. */
module MountTable {

  import opened Wrappers

  /** One mountinfo row. `origin` is a history tag no program reads: the plan rule whose
      mount this is, or None for a mount the transaction did not make. */
  datatype Entry = Entry(
    id: nat, parent: nat, device: nat, root: string, mountpoint: string, filesystem: string,
    origin: Option<nat>)

  type Table = seq<Entry>

  // ------------------------------------------------------------------- paths

  predicate IsPathOnMount(path: string, mountpoint: string) {
    && path != "" && path[0] == '/'
    && (mountpoint == "/"
        || (mountpoint <= path
            && (|path| == |mountpoint| || path[|mountpoint|] == '/')))
  }

  lemma OnMountIsTransitive(a: string, b: string, c: string)
    requires IsPathOnMount(a, b) && IsPathOnMount(b, c)
    ensures IsPathOnMount(a, c)
  {
    if c != "/" && b != "/" {
      assert a[..|b|] == b && b[..|c|] == c;
      assert a[..|c|] == c;
    }
  }

  // ----------------------------------------------------------------- lookups

  predicate Matches(e: Entry, path: string, exact: bool) {
    if exact then e.mountpoint == path else IsPathOnMount(path, e.mountpoint)
  }

  /** Which row a lookup selects: the last exact match, or the last of the longest
      mountpoints that own the path. */
  ghost predicate Selects(t: Table, path: string, exact: bool, i: nat) {
    && i < |t| && Matches(t[i], path, exact)
    && (forall j :: 0 <= j < |t| && Matches(t[j], path, exact) ==>
         if exact then j <= i
         else |t[j].mountpoint| < |t[i].mountpoint|
              || (|t[j].mountpoint| == |t[i].mountpoint| && j <= i))
  }

  /** FindEntry: one pass that keeps the best row so far. */
  method FindEntry(t: Table, path: string, exact: bool) returns (found: Option<nat>)
    ensures found == Find(t, path, exact)
    ensures found.Some? ==> Selects(t, path, exact, found.value)
    ensures found.None? ==> forall j :: 0 <= j < |t| ==> !Matches(t[j], path, exact)
  {
    found := None;
    var selectedLength := 0;
    var i := 0;
    while i < |t|
      invariant 0 <= i <= |t|
      invariant found == Find(t[..i], path, exact)
      invariant found.Some? ==> selectedLength == |t[found.value].mountpoint|
    {
      var length := |t[i].mountpoint|;
      assert t[..i + 1][..i] == t[..i];
      if Matches(t[i], path, exact) && (exact || found.None? || length >= selectedLength) {
        found := Some(i);
        selectedLength := length;
      }
      i := i + 1;
    }
    assert t[..|t|] == t;
    FindSelects(t, path, exact);
  }

  function Find(t: Table, path: string, exact: bool): (r: Option<nat>)
    ensures r.Some? ==> r.value < |t| && Matches(t[r.value], path, exact)
  {
    if t == [] then None
    else
      var n := |t| - 1;
      var r := Find(t[..n], path, exact);
      if Matches(t[n], path, exact)
         && (exact || r.None? || |t[n].mountpoint| >= |t[r.value].mountpoint|)
      then Some(n)
      else r
  }

  /** The selected row is the last of the best ones; no row is selected only if none matches. */
  lemma {:induction false} FindSelects(t: Table, path: string, exact: bool)
    ensures var r := Find(t, path, exact);
            if r.Some? then Selects(t, path, exact, r.value)
            else forall j :: 0 <= j < |t| ==> !Matches(t[j], path, exact)
  {
    if t != [] {
      FindSelects(t[..|t| - 1], path, exact);
    }
  }

  /** The mount a path lookup would land on, as an exact-mountpoint query sees it. */
  function Top(t: Table, path: string): Option<Entry> {
    match Find(t, path, true)
    case None => None
    case Some(i) => Some(t[i])
  }

  // ------------------------------------------------------------------ kernel

  /** A mount id is fresh when no live mount has it and none hangs below it. */
  ghost predicate Fresh(t: Table, id: nat) {
    id != 0 && forall e :: e in t ==> e.id != id && e.parent != id
  }

  /** What the kernel may append when it binds something at `path`: a row with an id of its own,
      below any mount that owns the path. Which one that is depends on when the directory was
      pinned, so nothing more is said. */
  ghost predicate Bindable(t: Table, path: string, e: Entry) {
    && Fresh(t, e.id) && e.mountpoint == path && e.parent != e.id
    && forall f :: f in t && HangsBelow(e, f) ==> IsPathOnMount(path, f.mountpoint)
  }

  /** Children go with their parent: a detach removes everything mounted below. */
  function Detach(t: Table, gone: set<nat>): Table {
    if t == [] then []
    else if t[0].parent in gone then Detach(t[1..], gone + {t[0].id})
    else [t[0]] + Detach(t[1..], gone)
  }

  /** umount2(path, MNT_DETACH): the top mount at the path and everything below it. */
  function Unmount(t: Table, path: string): Table {
    match Find(t, path, true)
    case None => t
    case Some(i) => t[..i] + Detach(t[i + 1..], {t[i].id})
  }

  /** What every kernel table keeps: ids are non-zero and name one mount, and a mount
      hangs below the mount whose mountpoint owns its own. */
  ghost predicate WellFormed(t: Table) {
    && (forall e :: e in t ==> e.id != 0)
    && (forall e, f {:trigger SameId(e, f)} :: e in t && f in t && SameId(e, f) ==> e == f)
    && (forall e, f {:trigger HangsBelow(e, f)} :: e in t && f in t && HangsBelow(e, f) ==>
         IsPathOnMount(e.mountpoint, f.mountpoint))
  }

  predicate SameId(e: Entry, f: Entry) { e.id == f.id }

  predicate HangsBelow(e: Entry, f: Entry) { e.parent == f.id }

  lemma BindKeepsWellFormed(t: Table, path: string, e: Entry)
    requires WellFormed(t) && Bindable(t, path, e)
    ensures WellFormed(t + [e])
  {
  }

  lemma SubsetKeepsWellFormed(t: Table, u: Table)
    requires WellFormed(t) && forall e :: e in u ==> e in t
    ensures WellFormed(u)
  {
  }

  // ------------------------------------------- the transaction's own mounts

  function Ours(t: Table): seq<Entry>
  {
    if t == [] then []
    else
      var n := |t| - 1;
      Ours(t[..n]) + if t[n].origin.Some? then [t[n]] else []
  }

  function Foreign(t: Table): seq<Entry>
  {
    if t == [] then []
    else
      var n := |t| - 1;
      Foreign(t[..n]) + if t[n].origin.None? then [t[n]] else []
  }

  lemma {:induction false} OursMembers(t: Table)
    ensures forall e :: e in Ours(t) <==> e in t && e.origin.Some?
  {
    if t != [] {
      var n := |t| - 1;
      OursMembers(t[..n]);
      assert t == t[..n] + [t[n]];
    }
  }

  lemma {:induction false} NoOursMeansForeign(t: Table)
    requires Ours(t) == []
    ensures Foreign(t) == t
  {
    if t != [] {
      var n := |t| - 1;
      NoOursMeansForeign(t[..n]);
      assert t == t[..n] + [t[n]];
    }
  }

  lemma AppendEntry(t: Table, e: Entry)
    ensures Ours(t + [e]) == Ours(t) + if e.origin.Some? then [e] else []
    ensures Foreign(t + [e]) == Foreign(t) + if e.origin.None? then [e] else []
    ensures forall p :: Top(t + [e], p) == if e.mountpoint == p then Some(e) else Top(t, p)
  {
    assert (t + [e])[..|t|] == t;
  }

  lemma {:induction false} OursConcat(a: Table, b: Table)
    ensures Ours(a + b) == Ours(a) + Ours(b)
  {
    if b == [] {
      assert a + b == a;
    } else {
      var n := |b| - 1;
      OursConcat(a, b[..n]);
      assert (a + b)[..|a + b| - 1] == a + b[..n];
    }
  }

  lemma {:induction false} ForeignConcat(a: Table, b: Table)
    ensures Foreign(a + b) == Foreign(a) + Foreign(b)
  {
    if b == [] {
      assert a + b == a;
    } else {
      var n := |b| - 1;
      ForeignConcat(a, b[..n]);
      assert (a + b)[..|a + b| - 1] == a + b[..n];
    }
  }

  /** A mount nothing hangs below leaves alone. */
  lemma {:induction false} DetachLeaf(t: Table, id: nat)
    requires forall e :: e in t ==> e.parent != id
    ensures Detach(t, {id}) == t
  {
    if t != [] {
      DetachLeaf(t[1..], id);
    }
  }

  /** Removing one exact row changes no other lookup. */
  lemma {:induction false} TopWithout(t: Table, i: nat, p: string)
    requires i < |t| && t[i].mountpoint != p
    ensures Top(t[..i] + t[i + 1..], p) == Top(t, p)
  {
    var n := |t| - 1;
    if i == n {
      assert t[..i] + t[i + 1..] == t[..n];
      assert t == t[..n] + [t[n]];
      AppendEntry(t[..n], t[n]);
    } else {
      TopWithout(t[..n], i, p);
      assert t[..n][..i] == t[..i];
      var u := t[..i] + t[i + 1..n];
      assert t[..n][i + 1..] == t[i + 1..n];
      assert t[..i] + t[i + 1..] == u + [t[n]];
      AppendEntry(u, t[n]);
      assert t == t[..n] + [t[n]];
      AppendEntry(t[..n], t[n]);
    }
  }

  lemma SplitAround(a: Table, x: Entry, b: Table)
    requires x.origin.Some?
    ensures Ours(a + [x] + b) == Ours(a) + [x] + Ours(b)
    ensures Ours(a + b) == Ours(a) + Ours(b)
    ensures Foreign(a + b) == Foreign(a + [x] + b)
  {
    OursConcat(a + [x], b);
    ForeignConcat(a + [x], b);
    AppendEntry(a, x);
    OursConcat(a, b);
    ForeignConcat(a, b);
  }

  /** A distinct value can only end a sequence it is the last element of. */
  lemma LastSplit(a: seq<Entry>, x: Entry, b: seq<Entry>)
    requires var s := a + [x] + b; forall k :: 0 <= k < |s| - 1 ==> s[k] != x
    ensures b == []
  {
    assert (a + [x] + b)[|a|] == x;
  }

  lemma RemoveLastOurs(t: Table, i: nat)
    requires i < |t| && Ours(t) != [] && t[i] == Ours(t)[|Ours(t)| - 1]
    requires forall e :: e in Ours(t)[..|Ours(t)| - 1] ==> e.mountpoint != t[i].mountpoint
    ensures Ours(t[..i] + t[i + 1..]) == Ours(t)[..|Ours(t)| - 1]
    ensures Foreign(t[..i] + t[i + 1..]) == Foreign(t)
  {
    var m := |Ours(t)| - 1;
    assert t[i].origin.Some? by { OursMembers(t); }
    assert t == t[..i] + [t[i]] + t[i + 1..];
    SplitAround(t[..i], t[i], t[i + 1..]);
    forall k | 0 <= k < m ensures Ours(t)[k] != t[i] {
      assert Ours(t)[k] in Ours(t)[..m];
    }
    LastSplit(Ours(t[..i]), t[i], Ours(t[i + 1..]));
  }

  /** Detaching our newest mount takes exactly that mount away. */
  lemma UnmountOurs(t: Table, path: string)
    requires Ours(t) != []
    requires var last := Ours(t)[|Ours(t)| - 1];
             && Top(t, path) == Some(last)
             && (forall e :: e in t ==> e.parent != last.id)
             && (forall e :: e in Ours(t)[..|Ours(t)| - 1] ==> e.mountpoint != path)
    ensures Ours(Unmount(t, path)) == Ours(t)[..|Ours(t)| - 1]
    ensures Foreign(Unmount(t, path)) == Foreign(t)
    ensures forall q :: q != path ==> Top(Unmount(t, path), q) == Top(t, q)
  {
    var i := Find(t, path, true).value;
    DetachLeaf(t[i + 1..], t[i].id);
    RemoveLastOurs(t, i);
    forall q | q != path ensures Top(Unmount(t, path), q) == Top(t, q) {
      TopWithout(t, i, q);
    }
  }

  /** The ids in `gone` all name mounts on `p`. */
  ghost predicate AllOn(full: Table, gone: set<nat>, p: string) {
    forall g :: g in gone ==> exists f :: f in full && f.id == g && IsPathOnMount(f.mountpoint, p)
  }

  lemma ChildIsOn(full: Table, e: Entry, gone: set<nat>, p: string)
    requires WellFormed(full) && e in full && AllOn(full, gone, p) && e.parent in gone
    ensures IsPathOnMount(e.mountpoint, p) && AllOn(full, gone + {e.id}, p)
  {
    var f :| f in full && f.id == e.parent && IsPathOnMount(f.mountpoint, p);
    assert HangsBelow(e, f);
    OnMountIsTransitive(e.mountpoint, f.mountpoint, p);
  }

  /** Two tables that agree on our mounts and on every lookup outside `p`. */
  ghost predicate AgreeOff(t: Table, u: Table, p: string) {
    Ours(t) == Ours(u) && forall q :: !IsPathOnMount(q, p) ==> Top(t, q) == Top(u, q)
  }

  lemma {:induction false} DetachSubset(t: Table, gone: set<nat>)
    ensures forall e :: e in Detach(t, gone) ==> e in t
  {
    if t != [] {
      DetachSubset(t[1..], if t[0].parent in gone then gone + {t[0].id} else gone);
    }
  }

  /** Everything of ours in `t` is mounted off `p`. */
  ghost predicate OursOff(t: Table, p: string) {
    forall e :: e in t && e.origin.Some? ==> !IsPathOnMount(e.mountpoint, p)
  }

  /** A detach at `p` reaches only mounts whose mountpoints lie on `p`. */
  lemma {:induction false} DetachElsewhere(full: Table, pre: Table, t: Table, gone: set<nat>, p: string)
    requires WellFormed(full) && AllOn(full, gone, p)
    requires forall i :: 0 <= i < |t| ==> t[i] in full
    requires OursOff(full, p)
    ensures AgreeOff(pre + Detach(t, gone), pre + t, p)
    decreases |t|
  {
    if t == [] {
      assert Detach(t, gone) == t;
    } else if t[0].parent in gone {
      ChildIsOn(full, t[0], gone, p);
      DetachElsewhere(full, pre, t[1..], gone + {t[0].id}, p);
      DropForeign(pre, t, p);
    } else {
      DetachElsewhere(full, pre + [t[0]], t[1..], gone, p);
      Regroup(pre, t[0], Detach(t[1..], gone));
      Regroup(pre, t[0], t[1..]);
      assert [t[0]] + t[1..] == t;
    }
  }

  lemma Regroup(a: Table, x: Entry, b: Table)
    ensures (a + [x]) + b == a + ([x] + b)
  {
  }

  lemma DropForeign(pre: Table, t: Table, p: string)
    requires t != [] && t[0].origin.None? && IsPathOnMount(t[0].mountpoint, p)
    ensures AgreeOff(pre + t[1..], pre + t, p)
  {
    assert pre + t == pre + [t[0]] + t[1..];
    OursConcat(pre + [t[0]], t[1..]);
    AppendEntry(pre, t[0]);
    OursConcat(pre, t[1..]);
    forall q | !IsPathOnMount(q, p) ensures Top(pre + t[1..], q) == Top(pre + t, q) {
      TopWithout(pre + t, |pre|, q);
      assert (pre + t)[..|pre|] == pre && (pre + t)[|pre| + 1..] == t[1..];
    }
  }

  lemma UnmountSubset(t: Table, p: string)
    ensures forall e :: e in Unmount(t, p) ==> e in t
  {
    match Find(t, p, true)
    case None =>
    case Some(i) =>
      DetachSubset(t[i + 1..], {t[i].id});
  }

  /** Someone else's unmount elsewhere touches none of our mounts. */
  lemma UnmountElsewhere(t: Table, p: string)
    requires WellFormed(t) && IsPathOnMount(p, p) && OursOff(t, p)
    ensures AgreeOff(Unmount(t, p), t, p)
  {
    match Find(t, p, true)
    case None =>
    case Some(i) =>
      assert t[i] in t && AllOn(t, {t[i].id}, p);
      DetachElsewhere(t, t[..i], t[i + 1..], {t[i].id}, p);
      DropForeign(t[..i], t[i..], p);
      assert t[i..][1..] == t[i + 1..];
      assert t[..i] + t[i..] == t;
  }
}
