/** What an accepted policy file is: its order, its partition, its checksum; and the lookup of
    core/include/pathguard/policy_index.h on it. */
module PolicyIndex {
  import opened Wrappers
  import opened PathOrder
  import opened ByteLayout
  import opened Validation
  import opened PolicyFormat
  import opened PolicyDecoder
  import opened OctetBits
  import Checksum

  // --------------------------------------------------------------- accepted files

  function MountsBefore(apps: seq<App>, i: nat): nat
    requires i <= |apps|
  {
    if i == 0 then 0 else MountsBefore(apps, i - 1) + |apps[i - 1].mounts|
  }

  function EventsBefore(apps: seq<App>, i: nat): nat
    requires i <= |apps|
  {
    if i == 0 then 0 else EventsBefore(apps, i - 1) + |apps[i - 1].events|
  }

  /** What the i-th row says about the i-th package. */
  predicate RowTells(t: Tables, apps: seq<App>, i: nat)
    requires i < |apps| && 48 * (i + 1) <= |t.packages|
  {
    var e := EntryOf(PackageRow(t, i), t.strings);
    && e.Some? && e.value.package == apps[i].package && e.value.hash == PackageHash(apps[i].package)
    && e.value.firstMount == MountsBefore(apps, i) && e.value.mountCount == |apps[i].mounts|
    && e.value.firstEvent == EventsBefore(apps, i) && e.value.eventCount == |apps[i].events|
  }

  lemma {:induction false} BeforeAgrees(a: seq<App>, b: seq<App>, i: nat)
    requires i <= |a| && a <= b
    ensures MountsBefore(a, i) == MountsBefore(b, i) && EventsBefore(a, i) == EventsBefore(b, i)
  {
    if i > 0 {
      BeforeAgrees(a, b, i - 1);
    }
  }

  lemma {:induction false} CountsAreLengths(t: Tables, first: nat, count: nat)
    requires 16 * (first + count) <= |t.mounts|
    ensures MountsAt(t, first, count).Some? ==> |MountsAt(t, first, count).value| == count
    decreases count
  {
    hide MountOf;
    if count > 0 {
      CountsAreLengths(t, first, count - 1);
    }
  }

  lemma {:induction false} EventCountsAreLengths(t: Tables, first: nat, count: nat)
    requires 16 * (first + count) <= |t.events|
    ensures EventsAt(t, first, count).Some? ==> |EventsAt(t, first, count).value| == count
    decreases count
  {
    hide EventOf;
    if count > 0 {
      EventCountsAreLengths(t, first, count - 1);
    }
  }

  /** One package more. */
  lemma AdvanceTells(t: Tables, p: Progress, row: string)
    requires |row| == PACKAGE_SIZE && p.Within(t) && Advance(t, p, row).Some?
    ensures var q, e := Advance(t, p, row).value, EntryOf(row, t.strings);
      && e.Some? && |q.apps| == |p.apps| + 1 && q.apps[..|p.apps|] == p.apps
      && var a := q.apps[|p.apps|];
         && a.package == e.value.package && e.value.hash == PackageHash(a.package) && a.package != ""
         && e.value.firstMount == p.mounts && e.value.mountCount == |a.mounts| && q.mounts == p.mounts + |a.mounts|
         && e.value.firstEvent == p.events && e.value.eventCount == |a.events| && q.events == p.events + |a.events|
         && p.Admits(a.package)
         && 16 * (p.mounts + |a.mounts|) <= |t.mounts| && MountsAt(t, p.mounts, |a.mounts|) == Some(a.mounts)
  {
    var e := EntryOf(row, t.strings).value;
    CountsAreLengths(t, p.mounts, e.mountCount);
    EventCountsAreLengths(t, p.events, e.eventCount);
    hide EntryOf, MountsAt, EventsAt, PlanGeneration, Precedes;
    var raw := AppOf(e, MountsAt(t, p.mounts, e.mountCount).value, EventsAt(t, p.events, e.eventCount).value);
    ValidatedKeepsPackage(raw);
  }

  lemma ValidatedKeepsPackage(a: App)
    requires Validated(a).Some?
    ensures Validated(a).value.package == a.package && a.package != ""
  {
  }

  /** MAIN RESULT. The mounts and events of the packages are one stretch after the other of their
      tables, and each row says where its stretch is. */
  lemma {:induction false} RangesPartition(t: Tables, n: nat)
    requires 48 * n <= |t.packages| && AppsUpTo(t, n).Some?
    ensures var p := AppsUpTo(t, n).value;
      && |p.apps| == n && p.mounts == MountsBefore(p.apps, n) && p.events == EventsBefore(p.apps, n)
      && (forall i :: 0 <= i < n ==> RowTells(t, p.apps, i))
    decreases n
  {
    hide Advance, EntryOf, PackageRow, RowTells;
    if n > 0 {
      RangesPartition(t, n - 1);
      var p, q := AppsUpTo(t, n - 1).value, AppsUpTo(t, n).value;
      AdvanceTells(t, p, PackageRow(t, n - 1));
      assert p.apps <= q.apps;
      BeforeAgrees(p.apps, q.apps, n - 1);
      forall i | 0 <= i < n ensures RowTells(t, q.apps, i) {
        if i < n - 1 {
          StillTold(t, p.apps, q.apps, i);
        } else {
          LastTold(t, p, q);
        }
      }
    }
  }

  lemma StillTold(t: Tables, a: seq<App>, b: seq<App>, i: nat)
    requires i < |a| && a <= b && 48 * (i + 1) <= |t.packages| && RowTells(t, a, i)
    ensures RowTells(t, b, i)
  {
    hide EntryOf, PackageRow;
    BeforeAgrees(a, b, i);
  }

  lemma LastTold(t: Tables, p: Progress, q: Progress)
    requires p.Within(t) && 48 * (|p.apps| + 1) <= |t.packages| && Advance(t, p, PackageRow(t, |p.apps|)) == Some(q)
    requires p.mounts == MountsBefore(p.apps, |p.apps|) && p.events == EventsBefore(p.apps, |p.apps|)
    ensures |q.apps| == |p.apps| + 1 && RowTells(t, q.apps, |p.apps|)
  {
    hide Advance, EntryOf, PackageRow, PackageHash;
    AdvanceTells(t, p, PackageRow(t, |p.apps|));
    assert p.apps <= q.apps;
    BeforeAgrees(p.apps, q.apps, |p.apps|);
  }

  /** MAIN RESULT. In an accepted file the ranges of the packages the header counts use the mount
      and event tables up: there are as many rows in the ranges as the header counts. */
  lemma RangesUseTables(bytes: string)
    requires Decoded(bytes).Some?
    ensures var apps := Decoded(bytes).value.apps;
      && |apps| == Read(bytes, 24, 4)
      && MountsBefore(apps, |apps|) == Read(bytes, 28, 4) && EventsBefore(apps, |apps|) == Read(bytes, 32, 4)
      && forall i :: 0 <= i < |apps| ==> 48 * (i + 1) <= |TablesOf(bytes).packages| && RowTells(TablesOf(bytes), apps, i)
  {
    hide AppsUpTo, RowTells, ContentGeneration, Read, PackageRow;
    RangesPartition(TablesOf(bytes), Read(bytes, 24, 4));
  }

  /** Each package's mounts are read from its stretch. */
  lemma {:induction false} MountsAreTheirs(t: Tables, n: nat, i: nat)
    requires 48 * n <= |t.packages| && AppsUpTo(t, n).Some? && i < n
    ensures var apps := AppsUpTo(t, n).value.apps;
      && |apps| == n && 16 * (MountsBefore(apps, i) + |apps[i].mounts|) <= |t.mounts|
      && MountsAt(t, MountsBefore(apps, i), |apps[i].mounts|) == Some(apps[i].mounts)
    decreases n
  {
    hide Advance, EntryOf, MountsAt;
    RangesPartition(t, n);
    RangesPartition(t, n - 1);
    var p, q := AppsUpTo(t, n - 1).value, AppsUpTo(t, n).value;
    AdvanceTells(t, p, PackageRow(t, n - 1));
    assert p.apps <= q.apps;
    BeforeAgrees(p.apps, q.apps, i);
    if i < n - 1 {
      MountsAreTheirs(t, n - 1, i);
    }
  }

  predicate InOrder(apps: seq<App>) {
    forall i, j :: 0 <= i < j < |apps| ==> Precedes(apps[i].package, apps[j].package)
  }

  lemma PrecedesTransitive(a: string, b: string, c: string)
    requires Precedes(a, b) && Precedes(b, c)
    ensures Precedes(a, c)
  {
    hide PackageHash;
    if Less(a, b) && Less(b, c) {
      LessTransitive(a, b, c);
    }
  }

  lemma OrderedMore(apps: seq<App>, more: seq<App>)
    requires InOrder(apps) && |more| == |apps| + 1 && more[..|apps|] == apps
    requires apps != [] ==> Precedes(apps[|apps| - 1].package, more[|apps|].package)
    ensures InOrder(more)
  {
    hide Precedes;
    forall i, j | 0 <= i < j < |more| ensures Precedes(more[i].package, more[j].package) {
      assert more[i] == apps[i] && (j < |apps| ==> more[j] == apps[j]);
      if j == |apps| && i < j - 1 {
        assert Precedes(apps[i].package, apps[j - 1].package);
        PrecedesTransitive(apps[i].package, apps[j - 1].package, more[j].package);
      }
    }
  }

  lemma AdvanceOrders(t: Tables, p: Progress, row: string)
    requires |row| == PACKAGE_SIZE && p.Within(t) && Advance(t, p, row).Some? && InOrder(p.apps)
    ensures InOrder(Advance(t, p, row).value.apps)
  {
    hide Advance, Precedes, EntryOf, InOrder, MountsAt, PackageHash;
    AdvanceTells(t, p, row);
    OrderedMore(p.apps, Advance(t, p, row).value.apps);
  }

  /** MAIN RESULT. Packages are strictly ordered by hash and name. */
  lemma {:induction false} PackagesInOrder(t: Tables, n: nat)
    requires 48 * n <= |t.packages| && AppsUpTo(t, n).Some?
    ensures InOrder(AppsUpTo(t, n).value.apps)
    decreases n
  {
    hide Advance, Precedes, PackageRow;
    if n > 0 {
      PackagesInOrder(t, n - 1);
      AdvanceOrders(t, AppsUpTo(t, n - 1).value, PackageRow(t, n - 1));
    }
  }

  // --------------------------------------------------------------- corruption

  /** MAIN RESULT. A file whose payload differs from an accepted one within four consecutive bytes
      is rejected. */
  lemma CorruptionIsRejected(header: string, before: string, a: string, b: string, after: string)
    requires |header| == HEADER_SIZE && |a| == |b| <= 4 && a != b && AreBytes(a) && AreBytes(b)
    requires Decoded(header + (before + (a + after))).Some?
    ensures Decoded(header + (before + (b + after))).None?
  {
    hide *;
    ChecksumCounts(header, before + (a + after));
    ChecksumCounts(header, before + (b + after));
    PayloadsDiffer(before, a, b, after);
  }

  lemma ChecksumCounts(header: string, payload: string)
    requires |header| == HEADER_SIZE
    ensures Decoded(header + payload).Some? ==> PayloadChecksum(payload) == Number(header[12..16])
  {
    var x := header + payload;
    assert x[56..] == payload && x[12..16] == header[12..16];
    hide PayloadChecksum, Number, TablesOf, AppsUpTo, ContentGeneration;
    if Decoded(x).Some? {
      assert HeaderFits(x);
    }
  }

  lemma PayloadsDiffer(before: string, a: string, b: string, after: string)
    requires |a| == |b| <= 4 && a != b && AreBytes(a) && AreBytes(b)
    ensures PayloadChecksum(before + (a + after)) != PayloadChecksum(before + (b + after))
  {
    OctetsConcat(before, a + after);
    OctetsConcat(before, b + after);
    OctetsConcat(a, after);
    OctetsConcat(b, after);
    hide Octets, AreBytes, Checksum.Crc, FromWord, ToWord;
    if Octets(a) == Octets(b) {
      OctetsTell(a, b);
    }
    Checksum.ShortBurstsAreDetected(Octets(before), Octets(a), Octets(b), Octets(after));
    WordReadsBack(Checksum.Crc(Octets(before + (a + after))));
    WordReadsBack(Checksum.Crc(Octets(before + (b + after))));
  }

  // -------------------------------------------------------------------- lookup

  function HashAt(t: Tables, i: nat): nat
    requires 48 * (i + 1) <= |t.packages|
  {
    Read(PackageRow(t, i), 0, 4)
  }

  function NameOffset(t: Tables, i: nat): nat
    requires 48 * (i + 1) <= |t.packages|
  {
    Read(PackageRow(t, i), 4, 4)
  }

  /** The package table is an index of these names: hashed, named and in order. */
  predicate Indexes(t: Tables, names: seq<string>) {
    && 48 * |names| <= |t.packages|
    && (forall i :: 0 <= i < |names| ==>
          HashAt(t, i) == PackageHash(names[i]) && StringAt(t.strings, NameOffset(t, i)) == Some(names[i]))
    && (forall i, j :: 0 <= i < j < |names| ==> Precedes(names[i], names[j]))
  }

  function Names(apps: seq<App>): (r: seq<string>)
    ensures |r| == |apps|
  {
    seq(|apps|, i requires 0 <= i < |apps| => apps[i].package)
  }

  /** The package table of an accepted file is an index of its packages. */
  lemma AcceptedIsIndexed(t: Tables, n: nat)
    requires 48 * n <= |t.packages| && AppsUpTo(t, n).Some?
    ensures Indexes(t, Names(AppsUpTo(t, n).value.apps))
  {
    RangesPartition(t, n);
    PackagesInOrder(t, n);
    var apps := AppsUpTo(t, n).value.apps;
    var names := Names(apps);
    hide AppsUpTo, Precedes, PackageHash, ListItems;
    forall i | 0 <= i < n
      ensures HashAt(t, i) == PackageHash(names[i]) && StringAt(t.strings, NameOffset(t, i)) == Some(names[i])
    {
      assert RowTells(t, apps, i);
    }
    forall i, j | 0 <= i < j < |names| ensures Precedes(names[i], names[j]) {
      assert Precedes(apps[i].package, apps[j].package);
    }
  }

  lemma {:induction false} ReadIsHeld(strings: string, offset: nat, s: string, name: string)
    requires StringAt(strings, offset) == Some(s) && NulFree(name)
    ensures Holds(strings, offset, name) <==> s == name
  {
    TerminatedIsNulFree(strings[offset..]);
    var tail := strings[offset..];
    assert tail[..|s|] == s && strings[offset..offset + |s|] == tail[..|s|];
    if Holds(strings, offset, name) {
      HeldIsRead(strings, offset, name);
    }
  }

  /** MAIN RESULT. Binary search by hash and a scan of the rows that share it find a package
      exactly when it is in the file, whatever hashes collide. */
  method FindPackageEntry(t: Tables, name: string, ghost names: seq<string>, count: nat) returns (r: Option<nat>)
    requires Indexes(t, names) && count == |names| && NulFree(name)
    ensures r.Some? ==> r.value < count && names[r.value] == name
    ensures r.None? ==> name == "" || name !in names
  {
    hide PackageHash, PackageRow, StringAt;
    if name == "" {
      return None;
    }
    var hash := PackageHash(name);
    var lower: nat, upper: nat := 0, count;
    while lower < upper
      invariant lower <= upper <= count
      invariant forall i :: 0 <= i < lower ==> HashAt(t, i) < hash
      invariant forall i :: upper <= i < count ==> HashAt(t, i) >= hash
    {
      var middle := lower + (upper - lower) / 2;
      if HashAt(t, middle) < hash {
        forall i | lower <= i < middle ensures HashAt(t, i) < hash { assert Precedes(names[i], names[middle]); }
        lower := middle + 1;
      } else {
        forall i | middle < i < upper ensures HashAt(t, i) >= hash { assert Precedes(names[middle], names[i]); }
        upper := middle;
      }
    }
    for index := lower to count
      invariant forall i :: 0 <= i < index ==> names[i] != name
    {
      if HashAt(t, index) != hash {
        forall i | index <= i < count ensures names[i] != name {
          assert i > index ==> Precedes(names[index], names[i]);
        }
        return None;
      }
      var offset := NameOffset(t, index);
      ReadIsHeld(t.strings, offset, names[index], name);
      if offset < |t.strings| && Holds(t.strings, offset, name) {
        return Some(index);
      }
    }
    return None;
  }
}
