/** EncodePolicy of core/src/binary.cpp, and that decoding undoes it. */
module PolicyEncoder {
  import opened Wrappers
  import opened PathOrder
  import opened Sorting
  import opened DecimalText
  import opened Separated
  import opened ByteLayout
  import opened Validation
  import opened PolicyFormat
  import opened PolicyDecoder
  import opened PolicyIndex

  /** A document as a front end hands it over. */
  datatype Policy = Policy(schema: nat, failOpen: bool, legacy: bool, apps: seq<App>)

  // ------------------------------------------------------------ canonical form

  predicate DistinctPackages(apps: seq<App>) {
    forall i, j :: 0 <= i < j < |apps| ==> apps[i].package != apps[j].package
  }

  /** What the module can execute today: redirects and denials. */
  predicate Executable(a: App) {
    !a.media && a.events == [] && forall m :: m in a.mounts ==> m.action == Redirect || m.action == Deny
  }

  function ValidatedAll(apps: seq<App>): Option<seq<App>> {
    if apps == [] then Some([])
    else
      var init, a := ValidatedAll(apps[..|apps| - 1]), Validated(apps[|apps| - 1]);
      if init.Some? && a.Some? && Executable(a.value) then Some(init.value + [a.value]) else None
  }

  function Canonicalized(p: Policy): Option<seq<App>> {
    if p.schema != SCHEMA_VERSION || !p.failOpen || p.apps == [] || !DistinctPackages(p.apps) then None
    else ValidatedAll(p.apps)
  }

  predicate HashAtMost(a: App, b: App) {
    PackageHash(a.package) < PackageHash(b.package)
    || (PackageHash(a.package) == PackageHash(b.package) && AtMost(a.package, b.package))
  }

  // --------------------------------------------------------------------- tables

  function AllMounts(apps: seq<App>): seq<Mount> {
    if apps == [] then [] else AllMounts(apps[..|apps| - 1]) + apps[|apps| - 1].mounts
  }

  /** The row of the i-th application. */
  function EntryFor(apps: seq<App>, i: nat, legacy: bool): Entry
    requires i < |apps|
  {
    var a := apps[i];
    Entry(PackageHash(a.package), a.package, a.users, a.processes, MountsBefore(apps, i), |a.mounts|,
          EventsBefore(apps, i), |a.events|, PlanGeneration(a, legacy), a.media, a.provider)
  }

  ghost predicate MountsFilled(table: string, strings: string, ms: seq<Mount>) {
    |table| == 16 * |ms| && forall j :: 0 <= j < |ms| ==> IsMountRow(table[16 * j..16 * j + 16], strings, ms[j])
  }

  ghost predicate EntriesFilled(table: string, strings: string, apps: seq<App>, n: nat, legacy: bool)
    requires n <= |apps|
  {
    |table| == 48 * n
    && forall i :: 0 <= i < n ==> IsEntryRow(table[48 * i..48 * i + 48], strings, EntryFor(apps, i, legacy))
  }

  lemma MountsFilledMore(table: string, strings: string, more: string, ms: seq<Mount>, m: Mount, row: string)
    requires MountsFilled(table, strings, ms) && strings <= more && IsMountRow(row, more, m) && |row| == 16
    ensures MountsFilled(table + row, more, ms + [m])
  {
    hide IsMountRow;
    var t, all := table + row, ms + [m];
    forall j | 0 <= j < |all| ensures IsMountRow(t[16 * j..16 * j + 16], more, all[j]) {
      if j < |ms| {
        assert t[16 * j..16 * j + 16] == table[16 * j..16 * j + 16];
        MountRowStays(table[16 * j..16 * j + 16], strings, more, ms[j]);
      } else {
        assert t[16 * j..16 * j + 16] == row;
      }
    }
  }

  lemma MountsFilledStay(table: string, strings: string, more: string, ms: seq<Mount>)
    requires MountsFilled(table, strings, ms) && strings <= more
    ensures MountsFilled(table, more, ms)
  {
    hide IsMountRow;
    forall j | 0 <= j < |ms| ensures IsMountRow(table[16 * j..16 * j + 16], more, ms[j]) {
      MountRowStays(table[16 * j..16 * j + 16], strings, more, ms[j]);
    }
  }

  lemma EntriesFilledStay(table: string, strings: string, more: string, apps: seq<App>, n: nat, legacy: bool)
    requires n <= |apps| && EntriesFilled(table, strings, apps, n, legacy) && strings <= more
    ensures EntriesFilled(table, more, apps, n, legacy)
  {
    hide IsEntryRow, EntryFor;
    forall i | 0 <= i < n ensures IsEntryRow(table[48 * i..48 * i + 48], more, EntryFor(apps, i, legacy)) {
      EntryRowStays(table[48 * i..48 * i + 48], strings, more, EntryFor(apps, i, legacy));
    }
  }

  lemma EntriesFilledMore(table: string, strings: string, more: string, apps: seq<App>, n: nat, legacy: bool, row: string)
    requires n < |apps| && EntriesFilled(table, strings, apps, n, legacy) && strings <= more
    requires IsEntryRow(row, more, EntryFor(apps, n, legacy)) && |row| == 48
    ensures EntriesFilled(table + row, more, apps, n + 1, legacy)
  {
    hide IsEntryRow, EntryFor;
    var t := table + row;
    forall i | 0 <= i < n + 1 ensures IsEntryRow(t[48 * i..48 * i + 48], more, EntryFor(apps, i, legacy)) {
      if i < n {
        assert t[48 * i..48 * i + 48] == table[48 * i..48 * i + 48];
        EntryRowStays(table[48 * i..48 * i + 48], strings, more, EntryFor(apps, i, legacy));
      } else {
        assert t[48 * i..48 * i + 48] == row;
      }
    }
  }

  // ---------------------------------------------------------------- what is written

  /** Rows of one table, and the strings met so far. */
  datatype Rows = Rows(table: string, strings: Strings)

  function WithMount(r: Rows, m: Mount): Rows {
    var s1 := Interned(r.strings, m.visible);
    var s2 := Interned(s1, m.backing);
    Rows(r.table + Pack(MountFields(m, s1.offsets[m.visible], s2.offsets[m.backing])), s2)
  }

  function WithMounts(r: Rows, ms: seq<Mount>): Rows {
    if ms == [] then r else WithMount(WithMounts(r, ms[..|ms| - 1]), ms[|ms| - 1])
  }

  function WithEntry(r: Rows, e: Entry): Rows {
    var s1 := Interned(r.strings, e.package);
    var s2 := Interned(s1, Join(e.users, ','));
    var s3 := Interned(s2, Join(e.processes, ','));
    Rows(r.table + Pack(EntryFields(e, s1.offsets[e.package], s2.offsets[Join(e.users, ',')],
                                    s3.offsets[Join(e.processes, ',')])), s3)
  }

  /** The tables after so many applications. */
  datatype Body = Body(packages: string, mounts: string, strings: Strings)

  function WithApp(b: Body, e: Entry, ms: seq<Mount>): Body {
    var entries := WithEntry(Rows(b.packages, b.strings), e);
    var rows := WithMounts(Rows(b.mounts, entries.strings), ms);
    Body(entries.table, rows.table, rows.strings)
  }

  function BodyOf(apps: seq<App>, n: nat, legacy: bool): Body
    requires n <= |apps|
  {
    if n == 0 then Body("", "", NO_STRINGS)
    else WithApp(BodyOf(apps, n - 1, legacy), EntryFor(apps, n - 1, legacy), apps[n - 1].mounts)
  }

  function PayloadOf(apps: seq<App>, legacy: bool): string {
    var b := BodyOf(apps, |apps|, legacy);
    b.packages + (b.mounts + b.strings.bytes)
  }

  /** The whole file for these applications, in the order of the file. */
  function FileOf(apps: seq<App>, legacy: bool, generation: nat): string {
    var payload := PayloadOf(apps, legacy);
    Pack(HeaderFields(56 + |payload|, PayloadChecksum(payload), generation, |apps|, |AllMounts(apps)|, legacy)) + payload
  }

  /** The file of a document, if it is accepted and its file is not too large. */
  function Encoded(p: Policy): Option<string> {
    var v := Canonicalized(p);
    if v.None? then None
    else
      var apps := SortBy(HashAtMost, v.value);
      if 56 + |PayloadOf(apps, p.legacy)| > UINT32_MAX then None
      else Some(FileOf(apps, p.legacy, ContentGeneration(v.value, p.legacy)))
  }

  lemma MountWritten(r: Rows, m: Mount)
    requires r.strings.Valid()
    ensures var r' := WithMount(r, m);
      && r'.strings.Valid() && r.strings.bytes <= r'.strings.bytes && r.table <= r'.table
      && |r'.table| == |r.table| + 16 && IsMountRow(r'.table[|r.table|..], r'.strings.bytes, m)
  {
    hide Pack, MountFields;
    InternedHolds(r.strings, m.visible);
    var s1 := Interned(r.strings, m.visible);
    InternedHolds(s1, m.backing);
    var s2 := Interned(s1, m.backing);
    hide Interned;
    HeldStays(s1.bytes, s2.bytes, s1.offsets[m.visible], m.visible);
    MountSize(m, s1.offsets[m.visible], s2.offsets[m.backing]);
    hide Holds;
    assert MountRowAt(WithMount(r, m).table[|r.table|..], s2.bytes, m, s1.offsets[m.visible], s2.offsets[m.backing]);
  }

  lemma MountSize(m: Mount, visible: nat, backing: nat)
    ensures |Pack(MountFields(m, visible, backing))| == 16
  {
    MountOffsets(MountFields(m, visible, backing));
    PackedSize(MountFields(m, visible, backing));
  }

  lemma {:induction false} MountsWritten(r: Rows, before: seq<Mount>, ms: seq<Mount>)
    requires r.strings.Valid() && MountsFilled(r.table, r.strings.bytes, before)
    ensures var r' := WithMounts(r, ms);
      && r'.strings.Valid() && r.strings.bytes <= r'.strings.bytes && MountsFilled(r'.table, r'.strings.bytes, before + ms)
  {
    hide MountsFilled, IsMountRow, WithMount;
    if ms == [] {
      assert before + ms == before;
    } else {
      var init, m := ms[..|ms| - 1], ms[|ms| - 1];
      MountsWritten(r, before, init);
      var mid := WithMounts(r, init);
      MountWritten(mid, m);
      var r' := WithMount(mid, m);
      assert r'.table == mid.table + r'.table[|mid.table|..];
      MountsFilledMore(mid.table, mid.strings.bytes, r'.strings.bytes, before + init, m, r'.table[|mid.table|..]);
      assert before + ms == before + init + [m];
    }
  }

  lemma EntryWritten(r: Rows, e: Entry)
    requires r.strings.Valid()
    ensures var r' := WithEntry(r, e);
      && r'.strings.Valid() && r.strings.bytes <= r'.strings.bytes && r.table <= r'.table
      && |r'.table| == |r.table| + 48 && IsEntryRow(r'.table[|r.table|..], r'.strings.bytes, e)
  {
    hide Join, Pack, EntryFields;
    var users, processes := Join(e.users, ','), Join(e.processes, ',');
    InternedHolds(r.strings, e.package);
    var s1 := Interned(r.strings, e.package);
    InternedHolds(s1, users);
    var s2 := Interned(s1, users);
    InternedHolds(s2, processes);
    var s3 := Interned(s2, processes);
    hide Interned;
    HeldStays(s1.bytes, s3.bytes, s1.offsets[e.package], e.package);
    HeldStays(s2.bytes, s3.bytes, s2.offsets[users], users);
    EntrySize(e, s1.offsets[e.package], s2.offsets[users], s3.offsets[processes]);
    hide Holds;
    assert EntryRowAt(WithEntry(r, e).table[|r.table|..], s3.bytes, e, s1.offsets[e.package], s2.offsets[users], s3.offsets[processes]);
  }

  lemma EntrySize(e: Entry, package: nat, users: nat, processes: nat)
    ensures |Pack(EntryFields(e, package, users, processes))| == 48
  {
    EntryOffsets(EntryFields(e, package, users, processes));
    PackedSize(EntryFields(e, package, users, processes));
  }

  lemma {:induction false} MountsCounted(apps: seq<App>, i: nat)
    requires i <= |apps|
    ensures |AllMounts(apps[..i])| == MountsBefore(apps, i)
    ensures i > 0 ==> AllMounts(apps[..i]) == AllMounts(apps[..i - 1]) + apps[i - 1].mounts
  {
    if i > 0 {
      MountsCounted(apps, i - 1);
      assert apps[..i][..i - 1] == apps[..i - 1];
    }
  }

  predicate NoEvents(apps: seq<App>) { forall a :: a in apps ==> a.events == [] }

  lemma {:induction false} NoEventsBefore(apps: seq<App>, i: nat)
    requires NoEvents(apps) && i <= |apps|
    ensures EventsBefore(apps, i) == 0
  {
    if i > 0 {
      assert apps[i - 1] in apps;
      NoEventsBefore(apps, i - 1);
    }
  }

  /** The tables hold what the first applications say. */
  ghost predicate Filled(b: Body, apps: seq<App>, n: nat, legacy: bool)
    requires n <= |apps|
  {
    && b.strings.Valid() && b.strings.bytes != ""
    && EntriesFilled(b.packages, b.strings.bytes, apps, n, legacy)
    && MountsFilled(b.mounts, b.strings.bytes, AllMounts(apps[..n]))
  }

  lemma NothingFilled(apps: seq<App>, legacy: bool)
    ensures Filled(BodyOf(apps, 0, legacy), apps, 0, legacy)
  {
    assert apps[..0] == [];
  }

  lemma AppWritten(b: Body, apps: seq<App>, n: nat, legacy: bool)
    requires n < |apps| && Filled(b, apps, n, legacy)
    ensures Filled(WithApp(b, EntryFor(apps, n, legacy), apps[n].mounts), apps, n + 1, legacy)
  {
    hide EntriesFilled, MountsFilled, IsEntryRow, AllMounts, WithEntry, WithMounts, EntryFor;
    var e := EntryFor(apps, n, legacy);
    EntryWritten(Rows(b.packages, b.strings), e);
    var entries := WithEntry(Rows(b.packages, b.strings), e);
    var row := entries.table[|b.packages|..];
    assert entries.table == b.packages + row;
    EntriesFilledMore(b.packages, b.strings.bytes, entries.strings.bytes, apps, n, legacy, row);
    MountsFilledStay(b.mounts, b.strings.bytes, entries.strings.bytes, AllMounts(apps[..n]));
    MountsWritten(Rows(b.mounts, entries.strings), AllMounts(apps[..n]), apps[n].mounts);
    var rows := WithMounts(Rows(b.mounts, entries.strings), apps[n].mounts);
    EntriesFilledStay(entries.table, entries.strings.bytes, rows.strings.bytes, apps, n + 1, legacy);
    MountsCounted(apps, n + 1);
  }

  lemma {:induction false} BodyFilled(apps: seq<App>, n: nat, legacy: bool)
    requires n <= |apps|
    ensures Filled(BodyOf(apps, n, legacy), apps, n, legacy)
  {
    hide Filled, WithApp, EntryFor;
    if n == 0 {
      NothingFilled(apps, legacy);
    } else {
      BodyFilled(apps, n - 1, legacy);
      AppWritten(BodyOf(apps, n - 1, legacy), apps, n - 1, legacy);
    }
  }

  method PutMount(table: string, m: Mount, strings: StringTable) returns (r: string)
    modifies strings
    ensures Rows(r, strings.Value()) == WithMount(Rows(table, old(strings.Value())), m)
  {
    hide Pack, MountFields, Interned;
    var visible := strings.Add(m.visible);
    var backing := strings.Add(m.backing);
    r := table + Pack(MountFields(m, visible, backing));
  }

  method PutMounts(table: string, ms: seq<Mount>, strings: StringTable) returns (r: string)
    modifies strings
    ensures Rows(r, strings.Value()) == WithMounts(Rows(table, old(strings.Value())), ms)
  {
    hide WithMount;
    r := table;
    for j := 0 to |ms|
      invariant Rows(r, strings.Value()) == WithMounts(Rows(table, old(strings.Value())), ms[..j])
    {
      assert ms[..j + 1][..j] == ms[..j];
      r := PutMount(r, ms[j], strings);
    }
    assert ms[..|ms|] == ms;
  }

  method PutEntry(table: string, e: Entry, strings: StringTable) returns (r: string)
    modifies strings
    ensures Rows(r, strings.Value()) == WithEntry(Rows(table, old(strings.Value())), e)
  {
    hide Join, Pack, EntryFields, Interned;
    var package := strings.Add(e.package);
    var users := strings.Add(Join(e.users, ','));
    var processes := strings.Add(Join(e.processes, ','));
    r := table + Pack(EntryFields(e, package, users, processes));
  }

  /** The tables, one application after the other. */
  method FillTables(apps: seq<App>, legacy: bool) returns (packages: string, mounts: string, strings: string)
    requires NoEvents(apps)
    ensures var b := BodyOf(apps, |apps|, legacy); packages == b.packages && mounts == b.mounts && strings == b.strings.bytes
  {
    var table := new StringTable();
    packages, mounts := "", "";
    var firstMount, firstEvent := 0, 0;
    hide WithEntry, WithMounts, PlanGeneration, PackageHash;
    for i := 0 to |apps|
      invariant fresh(table)
      invariant firstMount == MountsBefore(apps, i) && firstEvent == EventsBefore(apps, i)
      invariant Body(packages, mounts, table.Value()) == BodyOf(apps, i, legacy)
    {
      var a := apps[i];
      var entry := Entry(
        PackageHash(a.package), a.package, a.users, a.processes, firstMount, |a.mounts|, firstEvent, |a.events|,
        PlanGeneration(a, legacy), a.media, a.provider);
      packages := PutEntry(packages, entry, table);
      mounts := PutMounts(mounts, a.mounts, table);
      firstMount := firstMount + |a.mounts|;
      firstEvent := firstEvent + |a.events|;
    }
    strings := table.bytes;
  }

  // --------------------------------------------------------------------- the file

  function HeaderFields(size: nat, checksum: nat, generation: nat, packages: nat, mounts: nat, legacy: bool): seq<Field> {
    [Field(4, MAGIC), Field(2, FORMAT_VERSION), Field(2, SCHEMA_VERSION), Field(4, size), Field(4, checksum),
     Field(8, generation), Field(4, packages), Field(4, mounts), Field(4, 0), Field(4, 56),
     Field(4, 56 + 48 * packages), Field(4, 56 + 48 * packages + 16 * mounts),
     Field(4, 56 + 48 * packages + 16 * mounts), Field(4, Flag(legacy))]
  }

  lemma HeaderOffsets(f: seq<Field>)
    requires |f| == 14 && f[0].width == 4 && f[1].width == f[2].width == 2 && f[3].width == f[4].width == 4
    requires f[5].width == 8 && forall i :: 6 <= i < 14 ==> f[i].width == 4
    ensures At(f, 0) == 0 && At(f, 1) == 4 && At(f, 2) == 6 && At(f, 3) == 8 && At(f, 4) == 12 && At(f, 5) == 16
    ensures At(f, 6) == 24 && At(f, 7) == 28 && At(f, 8) == 32 && At(f, 9) == 36 && At(f, 10) == 40
    ensures At(f, 11) == 44 && At(f, 12) == 48 && At(f, 13) == 52 && At(f, 14) == 56
  {
    assert At(f, 1) == 4;
    assert At(f, 3) == 8;
    assert At(f, 5) == 16;
    assert At(f, 7) == 28;
    assert At(f, 9) == 36;
    assert At(f, 11) == 44;
    assert At(f, 13) == 52;
  }

  /** `bytes` is a file for these applications. */
  ghost predicate Encodes(bytes: string, apps: seq<App>, legacy: bool, generation: nat) {
    var n, k := |apps|, |AllMounts(apps)|;
    && n > 0 && 56 + 48 * n + 16 * k < |bytes| <= UINT32_MAX
    && bytes[..56] == Pack(HeaderFields(|bytes|, PayloadChecksum(bytes[56..]), generation, n, k, legacy))
    && var strings := bytes[56 + 48 * n + 16 * k..];
       && EntriesFilled(bytes[56..56 + 48 * n], strings, apps, n, legacy)
       && MountsFilled(bytes[56 + 48 * n..56 + 48 * n + 16 * k], strings, AllMounts(apps))
  }

  lemma {:induction false} PackConcat(a: seq<Field>, b: seq<Field>)
    ensures Pack(a + b) == Pack(a) + Pack(b)
  {
    hide Le;
    if a == [] {
      assert a + b == b;
    } else {
      PackConcat(a[1..], b);
      assert (a + b)[0] == a[0] && (a + b)[1..] == a[1..] + b;
      var head := Le(a[0].value, a[0].width);
      assert head + (Pack(a[1..]) + Pack(b)) == (head + Pack(a[1..])) + Pack(b);
    }
  }

  /** Storing a number over a field of the same width changes that field. */
  lemma StoredOver(f: seq<Field>, k: nat, value: nat)
    requires k < |f|
    ensures At(f, k) + f[k].width <= |Pack(f)|
    ensures Pack(f)[..At(f, k)] + Le(value, f[k].width) + Pack(f)[At(f, k) + f[k].width..]
         == Pack(f[k := Field(f[k].width, value)])
  {
    hide Le, Pack, At;
    var w := f[k].width;
    var front, back, g := f[..k], f[k + 1..], f[k := Field(w, value)];
    assert f == front + ([f[k]] + back) && g == front + ([Field(w, value)] + back);
    PackConcat(front, [f[k]] + back);
    PackConcat(front, [Field(w, value)] + back);
    PackConcat([f[k]], back);
    PackConcat([Field(w, value)], back);
    PackedOne(f[k]);
    PackedOne(Field(w, value));
    PackedSize(front);
    SameAt(front, f, k);
    Overlay(Pack(front), Le(f[k].value, w), Pack(back), Le(value, w));
  }

  lemma Overlay(a: string, b: string, c: string, x: string)
    requires |x| == |b|
    ensures (a + (b + c))[..|a|] + x + (a + (b + c))[|a| + |x|..] == a + (x + c)
  {
    var s := a + (b + c);
    assert s[..|a|] == a && s[|a| + |x|..] == c;
  }

  lemma PackedOne(f: Field)
    ensures Pack([f]) == Le(f.value, f.width)
  {
    assert Pack([f]) == Le(f.value, f.width) + Pack([f][1..]);
  }

  lemma {:induction false} SameAt(a: seq<Field>, b: seq<Field>, k: nat)
    requires k <= |a| && a <= b
    ensures At(a, k) == At(b, k)
  {
    if k > 0 {
      SameAt(a, b, k - 1);
    }
  }

  /** MAIN RESULT. A document is encoded to the file of its canonical applications, and refused
      only if it is not acceptable or that file would not fit 32-bit offsets. */
  method EncodePolicy(p: Policy) returns (r: Option<string>)
    ensures r == Encoded(p)
    ensures r.Some? <==> (Canonicalized(p).Some?
      && 56 + |PayloadOf(SortBy(HashAtMost, Canonicalized(p).value), p.legacy)| <= UINT32_MAX)
  {
    var canonical := CanonicalizeDocument(p);
    if canonical.None? {
      return None;
    }
    hide Canonicalized, SortBy, AllMounts, ContentGeneration, FileOf, BodyOf;
    SortedExecutable(p);
    var apps := SortBy(HashAtMost, canonical.value);
    TablesInFile(apps, p.legacy);
    if |apps| > UINT32_MAX || |AllMounts(apps)| > UINT32_MAX {
      return None;
    }
    var packages, mounts, strings := FillTables(apps, p.legacy);
    if 56 + |packages| + |mounts| + |strings| > UINT32_MAX {
      return None;
    }
    var generation := ContentGeneration(canonical.value, p.legacy);
    var output := AssembleFile(apps, p.legacy, generation, packages, mounts, strings);
    return Some(output);
  }

  /** The sizes of the parts of a file. */
  lemma TablesInFile(apps: seq<App>, legacy: bool)
    ensures var b := BodyOf(apps, |apps|, legacy);
      && |b.packages| == 48 * |apps| && |b.mounts| == 16 * |AllMounts(apps)| && b.strings.bytes != ""
      && |PayloadOf(apps, legacy)| == |b.packages| + |b.mounts| + |b.strings.bytes|
  {
    hide BodyOf, AllMounts;
    BodyFilled(apps, |apps|, legacy);
    assert apps[..|apps|] == apps;
    var b := BodyOf(apps, |apps|, legacy);
    FilledSizes(b.packages, b.mounts, b.strings.bytes, apps, legacy);
  }

  method AssembleFile(apps: seq<App>, legacy: bool, generation: nat, packages: string, mounts: string, strings: string)
    returns (output: string)
    requires var b := BodyOf(apps, |apps|, legacy); packages == b.packages && mounts == b.mounts && strings == b.strings.bytes
    ensures output == FileOf(apps, legacy, generation)
  {
    hide BodyOf, AllMounts, PayloadChecksum, HeaderFields, Pack, Le;
    var payload := packages + (mounts + strings);
    var total := 56 + |packages| + |mounts| + |strings|;
    var header := Pack(HeaderFields(total, 0, generation, |apps|, |AllMounts(apps)|, legacy));
    HeaderIsSized(total, 0, generation, |apps|, |AllMounts(apps)|, legacy);
    output := header + payload;
    assert output[56..] == payload;
    var checksum := PayloadChecksum(output[56..]);
    ChecksumStored(total, checksum, generation, |apps|, |AllMounts(apps)|, legacy);
    ghost var final := Pack(HeaderFields(total, checksum, generation, |apps|, |AllMounts(apps)|, legacy));
    Restored(header, payload, Le(checksum, 4), final);
    output := output[..12] + Le(checksum, 4) + output[16..];
  }

  lemma HeaderIsSized(size: nat, checksum: nat, generation: nat, packages: nat, mounts: nat, legacy: bool)
    ensures |Pack(HeaderFields(size, checksum, generation, packages, mounts, legacy))| == 56
  {
    hide Pack;
    HeaderSize(HeaderFields(size, checksum, generation, packages, mounts, legacy));
  }

  /** Storing the checksum over a header that has none gives the header that has it. */
  lemma ChecksumStored(size: nat, checksum: nat, generation: nat, packages: nat, mounts: nat, legacy: bool)
    ensures |Pack(HeaderFields(size, 0, generation, packages, mounts, legacy))| == 56
    ensures var header := Pack(HeaderFields(size, 0, generation, packages, mounts, legacy));
      header[..12] + Le(checksum, 4) + header[16..] == Pack(HeaderFields(size, checksum, generation, packages, mounts, legacy))
  {
    HeaderIsSized(size, 0, generation, packages, mounts, legacy);
    var f := HeaderFields(size, 0, generation, packages, mounts, legacy);
    HeaderOffsets(f);
    hide Pack, At, Le;
    StoredOver(f, 4, checksum);
    assert f[4 := Field(4, checksum)] == HeaderFields(size, checksum, generation, packages, mounts, legacy);
  }

  lemma HeaderSize(f: seq<Field>)
    requires |f| == 14 && f[0].width == 4 && f[1].width == f[2].width == 2 && f[3].width == f[4].width == 4
    requires f[5].width == 8 && forall i :: 6 <= i < 14 ==> f[i].width == 4
    ensures |Pack(f)| == 56
  {
    HeaderOffsets(f);
    PackedSize(f);
  }

  lemma FileParts(apps: seq<App>, legacy: bool, generation: nat)
    ensures var b, payload, bytes := BodyOf(apps, |apps|, legacy), PayloadOf(apps, legacy), FileOf(apps, legacy, generation);
      var m := 56 + |b.packages|; var t := m + |b.mounts|;
      && |bytes| == 56 + |payload| == t + |b.strings.bytes| && bytes[56..] == payload
      && bytes[..56] == Pack(HeaderFields(|bytes|, PayloadChecksum(payload), generation, |apps|, |AllMounts(apps)|, legacy))
      && bytes[56..m] == b.packages && bytes[m..t] == b.mounts && bytes[t..] == b.strings.bytes
  {
    hide BodyOf, AllMounts, PayloadChecksum, Pack;
    var b, payload := BodyOf(apps, |apps|, legacy), PayloadOf(apps, legacy);
    var fields := HeaderFields(56 + |payload|, PayloadChecksum(payload), generation, |apps|, |AllMounts(apps)|, legacy);
    HeaderSize(fields);
    ThreeParts(Pack(fields), b.packages, b.mounts, b.strings.bytes);
  }

  /** The file of applications holds them. */
  lemma FileEncodes(apps: seq<App>, legacy: bool, generation: nat)
    requires apps != [] && 56 + |PayloadOf(apps, legacy)| <= UINT32_MAX
    ensures Encodes(FileOf(apps, legacy, generation), apps, legacy, generation)
  {
    hide BodyOf, EntriesFilled, MountsFilled, AllMounts, PayloadChecksum, Pack, HeaderFields, FileOf, PayloadOf;
    BodyFilled(apps, |apps|, legacy);
    TablesInFile(apps, legacy);
    assert apps[..|apps|] == apps;
    FileParts(apps, legacy, generation);
  }

  lemma Restored(old_: string, payload: string, sum: string, header: string)
    requires |old_| == 56 && |sum| == 4 && old_[..12] + sum + old_[16..] == header
    ensures (old_ + payload)[..12] + sum + (old_ + payload)[16..] == header + payload
  {
    assert (old_ + payload)[..12] == old_[..12] && (old_ + payload)[16..] == old_[16..] + payload;
  }

  lemma ThreeParts(header: string, packages: string, mounts: string, strings: string)
    requires |header| == 56
    ensures var bytes := header + (packages + (mounts + strings));
      && bytes[..56] == header && bytes[56..] == packages + (mounts + strings)
      && bytes[56..56 + |packages|] == packages
      && bytes[56 + |packages|..56 + |packages| + |mounts|] == mounts
      && bytes[56 + |packages| + |mounts|..] == strings
  {
  }

  lemma FilledSizes(packages: string, mounts: string, strings: string, apps: seq<App>, legacy: bool)
    requires EntriesFilled(packages, strings, apps, |apps|, legacy) && MountsFilled(mounts, strings, AllMounts(apps))
    ensures |packages| == 48 * |apps| && |mounts| == 16 * |AllMounts(apps)|
  {
  }

  // -------------------------------------------------------------------- its size

  function MountText(ms: seq<Mount>): nat {
    if ms == [] then 0
    else MountText(ms[..|ms| - 1]) + |ms[|ms| - 1].visible| + 1 + |ms[|ms| - 1].backing| + 1
  }

  /** The bytes of all strings of the first applications, each with its terminator. */
  function TextOf(apps: seq<App>, n: nat): nat
    requires n <= |apps|
  {
    if n == 0 then 0
    else
      var a := apps[n - 1];
      TextOf(apps, n - 1) + |a.package| + 1 + |Join(a.users, ',')| + 1 + |Join(a.processes, ',')| + 1 + MountText(a.mounts)
  }

  lemma {:induction false} MountsTake(r: Rows, ms: seq<Mount>)
    ensures |WithMounts(r, ms).strings.bytes| <= |r.strings.bytes| + MountText(ms)
  {
    hide Pack;
    if ms != [] {
      MountsTake(r, ms[..|ms| - 1]);
    }
  }

  lemma AppTakes(b: Body, e: Entry, ms: seq<Mount>)
    ensures |WithApp(b, e, ms).strings.bytes| <= |b.strings.bytes| + |e.package| + 1 + |Join(e.users, ',')| + 1
                                                 + |Join(e.processes, ',')| + 1 + MountText(ms)
  {
    hide WithMounts, MountText, Pack, EntryFields, Join;
    MountsTake(Rows(b.mounts, WithEntry(Rows(b.packages, b.strings), e).strings), ms);
  }

  lemma {:induction false} StringsTake(apps: seq<App>, n: nat, legacy: bool)
    requires n <= |apps|
    ensures |BodyOf(apps, n, legacy).strings.bytes| <= 1 + TextOf(apps, n)
  {
    hide WithApp, MountText, Join, PlanGeneration, PackageHash;
    if n > 0 {
      StringsTake(apps, n - 1, legacy);
      AppTakes(BodyOf(apps, n - 1, legacy), EntryFor(apps, n - 1, legacy), apps[n - 1].mounts);
    }
  }

  /** An acceptable document of less than four gigabytes is encoded. */
  lemma SmallDocumentsEncode(p: Policy)
    requires Canonicalized(p).Some?
    requires var apps := SortBy(HashAtMost, Canonicalized(p).value);
      57 + 48 * |apps| + 16 * |AllMounts(apps)| + TextOf(apps, |apps|) <= UINT32_MAX
    ensures Encoded(p).Some?
  {
    hide Canonicalized, SortBy, AllMounts, BodyOf, FileOf, ContentGeneration, TextOf;
    var apps := SortBy(HashAtMost, Canonicalized(p).value);
    TablesInFile(apps, p.legacy);
    StringsTake(apps, |apps|, p.legacy);
  }

  // -------------------------------------------------------------- canonicalizing

  lemma {:induction false} ValidatedPrefix(apps: seq<App>, i: nat)
    requires i <= |apps| && ValidatedAll(apps[..i]).None?
    ensures ValidatedAll(apps).None?
    decreases |apps|
  {
    hide Validated, Executable;
    if i < |apps| {
      assert apps[..|apps| - 1][..i] == apps[..i];
      ValidatedPrefix(apps[..|apps| - 1], i);
    } else {
      assert apps[..i] == apps;
    }
  }

  method CanonicalizeDocument(p: Policy) returns (r: Option<seq<App>>)
    ensures r == Canonicalized(p)
  {
    hide Validated, Executable;
    if p.schema != SCHEMA_VERSION || !p.failOpen || p.apps == [] {
      return None;
    }
    var packages: set<string> := {};
    var output: seq<App> := [];
    for i := 0 to |p.apps|
      invariant ValidatedAll(p.apps[..i]) == Some(output)
      invariant forall s :: s in packages <==> exists j :: 0 <= j < i && p.apps[j].package == s
      invariant DistinctPackages(p.apps[..i])
    {
      var app := p.apps[i];
      if app.package in packages {
        return None;
      }
      packages := packages + {app.package};
      var valid := ValidatePolicy(app);
      assert p.apps[..i + 1][..i] == p.apps[..i];
      if valid.None? || !Executable(valid.value) {
        ValidatedPrefix(p.apps, i + 1);
        return None;
      }
      output := output + [valid.value];
    }
    assert p.apps[..|p.apps|] == p.apps;
    return Some(output);
  }

  lemma {:induction false} ValidatedAllAre(apps: seq<App>)
    requires ValidatedAll(apps).Some?
    ensures var v := ValidatedAll(apps).value;
      && |v| == |apps|
      && forall i :: 0 <= i < |v| ==> v[i].package == apps[i].package && Validated(v[i]) == Some(v[i]) && Executable(v[i])
  {
    hide Validated, Executable;
    if apps != [] {
      ValidatedAllAre(apps[..|apps| - 1]);
      var a := apps[|apps| - 1];
      ValidatedTwice(a);
      ValidatedKeepsPackage(a);
    }
  }

  lemma HashesPreordered()
    ensures Preorder(HashAtMost)
  {
    hide PackageHash;
    forall a, b ensures HashAtMost(a, b) || HashAtMost(b, a) { LessIsTotal(a.package, b.package); }
    forall a, b, c ensures HashAtMost(a, b) && HashAtMost(b, c) ==> HashAtMost(a, c) {
      if Less(a.package, b.package) && Less(b.package, c.package) {
        LessTransitive(a.package, b.package, c.package);
      }
    }
  }

  /** What is encoded: as many applications, none with events. */
  lemma SortedExecutable(p: Policy)
    requires Canonicalized(p).Some?
    ensures var apps := SortBy(HashAtMost, Canonicalized(p).value);
      |apps| == |p.apps| && apps != [] && NoEvents(apps)
  {
    var v := Canonicalized(p).value;
    ValidatedAllAre(p.apps);
    HashesPreordered();
    SortBySorts(HashAtMost, v);
    hide SortBy, Preorder, Validated;
    var apps := SortBy(HashAtMost, v);
    assert |apps| == |multiset(apps)| == |multiset(v)| == |v|;
    forall a | a in apps ensures a.events == [] {
      SameMembers(apps, v, a);
      var i :| 0 <= i < |v| && v[i] == a;
    }
  }

  // ------------------------------------------------------------------ round trip

  predicate ItemsStorable(items: seq<string>) { IsStorable(items) && forall i :: i in items ==> NulFree(i) }

  /** Users of different numbers, so that sorting them by number leaves no choice. */
  predicate DistinctUsers(users: seq<string>) {
    forall u, v :: u in users && v in users && Value(u) == Value(v) ==> u == v
  }

  /** Whatever sort a program uses, it puts such users in the order the model does. */
  lemma UsersSortOneWay(users: seq<string>, sorted: seq<string>)
    requires DistinctUsers(users) && multiset(sorted) == multiset(users) && SortedBy(UserAtMost, sorted)
    ensures sorted == SortBy(UserAtMost, users)
  {
    UsersPreordered();
    SortBySorts(UserAtMost, users);
    forall u ensures u in sorted <==> u in users { SameMembers(sorted, users, u); }
    assert Separates(UserAtMost, sorted);
    hide SortBy, Preorder, Value;
    SortedIsUnique(UserAtMost, sorted, SortBy(UserAtMost, users));
  }

  /** What a file can hold of an application: lists with proper items, names without NUL, users
      of different numbers and flags of sixteen bits. */
  predicate AppStorable(a: App) {
    && NulFree(a.package) && DistinctUsers(a.users) && ItemsStorable(a.users) && ItemsStorable(a.processes)
    && forall m :: m in a.mounts ==> m.flags < 0x1_0000
  }

  lemma {:induction false} JoinedIsNulFree(items: seq<string>)
    requires forall i :: i in items ==> NulFree(i)
    ensures NulFree(Join(items, ','))
  {
    if |items| == 1 {
      assert items[0] in items;
    } else if |items| > 1 {
      assert items[0] in items && forall i :: i in items[1..] ==> i in items;
      JoinedIsNulFree(items[1..]);
    }
  }

  lemma {:induction false} SlashesFit(p: string)
    ensures Slashes(p) <= |p|
  {
    if p != "" {
      SlashesFit(p[1..]);
    }
  }

  /** Validated mounts have paths without NUL and depths of sixteen bits. */
  lemma NormalInRange(m: Mount, package: string)
    requires NormalMount(m, package) == Some(m) && m.flags < 0x1_0000
    ensures MountInRange(m)
  {
    SlashesFit(m.visible);
  }

  lemma {:induction false} ValidatedMountsNormal(a: App, m: Mount)
    requires Validated(a) == Some(a) && m in a.mounts
    ensures NormalMount(m, a.package) == Some(m)
  {
    MountsOnce(a);
    NormalMountsAre(a.mounts, a.package);
  }

  lemma EntryForInRange(apps: seq<App>, i: nat, legacy: bool)
    requires i < |apps| && AppStorable(apps[i]) && apps[i].events == [] && EventsBefore(apps, i) == 0
    requires MountsBefore(apps, i) + |apps[i].mounts| <= UINT32_MAX
    ensures EntryInRange(EntryFor(apps, i, legacy))
  {
    JoinedIsNulFree(apps[i].users);
    JoinedIsNulFree(apps[i].processes);
    hide Join, NulFree, PackageHash, PlanGeneration, IsStorable;
  }

  /** The mounts of one application are read back from their stretch. */
  lemma {:induction false} StretchReads(t: Tables, ms: seq<Mount>, first: nat, count: nat)
    requires MountsFilled(t.mounts, t.strings, ms) && first + count <= |ms| && |t.strings| <= UINT32_MAX
    requires forall j :: first <= j < first + count ==> MountInRange(ms[j])
    ensures MountsAt(t, first, count) == Some(ms[first..first + count])
    decreases count
  {
    hide IsMountRow, MountOf, MountInRange;
    if count > 0 {
      StretchReads(t, ms, first, count - 1);
      var j := first + count - 1;
      assert MountRow(t, j) == t.mounts[16 * j..16 * j + 16];
      MountRowReads(MountRow(t, j), t.strings, ms[j]);
      assert ms[first..first + count] == ms[first..j] + [ms[j]];
    }
  }

  lemma {:induction false} StretchIs(apps: seq<App>, i: nat)
    requires i < |apps|
    ensures MountsBefore(apps, i) + |apps[i].mounts| <= |AllMounts(apps)|
    ensures AllMounts(apps)[MountsBefore(apps, i)..MountsBefore(apps, i) + |apps[i].mounts|] == apps[i].mounts
    decreases |apps|
  {
    var init, a := apps[..|apps| - 1], apps[|apps| - 1];
    MountsCounted(apps, |apps| - 1);
    BeforeAgrees(init, apps, if i < |init| then i else |init|);
    if i < |init| {
      StretchIs(init, i);
      var lo, hi := MountsBefore(apps, i), MountsBefore(apps, i) + |apps[i].mounts|;
      assert AllMounts(apps)[lo..hi] == AllMounts(init)[lo..hi];
    }
  }

  /** The tables of an encoded file say what the applications are. */
  ghost predicate TablesTell(t: Tables, apps: seq<App>) {
    && EntriesFilled(t.packages, t.strings, apps, |apps|, t.legacy)
    && MountsFilled(t.mounts, t.strings, AllMounts(apps)) && t.events == "" && |t.strings| <= UINT32_MAX
    && |AllMounts(apps)| <= UINT32_MAX
    && NoEvents(apps) && InOrder(apps)
    && forall a :: a in apps ==> AppStorable(a) && Validated(a) == Some(a)
  }

  lemma RowReadsBack(t: Tables, apps: seq<App>, i: nat)
    requires TablesTell(t, apps) && i < |apps|
    ensures 48 * (i + 1) <= |t.packages| && EntryOf(PackageRow(t, i), t.strings) == Some(EntryFor(apps, i, t.legacy))
  {
    assert apps[i] in apps;
    NoEventsBefore(apps, i);
    StretchIs(apps, i);
    EntryForInRange(apps, i, t.legacy);
    hide IsEntryRow, EntryFor, EntryOf, AppStorable, Validated, InOrder, MountsFilled;
    EntryRowReads(PackageRow(t, i), t.strings, EntryFor(apps, i, t.legacy));
  }

  lemma MountsInRange(a: App, m: Mount)
    requires AppStorable(a) && Validated(a) == Some(a) && m in a.mounts
    ensures MountInRange(m)
  {
    hide Validated, NormalMount, MountInRange;
    ValidatedMountsNormal(a, m);
    NormalInRange(m, a.package);
  }

  /** What the i-th application contributes. */
  lemma AppTold(t: Tables, apps: seq<App>, i: nat)
    requires TablesTell(t, apps) && i < |apps|
    ensures AppStorable(apps[i]) && Validated(apps[i]) == Some(apps[i]) && apps[i].events == []
    ensures MountsFilled(t.mounts, t.strings, AllMounts(apps)) && |t.strings| <= UINT32_MAX && t.events == ""
    ensures i > 0 ==> Precedes(apps[i - 1].package, apps[i].package)
  {
    hide EntriesFilled, MountsFilled, AllMounts, AppStorable, Validated, Precedes;
    assert apps[i] in apps;
  }

  lemma MountsReadBack(t: Tables, apps: seq<App>, i: nat)
    requires TablesTell(t, apps) && i < |apps|
    ensures 16 * (MountsBefore(apps, i) + |apps[i].mounts|) <= |t.mounts|
    ensures MountsAt(t, MountsBefore(apps, i), |apps[i].mounts|) == Some(apps[i].mounts)
  {
    hide *;
    var a, first, ms := apps[i], MountsBefore(apps, i), AllMounts(apps);
    AppTold(t, apps, i);
    StretchIs(apps, i);
    MountTableSize(t.mounts, t.strings, ms);
    forall j | first <= j < first + |a.mounts| ensures MountInRange(ms[j]) {
      assert ms[j] == ms[first..first + |a.mounts|][j - first];
      MountsInRange(a, ms[j]);
    }
    StretchReads(t, ms, first, |a.mounts|);
  }

  lemma MountTableSize(table: string, strings: string, ms: seq<Mount>)
    requires MountsFilled(table, strings, ms)
    ensures |table| == 16 * |ms|
  {
  }

  lemma AdvanceIs(t: Tables, p: Progress, row: string, e: Entry, ms: seq<Mount>, a: App)
    requires |row| == PACKAGE_SIZE && p.Within(t) && EntryOf(row, t.strings) == Some(e)
    requires e.hash == PackageHash(e.package) && p.Admits(e.package) && RangesFit(t, p, e) && e.eventCount == 0
    requires MountsAt(t, p.mounts, e.mountCount) == Some(ms)
    requires CanonicalApp(AppOf(e, ms, []), e.generation, t.legacy) == Some(a)
    ensures Advance(t, p, row) == Some(Progress(p.apps + [a], p.mounts + e.mountCount, p.events))
  {
    hide EntryOf, MountsAt, CanonicalApp, AppOf, PackageHash, Precedes, EventOf;
    assert EventsAt(t, p.events, 0) == Some([]);
  }

  lemma NextReadsBack(t: Tables, apps: seq<App>, i: nat)
    requires TablesTell(t, apps) && i < |apps|
    ensures 48 * (i + 1) <= |t.packages| && Progress(apps[..i], MountsBefore(apps, i), 0).Within(t)
    ensures Advance(t, Progress(apps[..i], MountsBefore(apps, i), 0), PackageRow(t, i))
         == Some(Progress(apps[..i + 1], MountsBefore(apps, i + 1), 0))
  {
    hide *;
    var a, e, p := apps[i], EntryFor(apps, i, t.legacy), Progress(apps[..i], MountsBefore(apps, i), 0);
    RowReadsBack(t, apps, i);
    MountsReadBack(t, apps, i);
    AppTold(t, apps, i);
    NoEventsTold(t, apps, i);
    EntryForTells(t, apps, i);
    AdvanceIs(t, p, PackageRow(t, i), e, a.mounts, a);
    assert apps[..i + 1] == apps[..i] + [a];
  }

  lemma NoEventsTold(t: Tables, apps: seq<App>, i: nat)
    requires TablesTell(t, apps) && i < |apps|
    ensures EventsBefore(apps, i) == 0
  {
    NoEventsBefore(apps, i);
  }

  /** The row of an application leads to the application. */
  lemma EntryForTells(t: Tables, apps: seq<App>, i: nat)
    requires i < |apps| && EventsBefore(apps, i) == 0 && apps[i].events == [] && Validated(apps[i]) == Some(apps[i])
    requires 16 * (MountsBefore(apps, i) + |apps[i].mounts|) <= |t.mounts|
    requires i > 0 ==> Precedes(apps[i - 1].package, apps[i].package)
    ensures var a, e, p := apps[i], EntryFor(apps, i, t.legacy), Progress(apps[..i], MountsBefore(apps, i), 0);
      && p.Within(t) && e.hash == PackageHash(e.package) && p.Admits(e.package) && RangesFit(t, p, e)
      && e.eventCount == 0 && e.mountCount == |a.mounts|
      && CanonicalApp(AppOf(e, a.mounts, []), e.generation, t.legacy) == Some(a)
      && MountsBefore(apps, i + 1) == MountsBefore(apps, i) + e.mountCount
  {
    hide Validated, PlanGeneration, PackageHash, Precedes;
    assert AppOf(EntryFor(apps, i, t.legacy), apps[i].mounts, []) == apps[i];
  }

  lemma {:induction false} AppsReadBack(t: Tables, apps: seq<App>, n: nat)
    requires TablesTell(t, apps) && n <= |apps|
    ensures 48 * n <= |t.packages|
    ensures AppsUpTo(t, n) == Some(Progress(apps[..n], MountsBefore(apps, n), 0))
  {
    hide TablesTell, Advance;
    if n > 0 {
      AppsReadBack(t, apps, n - 1);
      NextReadsBack(t, apps, n - 1);
    }
  }

  lemma HeadReads(bytes: string, f: seq<Field>, k: nat)
    requires |bytes| >= 56 && bytes[..56] == Pack(f) && k < |f| && f[k].value < Pow256(f[k].width)
    ensures At(f, k) + f[k].width <= 56 && Read(bytes, At(f, k), f[k].width) == f[k].value
  {
    hide Pack, At, Number, Pow256;
    FieldReads(f, k);
    SliceOfFront(bytes, 56, At(f, k), f[k].width);
  }

  lemma SliceOfFront(s: string, n: nat, at: nat, w: nat)
    requires at + w <= n <= |s|
    ensures s[..n][at..at + w] == s[at..at + w]
  {
  }

  /** The header of an encoded file says where its tables are. */
  lemma HeaderReadsBack(bytes: string, n: nat, k: nat, generation: nat, legacy: bool)
    requires n > 0 && 56 + 48 * n + 16 * k < |bytes| <= UINT32_MAX && generation < 0x1_0000_0000_0000_0000
    requires bytes[..56] == Pack(HeaderFields(|bytes|, PayloadChecksum(bytes[56..]), generation, n, k, legacy))
    ensures HeaderFits(bytes) && Read(bytes, 24, 4) == n && Read(bytes, 28, 4) == k && Read(bytes, 32, 4) == 0
    ensures Read(bytes, 16, 8) == generation && Read(bytes, 52, 4) == Flag(legacy)
  {
    hide Pack, Read, Pow256, PayloadChecksum;
    var f := HeaderFields(|bytes|, PayloadChecksum(bytes[56..]), generation, n, k, legacy);
    HeaderOffsets(f);
    Widths();
    hide At;
    HeadReads(bytes, f, 0);
    HeadReads(bytes, f, 1);
    HeadReads(bytes, f, 2);
    HeadReads(bytes, f, 3);
    HeadReads(bytes, f, 4);
    HeadReads(bytes, f, 5);
    HeadReads(bytes, f, 6);
    HeadReads(bytes, f, 7);
    HeadReads(bytes, f, 8);
    HeadReads(bytes, f, 9);
    HeadReads(bytes, f, 10);
    HeadReads(bytes, f, 11);
    HeadReads(bytes, f, 12);
    HeadReads(bytes, f, 13);
  }

  lemma TablesReadBack(bytes: string, apps: seq<App>, legacy: bool, generation: nat)
    requires Encodes(bytes, apps, legacy, generation) && generation < 0x1_0000_0000_0000_0000
    ensures HeaderFits(bytes) && Read(bytes, 24, 4) == |apps| && Read(bytes, 16, 8) == generation
    ensures var t := TablesOf(bytes);
      && t.legacy == legacy && t.events == "" && |t.strings| <= UINT32_MAX && |t.mounts| == 16 * |AllMounts(apps)|
      && EntriesFilled(t.packages, t.strings, apps, |apps|, legacy) && MountsFilled(t.mounts, t.strings, AllMounts(apps))
  {
    hide EntriesFilled, MountsFilled, PayloadChecksum, Pack, Read, AllMounts;
    HeaderReadsBack(bytes, |apps|, |AllMounts(apps)|, generation, legacy);
  }

  lemma SortedInOrder(apps: seq<App>)
    requires SortedBy(HashAtMost, apps) && DistinctPackages(apps)
    ensures InOrder(apps)
  {
    hide PackageHash;
    forall i, j | 0 <= i < j < |apps| ensures Precedes(apps[i].package, apps[j].package) {
      assert HashAtMost(apps[i], apps[j]);
    }
  }

  function PackageOf(a: App): string { a.package }

  lemma DistinctIsOrderless(s: seq<App>, t: seq<App>)
    requires multiset(s) == multiset(t) && DistinctPackages(s)
    ensures DistinctPackages(t)
  {
    var x, y := Map(PackageOf, s), Map(PackageOf, t);
    MapMultiset(PackageOf, s, t);
    forall i, j | 0 <= i < j < |x| ensures x[i] != x[j] { assert s[i].package != s[j].package; }
    NoRepeatsIsOrderless(x, y);
    forall i, j | 0 <= i < j < |t| ensures t[i].package != t[j].package { assert y[i] != y[j]; }
  }

  lemma PackagesPreordered()
    ensures Preorder(ByPackage)
  {
    forall a, b ensures ByPackage(a, b) || ByPackage(b, a) { LessIsTotal(a.package, b.package); }
    forall a, b, c ensures ByPackage(a, b) && ByPackage(b, c) ==> ByPackage(a, c) {
      if Less(a.package, b.package) && Less(b.package, c.package) {
        LessTransitive(a.package, b.package, c.package);
      }
    }
  }

  /** The content generation does not depend on the order of the applications. */
  lemma GenerationIgnoresOrder(s: seq<App>, t: seq<App>, legacy: bool)
    requires multiset(s) == multiset(t) && DistinctPackages(s)
    ensures ContentGeneration(s, legacy) == ContentGeneration(t, legacy)
  {
    PackagesPreordered();
    SortBySorts(ByPackage, s);
    SortBySorts(ByPackage, t);
    hide Preorder, SortBy, Generation, Plans;
    var x := SortBy(ByPackage, s);
    DistinctIsOrderless(s, x);
    forall a, b | a in x && b in x && a != b ensures !(ByPackage(a, b) && ByPackage(b, a)) {
      var i :| 0 <= i < |x| && x[i] == a;
      var j :| 0 <= j < |x| && x[j] == b;
      assert i < j ==> x[i].package != x[j].package;
      assert j < i ==> x[j].package != x[i].package;
      LessIsStrict(a.package, b.package);
    }
    SortedIsUnique(ByPackage, x, SortBy(ByPackage, t));
    assert |s| == |multiset(s)| == |multiset(t)| == |t|;
  }

  lemma {:induction false} FlagsStay(ms: seq<Mount>, package: string)
    requires NormalMounts(ms, package).Some? && forall m :: m in ms ==> m.flags < 0x1_0000
    ensures forall m :: m in NormalMounts(ms, package).value ==> m.flags < 0x1_0000
  {
    hide IsVisible, NormalBacking, Slashes;
    if ms != [] {
      var init, m := ms[..|ms| - 1], ms[|ms| - 1];
      assert m in ms && forall x :: x in init ==> x in ms;
      FlagsStay(init, package);
    }
  }

  lemma ItemsStay(s: seq<string>, t: seq<string>)
    requires multiset(s) == multiset(t) && ItemsStorable(s)
    ensures ItemsStorable(t)
  {
    hide NulFree, Free;
    assert |s| == |multiset(s)| == |multiset(t)| == |t|;
    forall x ensures x in s <==> x in t { SameMembers(s, t, x); }
  }

  lemma UsersArePermuted(users: seq<string>)
    requires NormalUsers(users).Some?
    ensures multiset(NormalUsers(users).value) == multiset(users)
  {
    UsersPreordered();
    SortBySorts(UserAtMost, users);
  }

  /** Validation leaves a storable application storable. */
  lemma StorableStays(a: App)
    requires AppStorable(a) && Validated(a).Some?
    ensures AppStorable(Validated(a).value)
  {
    var b := Validated(a).value;
    UsersArePermuted(a.users);
    PathsPreordered();
    SortBySorts(AtMost, a.processes);
    MountsOnce(a);
    FlagsStay(a.mounts, a.package);
    hide SortBy, NormalMounts, NormalUsers, ItemsStorable, NulFree, Preorder, NormalEvents;
    ItemsStay(a.users, b.users);
    ItemsStay(a.processes, b.processes);
    var ms := NormalMounts(a.mounts, a.package).value;
    forall m | m in b.mounts ensures m.flags < 0x1_0000 { SameMembers(b.mounts, ms, m); }
    forall u ensures u in b.users <==> u in a.users { SameMembers(b.users, a.users, u); }
  }

  lemma {:induction false} AllStorable(apps: seq<App>)
    requires ValidatedAll(apps).Some? && forall a :: a in apps ==> AppStorable(a)
    ensures forall a :: a in ValidatedAll(apps).value ==> AppStorable(a)
  {
    hide Validated, AppStorable, Executable;
    if apps != [] {
      var init, a := apps[..|apps| - 1], apps[|apps| - 1];
      assert a in apps && forall x :: x in init ==> x in apps;
      AllStorable(init);
      StorableStays(a);
    }
  }

  /** The canonical applications, in the order of the file. */
  lemma CanonicalTells(p: Policy)
    requires Canonicalized(p).Some? && forall a :: a in p.apps ==> AppStorable(a)
    ensures var v, apps := Canonicalized(p).value, SortBy(HashAtMost, Canonicalized(p).value);
      && InOrder(apps) && NoEvents(apps) && (forall a :: a in apps ==> AppStorable(a) && Validated(a) == Some(a))
      && ContentGeneration(v, p.legacy) == ContentGeneration(apps, p.legacy)
  {
    hide SortBy, Preorder, Validated, AppStorable, ValidatedAll, Executable, ContentGeneration, HashAtMost, SortedBy;
    var v := Canonicalized(p).value;
    ValidatedAllAre(p.apps);
    AllStorable(p.apps);
    HashesPreordered();
    SortBySorts(HashAtMost, v);
    SortedExecutable(p);
    var apps := SortBy(HashAtMost, v);
    forall i, j | 0 <= i < j < |v| ensures v[i].package != v[j].package {
      assert p.apps[i].package != p.apps[j].package;
    }
    DistinctIsOrderless(v, apps);
    SortedInOrder(apps);
    GenerationIgnoresOrder(v, apps, p.legacy);
    forall a | a in apps ensures AppStorable(a) && Validated(a) == Some(a) {
      SameMembers(apps, v, a);
      var i :| 0 <= i < |v| && v[i] == a;
    }
  }

  /** MAIN RESULT. Decoding an encoded document gives back its validated applications, in order of
      hash and name, and its content generation, if its lists and names can be stored. */
  lemma EncodeThenDecode(p: Policy)
    requires Encoded(p).Some? && forall a :: a in p.apps ==> AppStorable(a)
    ensures Canonicalized(p).Some?
    ensures var v := Canonicalized(p).value;
      Decoded(Encoded(p).value) == Some(Document(p.legacy, SortBy(HashAtMost, v), ContentGeneration(v, p.legacy)))
  {
    hide *;
    EncodedFile(p);
    FileDecodes(p, Canonicalized(p).value);
  }

  lemma FileDecodes(p: Policy, v: seq<App>)
    requires Canonicalized(p) == Some(v) && forall a :: a in p.apps ==> AppStorable(a)
    requires 56 + |PayloadOf(SortBy(HashAtMost, v), p.legacy)| <= UINT32_MAX
    ensures Decoded(FileOf(SortBy(HashAtMost, v), p.legacy, ContentGeneration(v, p.legacy)))
         == Some(Document(p.legacy, SortBy(HashAtMost, v), ContentGeneration(v, p.legacy)))
  {
    hide *;
    var apps, generation := SortBy(HashAtMost, v), ContentGeneration(v, p.legacy);
    var bytes := FileOf(apps, p.legacy, generation);
    SortedExecutable(p);
    FileEncodes(apps, p.legacy, generation);
    CanonicalTells(p);
    TablesReadBack(bytes, apps, p.legacy, generation);
    var t := TablesOf(bytes);
    MountsFitIn(bytes, apps, p.legacy, generation);
    GatherTables(t, apps);
    AppsReadBack(t, apps, |apps|);
    MountsCounted(apps, |apps|);
    assert apps[..|apps|] == apps;
    Conclude(bytes, t, apps, generation);
  }

  lemma EncodedFile(p: Policy)
    requires Encoded(p).Some?
    ensures Canonicalized(p).Some?
    ensures var v := Canonicalized(p).value;
      && 56 + |PayloadOf(SortBy(HashAtMost, v), p.legacy)| <= UINT32_MAX
      && Encoded(p).value == FileOf(SortBy(HashAtMost, v), p.legacy, ContentGeneration(v, p.legacy))
  {
    hide Canonicalized, PayloadOf, FileOf, SortBy, ContentGeneration;
  }

  lemma MountsFitIn(bytes: string, apps: seq<App>, legacy: bool, generation: nat)
    requires Encodes(bytes, apps, legacy, generation)
    ensures |AllMounts(apps)| <= UINT32_MAX
  {
    hide EntriesFilled, MountsFilled, PayloadChecksum, Pack, AllMounts;
  }

  lemma GatherTables(t: Tables, apps: seq<App>)
    requires EntriesFilled(t.packages, t.strings, apps, |apps|, t.legacy) && MountsFilled(t.mounts, t.strings, AllMounts(apps))
    requires t.events == "" && |t.strings| <= UINT32_MAX && |AllMounts(apps)| <= UINT32_MAX
    requires NoEvents(apps) && InOrder(apps) && forall a :: a in apps ==> AppStorable(a) && Validated(a) == Some(a)
    ensures TablesTell(t, apps)
  {
    hide EntriesFilled, MountsFilled, AllMounts, AppStorable, Validated, Precedes;
  }

  lemma Conclude(bytes: string, t: Tables, apps: seq<App>, generation: nat)
    requires HeaderFits(bytes) && t == TablesOf(bytes) && Read(bytes, 24, 4) == |apps| && Read(bytes, 16, 8) == generation
    requires AppsUpTo(t, |apps|) == Some(Progress(apps, MountsBefore(apps, |apps|), 0))
    requires 16 * MountsBefore(apps, |apps|) == |t.mounts| && t.events == ""
    requires ContentGeneration(apps, t.legacy) == generation
    ensures Decoded(bytes) == Some(Document(t.legacy, apps, generation))
  {
    hide HeaderFits, AppsUpTo, ContentGeneration, Read, MountsBefore;
  }
}
