/** The rows of a policy file, format version 5, as core/src/binary.cpp reads them: layout
    constants of core/include/pathguard/policy_format.h, hashes, lists and rows. */
module PolicyFormat {
  import opened Wrappers
  import opened PathOrder
  import opened Sorting
  import opened Separated
  import opened ByteLayout
  import opened Validation
  import opened OctetBits
  import Checksum

  const MAGIC: nat := 0x424E_4750
  const FORMAT_VERSION: nat := 5
  const SCHEMA_VERSION: nat := 2
  const HEADER_SIZE: nat := 56
  const PACKAGE_SIZE: nat := 48
  const RULE_SIZE: nat := 16

  // ------------------------------------------------------------------- hashes

  function Fnv32(hash: bv32, s: string): bv32
    decreases |s|
  {
    if s == "" then hash else Fnv32((hash ^ (Octet(s[0]) as bv32)) * 16777619, s[1..])
  }

  function PackageHash(name: string): (h: nat)
    ensures h < 0x1_0000_0000
  {
    Fnv32(2166136261, name) as nat
  }

  function Fnv64(hash: bv64, s: string): bv64
    decreases |s|
  {
    if s == "" then hash else Fnv64((hash ^ (Octet(s[0]) as bv64)) * 1099511628211, s[1..])
  }

  function Generation(s: string): (g: nat)
    ensures g < 0x1_0000_0000_0000_0000
  {
    Fnv64(14695981039346656037, s) as nat
  }

  function Bits(c: char): bv8 { ToBits(Octet(c)) }

  function Octets(s: string): (r: seq<bv8>)
    ensures |r| == |s|
  {
    seq(|s|, i requires 0 <= i < |s| => Bits(s[i]))
  }

  predicate AreBytes(s: string) { forall c :: c in s ==> c as int < 256 }

  lemma OctetsTell(a: string, b: string)
    requires AreBytes(a) && AreBytes(b) && Octets(a) == Octets(b)
    ensures a == b
  {
    hide ToBits, FromBits;
    forall i | 0 <= i < |a| ensures a[i] == b[i] {
      assert Octets(a)[i] == Octets(b)[i];
      BitsReadBack(Octet(a[i]));
      BitsReadBack(Octet(b[i]));
      assert a[i] in a && b[i] in b;
    }
  }

  lemma OctetsConcat(a: string, b: string)
    ensures Octets(a + b) == Octets(a) + Octets(b)
  {
    hide Bits;
  }

  function PayloadChecksum(payload: string): (c: nat)
    ensures c < 0x1_0000_0000
  {
    FromWord(Checksum.Crc(Octets(payload)))
  }

  // --------------------------------------------------------------- generations

  function Sized(s: string): string { Le(|s|, 4) + s }

  function SizedAll(ss: seq<string>): string { if ss == [] then "" else Sized(ss[0]) + SizedAll(ss[1..]) }

  function ActionCode(a: MountAction): nat {
    match a
    case Deny => 0
    case Redirect => 1
    case Restore => 2
    case IsolateRoot => 3
  }

  function EventCode(a: EventAction): nat { if a == Observe then 0 else 1 }

  function Flag(b: bool): nat { if b then 1 else 0 }

  function PlanMount(m: Mount): string {
    Le(ActionCode(m.action), 1) + Le(m.depth, 2) + Le(m.flags, 2) + Sized(m.visible) + Sized(m.backing)
  }

  function PlanMounts(ms: seq<Mount>): string { if ms == [] then "" else PlanMount(ms[0]) + PlanMounts(ms[1..]) }

  function PlanEvent(e: Event): string {
    Le(EventCode(e.action), 1) + Le(e.options, 4) + Sized(e.source) + Sized(e.target)
  }

  function PlanEvents(es: seq<Event>): string { if es == [] then "" else PlanEvent(es[0]) + PlanEvents(es[1..]) }

  /** The bytes a plan's generation is taken of. */
  function CanonicalPlan(a: App, legacy: bool): string {
    "PGPL5\0" + Le(0, 1) + Le(Flag(a.media), 1) + Le(Flag(a.provider), 1) + Le(Flag(legacy), 1)
    + Sized(a.package) + Le(|a.users|, 4) + SizedAll(a.users) + Le(|a.processes|, 4) + SizedAll(a.processes)
    + Le(|a.mounts|, 4) + PlanMounts(a.mounts) + Le(|a.events|, 4) + PlanEvents(a.events)
  }

  function PlanGeneration(a: App, legacy: bool): (g: nat)
    ensures g < 0x1_0000_0000_0000_0000
  {
    Generation(CanonicalPlan(a, legacy))
  }

  predicate ByPackage(a: App, b: App) { AtMost(a.package, b.package) }

  function Plans(apps: seq<App>, legacy: bool): string {
    if apps == [] then "" else Sized(CanonicalPlan(apps[0], legacy)) + Plans(apps[1..], legacy)
  }

  function ContentGeneration(apps: seq<App>, legacy: bool): (g: nat)
    ensures g < 0x1_0000_0000_0000_0000
  {
    Generation("PGIR5\0" + Le(SCHEMA_VERSION, 2) + Le(0, 1) + Le(Flag(legacy), 1) + Le(|apps|, 4)
               + Plans(SortBy(ByPackage, apps), legacy))
  }

  // -------------------------------------------------------------------- lists

  predicate NoneEmpty(items: seq<string>) { forall i :: i in items ==> i != "" }

  /** The items of a stored list; a list with an empty item is malformed. */
  function ListItems(s: string): Option<seq<string>> {
    if NoneEmpty(Split(s, ',')) then Some(Split(s, ',')) else None
  }

  predicate IsStorable(items: seq<string>) {
    items != [] && NoneEmpty(items) && forall i :: i in items ==> Free(i, ',')
  }

  /** A list survives being stored exactly when it has items, none empty and none with a comma. */
  lemma ListsSurvive(items: seq<string>)
    ensures ListItems(Join(items, ',')) == Some(items) <==> IsStorable(items)
  {
    SplitJoin(items, ',');
  }

  method SplitItems(value: string) returns (r: Option<seq<string>>)
    ensures r == ListItems(value)
  {
    hide Split, PieceEnd;
    var start := 0;
    var found: seq<string> := [];
    assert value[0..] == value;
    while true
      invariant start <= |value| && NoneEmpty(found)
      invariant Split(value, ',') == found + Split(value[start..], ',')
      decreases |value| - start
    {
      var end := FindSeparator(value, ',', start);
      SplitAtPiece(value[start..], ',');
      var item := value[start..end];
      assert value[start..][..end - start] == item;
      assert end < |value| ==> value[start..][end - start + 1..] == value[end + 1..];
      assert item in Split(value, ',');
      if item == "" {
        return None;
      }
      found := found + [item];
      if end == |value| {
        assert Split(value, ',') == found;
        return Some(found);
      }
      start := end + 1;
    }
  }

  // --------------------------------------------------------------------- rows

  function MountFields(m: Mount, visible: nat, backing: nat): seq<Field> {
    [Field(1, ActionCode(m.action)), Field(1, 0), Field(2, m.depth), Field(2, m.flags), Field(2, 0),
     Field(4, visible), Field(4, backing)]
  }

  function ActionOf(code: nat): MountAction {
    if code == 0 then Deny else if code == 1 then Redirect else if code == 2 then Restore else IsolateRoot
  }

  function MountOf(row: string, strings: string): Option<Mount>
    requires |row| == RULE_SIZE
  {
    if Read(row, 1, 1) != 0 || Read(row, 6, 2) != 0 || Read(row, 0, 1) > 3 then None
    else
      var visible, backing := StringAt(strings, Read(row, 8, 4)), StringAt(strings, Read(row, 12, 4));
      if visible.None? || backing.None? then None
      else Some(Mount(ActionOf(Read(row, 0, 1)), visible.value, backing.value, Read(row, 2, 2), Read(row, 4, 2)))
  }

  function EventOf(row: string, strings: string): Option<Event>
    requires |row| == RULE_SIZE
  {
    if Read(row, 1, 1) != 0 || Read(row, 2, 2) != 0 || Read(row, 0, 1) > 1 then None
    else
      var source, target := StringAt(strings, Read(row, 4, 4)), StringAt(strings, Read(row, 8, 4));
      if source.None? || target.None? then None
      else Some(Event(if Read(row, 0, 1) == 0 then Observe else Export, source.value, target.value, Read(row, 12, 4)))
  }

  /** A row of the package table with its strings read. */
  datatype Entry = Entry(
    hash: nat, package: string, users: seq<string>, processes: seq<string>, firstMount: nat, mountCount: nat,
    firstEvent: nat, eventCount: nat, generation: nat, media: bool, provider: bool)

  function EntryOf(row: string, strings: string): Option<Entry>
    requires |row| == PACKAGE_SIZE
  {
    var package, users, processes :=
      StringAt(strings, Read(row, 4, 4)), StringAt(strings, Read(row, 8, 4)), StringAt(strings, Read(row, 12, 4));
    if package.None? || users.None? || processes.None? then None
    else if ListItems(users.value).None? || ListItems(processes.value).None? then None
    else if Read(row, 40, 1) != 0 || Read(row, 41, 1) > 1 || Read(row, 42, 1) > 1 then None
    else if Read(row, 43, 1) != 0 || Read(row, 44, 4) != 0 then None
    else
      Some(Entry(
        Read(row, 0, 4), package.value, ListItems(users.value).value, ListItems(processes.value).value,
        Read(row, 16, 4), Read(row, 20, 4), Read(row, 24, 4), Read(row, 28, 4), Read(row, 32, 8),
        Read(row, 41, 1) == 1, Read(row, 42, 1) == 1))
  }

  function EntryFields(e: Entry, package: nat, users: nat, processes: nat): seq<Field> {
    [Field(4, e.hash), Field(4, package), Field(4, users), Field(4, processes),
     Field(4, e.firstMount), Field(4, e.mountCount), Field(4, e.firstEvent), Field(4, e.eventCount),
     Field(8, e.generation), Field(1, 0), Field(1, Flag(e.media)), Field(1, Flag(e.provider)), Field(1, 0), Field(4, 0)]
  }

  // ------------------------------------------------------------ rows read back

  predicate MountInRange(m: Mount) { m.depth < 0x1_0000 && m.flags < 0x1_0000 && NulFree(m.visible) && NulFree(m.backing) }

  /** A row written for a mount whose strings the table holds. */
  ghost predicate IsMountRow(row: string, strings: string, m: Mount) {
    exists visible: nat, backing: nat :: MountRowAt(row, strings, m, visible, backing)
  }

  predicate MountRowAt(row: string, strings: string, m: Mount, visible: nat, backing: nat) {
    row == Pack(MountFields(m, visible, backing)) && Holds(strings, visible, m.visible) && Holds(strings, backing, m.backing)
  }

  lemma MountRowReads(row: string, strings: string, m: Mount)
    requires IsMountRow(row, strings, m) && MountInRange(m) && |strings| <= UINT32_MAX
    ensures |row| == RULE_SIZE && MountOf(row, strings) == Some(m)
  {
    var visible: nat, backing: nat :| MountRowAt(row, strings, m, visible, backing);
    var f := MountFields(m, visible, backing);
    MountOffsets(f);
    Widths();
    HeldIsRead(strings, visible, m.visible);
    HeldIsRead(strings, backing, m.backing);
    hide Pack, At, Read, StringAt, Pow256;
    PackedSize(f);
    FieldReads(f, 0);
    FieldReads(f, 1);
    FieldReads(f, 2);
    FieldReads(f, 3);
    FieldReads(f, 4);
    FieldReads(f, 5);
    FieldReads(f, 6);
  }

  lemma MountOffsets(f: seq<Field>)
    requires |f| == 7 && f[0].width == f[1].width == 1 && f[2].width == f[3].width == f[4].width == 2
    requires f[5].width == f[6].width == 4
    ensures At(f, 0) == 0 && At(f, 1) == 1 && At(f, 2) == 2 && At(f, 3) == 4 && At(f, 4) == 6
    ensures At(f, 5) == 8 && At(f, 6) == 12 && At(f, 7) == RULE_SIZE
  {
    assert At(f, 1) == 1;
    assert At(f, 3) == 4;
    assert At(f, 5) == 8;
  }

  predicate EntryInRange(e: Entry) {
    && e.hash < 0x1_0000_0000 && e.firstMount <= UINT32_MAX && e.mountCount <= UINT32_MAX
    && e.firstEvent <= UINT32_MAX && e.eventCount <= UINT32_MAX && e.generation < 0x1_0000_0000_0000_0000
    && NulFree(e.package) && NulFree(Join(e.users, ',')) && NulFree(Join(e.processes, ','))
    && IsStorable(e.users) && IsStorable(e.processes)
  }

  /** A row written for an entry whose strings the table holds. */
  ghost predicate IsEntryRow(row: string, strings: string, e: Entry) {
    exists package: nat, users: nat, processes: nat :: EntryRowAt(row, strings, e, package, users, processes)
  }

  predicate EntryRowAt(row: string, strings: string, e: Entry, package: nat, users: nat, processes: nat) {
    && row == Pack(EntryFields(e, package, users, processes)) && Holds(strings, package, e.package)
    && Holds(strings, users, Join(e.users, ',')) && Holds(strings, processes, Join(e.processes, ','))
  }

  lemma EntryStringsRead(row: string, strings: string, e: Entry, package: nat, users: nat, processes: nat)
    requires EntryRowAt(row, strings, e, package, users, processes) && EntryInRange(e) && |strings| <= UINT32_MAX
    ensures |row| == PACKAGE_SIZE && Read(row, 0, 4) == e.hash
    ensures StringAt(strings, Read(row, 4, 4)) == Some(e.package)
    ensures StringAt(strings, Read(row, 8, 4)) == Some(Join(e.users, ','))
    ensures StringAt(strings, Read(row, 12, 4)) == Some(Join(e.processes, ','))
  {
    var f := EntryFields(e, package, users, processes);
    EntryOffsets(f);
    Widths();
    HeldIsRead(strings, package, e.package);
    HeldIsRead(strings, users, Join(e.users, ','));
    HeldIsRead(strings, processes, Join(e.processes, ','));
    hide Pack, At, Read, StringAt, Pow256, Join, IsStorable, NulFree;
    PackedSize(f);
    FieldReads(f, 0);
    FieldReads(f, 1);
    FieldReads(f, 2);
    FieldReads(f, 3);
  }

  lemma EntryRangesRead(row: string, strings: string, e: Entry, package: nat, users: nat, processes: nat)
    requires EntryRowAt(row, strings, e, package, users, processes) && EntryInRange(e)
    ensures |row| == PACKAGE_SIZE && Read(row, 16, 4) == e.firstMount && Read(row, 20, 4) == e.mountCount
    ensures Read(row, 24, 4) == e.firstEvent && Read(row, 28, 4) == e.eventCount && Read(row, 32, 8) == e.generation
  {
    hide Pack, Read, Pow256, Join, IsStorable, NulFree, Holds;
    var f := EntryFields(e, package, users, processes);
    EntryOffsets(f);
    Widths();
    PackedSize(f);
    FieldReads(f, 4);
    FieldReads(f, 5);
    FieldReads(f, 6);
    FieldReads(f, 7);
    FieldReads(f, 8);
  }

  lemma EntryFlagsRead(row: string, strings: string, e: Entry, package: nat, users: nat, processes: nat)
    requires EntryRowAt(row, strings, e, package, users, processes)
    ensures |row| == PACKAGE_SIZE && Read(row, 40, 1) == 0 && Read(row, 41, 1) == Flag(e.media)
    ensures Read(row, 42, 1) == Flag(e.provider) && Read(row, 43, 1) == 0 && Read(row, 44, 4) == 0
  {
    hide Pack, Read, Pow256, Join, Holds;
    var f := EntryFields(e, package, users, processes);
    EntryOffsets(f);
    Widths();
    PackedSize(f);
    FieldReads(f, 9);
    FieldReads(f, 10);
    FieldReads(f, 11);
    FieldReads(f, 12);
    FieldReads(f, 13);
  }

  lemma EntryRowReads(row: string, strings: string, e: Entry)
    requires IsEntryRow(row, strings, e) && EntryInRange(e) && |strings| <= UINT32_MAX
    ensures |row| == PACKAGE_SIZE && EntryOf(row, strings) == Some(e)
  {
    var package: nat, users: nat, processes: nat :| EntryRowAt(row, strings, e, package, users, processes);
    ListsSurvive(e.users);
    ListsSurvive(e.processes);
    hide Pack, Read, StringAt, Join, ListItems, IsStorable, NulFree, EntryRowAt, EntryFields;
    EntryStringsRead(row, strings, e, package, users, processes);
    EntryRangesRead(row, strings, e, package, users, processes);
    EntryFlagsRead(row, strings, e, package, users, processes);
  }

  lemma EntryOffsets(f: seq<Field>)
    requires |f| == 14 && (forall i :: 0 <= i < 8 ==> f[i].width == 4) && f[8].width == 8
    requires f[9].width == f[10].width == f[11].width == f[12].width == 1 && f[13].width == 4
    ensures At(f, 0) == 0 && At(f, 1) == 4 && At(f, 2) == 8 && At(f, 3) == 12 && At(f, 4) == 16
    ensures At(f, 5) == 20 && At(f, 6) == 24 && At(f, 7) == 28 && At(f, 8) == 32 && At(f, 9) == 40
    ensures At(f, 10) == 41 && At(f, 11) == 42 && At(f, 12) == 43 && At(f, 13) == 44 && At(f, 14) == PACKAGE_SIZE
  {
    assert At(f, 1) == 4;
    assert At(f, 3) == 12;
    assert At(f, 5) == 20;
    assert At(f, 7) == 28;
    assert At(f, 9) == 40;
    assert At(f, 11) == 42;
    assert At(f, 13) == 44;
  }

  /** Rows stay what they are while the string table grows. */
  lemma MountRowStays(row: string, strings: string, more: string, m: Mount)
    requires IsMountRow(row, strings, m) && strings <= more
    ensures IsMountRow(row, more, m)
  {
    var visible: nat, backing: nat :| MountRowAt(row, strings, m, visible, backing);
    HeldStays(strings, more, visible, m.visible);
    HeldStays(strings, more, backing, m.backing);
    assert MountRowAt(row, more, m, visible, backing);
  }

  lemma EntryRowStays(row: string, strings: string, more: string, e: Entry)
    requires IsEntryRow(row, strings, e) && strings <= more
    ensures IsEntryRow(row, more, e)
  {
    var package: nat, users: nat, processes: nat :| EntryRowAt(row, strings, e, package, users, processes);
    HeldStays(strings, more, package, e.package);
    HeldStays(strings, more, users, Join(e.users, ','));
    HeldStays(strings, more, processes, Join(e.processes, ','));
    assert EntryRowAt(row, more, e, package, users, processes);
  }
}
