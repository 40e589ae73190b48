/** DecodePolicy of core/src/binary.cpp: which byte strings are policy files, and what they say. */
module PolicyDecoder {
  import opened Wrappers
  import opened PathOrder
  import opened ByteLayout
  import opened Validation
  import opened PolicyFormat

  datatype Document = Document(legacy: bool, apps: seq<App>, generation: nat)

  /** The four tables of a file. */
  datatype Tables = Tables(packages: string, mounts: string, events: string, strings: string, legacy: bool)

  // ------------------------------------------------------------------- header

  function MountTable(bytes: string): nat
    requires |bytes| >= HEADER_SIZE
  {
    56 + 48 * Read(bytes, 24, 4)
  }

  function EventTable(bytes: string): nat
    requires |bytes| >= HEADER_SIZE
  {
    MountTable(bytes) + 16 * Read(bytes, 28, 4)
  }

  function StringTableAt(bytes: string): nat
    requires |bytes| >= HEADER_SIZE
  {
    EventTable(bytes) + 16 * Read(bytes, 32, 4)
  }

  predicate HeaderFits(bytes: string) {
    && |bytes| >= HEADER_SIZE
    && Read(bytes, 0, 4) == MAGIC && Read(bytes, 4, 2) == FORMAT_VERSION && Read(bytes, 6, 2) == SCHEMA_VERSION
    && Read(bytes, 8, 4) == |bytes| && Read(bytes, 24, 4) > 0
    && Read(bytes, 36, 4) == HEADER_SIZE && Read(bytes, 40, 4) == MountTable(bytes)
    && Read(bytes, 44, 4) == EventTable(bytes) && Read(bytes, 48, 4) == StringTableAt(bytes)
    && StringTableAt(bytes) < |bytes| && Read(bytes, 52, 4) <= 1
    && PayloadChecksum(bytes[56..]) == Read(bytes, 12, 4)
  }

  function TablesOf(bytes: string): (t: Tables)
    requires HeaderFits(bytes)
    ensures |t.packages| == 48 * Read(bytes, 24, 4) && |t.mounts| == 16 * Read(bytes, 28, 4)
    ensures |t.events| == 16 * Read(bytes, 32, 4)
  {
    Tables(bytes[56..MountTable(bytes)], bytes[MountTable(bytes)..EventTable(bytes)],
           bytes[EventTable(bytes)..StringTableAt(bytes)], bytes[StringTableAt(bytes)..], Read(bytes, 52, 4) == 1)
  }

  // --------------------------------------------------------------------- rules

  function MountRow(t: Tables, i: nat): (row: string)
    requires 16 * (i + 1) <= |t.mounts|
    ensures |row| == RULE_SIZE
  {
    t.mounts[16 * i..16 * i + 16]
  }

  function EventRow(t: Tables, i: nat): (row: string)
    requires 16 * (i + 1) <= |t.events|
    ensures |row| == RULE_SIZE
  {
    t.events[16 * i..16 * i + 16]
  }

  function PackageRow(t: Tables, i: nat): (row: string)
    requires 48 * (i + 1) <= |t.packages|
    ensures |row| == PACKAGE_SIZE
  {
    t.packages[48 * i..48 * i + 48]
  }

  function MountsAt(t: Tables, first: nat, count: nat): Option<seq<Mount>>
    requires 16 * (first + count) <= |t.mounts|
    decreases count
  {
    if count == 0 then Some([])
    else
      var init, m := MountsAt(t, first, count - 1), MountOf(MountRow(t, first + count - 1), t.strings);
      if init.Some? && m.Some? then Some(init.value + [m.value]) else None
  }

  function EventsAt(t: Tables, first: nat, count: nat): Option<seq<Event>>
    requires 16 * (first + count) <= |t.events|
    decreases count
  {
    if count == 0 then Some([])
    else
      var init, e := EventsAt(t, first, count - 1), EventOf(EventRow(t, first + count - 1), t.strings);
      if init.Some? && e.Some? then Some(init.value + [e.value]) else None
  }

  // ------------------------------------------------------------------ packages

  /** Packages are in order of hash, and of name where hashes are equal. */
  predicate Precedes(a: string, b: string) {
    PackageHash(a) < PackageHash(b) || (PackageHash(a) == PackageHash(b) && Less(a, b))
  }

  /** The packages read so far and the rules they have used up. */
  datatype Progress = Progress(apps: seq<App>, mounts: nat, events: nat) {
    predicate Within(t: Tables) { 16 * mounts <= |t.mounts| && 16 * events <= |t.events| }
    predicate Admits(package: string) { apps == [] || Precedes(apps[|apps| - 1].package, package) }
  }

  function AppOf(e: Entry, ms: seq<Mount>, es: seq<Event>): App {
    App(e.package, e.media, e.provider, e.users, e.processes, ms, es)
  }

  /** Its rules begin where those before it end, and are there. */
  predicate RangesFit(t: Tables, p: Progress, e: Entry) {
    && e.firstMount == p.mounts && 16 * (p.mounts + e.mountCount) <= |t.mounts|
    && e.firstEvent == p.events && 16 * (p.events + e.eventCount) <= |t.events|
  }

  /** A plan that was stored in its canonical form. */
  function CanonicalApp(raw: App, generation: nat, legacy: bool): Option<App> {
    var a := Validated(raw);
    if a.None? || a.value.mounts != raw.mounts || a.value.events != raw.events then None
    else if PlanGeneration(a.value, legacy) != generation then None
    else a
  }

  function Advance(t: Tables, p: Progress, row: string): (r: Option<Progress>)
    requires |row| == PACKAGE_SIZE && p.Within(t)
    ensures r.Some? ==> r.value.Within(t)
  {
    var e := EntryOf(row, t.strings);
    if e.None? || e.value.hash != PackageHash(e.value.package) || !p.Admits(e.value.package) then None
    else if !RangesFit(t, p, e.value) then None
    else
      var ms, es := MountsAt(t, p.mounts, e.value.mountCount), EventsAt(t, p.events, e.value.eventCount);
      if ms.None? || es.None? then None
      else
        var a := CanonicalApp(AppOf(e.value, ms.value, es.value), e.value.generation, t.legacy);
        if a.None? then None
        else Some(Progress(p.apps + [a.value], p.mounts + e.value.mountCount, p.events + e.value.eventCount))
  }

  function AppsUpTo(t: Tables, n: nat): (r: Option<Progress>)
    requires 48 * n <= |t.packages|
    ensures r.Some? ==> r.value.Within(t)
    decreases n
  {
    if n == 0 then Some(Progress([], 0, 0))
    else
      var p := AppsUpTo(t, n - 1);
      if p.None? then None else Advance(t, p.value, PackageRow(t, n - 1))
  }

  function Decoded(bytes: string): Option<Document> {
    if !HeaderFits(bytes) then None
    else
      var t := TablesOf(bytes);
      var p := AppsUpTo(t, Read(bytes, 24, 4));
      if p.None? || 16 * p.value.mounts != |t.mounts| || 16 * p.value.events != |t.events| then None
      else if ContentGeneration(p.value.apps, t.legacy) != Read(bytes, 16, 8) then None
      else Some(Document(t.legacy, p.value.apps, Read(bytes, 16, 8)))
  }

  // --------------------------------------------------------------- the decoder

  method ReadMounts(t: Tables, first: nat, count: nat) returns (r: Option<seq<Mount>>)
    requires 16 * (first + count) <= |t.mounts|
    ensures r == MountsAt(t, first, count)
  {
    hide MountOf;
    var found: seq<Mount> := [];
    for i := 0 to count
      invariant MountsAt(t, first, i) == Some(found)
    {
      var m := MountOf(MountRow(t, first + i), t.strings);
      if m.None? {
        MountsFail(t, first, i + 1, count);
        return None;
      }
      found := found + [m.value];
    }
    return Some(found);
  }

  lemma {:induction false} MountsFail(t: Tables, first: nat, i: nat, count: nat)
    requires 16 * (first + count) <= |t.mounts| && i <= count && MountsAt(t, first, i).None?
    ensures MountsAt(t, first, count).None?
    decreases count
  {
    hide MountOf;
    if i < count {
      MountsFail(t, first, i, count - 1);
    }
  }

  method ReadEvents(t: Tables, first: nat, count: nat) returns (r: Option<seq<Event>>)
    requires 16 * (first + count) <= |t.events|
    ensures r == EventsAt(t, first, count)
  {
    hide EventOf;
    var found: seq<Event> := [];
    for i := 0 to count
      invariant EventsAt(t, first, i) == Some(found)
    {
      var e := EventOf(EventRow(t, first + i), t.strings);
      if e.None? {
        EventsFail(t, first, i + 1, count);
        return None;
      }
      found := found + [e.value];
    }
    return Some(found);
  }

  lemma {:induction false} EventsFail(t: Tables, first: nat, i: nat, count: nat)
    requires 16 * (first + count) <= |t.events| && i <= count && EventsAt(t, first, i).None?
    ensures EventsAt(t, first, count).None?
    decreases count
  {
    hide EventOf;
    if i < count {
      EventsFail(t, first, i, count - 1);
    }
  }

  method ReadPackage(t: Tables, p: Progress, row: string) returns (r: Option<Progress>)
    requires |row| == PACKAGE_SIZE && p.Within(t)
    ensures r == Advance(t, p, row)
  {
    hide EntryOf, Validated, PlanGeneration, MountsAt, EventsAt, Precedes;
    var entry := EntryOf(row, t.strings);
    if entry.None? || entry.value.hash != PackageHash(entry.value.package) || !p.Admits(entry.value.package) {
      return None;
    }
    var e := entry.value;
    if !RangesFit(t, p, e) {
      return None;
    }
    var mounts := ReadMounts(t, p.mounts, e.mountCount);
    if mounts.None? {
      return None;
    }
    var events := ReadEvents(t, p.events, e.eventCount);
    if events.None? {
      return None;
    }
    var app := ValidatePolicy(AppOf(e, mounts.value, events.value));
    if app.None? || app.value.mounts != mounts.value || app.value.events != events.value
       || PlanGeneration(app.value, t.legacy) != e.generation {
      return None;
    }
    return Some(Progress(p.apps + [app.value], p.mounts + e.mountCount, p.events + e.eventCount));
  }

  lemma {:induction false} PackagesFail(t: Tables, i: nat, n: nat)
    requires 48 * n <= |t.packages| && i <= n && AppsUpTo(t, i).None?
    ensures AppsUpTo(t, n).None?
    decreases n
  {
    hide Advance;
    if i < n {
      PackagesFail(t, i, n - 1);
    }
  }

  method DecodePolicy(bytes: string) returns (r: Option<Document>)
    ensures r == Decoded(bytes)
  {
    hide Advance, ContentGeneration, PayloadChecksum, Read;
    if !HeaderFits(bytes) {
      return None;
    }
    var t := TablesOf(bytes);
    var count := Read(bytes, 24, 4);
    var p := Progress([], 0, 0);
    for i := 0 to count
      invariant AppsUpTo(t, i) == Some(p)
    {
      var next := ReadPackage(t, p, PackageRow(t, i));
      if next.None? {
        PackagesFail(t, i + 1, count);
        return None;
      }
      p := next.value;
    }
    if 16 * p.mounts != |t.mounts| || 16 * p.events != |t.events| {
      return None;
    }
    var generation := Read(bytes, 16, 8);
    if ContentGeneration(p.apps, t.legacy) != generation {
      return None;
    }
    return Some(Document(t.legacy, p.apps, generation));
  }
}
