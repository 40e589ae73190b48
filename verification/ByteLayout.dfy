/** Little-endian numbers and fixed-width records, as core/src/binary.cpp writes and reads them.
    A byte is written as the character with that code. */
module ByteLayout {
  import opened Wrappers

  const UINT32_MAX: nat := 0xFFFF_FFFF

  function Pow256(n: nat): nat { if n == 0 then 1 else 256 * Pow256(n - 1) }

  function Octet(c: char): nat { (c as int) % 256 }

  /** The `n` low bytes of a number, the lowest first. */
  function Le(v: nat, n: nat): (s: string)
    ensures |s| == n
  {
    if n == 0 then "" else [(v % 256) as char] + Le(v / 256, n - 1)
  }

  function Number(s: string): nat { if s == "" then 0 else Octet(s[0]) + 256 * Number(s[1..]) }

  lemma {:induction false} LeReadsBack(v: nat, n: nat)
    requires v < Pow256(n)
    ensures Number(Le(v, n)) == v
    decreases n
  {
    if n > 0 {
      assert v / 256 < Pow256(n - 1);
      LeReadsBack(v / 256, n - 1);
      assert Octet((v % 256) as char) == v % 256;
    }
  }

  lemma {:induction false} NumberFits(s: string)
    ensures Number(s) < Pow256(|s|)
  {
    if s != "" {
      NumberFits(s[1..]);
    }
  }

  lemma Widths()
    ensures Pow256(1) == 0x100 && Pow256(2) == 0x1_0000 && Pow256(4) == 0x1_0000_0000
    ensures Pow256(8) == 0x1_0000_0000_0000_0000
  {
    assert Pow256(0) == 1;
    assert Pow256(3) == 256 * Pow256(2);
    assert Pow256(5) == 256 * Pow256(4);
    assert Pow256(6) == 256 * Pow256(5);
    assert Pow256(7) == 256 * Pow256(6);
  }

  function Read(s: string, at: nat, n: nat): nat
    requires at + n <= |s|
  {
    Number(s[at..at + n])
  }

  // ------------------------------------------------------------------ records

  datatype Field = Field(width: nat, value: nat)

  function Pack(fields: seq<Field>): string {
    if fields == [] then "" else Le(fields[0].value, fields[0].width) + Pack(fields[1..])
  }

  /** Where the k-th field begins. */
  function At(fields: seq<Field>, k: nat): nat
    requires k <= |fields|
  {
    if k == 0 then 0 else At(fields, k - 1) + fields[k - 1].width
  }

  lemma {:induction false} AtTail(fields: seq<Field>, k: nat)
    requires 0 < k <= |fields|
    ensures At(fields, k) == fields[0].width + At(fields[1..], k - 1)
  {
    if k > 1 {
      AtTail(fields, k - 1);
      assert fields[1..][k - 2] == fields[k - 1];
    }
  }

  lemma {:induction false} PackedSize(fields: seq<Field>)
    ensures |Pack(fields)| == At(fields, |fields|)
  {
    if fields != [] {
      PackedSize(fields[1..]);
      AtTail(fields, |fields|);
    }
  }

  lemma {:induction false} AtGrows(fields: seq<Field>, i: nat, j: nat)
    requires i <= j <= |fields|
    ensures At(fields, i) <= At(fields, j)
  {
    if i < j {
      AtGrows(fields, i, j - 1);
    }
  }

  /** Each field of a record is read back from its place. */
  lemma {:induction false} FieldReads(fields: seq<Field>, k: nat)
    requires k < |fields| && fields[k].value < Pow256(fields[k].width)
    ensures At(fields, k) + fields[k].width <= |Pack(fields)|
    ensures Read(Pack(fields), At(fields, k), fields[k].width) == fields[k].value
  {
    hide Number, Le;
    PackedSize(fields);
    AtGrows(fields, k + 1, |fields|);
    var head, tail := Le(fields[0].value, fields[0].width), fields[1..];
    if k == 0 {
      assert Pack(fields)[..|head|] == head;
      LeReadsBack(fields[0].value, fields[0].width);
    } else {
      FieldReads(tail, k - 1);
      AtTail(fields, k);
      PackedSize(tail);
      SliceOfTail(head, Pack(tail), At(tail, k - 1), fields[k].width);
    }
  }

  lemma SliceOfTail(a: string, b: string, at: nat, n: nat)
    requires at + n <= |b|
    ensures (a + b)[|a| + at..|a| + at + n] == b[at..at + n]
  {
  }

  // ------------------------------------------------------------------ strings

  /** What stands before the first NUL, if there is one. */
  function Terminated(s: string): Option<string> {
    if s == "" then None
    else if s[0] == '\0' then Some("")
    else
      var rest := Terminated(s[1..]);
      if rest.None? then None else Some([s[0]] + rest.value)
  }

  function StringAt(strings: string, offset: nat): Option<string> {
    if offset >= |strings| then None else Terminated(strings[offset..])
  }

  predicate NulFree(s: string) { forall c :: c in s ==> c != '\0' }

  /** `s` and its terminator stand at `offset`. */
  predicate Holds(strings: string, offset: nat, s: string) {
    offset + |s| < |strings| && strings[offset..offset + |s|] == s && strings[offset + |s|] == '\0'
  }

  lemma {:induction false} TerminatedIs(s: string, rest: string)
    requires NulFree(s)
    ensures Terminated(s + ['\0'] + rest) == Some(s)
  {
    var t := s + ['\0'] + rest;
    if s != "" {
      assert t[0] == s[0] && s[0] in s;
      assert t[1..] == s[1..] + ['\0'] + rest;
      assert forall c :: c in s[1..] ==> c in s;
      TerminatedIs(s[1..], rest);
      assert s == [s[0]] + s[1..];
    }
  }

  lemma HeldIsRead(strings: string, offset: nat, s: string)
    requires Holds(strings, offset, s) && NulFree(s)
    ensures StringAt(strings, offset) == Some(s)
  {
    var rest := strings[offset + |s| + 1..];
    assert strings[offset..] == s + ['\0'] + rest;
    TerminatedIs(s, rest);
  }

  lemma HeldStays(strings: string, more: string, offset: nat, s: string)
    requires Holds(strings, offset, s) && strings <= more
    ensures Holds(more, offset, s)
  {
    assert more[offset..offset + |s|] == strings[offset..offset + |s|];
  }

  lemma {:induction false} TerminatedIsNulFree(s: string)
    requires Terminated(s).Some?
    ensures NulFree(Terminated(s).value) && Holds(s, 0, Terminated(s).value)
  {
    if s[0] != '\0' {
      TerminatedIsNulFree(s[1..]);
      var r := Terminated(s[1..]).value;
      assert s[..|r| + 1] == [s[0]] + s[1..][..|r|];
      assert s[|r| + 1] == s[1..][|r|];
    }
  }

  /** The interned strings of a policy file: where each stands, and all of them. */
  datatype Strings = Strings(offsets: map<string, nat>, bytes: string) {
    ghost predicate Valid() { forall s :: s in offsets ==> Holds(bytes, offsets[s], s) }
  }

  const NO_STRINGS := Strings(map["" := 0], "\0")

  /** Every string is stored once; what was stored stays where it is. */
  function Interned(t: Strings, value: string): (r: Strings)
    ensures value in r.offsets
  {
    if value in t.offsets then t
    else Strings(t.offsets[value := |t.bytes|], t.bytes + value + ['\0'])
  }

  lemma InternedHolds(t: Strings, value: string)
    requires t.Valid()
    ensures var r := Interned(t, value);
      r.Valid() && t.bytes <= r.bytes && Holds(r.bytes, r.offsets[value], value)
  {
    var r := Interned(t, value);
    if value !in t.offsets {
      var at := |t.bytes|;
      assert r.bytes[at..at + |value|] == value;
      forall s | s in r.offsets ensures Holds(r.bytes, r.offsets[s], s) {
        if s != value {
          HeldStays(t.bytes, r.bytes, t.offsets[s], s);
        }
      }
    }
  }

  class StringTable {
    var offsets: map<string, nat>
    var bytes: string

    ghost function Value(): Strings
      reads this
    {
      Strings(offsets, bytes)
    }

    constructor ()
      ensures Value() == NO_STRINGS
    {
      offsets, bytes := map["" := 0], "\0";
    }

    method Add(value: string) returns (offset: nat)
      modifies this
      ensures Value() == Interned(old(Value()), value) && offset == Value().offsets[value]
    {
      if value in offsets {
        return offsets[value];
      }
      offset := |bytes|;
      offsets := offsets[value := offset];
      bytes := bytes + value + ['\0'];
    }
  }
}
