/** Bytes as numbers and as bit vectors. */
module OctetBits {

  /** The bit vector with the given bits, the lowest first. */
  function Make(p0: bool, p1: bool, p2: bool, p3: bool, p4: bool, p5: bool, p6: bool, p7: bool): bv8 {
    (if p0 then 0x01 else 0) | (if p1 then 0x02 else 0) | (if p2 then 0x04 else 0) | (if p3 then 0x08 else 0)
    | (if p4 then 0x10 else 0) | (if p5 then 0x20 else 0) | (if p6 then 0x40 else 0) | (if p7 then 0x80 else 0)
  }

  function Sum(p0: bool, p1: bool, p2: bool, p3: bool, p4: bool, p5: bool, p6: bool, p7: bool): nat {
    Bit(p0) + 2 * Bit(p1) + 4 * Bit(p2) + 8 * Bit(p3) + 16 * Bit(p4) + 32 * Bit(p5) + 64 * Bit(p6) + 128 * Bit(p7)
  }

  function Bit(p: bool): nat { if p then 1 else 0 }

  predicate Odd(x: nat) { x % 2 == 1 }

  function ToBits(x: nat): bv8 {
    var h1 := x / 2;
    var h2 := h1 / 2;
    var h3 := h2 / 2;
    var h4 := h3 / 2;
    var h5 := h4 / 2;
    var h6 := h5 / 2;
    var h7 := h6 / 2;
    Make(Odd(x), Odd(h1), Odd(h2), Odd(h3), Odd(h4), Odd(h5), Odd(h6), Odd(h7))
  }

  function FromBits(b: bv8): nat {
    Sum(b & 0x01 != 0, b & 0x02 != 0, b & 0x04 != 0, b & 0x08 != 0,
        b & 0x10 != 0, b & 0x20 != 0, b & 0x40 != 0, b & 0x80 != 0)
  }

  lemma MadeOf(p0: bool, p1: bool, p2: bool, p3: bool, p4: bool, p5: bool, p6: bool, p7: bool)
    ensures FromBits(Make(p0, p1, p2, p3, p4, p5, p6, p7)) == Sum(p0, p1, p2, p3, p4, p5, p6, p7)
  {
  }

  lemma SumsUp(x: nat, h1: nat, h2: nat, h3: nat, h4: nat, h5: nat, h6: nat, h7: nat)
    requires x < 256 && h1 == x / 2 && h2 == h1 / 2 && h3 == h2 / 2 && h4 == h3 / 2 && h5 == h4 / 2
    requires h6 == h5 / 2 && h7 == h6 / 2
    ensures Sum(Odd(x), Odd(h1), Odd(h2), Odd(h3), Odd(h4), Odd(h5), Odd(h6), Odd(h7)) == x
  {
    hide Bit, Odd;
    Halves(x);
    Halves(h1);
    Halves(h2);
    Halves(h3);
    Halves(h4);
    Halves(h5);
    Halves(h6);
    Halves(h7);
    assert h7 / 2 == 0;
  }

  lemma Halves(x: nat)
    ensures x == 2 * (x / 2) + Bit(Odd(x))
  {
  }

  lemma BitsReadBack(x: nat)
    requires x < 256
    ensures FromBits(ToBits(x)) == x
  {
    hide Make, FromBits, Sum, Odd;
    var h1 := x / 2;
    var h2 := h1 / 2;
    var h3 := h2 / 2;
    var h4 := h3 / 2;
    var h5 := h4 / 2;
    var h6 := h5 / 2;
    var h7 := h6 / 2;
    MadeOf(Odd(x), Odd(h1), Odd(h2), Odd(h3), Odd(h4), Odd(h5), Odd(h6), Odd(h7));
    SumsUp(x, h1, h2, h3, h4, h5, h6, h7);
  }

  function FromWord(w: bv32): (n: nat)
    ensures n < 0x1_0000_0000
  {
    w as nat
  }

  function ToWord(n: nat): bv32
    requires n < 0x1_0000_0000
  {
    n as bv32
  }

  lemma WordReadsBack(w: bv32)
    ensures ToWord(FromWord(w)) == w
  {
  }
}
