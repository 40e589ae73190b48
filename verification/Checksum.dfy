/** Crc32 of core/include/pathguard/policy_format.h, the CRC of section 8 of RFC 1952, and the
    corruptions it always detects. */
module Checksum {

  const INITIAL: bv32 := 0xffff_ffff
  const XOR_OUT: bv32 := 0xffff_ffff
  const POLYNOMIAL: bv32 := 0xedb8_8320

  /** One bit of the division. */
  function Step(crc: bv32): bv32 {
    var mask := 0 - (crc & 1);
    (crc >> 1) ^ (POLYNOMIAL & mask)
  }

  function Steps(crc: bv32, n: nat): bv32 { if n == 0 then crc else Step(Steps(crc, n - 1)) }

  function Mix(a: bv32, b: bv32): bv32 { a ^ b }

  function Widen(x: bv8): bv32 { x as bv32 }

  /** The remainder after one more byte. */
  function Absorb(crc: bv32, x: bv8): bv32 { Steps(Mix(crc, Widen(x)), 8) }

  /** The remainder after further bytes. */
  function Feed(crc: bv32, data: seq<bv8>): bv32
    decreases |data|
  {
    if data == [] then crc else Feed(Absorb(crc, data[0]), data[1..])
  }

  function Crc(data: seq<bv8>): bv32 { Mix(Feed(INITIAL, data), XOR_OUT) }

  method Crc32(data: seq<bv8>) returns (crc: bv32)
    ensures crc == Crc(data)
  {
    crc := INITIAL;
    assert data[0..] == data;
    for index := 0 to |data|
      invariant Feed(crc, data[index..]) == Feed(INITIAL, data)
    {
      ghost var before := Mix(crc, Widen(data[index]));
      crc := crc ^ (data[index] as bv32);
      for bit := 0 to 8
        invariant crc == Steps(before, bit)
      {
        var mask := 0 - (crc & 1);
        crc := (crc >> 1) ^ (POLYNOMIAL & mask);
      }
      assert data[index..][1..] == data[index + 1..];
    }
    return crc ^ XOR_OUT;
  }

  // ------------------------------------------------------------ no information lost

  /** The bit shifted out can be read back from the top bit. */
  lemma StepIsInjective(a: bv32, b: bv32)
    requires Step(a) == Step(b)
    ensures a == b
  {
  }

  lemma {:induction false} StepsAreInjective(a: bv32, b: bv32, n: nat)
    requires Steps(a, n) == Steps(b, n)
    ensures a == b
  {
    hide Step;
    if n > 0 {
      StepIsInjective(Steps(a, n - 1), Steps(b, n - 1));
      StepsAreInjective(a, b, n - 1);
    }
  }

  lemma MixIsInjective(a: bv32, b: bv32, x: bv32)
    ensures Mix(a, x) == Mix(b, x) ==> a == b
    ensures Mix(x, a) == Mix(x, b) ==> a == b
  {
  }

  lemma AbsorbIsInjective(a: bv32, b: bv32, x: bv8)
    requires Absorb(a, x) == Absorb(b, x)
    ensures a == b
  {
    hide Mix, Widen, Steps;
    StepsAreInjective(Mix(a, Widen(x)), Mix(b, Widen(x)), 8);
    MixIsInjective(a, b, Widen(x));
  }

  /** Equal bytes fed to different remainders leave them different. */
  lemma {:induction false} FeedIsInjective(a: bv32, b: bv32, data: seq<bv8>)
    requires Feed(a, data) == Feed(b, data)
    ensures a == b
    decreases |data|
  {
    hide Absorb;
    if data != [] {
      FeedIsInjective(Absorb(a, data[0]), Absorb(b, data[0]), data[1..]);
      AbsorbIsInjective(a, b, data[0]);
    }
  }

  lemma {:induction false} FeedOn(crc: bv32, a: seq<bv8>, b: seq<bv8>)
    ensures Feed(crc, a + b) == Feed(Feed(crc, a), b)
    decreases |a|
  {
    hide Absorb;
    if a == [] {
      assert a + b == b;
    } else {
      assert (a + b)[0] == a[0] && (a + b)[1..] == a[1..] + b;
      FeedOn(Absorb(crc, a[0]), a[1..], b);
    }
  }

  // ------------------------------------------------------------ up to four bytes

  /** `z` moved up by at most eight places. */
  function Up(z: bv32, k: nat): bv32 {
    if k == 0 then z
    else if k == 1 then z << 1
    else if k == 2 then z << 2
    else if k == 3 then z << 3
    else if k == 4 then z << 4
    else if k == 5 then z << 5
    else if k == 6 then z << 6
    else if k == 7 then z << 7
    else z << 8
  }

  /** Up to four bytes as one word, the first in the low bits. */
  function Word(data: seq<bv8>): bv32 { if data == [] then 0 else Mix(Widen(data[0]), Up(Word(data[1..]), 8)) }

  predicate Even(w: bv32) { w & 1 == 0 }

  function Half(w: bv32): bv32 { w >> 1 }

  predicate Short(z: bv32) { z < 0x100_0000 }

  lemma Halves1(z: bv32)
    requires Short(z)
    ensures Even(z << 1) && Half(z << 1) == z
  {
  }

  lemma Halves2(z: bv32)
    requires Short(z)
    ensures Even(z << 2) && Half(z << 2) == z << 1
  {
  }

  lemma Halves3(z: bv32)
    requires Short(z)
    ensures Even(z << 3) && Half(z << 3) == z << 2
  {
  }

  lemma Halves4(z: bv32)
    requires Short(z)
    ensures Even(z << 4) && Half(z << 4) == z << 3
  {
  }

  lemma Halves5(z: bv32)
    requires Short(z)
    ensures Even(z << 5) && Half(z << 5) == z << 4
  {
  }

  lemma Halves6(z: bv32)
    requires Short(z)
    ensures Even(z << 6) && Half(z << 6) == z << 5
  {
  }

  lemma Halves7(z: bv32)
    requires Short(z)
    ensures Even(z << 7) && Half(z << 7) == z << 6
  {
  }

  lemma Halves8(z: bv32)
    requires Short(z)
    ensures Even(z << 8) && Half(z << 8) == z << 7
  {
  }

  /** Moving up by at most eight places can be undone one place at a time. */
  lemma UpHalves(z: bv32, k: nat)
    requires Short(z) && 1 <= k <= 8
    ensures Even(Up(z, k)) && Half(Up(z, k)) == Up(z, k - 1)
  {
    hide Even, Half, Short;
    if k == 1 { Halves1(z); }
    else if k == 2 { Halves2(z); }
    else if k == 3 { Halves3(z); }
    else if k == 4 { Halves4(z); }
    else if k == 5 { Halves5(z); }
    else if k == 6 { Halves6(z); }
    else if k == 7 { Halves7(z); }
    else { Halves8(z); }
  }

  lemma ParityStays(y: bv32, z: bv32)
    requires z & 1 == 0
    ensures (y ^ z) & 1 == y & 1
  {
  }

  lemma ShiftDistributes(y: bv32, z: bv32)
    ensures (y ^ z) >> 1 == (y >> 1) ^ (z >> 1)
  {
  }

  lemma XorSwaps(a: bv32, b: bv32, c: bv32)
    ensures (a ^ b) ^ c == (a ^ c) ^ b
  {
  }

  lemma StepMovesBits(y: bv32, z: bv32)
    requires z & 1 == 0
    ensures Step(y ^ z) == Step(y) ^ (z >> 1)
  {
    ParityStays(y, z);
    ShiftDistributes(y, z);
    var tap := POLYNOMIAL & (0 - (y & 1));
    XorSwaps(y >> 1, z >> 1, tap);
  }

  /** Bits above the lowest pass a step by moving down. */
  lemma StepMovesDown(y: bv32, z: bv32)
    requires Even(z)
    ensures Step(Mix(y, z)) == Mix(Step(y), Half(z))
  {
    hide Step;
    StepMovesBits(y, z);
  }

  /** What further steps leave of bits that stood above the low byte. */
  lemma {:induction false} StepsMoveDown(y: bv32, z: bv32, n: nat)
    requires Short(z) && n <= 8
    ensures Steps(Mix(y, Up(z, 8)), n) == Mix(Steps(y, n), Up(z, 8 - n))
  {
    hide Step, Mix, Up, Even, Half, Short;
    if n > 0 {
      StepsMoveDown(y, z, n - 1);
      UpHalves(z, 9 - n);
      StepMovesDown(Steps(y, n - 1), Up(z, 9 - n));
    }
  }

  function High(w: bv32): bv32 { w >> 8 }

  function Low(w: bv32): bv32 { w & 0xff }

  lemma AppendedBits(x: bv8, z: bv32)
    requires Short(z)
    ensures z < 0x1_0000 ==> Short(Mix(Widen(x), z << 8))
    ensures z < 0x100 ==> Mix(Widen(x), z << 8) < 0x1_0000
    ensures z == 0 ==> Mix(Widen(x), z << 8) < 0x100
    ensures High(Mix(Widen(x), z << 8)) == z && Low(Mix(Widen(x), z << 8)) == Widen(x)
  {
  }

  lemma Appended(x: bv8, z: bv32)
    requires Short(z)
    ensures z < 0x1_0000 ==> Short(Mix(Widen(x), Up(z, 8)))
    ensures z < 0x100 ==> Mix(Widen(x), Up(z, 8)) < 0x1_0000
    ensures z == 0 ==> Mix(Widen(x), Up(z, 8)) < 0x100
    ensures High(Mix(Widen(x), Up(z, 8))) == z && Low(Mix(Widen(x), Up(z, 8))) == Widen(x)
  {
    hide *;
    AppendedBits(x, z);
    UpEight(z);
  }

  lemma UpEight(z: bv32)
    ensures Up(z, 8) == z << 8
  {
  }

  lemma {:induction false} WordIsShort(data: seq<bv8>)
    requires |data| <= 3
    ensures Short(Word(data))
    ensures |data| <= 2 ==> Word(data) < 0x1_0000
    ensures |data| <= 1 ==> Word(data) < 0x100
    ensures |data| == 0 ==> Word(data) == 0
    decreases |data|
  {
    hide Mix, Widen, Up;
    if data != [] {
      WordIsShort(data[1..]);
      Appended(data[0], Word(data[1..]));
    }
  }

  function Rounds(crc: bv32, n: nat): bv32
    decreases n
  {
    if n == 0 then crc else Rounds(Steps(crc, 8), n - 1)
  }

  lemma {:induction false} RoundsAreInjective(a: bv32, b: bv32, n: nat)
    requires Rounds(a, n) == Rounds(b, n)
    ensures a == b
    decreases n
  {
    hide Steps;
    if n > 0 {
      RoundsAreInjective(Steps(a, 8), Steps(b, 8), n - 1);
      StepsAreInjective(a, b, 8);
    }
  }

  lemma MixAssociates(a: bv32, b: bv32, c: bv32)
    ensures Mix(Mix(a, b), c) == Mix(a, Mix(b, c)) && Mix(a, 0) == a
  {
  }

  /** Feeding up to four bytes is feeding their word at once. */
  lemma {:induction false} FeedIsRounds(crc: bv32, data: seq<bv8>)
    requires |data| <= 4
    ensures Feed(crc, data) == Rounds(Mix(crc, Word(data)), |data|)
    decreases |data|
  {
    hide Mix, Widen, Up, Steps, Short;
    if data == [] {
      MixAssociates(crc, 0, 0);
    } else {
      var x, z := Widen(data[0]), Word(data[1..]);
      WordIsShort(data[1..]);
      FeedIsRounds(Absorb(crc, data[0]), data[1..]);
      StepsMoveDown(Mix(crc, x), z, 8);
      UpNothing(z);
      MixAssociates(crc, x, Up(z, 8));
    }
  }

  lemma UpNothing(z: bv32)
    ensures Up(z, 0) == z
  {
  }

  lemma {:induction false} WordIsInjective(a: seq<bv8>, b: seq<bv8>)
    requires |a| == |b| <= 4 && Word(a) == Word(b)
    ensures a == b
    decreases |a|
  {
    hide Mix, Widen, Up, Short, High, Low;
    if a != [] {
      WordIsShort(a[1..]);
      WordIsShort(b[1..]);
      Appended(a[0], Word(a[1..]));
      Appended(b[0], Word(b[1..]));
      SameOctet(a[0], b[0]);
      WordIsInjective(a[1..], b[1..]);
      assert a == [a[0]] + a[1..] && b == [b[0]] + b[1..];
    }
  }

  lemma SameOctet(a: bv8, b: bv8)
    ensures Widen(a) == Widen(b) ==> a == b
  {
  }

  /** MAIN RESULT. Payloads of one length that differ only within four consecutive bytes have
      different checksums; in particular, no change of a single byte goes unnoticed. */
  lemma ShortBurstsAreDetected(before: seq<bv8>, a: seq<bv8>, b: seq<bv8>, after: seq<bv8>)
    requires |a| == |b| <= 4 && a != b
    ensures Crc(before + (a + after)) != Crc(before + (b + after))
  {
    hide Feed, Mix, Word;
    if Crc(before + (a + after)) == Crc(before + (b + after)) {
      MixIsInjective(Feed(INITIAL, before + (a + after)), Feed(INITIAL, before + (b + after)), XOR_OUT);
      var crc := Feed(INITIAL, before);
      FeedOn(INITIAL, before, a + after);
      FeedOn(INITIAL, before, b + after);
      FeedOn(crc, a, after);
      FeedOn(crc, b, after);
      FeedIsInjective(Feed(crc, a), Feed(crc, b), after);
      FeedIsRounds(crc, a);
      FeedIsRounds(crc, b);
      RoundsAreInjective(Mix(crc, Word(a)), Mix(crc, Word(b)), |a|);
      MixIsInjective(Word(a), Word(b), crc);
      WordIsInjective(a, b);
    }
  }
}
