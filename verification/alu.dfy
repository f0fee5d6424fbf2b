/** The register arithmetic of family 8 and the byte-valued helpers of the
    RND and BCD instructions. Registers are eight bits wide; VF (register
    15) receives the flag. The flag is written BEFORE the result, so when
    x or y is 15 the later read sees the flag: those aliasing cases are
    stated separately. Arithmetic facts are given over 16-bit widenings. */
module Alu {
  import Memory

  /** A register number. */
  type Reg = r: int | 0 <= r < 16

  const VF: Reg := 15

  /** Sixteen eight-bit registers. */
  predicate Bank(v: seq<bv8>) { |v| == 16 }

  /** The single-bit mask of bit `i`, counted from the least significant. */
  function Mask(i: nat): bv8
    requires i < 8
  {
    [0x01, 0x02, 0x04, 0x08, 0x10, 0x20, 0x40, 0x80][i]
  }

  /** Bit `i` of a byte. */
  predicate Bit(a: bv8, i: nat)
    requires i < 8
  {
    (a & Mask(i)) != 0
  }

  lemma OrBit(a: bv8, b: bv8, i: nat)
    requires i < 8
    ensures Bit(a | b, i) <==> Bit(a, i) || Bit(b, i)
  {
  }

  lemma AndBit(a: bv8, b: bv8, i: nat)
    requires i < 8
    ensures Bit(a & b, i) <==> Bit(a, i) && Bit(b, i)
  {
  }

  lemma XorBit(a: bv8, b: bv8, i: nat)
    requires i < 8
    ensures Bit(a ^ b, i) <==> Bit(a, i) != Bit(b, i)
  {
    var m := Mask(i);
    assert (a ^ b) & m == (a & m) ^ (b & m);
    assert m == 1 || m == 2 || m == 4 || m == 8 || m == 16 || m == 32 || m == 64 || m == 128;
  }

  /** The carry flag of 8xy4: set when the eight-bit sum overflows. */
  function Carry(a: bv8, b: bv8): (f: bv8)
    ensures f == 0 || f == 1
    ensures f == 1 <==> a as bv16 + b as bv16 > 0xFF
  {
    if b > 0xFF - a then 1 else 0
  }

  /** Flag and truncated sum together are the exact nine-bit sum. */
  lemma CarrySum(a: bv8, b: bv8)
    ensures (Carry(a, b) as bv16) * 0x100 + (a + b) as bv16 == a as bv16 + b as bv16
  {
  }

  /** The flag of 8xy5 and 8xy7: set when `a - b` does not borrow. */
  function NoBorrow(a: bv8, b: bv8): (f: bv8)
    ensures f == 0 || f == 1
    ensures f == 1 <==> a >= b
  {
    if b > a then 0 else 1
  }

  /** The truncated difference plus the subtrahend gives back the minuend,
      plus 256 exactly when the subtraction borrowed. */
  lemma BorrowDifference(a: bv8, b: bv8)
    ensures (a - b) as bv16 + b as bv16 == a as bv16 + (1 - NoBorrow(a, b) as bv16) * 0x100
  {
  }

  /** The halved byte and the bit shifted out reassemble the byte. */
  lemma HalveParts(a: bv8)
    ensures ((a >> 1) as bv16) * 2 + (a & 1) as bv16 == a as bv16
  {
  }

  /** The doubled byte and the bit shifted out reassemble twice the byte. */
  lemma DoubleParts(a: bv8)
    ensures ((a >> 7) as bv16) * 0x100 + (a << 1) as bv16 == (a as bv16) * 2
  {
  }

  /** Every register except `x` and VF keeps its value. */
  predicate OthersKept(v: seq<bv8>, r: seq<bv8>, x: Reg)
    requires Bank(v) && Bank(r)
  {
    forall k :: 0 <= k < 16 && k != x && k != 15 ==> r[k] == v[k]
  }

  /** Every bit of `a | b`, in terms of the bits of `a` and `b`. */
  lemma OrBits(a: bv8, b: bv8)
    ensures forall i :: 0 <= i < 8 ==> (Bit(a | b, i) <==> Bit(a, i) || Bit(b, i))
  {
    forall i | 0 <= i < 8
      ensures Bit(a | b, i) <==> Bit(a, i) || Bit(b, i)
    {
      OrBit(a, b, i);
    }
  }

  /** Every bit of `a & b`, in terms of the bits of `a` and `b`. */
  lemma AndBits(a: bv8, b: bv8)
    ensures forall i :: 0 <= i < 8 ==> (Bit(a & b, i) <==> Bit(a, i) && Bit(b, i))
  {
    forall i | 0 <= i < 8
      ensures Bit(a & b, i) <==> Bit(a, i) && Bit(b, i)
    {
      AndBit(a, b, i);
    }
  }

  /** Every bit of `a ^ b`, in terms of the bits of `a` and `b`. */
  lemma XorBits(a: bv8, b: bv8)
    ensures forall i :: 0 <= i < 8 ==> (Bit(a ^ b, i) <==> Bit(a, i) != Bit(b, i))
  {
    forall i | 0 <= i < 8
      ensures Bit(a ^ b, i) <==> Bit(a, i) != Bit(b, i)
    {
      XorBit(a, b, i);
    }
  }

  /** 8xy1: each bit of Vx becomes set when it is set in Vx or in Vy. */
  function Or(v: seq<bv8>, x: Reg, y: Reg): (r: seq<bv8>)
    requires Bank(v)
    ensures Bank(r) && OthersKept(v, r, x) && (x != VF ==> r[VF] == v[VF])
    ensures forall i :: 0 <= i < 8 ==> (Bit(r[x], i) <==> Bit(v[x], i) || Bit(v[y], i))
  {
    OrBits(v[x], v[y]);
    v[x := v[x] | v[y]]
  }

  /** 8xy2: each bit of Vx stays set only when it is also set in Vy. */
  function And(v: seq<bv8>, x: Reg, y: Reg): (r: seq<bv8>)
    requires Bank(v)
    ensures Bank(r) && OthersKept(v, r, x) && (x != VF ==> r[VF] == v[VF])
    ensures forall i :: 0 <= i < 8 ==> (Bit(r[x], i) <==> Bit(v[x], i) && Bit(v[y], i))
  {
    var a := v[x] & v[y];
    AndBits(v[x], v[y]);
    assert forall i :: 0 <= i < 8 ==> (Bit(a, i) <==> Bit(v[x], i) && Bit(v[y], i));
    v[x := a]
  }

  /** 8xy3: each bit of Vx flips where Vy has a set bit. */
  function Xor(v: seq<bv8>, x: Reg, y: Reg): (r: seq<bv8>)
    requires Bank(v)
    ensures Bank(r) && OthersKept(v, r, x) && (x != VF ==> r[VF] == v[VF])
    ensures forall i :: 0 <= i < 8 ==> (Bit(r[x], i) <==> Bit(v[x], i) != Bit(v[y], i))
  {
    XorBits(v[x], v[y]);
    v[x := v[x] ^ v[y]]
  }

  /** 8xy4: VF is set to the carry out of Vx + Vy, then Vx gets the low
      eight bits of the sum, read after the flag was written. */
  function AddCarry(v: seq<bv8>, x: Reg, y: Reg): (r: seq<bv8>)
    requires Bank(v)
    ensures Bank(r) && OthersKept(v, r, x)
    ensures x != VF && y != VF ==> r[VF] == Carry(v[x], v[y]) && r[x] == v[x] + v[y]
    ensures x != VF && y == VF ==> r[VF] == Carry(v[x], v[VF]) && r[x] == v[x] + r[VF]
    ensures x == VF && y != VF ==> r[VF] == Carry(v[VF], v[y]) + v[y]
    ensures x == VF && y == VF ==> r[VF] == Carry(v[VF], v[VF]) * 2
  {
    var w := v[VF := Carry(v[x], v[y])];
    w[x := w[x] + w[y]]
  }

  /** 8xy5: VF is set when Vx - Vy does not borrow, then Vx gets the
      difference modulo 256, read after the flag was written. */
  function SubBorrow(v: seq<bv8>, x: Reg, y: Reg): (r: seq<bv8>)
    requires Bank(v)
    ensures Bank(r) && OthersKept(v, r, x)
    ensures x != VF && y != VF ==> r[VF] == NoBorrow(v[x], v[y]) && r[x] == v[x] - v[y]
    ensures x != VF && y == VF ==> r[VF] == NoBorrow(v[x], v[VF]) && r[x] == v[x] - r[VF]
    ensures x == VF && y != VF ==> r[VF] == NoBorrow(v[VF], v[y]) - v[y]
    ensures x == VF && y == VF ==> r[VF] == 0
  {
    var w := v[VF := NoBorrow(v[x], v[y])];
    w[x := w[x] - w[y]]
  }

  /** 8xy7: VF is set when Vy - Vx does not borrow, then Vx gets that
      difference modulo 256, read after the flag was written. */
  function SubReverse(v: seq<bv8>, x: Reg, y: Reg): (r: seq<bv8>)
    requires Bank(v)
    ensures Bank(r) && OthersKept(v, r, x)
    ensures x != VF && y != VF ==> r[VF] == NoBorrow(v[y], v[x]) && r[x] == v[y] - v[x]
    ensures x != VF && y == VF ==> r[VF] == NoBorrow(v[VF], v[x]) && r[x] == r[VF] - v[x]
    ensures x == VF && y != VF ==> r[VF] == v[y] - NoBorrow(v[y], v[VF])
    ensures x == VF && y == VF ==> r[VF] == 0
  {
    var w := v[VF := NoBorrow(v[y], v[x])];
    w[x := w[y] - w[x]]
  }

  /** 8xy6: VF gets the bit shifted out of the bottom of Vx; Vx is halved.
      With x = F the flag itself is shifted, leaving 0. */
  function ShiftRight(v: seq<bv8>, x: Reg): (r: seq<bv8>)
    requires Bank(v)
    ensures Bank(r) && OthersKept(v, r, x)
    ensures x != VF ==> r[VF] == (v[x] & 1) && r[x] == (v[x] >> 1)
    ensures x == VF ==> r[VF] == 0
  {
    var w := v[VF := v[x] & 1];
    w[x := w[x] >> 1]
  }

  /** 8xyE: VF gets the bit shifted out of the top of Vx; Vx is doubled
      modulo 256. With x = F the flag itself is shifted, leaving 0 or 2. */
  function ShiftLeft(v: seq<bv8>, x: Reg): (r: seq<bv8>)
    requires Bank(v)
    ensures Bank(r) && OthersKept(v, r, x)
    ensures x != VF ==> r[VF] == (v[x] >> 7) && r[x] == (v[x] << 1)
    ensures x == VF ==> r[VF] == (if v[VF] >= 0x80 then 2 else 0)
  {
    var w := v[VF := v[x] >> 7];
    w[x := w[x] << 1]
  }

  /** 7xkk: Vx gets Vx + kk modulo 256: the exact sum, less 256 when it
      carries out of the byte. No flag is touched, VF included. */
  function AddByte(v: seq<bv8>, x: Reg, kk: bv8): (r: seq<bv8>)
    requires Bank(v)
    ensures Bank(r) && forall k :: 0 <= k < 16 && k != x ==> r[k] == v[k]
    ensures (r[x] as bv16) + (Carry(v[x], kk) as bv16) * 0x100 == v[x] as bv16 + kk as bv16
  {
    CarrySum(v[x], kk);
    v[x := v[x] + kk]
  }

  /** 7xkk undone: adding kk and then its negation modulo 256 gives the
      registers back. */
  lemma AddByteUndo(v: seq<bv8>, x: Reg, kk: bv8)
    requires Bank(v)
    ensures AddByte(AddByte(v, x, kk), x, 0 - kk) == v
  {
  }

  /** The random draw reduced modulo 0xFF (not 0x100), so never 0xFF. */
  function Residue(rnd: nat): (b: bv8)
    ensures b != 0xFF
  {
    (rnd % 0xFF) as bv8
  }

  /** A byte below 0xFF is its own residue. */
  lemma OwnResidue(b: bv8)
    requires b != 0xFF
    ensures Residue(b as nat) == b
  {
    var n := b as nat;
    assert n % 0xFF == n by {
      assert n < 0xFF;
    }
  }

  /** Cxkk: the reduced random draw masked with kk. */
  function Random(rnd: nat, kk: bv8): (r: bv8)
    ensures r & !kk == 0
    ensures r != 0xFF
  {
    Residue(rnd) & kk
  }

  /** Drawing the byte itself yields any byte inside the mask other than 0xFF. */
  lemma RandomReaches(kk: bv8, b: bv8)
    requires b & !kk == 0 && b != 0xFF
    ensures Random(b as nat, kk) == b
  {
    OwnResidue(b);
  }

  /** The possible outcomes of RND are exactly the bytes inside the mask
      other than 0xFF. */
  lemma RandomRange(kk: bv8, b: bv8)
    ensures (exists rnd: nat :: Random(rnd, kk) == b) <==> b & !kk == 0 && b != 0xFF
  {
    if b & !kk == 0 && b != 0xFF {
      RandomReaches(kk, b);
    }
  }

  /** Fx33: the hundreds, tens and ones digits of `value` stored at
      `addr`, `addr + 1` and `addr + 2`. */
  function Bcd(mem: seq<bv8>, addr: nat, value: bv8): (r: seq<bv8>)
    requires addr + 3 <= |mem|
    ensures |r| == |mem|
    ensures r[addr] < 10 && r[addr + 1] < 10 && r[addr + 2] < 10
    ensures r[addr] as int * 100 + r[addr + 1] as int * 10 + r[addr + 2] as int == value as int
    ensures forall a :: 0 <= a < |mem| && !(addr <= a < addr + 3) ==> r[a] == mem[a]
  {
    Memory.Write(mem, addr, [value / 100, (value / 10) % 10, (value % 100) % 10])
  }
}
