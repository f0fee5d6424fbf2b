/** Instruction decoding: the two-level switch of `vm_cycle` on the fetched
    16-bit opcode, separated from execution. The top nibble selects the
    family; families 0, 8, E and F then look at the low nibble or low byte.
    Operand fields are the nibbles x = bits 8..11, y = bits 4..7,
    n = bits 0..3, the byte kk = bits 0..7 and the address nnn = bits 0..11.
    The C code extracts them with masks and shifts; on an unsigned 16-bit
    value those are the quotients and remainders by powers of two used
    here. */
module Opcode {

  /** A 4-bit operand: a register number or a sprite height. */
  type Nibble = n: int | 0 <= n < 0x10
  /** An 8-bit immediate operand. */
  type Byte = b: int | 0 <= b < 0x100
  /** A 12-bit address operand. */
  type Addr = a: int | 0 <= a < 0x1000
  /** A 16-bit opcode. */
  type Word = w: int | 0 <= w < 0x10000

  /** Control transfers. */
  datatype JumpOp =
    | Ret                               // 00EE (any 0xEE low byte in family 0)
    | Jp(nnn: Addr)                     // 1nnn
    | Call(nnn: Addr)                   // 2nnn
    | JpV0(nnn: Addr)                   // Bnnn

  /** Conditional skips of the next instruction. */
  datatype TestOp =
    | SeByte(x: Nibble, kk: Byte)       // 3xkk
    | SneByte(x: Nibble, kk: Byte)      // 4xkk
    | SeReg(x: Nibble, y: Nibble, n: Nibble) // 5xyn, the low nibble is not checked
    | SneReg(x: Nibble, y: Nibble)      // 9xyn, the low nibble is not checked
    | Skp(x: Nibble)                    // Ex9E
    | Sknp(x: Nibble)                   // ExA1

  /** Loads of an immediate or a timer into Vx. */
  datatype LoadOp =
    | LdByte(x: Nibble, kk: Byte)       // 6xkk
    | AddByte(x: Nibble, kk: Byte)      // 7xkk
    | Rnd(x: Nibble, kk: Byte)          // Cxkk
    | LdVxDt(x: Nibble)                 // Fx07

  /** Family 8: register-to-register operations. */
  datatype ArithOp =
    | LdReg(x: Nibble, y: Nibble)       // 8xy0
    | Or(x: Nibble, y: Nibble)          // 8xy1
    | And(x: Nibble, y: Nibble)         // 8xy2
    | Xor(x: Nibble, y: Nibble)         // 8xy3
    | AddReg(x: Nibble, y: Nibble)      // 8xy4
    | Sub(x: Nibble, y: Nibble)         // 8xy5
    | Shr(x: Nibble)                    // 8xy6, y is ignored
    | Subn(x: Nibble, y: Nibble)        // 8xy7
    | Shl(x: Nibble)                    // 8xyE, y is ignored

  /** The frame buffer. */
  datatype ScreenOp =
    | Cls                               // 00E0 (any 0xE0 low byte in family 0)
    | Drw(x: Nibble, y: Nibble, n: Nibble) // Dxyn

  /** The key wait and the timer loads. */
  datatype IoOp =
    | LdVxK(x: Nibble)                  // Fx0A
    | LdDtVx(x: Nibble)                 // Fx15
    | LdStVx(x: Nibble)                 // Fx18

  /** The index register and the memory transfers at I. */
  datatype IndexOp =
    | LdI(nnn: Addr)                    // Annn
    | AddI(x: Nibble)                   // Fx1E
    | LdF(x: Nibble)                    // Fx29
    | LdB(x: Nibble)                    // Fx33
    | StoreRegs(x: Nibble)              // Fx55
    | LoadRegs(x: Nibble)               // Fx65

  datatype Instr =
    | Jump(j: JumpOp)
    | Test(t: TestOp)
    | Load(l: LoadOp)
    | Arith(a: ArithOp)
    | Screen(d: ScreenOp)
    | Io(io: IoOp)
    | Index(ix: IndexOp)
    | Unknown(op: Word)                 // anything else

  function Family(op: Word): Nibble { op / 0x1000 }
  function FieldX(op: Word): Nibble { op / 0x100 % 0x10 }
  function FieldY(op: Word): Nibble { op / 0x10 % 0x10 }
  function FieldN(op: Word): Nibble { op % 0x10 }
  function FieldKK(op: Word): Byte { op % 0x100 }
  function FieldNNN(op: Word): Addr { op % 0x1000 }

  /** Family 0: only the low byte is examined. */
  function DecodeSystem(op: Word, kk: Byte): Instr {
    if kk == 0xE0 then Screen(Cls) else if kk == 0xEE then Jump(Ret) else Unknown(op)
  }

  /** Family 8: the low nibble selects the operation. */
  function DecodeArith(op: Word, x: Nibble, y: Nibble, n: Nibble): Instr {
    if n == 0x0 then Arith(LdReg(x, y))
    else if n == 0x1 then Arith(Or(x, y))
    else if n == 0x2 then Arith(And(x, y))
    else if n == 0x3 then Arith(Xor(x, y))
    else if n == 0x4 then Arith(AddReg(x, y))
    else if n == 0x5 then Arith(Sub(x, y))
    else if n == 0x6 then Arith(Shr(x))
    else if n == 0x7 then Arith(Subn(x, y))
    else if n == 0xE then Arith(Shl(x))
    else Unknown(op)
  }

  /** Family E: the low byte selects the key test. */
  function DecodeKeys(op: Word, x: Nibble, kk: Byte): Instr {
    if kk == 0x9E then Test(Skp(x)) else if kk == 0xA1 then Test(Sknp(x)) else Unknown(op)
  }

  /** Family F: the low byte selects the operation. */
  function DecodeMisc(op: Word, x: Nibble, kk: Byte): Instr {
    if kk == 0x07 then Load(LdVxDt(x))
    else if kk == 0x0A then Io(LdVxK(x))
    else if kk == 0x15 then Io(LdDtVx(x))
    else if kk == 0x18 then Io(LdStVx(x))
    else if kk == 0x1E then Index(AddI(x))
    else if kk == 0x29 then Index(LdF(x))
    else if kk == 0x33 then Index(LdB(x))
    else if kk == 0x55 then Index(StoreRegs(x))
    else if kk == 0x65 then Index(LoadRegs(x))
    else Unknown(op)
  }

  /** The instruction an opcode selects in the cycle's switch; an opcode
      no case matches is kept as it was fetched. */
  function Decode(op: Word): (i: Instr)
    ensures i.Unknown? ==> i.op == op
  {
    var x, y, n, kk, nnn := FieldX(op), FieldY(op), FieldN(op), FieldKK(op), FieldNNN(op);
    var family := Family(op);
    if family == 0x0 then DecodeSystem(op, kk)
    else if family == 0x1 then Jump(Jp(nnn))
    else if family == 0x2 then Jump(Call(nnn))
    else if family == 0x3 then Test(SeByte(x, kk))
    else if family == 0x4 then Test(SneByte(x, kk))
    else if family == 0x5 then Test(SeReg(x, y, n))
    else if family == 0x6 then Load(LdByte(x, kk))
    else if family == 0x7 then Load(AddByte(x, kk))
    else if family == 0x8 then DecodeArith(op, x, y, n)
    else if family == 0x9 then Test(SneReg(x, y))
    else if family == 0xA then Index(LdI(nnn))
    else if family == 0xB then Jump(JpV0(nnn))
    else if family == 0xC then Load(Rnd(x, kk))
    else if family == 0xD then Screen(Drw(x, y, n))
    else if family == 0xE then DecodeKeys(op, x, kk)
    else DecodeMisc(op, x, kk)
  }

  function Op(family: Nibble, x: Nibble, y: Nibble, n: Nibble): Word {
    family * 0x1000 + x * 0x100 + y * 0x10 + n
  }

  function OpKK(family: Nibble, x: Nibble, kk: Byte): Word {
    family * 0x1000 + x * 0x100 + kk
  }

  function OpNNN(family: Nibble, nnn: Addr): Word {
    family * 0x1000 + nnn
  }

  function EncodeJump(j: JumpOp): Word {
    match j
    case Ret => 0x00EE
    case Jp(nnn) => OpNNN(0x1, nnn)
    case Call(nnn) => OpNNN(0x2, nnn)
    case JpV0(nnn) => OpNNN(0xB, nnn)
  }

  function EncodeTest(t: TestOp): Word {
    match t
    case SeByte(x, kk) => OpKK(0x3, x, kk)
    case SneByte(x, kk) => OpKK(0x4, x, kk)
    case SeReg(x, y, n) => Op(0x5, x, y, n)
    case SneReg(x, y) => Op(0x9, x, y, 0x0)
    case Skp(x) => OpKK(0xE, x, 0x9E)
    case Sknp(x) => OpKK(0xE, x, 0xA1)
  }

  function EncodeLoad(l: LoadOp): Word {
    match l
    case LdByte(x, kk) => OpKK(0x6, x, kk)
    case AddByte(x, kk) => OpKK(0x7, x, kk)
    case Rnd(x, kk) => OpKK(0xC, x, kk)
    case LdVxDt(x) => OpKK(0xF, x, 0x07)
  }

  function EncodeArith(a: ArithOp): Word {
    match a
    case LdReg(x, y) => Op(0x8, x, y, 0x0)
    case Or(x, y) => Op(0x8, x, y, 0x1)
    case And(x, y) => Op(0x8, x, y, 0x2)
    case Xor(x, y) => Op(0x8, x, y, 0x3)
    case AddReg(x, y) => Op(0x8, x, y, 0x4)
    case Sub(x, y) => Op(0x8, x, y, 0x5)
    case Shr(x) => Op(0x8, x, 0, 0x6)
    case Subn(x, y) => Op(0x8, x, y, 0x7)
    case Shl(x) => Op(0x8, x, 0, 0xE)
  }

  function EncodeScreen(d: ScreenOp): Word {
    match d
    case Cls => 0x00E0
    case Drw(x, y, n) => Op(0xD, x, y, n)
  }

  function EncodeIo(io: IoOp): Word {
    match io
    case LdVxK(x) => OpKK(0xF, x, 0x0A)
    case LdDtVx(x) => OpKK(0xF, x, 0x15)
    case LdStVx(x) => OpKK(0xF, x, 0x18)
  }

  function EncodeIndex(ix: IndexOp): Word {
    match ix
    case LdI(nnn) => OpNNN(0xA, nnn)
    case AddI(x) => OpKK(0xF, x, 0x1E)
    case LdF(x) => OpKK(0xF, x, 0x29)
    case LdB(x) => OpKK(0xF, x, 0x33)
    case StoreRegs(x) => OpKK(0xF, x, 0x55)
    case LoadRegs(x) => OpKK(0xF, x, 0x65)
  }

  /** The canonical opcode of an instruction: unused fields are zero. */
  function Encode(i: Instr): (w: Word)
    ensures i.Unknown? ==> w == i.op
  {
    match i
    case Jump(j) => EncodeJump(j)
    case Test(t) => EncodeTest(t)
    case Load(l) => EncodeLoad(l)
    case Arith(a) => EncodeArith(a)
    case Screen(d) => EncodeScreen(d)
    case Io(io) => EncodeIo(io)
    case Index(ix) => EncodeIndex(ix)
    case Unknown(op) => op
  }

  /** An instruction value the decoder can produce: an `Unknown` carries an
      opcode that really is undefined. */
  predicate Decodable(i: Instr) {
    !i.Unknown? || Decode(i.op) == i
  }

  /** Division by 16 of a value with a known last hex digit. */
  lemma Div16(q: int, r: int)
    requires 0 <= r < 0x10
    ensures (q * 0x10 + r) / 0x10 == q && (q * 0x10 + r) % 0x10 == r
  {
  }

  /** Division by 256 of a value with a known low byte. */
  lemma Div256(q: int, r: int)
    requires 0 <= r < 0x100
    ensures (q * 0x100 + r) / 0x100 == q && (q * 0x100 + r) % 0x100 == r
  {
  }

  /** Division by 4096 of a value with known low twelve bits. */
  lemma Div4096(q: int, r: int)
    requires 0 <= r < 0x1000
    ensures (q * 0x1000 + r) / 0x1000 == q && (q * 0x1000 + r) % 0x1000 == r
  {
  }

  lemma FieldsOfOp(family: Nibble, x: Nibble, y: Nibble, n: Nibble)
    ensures var op := Op(family, x, y, n);
      Family(op) == family && FieldX(op) == x && FieldY(op) == y && FieldN(op) == n
  {
    var op := Op(family, x, y, n);
    Div4096(family, x * 0x100 + y * 0x10 + n);
    Div256(family * 0x10 + x, y * 0x10 + n);
    Div16(family * 0x10 + x, 0);
    Div16(family * 0x100 + x * 0x10 + y, n);
    Div16(family * 0x10 + x, y);
  }

  lemma FieldsOfOpKK(family: Nibble, x: Nibble, kk: Byte)
    ensures var op := OpKK(family, x, kk); Family(op) == family && FieldX(op) == x && FieldKK(op) == kk
  {
    Div4096(family, x * 0x100 + kk);
    Div256(family * 0x10 + x, kk);
    Div16(family, x);
  }

  lemma FieldsOfOpNNN(family: Nibble, nnn: Addr)
    ensures var op := OpNNN(family, nnn); Family(op) == family && FieldNNN(op) == nnn
  {
    Div4096(family, nnn);
  }

  lemma RoundTripJump(j: JumpOp)
    ensures Decode(Encode(Jump(j))) == Jump(j)
  {
    match j
    case Ret =>
    case Jp(nnn) => FieldsOfOpNNN(0x1, nnn);
    case Call(nnn) => FieldsOfOpNNN(0x2, nnn);
    case JpV0(nnn) => FieldsOfOpNNN(0xB, nnn);
  }

  lemma RoundTripTest(t: TestOp)
    ensures Decode(Encode(Test(t))) == Test(t)
  {
    match t
    case SeByte(x, kk) => FieldsOfOpKK(0x3, x, kk);
    case SneByte(x, kk) => FieldsOfOpKK(0x4, x, kk);
    case SeReg(x, y, n) => FieldsOfOp(0x5, x, y, n);
    case SneReg(x, y) => FieldsOfOp(0x9, x, y, 0x0);
    case Skp(x) => FieldsOfOpKK(0xE, x, 0x9E);
    case Sknp(x) => FieldsOfOpKK(0xE, x, 0xA1);
  }

  lemma RoundTripLoad(l: LoadOp)
    ensures Decode(Encode(Load(l))) == Load(l)
  {
    match l
    case LdByte(x, kk) => FieldsOfOpKK(0x6, x, kk);
    case AddByte(x, kk) => FieldsOfOpKK(0x7, x, kk);
    case Rnd(x, kk) => FieldsOfOpKK(0xC, x, kk);
    case LdVxDt(x) => FieldsOfOpKK(0xF, x, 0x07);
  }

  lemma RoundTripArith(a: ArithOp)
    ensures Decode(Encode(Arith(a))) == Arith(a)
  {
    match a
    case LdReg(x, y) => FieldsOfOp(0x8, x, y, 0x0);
    case Or(x, y) => FieldsOfOp(0x8, x, y, 0x1);
    case And(x, y) => FieldsOfOp(0x8, x, y, 0x2);
    case Xor(x, y) => FieldsOfOp(0x8, x, y, 0x3);
    case AddReg(x, y) => FieldsOfOp(0x8, x, y, 0x4);
    case Sub(x, y) => FieldsOfOp(0x8, x, y, 0x5);
    case Shr(x) => FieldsOfOp(0x8, x, 0, 0x6);
    case Subn(x, y) => FieldsOfOp(0x8, x, y, 0x7);
    case Shl(x) => FieldsOfOp(0x8, x, 0, 0xE);
  }

  lemma RoundTripScreen(d: ScreenOp)
    ensures Decode(Encode(Screen(d))) == Screen(d)
  {
    match d
    case Cls =>
    case Drw(x, y, n) => FieldsOfOp(0xD, x, y, n);
  }

  lemma RoundTripIo(io: IoOp)
    ensures Decode(Encode(Io(io))) == Io(io)
  {
    match io
    case LdVxK(x) => FieldsOfOpKK(0xF, x, 0x0A);
    case LdDtVx(x) => FieldsOfOpKK(0xF, x, 0x15);
    case LdStVx(x) => FieldsOfOpKK(0xF, x, 0x18);
  }

  lemma RoundTripIndex(ix: IndexOp)
    ensures Decode(Encode(Index(ix))) == Index(ix)
  {
    match ix
    case LdI(nnn) => FieldsOfOpNNN(0xA, nnn);
    case AddI(x) => FieldsOfOpKK(0xF, x, 0x1E);
    case LdF(x) => FieldsOfOpKK(0xF, x, 0x29);
    case LdB(x) => FieldsOfOpKK(0xF, x, 0x33);
    case StoreRegs(x) => FieldsOfOpKK(0xF, x, 0x55);
    case LoadRegs(x) => FieldsOfOpKK(0xF, x, 0x65);
  }

  /** Decoding inverts encoding for every instruction the decoder can
      produce. */
  lemma DecodeEncode(i: Instr)
    requires Decodable(i)
    ensures Decode(Encode(i)) == i
  {
    match i
    case Jump(j) => RoundTripJump(j);
    case Test(t) => RoundTripTest(t);
    case Load(l) => RoundTripLoad(l);
    case Arith(a) => RoundTripArith(a);
    case Screen(d) => RoundTripScreen(d);
    case Io(io) => RoundTripIo(io);
    case Index(ix) => RoundTripIndex(ix);
    case Unknown(_) =>
  }

  /** The decoder's answer depends only on the fields it reads: the
      canonical opcode of a decoded instruction decodes to the same
      instruction. */
  lemma DecodeCanonical(op: Word)
    ensures Decode(Encode(Decode(op))) == Decode(op)
  {
    DecodeEncode(Decode(op));
  }
}
