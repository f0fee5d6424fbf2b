/** One machine cycle: fetch the big-endian opcode at PC, decode it,
    execute it, then tick the timers. An array access the C code would
    make outside its array is reported as a fault instead of being
    carried out. */
module Cpu {
  import opened Opcode
  import opened Machine
  import Alu
  import Display
  import Memory

  /** The out-of-range accesses a cycle can attempt. */
  datatype Fault =
    | StackUnderflow     // RET with an empty stack
    | StackOverflow      // CALL with a full stack
    | KeyOutOfRange      // SKP/SKNP on a register holding 16 or more
    | MemoryOutOfRange   // DRW, BCD or a register dump/load past address 0xFFF
    | DisplayOutOfRange  // a set sprite pixel past the last frame-buffer cell

  /** What executing one instruction does before the timers run. */
  datatype Effect =
    | Done(state: State) // the instruction completed; the timers tick next
    | AwaitKey           // Fx0A with no key down: the cycle returns early
    | Trap(fault: Fault)

  /** The result of a whole cycle: the next state, a fetch from PC + 1
      past the end of memory, or a fault of the instruction. */
  datatype Outcome = Next(state: State) | FetchOutOfRange | Faulted(fault: Fault)

  /** The opcode is the byte at PC followed by the byte at PC + 1 (the
      high byte shifted left by eight and OR-ed with the low byte). */
  function Fetch(s: State): (op: Word)
    requires Valid(s) && s.pc + 1 < MemSize
    ensures op / 0x100 == Value(s.mem[s.pc]) && FieldKK(op) == Value(s.mem[s.pc + 1])
  {
    var hi, lo := Value(s.mem[s.pc]), Value(s.mem[s.pc + 1]);
    Div256(hi, lo);
    hi * 0x100 + lo
  }

  /** Only Fx15 and Fx18 write the timers during an instruction. */
  predicate KeepsTimers(s: State, t: State) {
    t.delay == s.delay && t.sound == s.sound
  }

  /** Only 00E0 and Dxyn touch the frame buffer and the redraw flag. */
  predicate KeepsScreen(s: State, t: State) {
    t.display == s.display && t.draw == s.draw
  }

  /** Moves PC on by two bytes, or by four when `skip` holds, in 16 bits. */
  function Skip(s: State, skip: bool): (r: State)
    ensures r == s.(pc := r.pc)
    ensures var d := if skip then 4 else 2;
      (s.pc + d < 0x10000 ==> r.pc == s.pc + d) && (s.pc + d >= 0x10000 ==> r.pc == s.pc + d - 0x10000)
    ensures skip <==> r.pc != Skip(s, false).pc
  {
    s.(pc := Wrap16(s.pc + if skip then 4 else 2))
  }

  /** The next instruction, PC moved on by two bytes. */
  function Advance(s: State): (r: State)
    ensures r == s.(pc := r.pc) && r.pc == Wrap16(s.pc + 2)
  {
    Skip(s, false)
  }

  /** 00E0: every cell of the frame buffer is cleared and a redraw requested. */
  function ClearScreen(s: State): (e: Effect)
    requires Valid(s)
    ensures e.Done? && Valid(e.state)
    ensures e.state == Advance(s).(display := e.state.display, draw := true)
    ensures forall k :: 0 <= k < Display.Cells ==> e.state.display[k] == 0
  {
    Done(Advance(s.(display := Display.Blank(), draw := true)))
  }

  /** 00EE: pops the return address and continues two bytes after it. */
  function Return(s: State): (e: Effect)
    requires Valid(s)
    ensures e.Done? ==> Valid(e.state)
    ensures e.Trap? <==> s.sp == 0
    ensures e.Trap? ==> e.fault == StackUnderflow
  {
    if s.sp == 0 then Trap(StackUnderflow)
    else Done(s.(sp := s.sp - 1, pc := Wrap16(s.stack[s.sp - 1] as int + 2)))
  }

  /** 2nnn: pushes the address of the CALL itself and jumps to `target`. */
  function CallTo(s: State, target: U16): (e: Effect)
    requires Valid(s)
    ensures e.Done? ==> Valid(e.state)
    ensures e.Trap? <==> s.sp >= StackDepth
    ensures e.Trap? ==> e.fault == StackOverflow
  {
    if s.sp >= StackDepth then Trap(StackOverflow)
    else Done(s.(stack := s.stack[s.sp := s.pc], sp := s.sp + 1, pc := target))
  }

  /** Ex9E and ExA1: skips when the key named by `k` is down (`down`) or up
      (not `down`). */
  function SkipKey(s: State, k: bv8, down: bool): (e: Effect)
    requires Valid(s)
    ensures e.Done? ==> Valid(e.state)
    ensures e.Trap? <==> k >= KeyCount as bv8
    ensures e.Trap? ==> e.fault == KeyOutOfRange
    ensures e.Done? ==> e.state == s.(pc := e.state.pc)
    ensures e.Done? ==> (e.state.pc != Advance(s).pc <==> (s.keys[k] != 0) == down)
    ensures e.Done? ==> (e.state.pc == Skip(s, true).pc <==> (s.keys[k] != 0) == down)
  {
    if k >= KeyCount as bv8 then Trap(KeyOutOfRange)
    else Done(Skip(s, (s.keys[k] != 0) == down))
  }

  /** Replaces the register file and moves on. */
  function WithRegs(s: State, v: seq<bv8>): (e: Effect)
    requires Valid(s) && |v| == Registers
    ensures e.Done? && Valid(e.state) && e.state == Advance(s).(v := v)
  {
    Done(Advance(s.(v := v)))
  }

  /** The n sprite bytes Dxyn can read from I: it reads none when n = 0,
      whatever I holds, and otherwise I..I + n - 1 must lie in memory. */
  predicate SpriteReadable(s: State, n: nat) {
    n == 0 || s.index + n <= MemSize
  }

  /** The sprite Dxyn reads: the n bytes at I. */
  function Sprite(s: State, n: nat): (b: seq<bv8>)
    requires Valid(s) && SpriteReadable(s, n)
    ensures |b| == n
  {
    if n == 0 then [] else s.mem[s.index..s.index + n]
  }

  /** Dxyn: XOR-draws the n-byte sprite at I to (Vx, Vy); VF reports a
      collision. The coordinates do not wrap around. */
  function DrawSprite(s: State, x: Alu.Reg, y: Alu.Reg, n: nat): (e: Effect)
    requires Valid(s)
    ensures e.Done? ==> Valid(e.state)
    ensures !e.AwaitKey?
    ensures e.Trap? ==> e.fault == if SpriteReadable(s, n) then DisplayOutOfRange else MemoryOutOfRange
    ensures e.Done? <==> SpriteReadable(s, n) && Display.Fits(Sprite(s, n), Value(s.v[x]), Value(s.v[y]))
    ensures e.Done? ==> e.state == Advance(s).(display := e.state.display, v := e.state.v, draw := true)
    ensures e.Done? ==> e.state.v[Alu.VF] <= 1 && forall k :: 0 <= k < Alu.VF ==> e.state.v[k] == s.v[k]
  {
    if !SpriteReadable(s, n) then Trap(MemoryOutOfRange)
    else
      var sprite := Sprite(s, n);
      var px, py := Value(s.v[x]), Value(s.v[y]);
      if !Display.Fits(sprite, px, py) then Trap(DisplayOutOfRange)
      else
        var b := Display.Draw(s.display, sprite, px, py);
        Display.DrawFlag(s.display, sprite, px, py);
        Done(Advance(s.(display := b.cells, v := s.v[Alu.VF := b.vf], draw := true)))
  }

  /** Some key of the pad is down. */
  predicate AnyKey(keys: seq<bv8>) {
    exists k :: 0 <= k < |keys| && keys[k] != 0
  }

  /** Fx0A: with some key down, Vx is set to 1 (not to the key's number)
      and execution moves on; with none, the cycle ends early. */
  function WaitKey(s: State, x: Alu.Reg): (e: Effect)
    requires Valid(s)
    ensures e.AwaitKey? <==> !AnyKey(s.keys)
    ensures e.Done? ==> Valid(e.state) && e.state == Advance(s).(v := s.v[x := 1])
    ensures !e.Trap?
  {
    if AnyKey(s.keys) then Done(Advance(s.(v := s.v[x := 1]))) else AwaitKey
  }

  /** Fx1E: I += Vx in 16 bits; VF is 1 exactly when the new I is past 0xFFF. */
  function AddIndex(s: State, x: Alu.Reg): (e: Effect)
    requires Valid(s)
    ensures e.Done? && Valid(e.state)
    ensures e.state.index == (s.index + Value(s.v[x])) % 0x10000
    ensures e.state.v == s.v[Alu.VF := if e.state.index > 0xFFF then 1 else 0]
    ensures e.state == Advance(s).(index := e.state.index, v := e.state.v)
  {
    var i := Wrap16(s.index + Value(s.v[x]));
    Done(Advance(s.(index := i, v := s.v[Alu.VF := if i > 0xFFF then 1 else 0])))
  }

  /** Fx33: the decimal digits of Vx at I, I + 1 and I + 2. */
  function StoreBcd(s: State, x: Alu.Reg): (e: Effect)
    requires Valid(s)
    ensures e.Done? ==> Valid(e.state)
    ensures e.Trap? <==> s.index + 3 > MemSize
    ensures e.Done? ==> e.state == Advance(s).(mem := e.state.mem)
    ensures e.Done? ==> e.state.mem[s.index] < 10 && e.state.mem[s.index + 1] < 10 && e.state.mem[s.index + 2] < 10
    ensures e.Done? ==> e.state.mem[s.index] as int * 100 + e.state.mem[s.index + 1] as int * 10 + e.state.mem[s.index + 2] as int == s.v[x] as int
    ensures e.Done? ==> forall a :: 0 <= a < MemSize && !(s.index <= a < s.index + 3) ==> e.state.mem[a] == s.mem[a]
  {
    if s.index + 3 > MemSize then Trap(MemoryOutOfRange)
    else Done(Advance(s.(mem := Alu.Bcd(s.mem, s.index, s.v[x]))))
  }

  /** Fx55: V0..Vx to memory at I, then I moves past the copied bytes. */
  function StoreRegs(s: State, x: Alu.Reg): (e: Effect)
    requires Valid(s)
    ensures e.Done? ==> Valid(e.state)
    ensures e.Trap? <==> s.index + x >= MemSize
    ensures e.Done? ==> e.state == Advance(s).(mem := e.state.mem, index := e.state.index)
    ensures e.Done? ==> e.state.index == s.index + x + 1 && e.state.mem[s.index..s.index + x + 1] == s.v[..x + 1]
    ensures e.Done? ==> forall a :: 0 <= a < MemSize && !(s.index <= a <= s.index + x) ==> e.state.mem[a] == s.mem[a]
  {
    if s.index + x + 1 > MemSize then Trap(MemoryOutOfRange)
    else Done(Advance(s.(mem := Memory.Write(s.mem, s.index, s.v[..x + 1]), index := s.index + x + 1)))
  }

  /** Fx65: memory at I to V0..Vx, then I moves past the copied bytes. */
  function LoadRegs(s: State, x: Alu.Reg): (e: Effect)
    requires Valid(s)
    ensures e.Done? ==> Valid(e.state)
    ensures e.Trap? <==> s.index + x >= MemSize
    ensures e.Done? ==> e.state == Advance(s).(v := e.state.v, index := e.state.index)
    ensures e.Done? ==> e.state.index == s.index + x + 1 && e.state.v[..x + 1] == s.mem[s.index..s.index + x + 1]
    ensures e.Done? ==> forall r :: x < r < Registers ==> e.state.v[r] == s.v[r]
  {
    if s.index + x + 1 > MemSize then Trap(MemoryOutOfRange)
    else Done(Advance(s.(v := Memory.Write(s.v, 0, s.mem[s.index..s.index + x + 1]), index := s.index + x + 1)))
  }

  /** 00EE, 1nnn, 2nnn and Bnnn: the control transfers. */
  function ExecJump(s: State, j: JumpOp): (e: Effect)
    requires Valid(s)
    ensures e.Done? ==> Valid(e.state)
    ensures !e.AwaitKey?
    ensures e.Done? ==> KeepsTimers(s, e.state) && KeepsScreen(s, e.state)
  {
    match j
    case Ret => Return(s)
    case Jp(nnn) => Done(s.(pc := nnn))
    case Call(nnn) => CallTo(s, nnn)
    case JpV0(nnn) => Done(s.(pc := nnn + Value(s.v[0])))
  }

  /** 3xkk, 4xkk, 5xyn, 9xyn, Ex9E and ExA1: the conditional skips. The
      5xyn test is the one the C code performs: its mask and shift bind as
      `opcode & (0x0F00 >> 8)`, so it compares register V[n] with the
      register number y itself. */
  function ExecTest(s: State, t: TestOp): (e: Effect)
    requires Valid(s)
    ensures e.Done? ==> Valid(e.state)
    ensures !e.AwaitKey?
    ensures e.Done? ==> KeepsTimers(s, e.state) && KeepsScreen(s, e.state)
  {
    match t
    case SeByte(x, kk) => Done(Skip(s, Value(s.v[x]) == kk))
    case SneByte(x, kk) => Done(Skip(s, Value(s.v[x]) != kk))
    case SeReg(x, y, n) => Done(Skip(s, Value(s.v[n]) == y))
    case SneReg(x, y) => Done(Skip(s, s.v[x] != s.v[y]))
    case Skp(x) => SkipKey(s, s.v[x], true)
    case Sknp(x) => SkipKey(s, s.v[x], false)
  }

  /** 6xkk, 7xkk, Cxkk and Fx07: loads into Vx. */
  function ExecLoad(s: State, l: LoadOp, rnd: nat): (e: Effect)
    requires Valid(s)
    ensures e.Done? && Valid(e.state)
    ensures e.Done? ==> KeepsTimers(s, e.state) && KeepsScreen(s, e.state)
  {
    match l
    case LdByte(x, kk) => WithRegs(s, s.v[x := kk as bv8])
    case AddByte(x, kk) => WithRegs(s, Alu.AddByte(s.v, x, kk as bv8))
    case Rnd(x, kk) => WithRegs(s, s.v[x := Alu.Random(rnd, kk as bv8)])
    case LdVxDt(x) => WithRegs(s, s.v[x := s.delay])
  }

  /** 8xy0 to 8xyE: the register-to-register operations. */
  function ExecArith(s: State, a: ArithOp): (e: Effect)
    requires Valid(s)
    ensures e.Done? && Valid(e.state)
    ensures e.Done? ==> KeepsTimers(s, e.state) && KeepsScreen(s, e.state)
  {
    match a
    case LdReg(x, y) => WithRegs(s, s.v[x := s.v[y]])
    case Or(x, y) => WithRegs(s, Alu.Or(s.v, x, y))
    case And(x, y) => WithRegs(s, Alu.And(s.v, x, y))
    case Xor(x, y) => WithRegs(s, Alu.Xor(s.v, x, y))
    case AddReg(x, y) => WithRegs(s, Alu.AddCarry(s.v, x, y))
    case Sub(x, y) => WithRegs(s, Alu.SubBorrow(s.v, x, y))
    case Shr(x) => WithRegs(s, Alu.ShiftRight(s.v, x))
    case Subn(x, y) => WithRegs(s, Alu.SubReverse(s.v, x, y))
    case Shl(x) => WithRegs(s, Alu.ShiftLeft(s.v, x))
  }

  /** 00E0 and Dxyn: the frame buffer. */
  function ExecScreen(s: State, d: ScreenOp): (e: Effect)
    requires Valid(s)
    ensures e.Done? ==> Valid(e.state)
    ensures !e.AwaitKey?
    ensures e.Done? ==> KeepsTimers(s, e.state)
  {
    match d
    case Cls => ClearScreen(s)
    case Drw(x, y, n) => DrawSprite(s, x, y, n)
  }

  /** Fx0A, Fx15 and Fx18: the key wait and the timers. */
  function ExecIo(s: State, io: IoOp): (e: Effect)
    requires Valid(s)
    ensures e.Done? ==> Valid(e.state)
    ensures e.AwaitKey? ==> io.LdVxK? && !AnyKey(s.keys)
    ensures !e.Trap?
    ensures e.Done? ==> KeepsScreen(s, e.state)
  {
    match io
    case LdVxK(x) => WaitKey(s, x)
    case LdDtVx(x) => Done(Advance(s.(delay := s.v[x])))
    case LdStVx(x) => Done(Advance(s.(sound := s.v[x])))
  }

  /** Annn, Fx1E, Fx29, Fx33, Fx55 and Fx65: the index register and the
      memory transfers at I. */
  function ExecIndex(s: State, ix: IndexOp): (e: Effect)
    requires Valid(s)
    ensures e.Done? ==> Valid(e.state)
    ensures !e.AwaitKey?
    ensures e.Done? ==> KeepsTimers(s, e.state) && KeepsScreen(s, e.state)
  {
    match ix
    case LdI(nnn) => Done(Advance(s.(index := nnn)))
    case AddI(x) => AddIndex(s, x)
    case LdF(x) => Done(Advance(s.(index := Value(s.v[x]) * 5)))
    case LdB(x) => StoreBcd(s, x)
    case StoreRegs(x) => StoreRegs(s, x)
    case LoadRegs(x) => LoadRegs(s, x)
  }

  /** Executes one decoded instruction. An opcode the decoder does not know
      changes nothing, not even PC. */
  function Exec(s: State, ins: Instr, rnd: nat): (e: Effect)
    requires Valid(s)
    ensures e.Done? ==> Valid(e.state)
    ensures e.AwaitKey? ==> ins.Io? && ins.io.LdVxK? && !AnyKey(s.keys)
    ensures e.Done? && !ins.Io? ==> KeepsTimers(s, e.state)
    ensures e.Done? && !ins.Screen? ==> KeepsScreen(s, e.state)
  {
    match ins
    case Jump(j) => ExecJump(s, j)
    case Test(t) => ExecTest(s, t)
    case Load(l) => ExecLoad(s, l, rnd)
    case Arith(a) => ExecArith(s, a)
    case Screen(d) => ExecScreen(s, d)
    case Io(io) => ExecIo(s, io)
    case Index(ix) => ExecIndex(s, ix)
    case Unknown(_) => Done(s)
  }

  /** One cycle. `rnd` stands for the value the C library's `rand()` would
      return if the instruction is RND. Waiting for a key returns before
      the timers are ticked. */
  function Step(s: State, rnd: nat): (o: Outcome)
    requires Valid(s)
    ensures o.Next? ==> Valid(o.state)
    ensures o.FetchOutOfRange? <==> s.pc + 1 >= MemSize
  {
    if s.pc + 1 >= MemSize then FetchOutOfRange
    else Run(s, Decode(Fetch(s)), rnd)
  }

  /** The part of a cycle after fetch and decode: the instruction, then the
      end of the cycle. */
  function Run(s: State, ins: Instr, rnd: nat): (o: Outcome)
    requires Valid(s)
    ensures o.Next? ==> Valid(o.state)
    ensures !o.FetchOutOfRange?
  {
    Finish(s, Exec(s, ins, rnd))
  }

  /** The end of a cycle: tick the timers after a completed instruction,
      keep the whole state while waiting for a key. */
  function Finish(s: State, e: Effect): (o: Outcome)
    requires Valid(s) && (e.Done? ==> Valid(e.state))
    ensures o.Next? ==> Valid(o.state)
    ensures !o.FetchOutOfRange?
  {
    match e
    case Done(t) => Next(Tick(t))
    case AwaitKey => Next(s)
    case Trap(f) => Faulted(f)
  }
}
