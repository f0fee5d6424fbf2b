/** What one call of the cycle does, instruction by instruction, stated
    about Step on a machine whose next opcode decodes to the instruction
    in question. A completed instruction is followed by the timer tick, so
    the results are phrased as "the ticked state with these fields
    changed". */
module Cycle {
  import opened Opcode
  import opened Machine
  import opened Cpu
  import Alu
  import Display
  import Font
  import Memory

  /** The machine is well formed and PC + 1 lies inside memory, so an
      opcode can be fetched. */
  predicate Ready(s: State) {
    Valid(s) && s.pc + 1 < MemSize
  }

  /** The machine is ready and the opcode at PC decodes to `ins`. */
  predicate Fetches(s: State, ins: Instr) {
    Ready(s) && Decode(Fetch(s)) == ins
  }

  /** A cycle on a machine whose opcode at PC decodes to `ins` runs `ins`. */
  lemma StepRuns(s: State, rnd: nat, ins: Instr)
    requires Fetches(s, ins)
    ensures Step(s, rnd) == Run(s, ins, rnd)
  {
  }

  /** The fetch reads the opcode whose high byte is at PC and whose low
      byte is at PC + 1. */
  lemma FetchBigEndian(s: State, op: Word)
    requires Ready(s) && s.mem[s.pc] as int == op / 0x100 && s.mem[s.pc + 1] as int == op % 0x100
    ensures Fetch(s) == op
  {
    Div256(op / 0x100, op % 0x100);
  }

  /** With the two bytes at PC holding the big-endian encoding of `ins`, a
      cycle runs `ins`: the fetch and the decoder recover the instruction. */
  lemma StepRunsEncoded(s: State, rnd: nat, ins: Instr)
    requires Ready(s) && Decodable(ins)
    requires s.mem[s.pc] as int == Encode(ins) / 0x100 && s.mem[s.pc + 1] as int == Encode(ins) % 0x100
    ensures Fetches(s, ins)
    ensures Step(s, rnd) == Run(s, ins, rnd)
  {
    FetchBigEndian(s, Encode(ins));
    DecodeEncode(ins);
  }

  // ---- the timers ----

  /** Every instruction other than Fx0A, Fx15 and Fx18 that completes
      leaves each timer one lower than before, or at zero; an unknown
      opcode included. */
  lemma TimersCountDown(s: State, rnd: nat, ins: Instr)
    requires Ready(s) && !ins.Io?
    ensures Run(s, ins, rnd).Next? ==>
      Run(s, ins, rnd).state.delay == Countdown(s.delay) && Run(s, ins, rnd).state.sound == Countdown(s.sound)
  {

  }

  /** Fx15: the delay timer is loaded from Vx and then ticks once. */
  lemma RunSetDelay(s: State, rnd: nat, x: Nibble)
    requires Ready(s)
    ensures Run(s, Io(LdDtVx(x)), rnd) == Next(Tick(s.(pc := s.pc + 2, delay := s.v[x])))
  {
  }

  /** Fx18: the sound timer is loaded from Vx and then ticks once. */
  lemma RunSetSound(s: State, rnd: nat, x: Nibble)
    requires Ready(s)
    ensures Run(s, Io(LdStVx(x)), rnd) == Next(Tick(s.(pc := s.pc + 2, sound := s.v[x])))
  {
  }

  /** Fx07: Vx gets the delay timer as it was before this cycle's tick. */
  lemma RunReadDelay(s: State, rnd: nat, x: Nibble)
    requires Ready(s)
    ensures Run(s, Load(LdVxDt(x)), rnd) == Next(Tick(s).(pc := s.pc + 2, v := s.v[x := s.delay]))
  {
  }

  /** Fx15 then Fx07 reads back the value loaded, one tick down; the timer
      itself is then two ticks down. */
  lemma DelayThenRead(s: State, t: State, rnd: nat, rnd': nat, x: Nibble, y: Nibble)
    requires Ready(s) && Run(s, Io(LdDtVx(x)), rnd) == Next(t)
    ensures Run(t, Load(LdVxDt(y)), rnd').Next?
    ensures Run(t, Load(LdVxDt(y)), rnd').state.v[y] == Countdown(s.v[x])
    ensures Run(t, Load(LdVxDt(y)), rnd').state.delay == Countdown(Countdown(s.v[x]))
  {
    RunSetDelay(s, rnd, x);
  }

  // ---- Fx0A ----

  /** Fx0A with no key down ends the cycle at once: the whole machine,
      timers and PC included, is left as it was. */
  lemma WaitKeyStalls(s: State, rnd: nat, x: Nibble)
    requires Ready(s) && !AnyKey(s.keys)
    ensures Run(s, Io(LdVxK(x)), rnd) == Next(s)
  {
  }

  /** So a machine that fetches Fx0A while no key is down stays exactly
      where it is, cycle after cycle, until a key goes down. */
  lemma WaitKeyStepStalls(s: State, rnd: nat, x: Nibble)
    requires Fetches(s, Io(LdVxK(x))) && !AnyKey(s.keys)
    ensures Step(s, rnd) == Next(s) && Fetches(Step(s, rnd).state, Io(LdVxK(x)))
  {
    StepRuns(s, rnd, Io(LdVxK(x)));
    WaitKeyStalls(s, rnd, x);
  }

  /** Fx0A with some key down sets Vx to 1, moves on and ticks the timers. */
  lemma WaitKeyPressed(s: State, rnd: nat, x: Nibble)
    requires Ready(s) && AnyKey(s.keys)
    ensures Run(s, Io(LdVxK(x)), rnd) == Next(Tick(s).(pc := s.pc + 2, v := s.v[x := 1]))
    ensures Run(s, Io(LdVxK(x)), rnd).state.delay == Countdown(s.delay) && Run(s, Io(LdVxK(x)), rnd).state.sound == Countdown(s.sound)
  {
  }

  // ---- 8xy0 ----

  /** 8xy0: Vx gets Vy and moves on; every other register, VF included
      when x is not F, is kept, and so is everything else but the timers. */
  lemma RunLdReg(s: State, rnd: nat, x: Nibble, y: Nibble)
    requires Ready(s)
    ensures var o := Run(s, Arith(LdReg(x, y)), rnd);
      o.Next? && o.state == Tick(s).(pc := o.state.pc, v := o.state.v) && o.state.pc == s.pc + 2 &&
      o.state.v[x] == s.v[y] && forall k :: 0 <= k < Registers && k != x ==> o.state.v[k] == s.v[k]
  {
  }

  // ---- 8xy4, 8xy5, 8xy7: the arithmetic and its flag ----

  /** The outcome of 8xy4 for x, y other than F: Vx is Vx + Vy modulo 256
      and VF is 1 exactly when the sum exceeds 255; only PC, the registers
      and the timers change. */
  predicate Summed(s: State, t: State, x: Alu.Reg, y: Alu.Reg)
    requires Valid(s) && Valid(t)
  {
    t == Tick(s).(pc := t.pc, v := t.v) && t.pc == s.pc + 2 &&
    t.v[x] == s.v[x] + s.v[y] &&
    (t.v[Alu.VF] == 1 <==> s.v[x] as bv16 + s.v[y] as bv16 > 0xFF) &&
    t.v[Alu.VF] <= 1 && Alu.OthersKept(s.v, t.v, x)
  }

  /** The outcome of 8xy5 (a = Vx, b = Vy) and 8xy7 (a = Vy, b = Vx) for
      x, y other than F: Vx is a - b modulo 256 and VF is 1 exactly when
      a >= b, that is when the subtraction does not borrow. */
  predicate Subtracted(s: State, t: State, x: Alu.Reg, a: bv8, b: bv8)
    requires Valid(s) && Valid(t)
  {
    t == Tick(s).(pc := t.pc, v := t.v) && t.pc == s.pc + 2 &&
    t.v[x] == a - b &&
    (t.v[Alu.VF] == 1 <==> a >= b) &&
    t.v[Alu.VF] <= 1 && Alu.OthersKept(s.v, t.v, x)
  }

  lemma AddRegResult(s: State, x: Nibble, y: Nibble)
    requires Ready(s) && x != Alu.VF && y != Alu.VF
    ensures Summed(s, Tick(Advance(s).(v := Alu.AddCarry(s.v, x, y))), x, y)
  {
  }

  lemma SubResult(s: State, x: Nibble, y: Nibble)
    requires Ready(s) && x != Alu.VF && y != Alu.VF
    ensures Subtracted(s, Tick(Advance(s).(v := Alu.SubBorrow(s.v, x, y))), x, s.v[x], s.v[y])
  {
  }

  lemma SubnResult(s: State, x: Nibble, y: Nibble)
    requires Ready(s) && x != Alu.VF && y != Alu.VF
    ensures Subtracted(s, Tick(Advance(s).(v := Alu.SubReverse(s.v, x, y))), x, s.v[y], s.v[x])
  {
  }

  /** 8xy4 with x, y other than F. */
  lemma RunAddReg(s: State, rnd: nat, x: Nibble, y: Nibble)
    requires Ready(s) && x != Alu.VF && y != Alu.VF
    ensures Run(s, Arith(AddReg(x, y)), rnd).Next? && Summed(s, Run(s, Arith(AddReg(x, y)), rnd).state, x, y)
  {
    assert Run(s, Arith(AddReg(x, y)), rnd) == Next(Tick(Advance(s).(v := Alu.AddCarry(s.v, x, y))));
    AddRegResult(s, x, y);
  }

  /** 8xy5 with x, y other than F: Vx - Vy with the no-borrow flag. */
  lemma RunSub(s: State, rnd: nat, x: Nibble, y: Nibble)
    requires Ready(s) && x != Alu.VF && y != Alu.VF
    ensures Run(s, Arith(Sub(x, y)), rnd).Next? && Subtracted(s, Run(s, Arith(Sub(x, y)), rnd).state, x, s.v[x], s.v[y])
  {
    assert Run(s, Arith(Sub(x, y)), rnd) == Next(Tick(Advance(s).(v := Alu.SubBorrow(s.v, x, y))));
    SubResult(s, x, y);
  }

  /** 8xy7 with x, y other than F: Vy - Vx with the no-borrow flag. */
  lemma RunSubn(s: State, rnd: nat, x: Nibble, y: Nibble)
    requires Ready(s) && x != Alu.VF && y != Alu.VF
    ensures Run(s, Arith(Subn(x, y)), rnd).Next? && Subtracted(s, Run(s, Arith(Subn(x, y)), rnd).state, x, s.v[y], s.v[x])
  {
    assert Run(s, Arith(Subn(x, y)), rnd) == Next(Tick(Advance(s).(v := Alu.SubReverse(s.v, x, y))));
    SubnResult(s, x, y);
  }

  // ---- loads into Vx ----

  /** 6xkk: Vx gets kk. */
  lemma RunLoadByte(s: State, rnd: nat, x: Nibble, kk: Byte)
    requires Ready(s)
    ensures Run(s, Load(LdByte(x, kk)), rnd) == Next(Tick(s).(pc := s.pc + 2, v := s.v[x := kk as bv8]))
  {
  }

  /** 7xkk: Vx gets Vx + kk modulo 256 and VF is not touched, even on a
      carry. */
  lemma RunAddByte(s: State, rnd: nat, x: Nibble, kk: Byte)
    requires Ready(s)
    ensures Run(s, Load(AddByte(x, kk)), rnd) == Next(Tick(s).(pc := s.pc + 2, v := Alu.AddByte(s.v, x, kk as bv8)))
  {
  }

  /** 7xkk followed by 7xkk' of the same register, kk' the negation of kk
      modulo 256, gives back every register as it was. */
  lemma AddByteThenUndo(s: State, t: State, rnd: nat, rnd': nat, x: Nibble, kk: Byte, kk': Byte)
    requires Ready(s) && kk' as bv8 == 0 - kk as bv8 && Run(s, Load(AddByte(x, kk)), rnd) == Next(t)
    ensures Run(t, Load(AddByte(x, kk')), rnd').Next?
    ensures Run(t, Load(AddByte(x, kk')), rnd').state.v == s.v
  {
    RunAddByte(s, rnd, x, kk);
    Alu.AddByteUndo(s.v, x, kk as bv8);
  }

  /** Cxkk: Vx gets the random draw reduced modulo 0xFF and masked with kk,
      so it has no bit outside kk and is never 0xFF. */
  lemma RunRnd(s: State, rnd: nat, x: Nibble, kk: Byte)
    requires Ready(s)
    ensures Run(s, Load(Rnd(x, kk)), rnd) == Next(Tick(s).(pc := s.pc + 2, v := s.v[x := Alu.Random(rnd, kk as bv8)]))
    ensures Run(s, Load(Rnd(x, kk)), rnd).state.v[x] & !(kk as bv8) == 0 && Run(s, Load(Rnd(x, kk)), rnd).state.v[x] != 0xFF
  {
  }

  // ---- control transfers ----

  /** 1nnn: PC becomes nnn; nothing else changes but the timers. */
  lemma RunJump(s: State, rnd: nat, nnn: Addr)
    requires Ready(s)
    ensures Run(s, Jump(Jp(nnn)), rnd) == Next(Tick(s).(pc := nnn))
  {
  }

  /** A 1nnn that jumps to its own address is the usual way a program
      halts: every later cycle fetches it again, and only the timers
      change. */
  lemma JumpToSelfRepeats(s: State, rnd: nat)
    requires s.pc < 0x1000 && Fetches(s, Jump(Jp(s.pc)))
    ensures Step(s, rnd) == Next(Tick(s)) && Fetches(Step(s, rnd).state, Jump(Jp(s.pc)))
  {
    StepRuns(s, rnd, Jump(Jp(s.pc)));
    RunJump(s, rnd, s.pc);
  }

  /** Bnnn: PC becomes nnn + V0, which may lie past the end of memory. */
  lemma RunJumpOffset(s: State, rnd: nat, nnn: Addr)
    requires Ready(s)
    ensures Run(s, Jump(JpV0(nnn)), rnd) == Next(Tick(s).(pc := nnn + s.v[0] as int))
  {
  }

  /** 2nnn pushes PC and jumps; with the stack full it faults. */
  lemma RunCall(s: State, rnd: nat, nnn: Addr)
    requires Ready(s)
    ensures Run(s, Jump(Call(nnn)), rnd).Faulted? <==> s.sp >= StackDepth
    ensures s.sp < StackDepth ==> (Run(s, Jump(Call(nnn)), rnd).Next? &&
      Run(s, Jump(Call(nnn)), rnd).state == Tick(s).(stack := s.stack[s.sp := s.pc], sp := s.sp + 1, pc := nnn))
  {
  }

  /** 00EE pops the return address and continues after it; with the stack
      empty it faults. */
  lemma RunRet(s: State, rnd: nat)
    requires Ready(s)
    ensures Run(s, Jump(Ret), rnd).Faulted? <==> s.sp == 0
    ensures s.sp > 0 ==> (Run(s, Jump(Ret), rnd).Next? &&
      Run(s, Jump(Ret), rnd).state == Tick(s).(sp := s.sp - 1, pc := Wrap16(s.stack[s.sp - 1] as int + 2)))
  {
  }

  /** A CALL followed, at its target, by a RET comes back to the instruction
      after the CALL with the stack pointer, registers, I and memory as
      they were; the stack differs only in the popped entry, which still
      holds the CALL's address. */
  lemma CallThenRet(s: State, rnd: nat, rnd': nat, nnn: Addr)
    requires Fetches(s, Jump(Call(nnn))) && s.sp < StackDepth
    requires Step(s, rnd).Next? && Fetches(Step(s, rnd).state, Jump(Ret))
    ensures var u := Step(Step(s, rnd).state, rnd');
      u.Next? && u.state.pc == s.pc + 2 && u.state.sp == s.sp &&
      u.state.v == s.v && u.state.index == s.index && u.state.mem == s.mem &&
      u.state.stack == s.stack[s.sp := s.pc]
  {
    StepRuns(s, rnd, Jump(Call(nnn)));
    RunCall(s, rnd, nnn);
    var t := Step(s, rnd).state;
    StepRuns(t, rnd', Jump(Ret));
    RunRet(t, rnd');
  }

  // ---- the skips ----

  /** 3xkk skips the next instruction exactly when Vx equals kk. */
  lemma RunSeByte(s: State, rnd: nat, x: Nibble, kk: Byte)
    requires Ready(s)
    ensures Run(s, Test(SeByte(x, kk)), rnd) == Next(Tick(s).(pc := s.pc + if s.v[x] as int == kk then 4 else 2))
  {
  }

  /** 4xkk skips the next instruction exactly when Vx differs from kk. */
  lemma RunSneByte(s: State, rnd: nat, x: Nibble, kk: Byte)
    requires Ready(s)
    ensures Run(s, Test(SneByte(x, kk)), rnd) == Next(Tick(s).(pc := s.pc + if s.v[x] as int != kk then 4 else 2))
  {
  }

  /** 5xyn as written: the skip is taken exactly when register V[n] holds
      the number y; Vx is not looked at. */
  lemma RunSeReg(s: State, rnd: nat, x: Nibble, y: Nibble, n: Nibble)
    requires Ready(s)
    ensures Run(s, Test(SeReg(x, y, n)), rnd) == Next(Tick(s).(pc := s.pc + if s.v[n] as int == y then 4 else 2))
  {
  }

  /** The 5xy0 test is not "Vx equals Vy": with V0 = V1 = 7, opcode 5010
      does not skip. */
  lemma SeRegIgnoresVx(s: State, rnd: nat)
    requires Ready(s) && s.v[0] == 7 && s.v[1] == 7
    ensures s.v[0] == s.v[1] && Run(s, Test(SeReg(0, 1, 0)), rnd).Next? && Run(s, Test(SeReg(0, 1, 0)), rnd).state.pc == s.pc + 2
  {
  }

  /** 9xyn skips the next instruction exactly when Vx differs from Vy. */
  lemma RunSneReg(s: State, rnd: nat, x: Nibble, y: Nibble)
    requires Ready(s)
    ensures Run(s, Test(SneReg(x, y)), rnd) == Next(Tick(s).(pc := s.pc + if s.v[x] != s.v[y] then 4 else 2))
  {
  }

  /** Ex9E skips exactly when the key numbered Vx is down; a register value
      that is no key number faults. */
  lemma RunSkp(s: State, rnd: nat, x: Nibble)
    requires Ready(s)
    ensures Run(s, Test(Skp(x)), rnd).Faulted? <==> s.v[x] as int >= KeyCount
    ensures s.v[x] as int < KeyCount ==>
      Run(s, Test(Skp(x)), rnd) == Next(Tick(s).(pc := s.pc + if s.keys[s.v[x]] != 0 then 4 else 2))
  {
    if s.v[x] as int < KeyCount {
      assert Run(s, Test(Skp(x)), rnd) == Next(Tick(Skip(s, s.keys[s.v[x]] != 0)));
    }
  }

  /** ExA1 skips exactly when the key numbered Vx is up; a register value
      that is no key number faults. */
  lemma RunSknp(s: State, rnd: nat, x: Nibble)
    requires Ready(s)
    ensures Run(s, Test(Sknp(x)), rnd).Faulted? <==> s.v[x] as int >= KeyCount
    ensures s.v[x] as int < KeyCount ==>
      Run(s, Test(Sknp(x)), rnd) == Next(Tick(s).(pc := s.pc + if s.keys[s.v[x]] == 0 then 4 else 2))
  {
    if s.v[x] as int < KeyCount {
      assert Run(s, Test(Sknp(x)), rnd) == Next(Tick(Skip(s, s.keys[s.v[x]] == 0)));
    }
  }

  /** Of 3xkk and 4xkk with the same x and kk exactly one skips; the two
      outcomes differ in PC alone. */
  lemma SeSneExclusive(s: State, rnd: nat, x: Nibble, kk: Byte)
    requires Ready(s)
    ensures var a, b := Run(s, Test(SeByte(x, kk)), rnd), Run(s, Test(SneByte(x, kk)), rnd);
      a.Next? && b.Next? && a.state == b.state.(pc := a.state.pc) &&
      (a.state.pc == s.pc + 2 || a.state.pc == s.pc + 4) && (b.state.pc == s.pc + 2 || b.state.pc == s.pc + 4) &&
      (a.state.pc == s.pc + 4 <==> b.state.pc == s.pc + 2)
  {
    RunSeByte(s, rnd, x, kk);
    RunSneByte(s, rnd, x, kk);
  }

  /** Of Ex9E and ExA1 on a key number exactly one skips; the two outcomes
      differ in PC alone. */
  lemma SkpSknpExclusive(s: State, rnd: nat, x: Nibble)
    requires Ready(s) && s.v[x] as int < KeyCount
    ensures var a, b := Run(s, Test(Skp(x)), rnd), Run(s, Test(Sknp(x)), rnd);
      a.Next? && b.Next? && a.state == b.state.(pc := a.state.pc) &&
      (a.state.pc == s.pc + 2 || a.state.pc == s.pc + 4) && (b.state.pc == s.pc + 2 || b.state.pc == s.pc + 4) &&
      (a.state.pc == s.pc + 4 <==> b.state.pc == s.pc + 2)
  {
    RunSkp(s, rnd, x);
    RunSknp(s, rnd, x);
  }

  /** 6xkk then 3xkk of the same x and kk always skips, and 4xkk never
      does. */
  lemma LoadThenTest(s: State, t: State, rnd: nat, rnd': nat, x: Nibble, kk: Byte)
    requires Ready(s) && Run(s, Load(LdByte(x, kk)), rnd) == Next(t)
    ensures Run(t, Test(SeByte(x, kk)), rnd').Next? && Run(t, Test(SeByte(x, kk)), rnd').state.pc == s.pc + 6
    ensures Run(t, Test(SneByte(x, kk)), rnd').Next? && Run(t, Test(SneByte(x, kk)), rnd').state.pc == s.pc + 4
  {
    RunLoadByte(s, rnd, x, kk);
    ByteValue(kk);
    assert Value(t.v[x]) == kk;
  }

  /** 8xy0 then 9xy0 of the same x and y never skips: the copy makes the
      registers equal. */
  lemma CopyThenSneReg(s: State, t: State, rnd: nat, rnd': nat, x: Nibble, y: Nibble)
    requires Ready(s) && Run(s, Arith(LdReg(x, y)), rnd) == Next(t)
    ensures Run(t, Test(SneReg(x, y)), rnd').Next? && Run(t, Test(SneReg(x, y)), rnd').state.pc == s.pc + 4
  {
    assert t.pc == s.pc + 2 && t.v[x] == t.v[y];
  }

  // ---- the screen ----

  /** Only 00E0 and Dxyn change the frame buffer or the redraw flag. */
  lemma ScreenUntouched(s: State, rnd: nat, ins: Instr)
    requires Ready(s) && !ins.Screen?
    ensures Run(s, ins, rnd).Next? ==> KeepsScreen(s, Run(s, ins, rnd).state)
  {

  }

  /** 00E0 blanks every cell and requests a redraw. */
  lemma RunCls(s: State, rnd: nat)
    requires Ready(s)
    ensures Run(s, Screen(Cls), rnd) == Next(Tick(s).(pc := s.pc + 2, display := Display.Blank(), draw := true))
    ensures forall k :: 0 <= k < Display.Cells ==> Run(s, Screen(Cls), rnd).state.display[k] == 0
  {
  }

  /** 00E0 twice leaves the second one nothing to change on the screen. */
  lemma ClsTwice(s: State, t: State, rnd: nat, rnd': nat)
    requires Ready(s) && Run(s, Screen(Cls), rnd) == Next(t)
    ensures Run(t, Screen(Cls), rnd').Next? && Run(t, Screen(Cls), rnd').state.display == t.display
  {
    RunCls(s, rnd);
  }

  /** Dxyn can run: the sprite can be read (n = 0, or the n bytes at I lie
      inside memory) and every set pixel lands inside the frame buffer. */
  predicate Drawable(s: State, x: Alu.Reg, y: Alu.Reg, n: nat)
    requires Valid(s)
  {
    SpriteReadable(s, n) && Display.Fits(Sprite(s, n), Value(s.v[x]), Value(s.v[y]))
  }

  /** The outcome of Dxyn: the cell under each set sprite pixel has its low
      bit flipped and every other cell is kept; VF is 1 exactly when some
      set pixel met a nonzero cell; a redraw is requested; registers other
      than VF, memory, I, the stack and the keys are kept. */
  ghost predicate Drawn(s: State, t: State, x: Alu.Reg, y: Alu.Reg, n: nat)
    requires Valid(s) && Valid(t) && Drawable(s, x, y, n)
  {
    var sprite, px, py := Sprite(s, n), Value(s.v[x]), Value(s.v[y]);
    t == Tick(Advance(s)).(v := t.v, display := t.display, draw := true) &&
    (forall row, col :: Display.Hit(sprite, row, col) ==>
      t.display[Display.CellIndex(px, py, row, col)] == s.display[Display.CellIndex(px, py, row, col)] ^ 1) &&
    (forall k :: 0 <= k < Display.Cells && !Display.Covered(sprite, px, py, k) ==> t.display[k] == s.display[k]) &&
    (t.v[Alu.VF] == 1 <==> Display.Collides(s.display, sprite, px, py)) &&
    t.v[Alu.VF] <= 1 &&
    forall k :: 0 <= k < Alu.VF ==> t.v[k] == s.v[k]
  }

  /** The state Dxyn completes with, before the tick. */
  lemma DrawShape(s: State, rnd: nat, x: Nibble, y: Nibble, n: Nibble)
    requires Valid(s) && Drawable(s, x, y, n)
    ensures var b := Display.Draw(s.display, Sprite(s, n), Value(s.v[x]), Value(s.v[y]));
      Run(s, Screen(Drw(x, y, n)), rnd) == Next(Tick(Advance(s).(display := b.cells, v := s.v[Alu.VF := b.vf], draw := true)))
  {
  }

  /** Dxyn faults exactly when the sprite cannot be read or drawn. */
  lemma RunDrawFaults(s: State, rnd: nat, x: Nibble, y: Nibble, n: Nibble)
    requires Ready(s)
    ensures Run(s, Screen(Drw(x, y, n)), rnd).Faulted? <==> !Drawable(s, x, y, n)
  {
  }

  /** Dxy0 reads no sprite byte, so it completes whatever I holds (even
      an I past the end of memory, which Fx1E can produce): VF is cleared,
      a redraw is requested and the frame buffer is kept. */
  lemma RunDrawNothing(s: State, rnd: nat, x: Nibble, y: Nibble)
    requires Ready(s)
    ensures Run(s, Screen(Drw(x, y, 0)), rnd) == Next(Tick(s).(pc := s.pc + 2, v := s.v[Alu.VF := 0], draw := true))
  {
    assert Drawable(s, x, y, 0);
    assert Display.Draw(s.display, [], Value(s.v[x]), Value(s.v[y])) == Display.Blit(s.display, 0);
  }

  /** Dxyn with a drawable sprite draws it. */
  lemma RunDraw(s: State, rnd: nat, x: Nibble, y: Nibble, n: Nibble)
    requires Valid(s) && Drawable(s, x, y, n)
    ensures Run(s, Screen(Drw(x, y, n)), rnd).Next? && Drawn(s, Run(s, Screen(Drw(x, y, n)), rnd).state, x, y, n)
  {
    var sprite, px, py := Sprite(s, n), Value(s.v[x]), Value(s.v[y]);
    DrawShape(s, rnd, x, y, n);
    Display.DrawCells(s.display, sprite, px, py);
    Display.DrawFlag(s.display, sprite, px, py);
  }

  /** 00E0 then Dxyn: on the blank screen nothing collides, so VF is 0, the
      cells under set sprite pixels are 1 and every other cell is 0. */
  lemma ClsThenDraw(s: State, t: State, rnd: nat, rnd': nat, x: Nibble, y: Nibble, n: Nibble)
    requires Ready(s) && Drawable(s, x, y, n) && Run(s, Screen(Cls), rnd) == Next(t)
    ensures var u, sprite, px, py := Run(t, Screen(Drw(x, y, n)), rnd'), Sprite(s, n), Value(s.v[x]), Value(s.v[y]);
      u.Next? && u.state.v[Alu.VF] == 0 &&
      (forall row, col :: Display.Hit(sprite, row, col) ==> u.state.display[Display.CellIndex(px, py, row, col)] == 1) &&
      forall k :: 0 <= k < Display.Cells && !Display.Covered(sprite, px, py, k) ==> u.state.display[k] == 0
  {
    RunCls(s, rnd);
    assert t.v == s.v && t.mem == s.mem && t.index == s.index && t.display == Display.Blank();
    DrawShape(t, rnd', x, y, n);
    Display.DrawOnBlank(Sprite(s, n), Value(s.v[x]), Value(s.v[y]));
  }

  /** Drawing the same sprite at the same place twice in a row, with the
      coordinates in registers other than VF, restores the frame buffer. */
  lemma RunDrawTwice(s: State, t: State, rnd: nat, rnd': nat, x: Nibble, y: Nibble, n: Nibble)
    requires Valid(s) && x != Alu.VF && y != Alu.VF && Drawable(s, x, y, n)
    requires Run(s, Screen(Drw(x, y, n)), rnd) == Next(t)
    ensures Run(t, Screen(Drw(x, y, n)), rnd').Next?
    ensures Run(t, Screen(Drw(x, y, n)), rnd').state.display == s.display
  {
    var sprite, px, py := Sprite(s, n), Value(s.v[x]), Value(s.v[y]);
    DrawShape(s, rnd, x, y, n);
    assert t.mem == s.mem && t.index == s.index && t.v[x] == s.v[x] && t.v[y] == s.v[y];
    DrawShape(t, rnd', x, y, n);
    Display.DrawTwice(s.display, sprite, px, py);
  }

  /** The same, over two machine steps that both fetch that Dxyn. */
  lemma DrawTwiceStep(s: State, rnd: nat, rnd': nat, x: Nibble, y: Nibble, n: Nibble)
    requires Fetches(s, Screen(Drw(x, y, n))) && x != Alu.VF && y != Alu.VF && Drawable(s, x, y, n)
    requires Step(s, rnd).Next? && Fetches(Step(s, rnd).state, Screen(Drw(x, y, n)))
    ensures Step(Step(s, rnd).state, rnd').Next?
    ensures Step(Step(s, rnd).state, rnd').state.display == s.display
  {
    var t := Step(s, rnd).state;
    StepRuns(s, rnd, Screen(Drw(x, y, n)));
    StepRuns(t, rnd', Screen(Drw(x, y, n)));
    RunDrawTwice(s, t, rnd, rnd', x, y, n);
  }

  /** A frame buffer of zeros and ones stays one after Dxyn. */
  lemma RunDrawKeepsBinary(s: State, rnd: nat, x: Nibble, y: Nibble, n: Nibble)
    requires Ready(s) && Display.Binary(s.display)
    ensures Run(s, Screen(Drw(x, y, n)), rnd).Next? ==> Display.Binary(Run(s, Screen(Drw(x, y, n)), rnd).state.display)
  {
    if Drawable(s, x, y, n) {
      DrawShape(s, rnd, x, y, n);
      Display.DrawKeepsBinary(s.display, Sprite(s, n), Value(s.v[x]), Value(s.v[y]));
    }
  }

  /** A frame buffer of zeros and ones stays one after any instruction. */
  lemma RunKeepsBinary(s: State, rnd: nat, ins: Instr)
    requires Ready(s) && Display.Binary(s.display)
    ensures Run(s, ins, rnd).Next? ==> Display.Binary(Run(s, ins, rnd).state.display)
  {
    if !ins.Screen? {
      ScreenUntouched(s, rnd, ins);
    } else if ins.d.Drw? {
      RunDrawKeepsBinary(s, rnd, ins.d.x, ins.d.y, ins.d.n);
    }
  }

  /** A frame buffer of zeros and ones stays so across any cycle. */
  lemma StepKeepsBinary(s: State, rnd: nat)
    requires Valid(s) && Display.Binary(s.display)
    ensures Step(s, rnd).Next? ==> Display.Binary(Step(s, rnd).state.display)
  {
    if s.pc + 1 < MemSize {
      StepRuns(s, rnd, Decode(Fetch(s)));
      RunKeepsBinary(s, rnd, Decode(Fetch(s)));
    }
  }

  // ---- I and the memory transfers ----

  /** Annn: I becomes nnn. */
  lemma RunLoadIndex(s: State, rnd: nat, nnn: Addr)
    requires Ready(s)
    ensures Run(s, Index(LdI(nnn)), rnd) == Next(Tick(s).(pc := s.pc + 2, index := nnn))
  {
  }

  /** Fx1E: I += Vx in 16 bits, and VF is 1 exactly when the new I lies
      past 0xFFF. */
  lemma RunAddIndex(s: State, rnd: nat, x: Nibble)
    requires Ready(s)
    ensures var i := Wrap16(s.index + Value(s.v[x]));
      Run(s, Index(AddI(x)), rnd) == Next(Tick(s).(pc := s.pc + 2, index := i, v := s.v[Alu.VF := if i > 0xFFF then 1 else 0]))
  {
  }

  /** Annn then Fx1E: I is exactly nnn + Vx, since no 16-bit wrap can
      happen from an address, and VF tells whether it lies past 0xFFF. */
  lemma IndexThenAdd(s: State, t: State, rnd: nat, rnd': nat, nnn: Addr, x: Nibble)
    requires Ready(s) && Run(s, Index(LdI(nnn)), rnd) == Next(t)
    ensures var u := Run(t, Index(AddI(x)), rnd');
      u.Next? && u.state.index == nnn + Value(s.v[x]) &&
      u.state.v[Alu.VF] <= 1 && (u.state.v[Alu.VF] == 1 <==> nnn + Value(s.v[x]) > 0xFFF)
  {
    RunLoadIndex(s, rnd, nnn);
  }

  /** Memory that starts with the font, as the reset state's does, holds
      the five rows of the glyph of digit d at 5 * d. */
  lemma GlyphInMemory(mem: seq<bv8>, d: nat)
    requires |Font.Glyphs| <= |mem| && mem[..|Font.Glyphs|] == Font.Glyphs && d < 16
    ensures var i := d * Font.GlyphHeight;
      i + Font.GlyphHeight <= |Font.Glyphs| && mem[i..i + Font.GlyphHeight] == Font.Glyphs[i..i + Font.GlyphHeight]
  {
    var i := d * Font.GlyphHeight;
    assert mem[i..i + Font.GlyphHeight] == mem[..|Font.Glyphs|][i..i + Font.GlyphHeight];
  }

  /** Fx29: I becomes 5 * Vx, the address of the glyph of digit Vx when
      Vx < 16 (see GlyphInMemory). */
  lemma RunFont(s: State, rnd: nat, x: Nibble)
    requires Ready(s)
    ensures Run(s, Index(LdF(x)), rnd) == Next(Tick(s).(pc := s.pc + 2, index := Value(s.v[x]) * Font.GlyphHeight))
  {
  }

  /** Fx29 then Dxy5 on a machine whose memory starts with the font: the
      five bytes read are the glyph of digit Vx, so that glyph is what is
      drawn whenever it fits the screen. */
  lemma FontThenDraw(s: State, t: State, rnd: nat, rnd': nat, x: Nibble, a: Nibble, b: Nibble)
    requires Ready(s) && s.mem[..|Font.Glyphs|] == Font.Glyphs && s.v[x] < 16
    requires Run(s, Index(LdF(x)), rnd) == Next(t)
    ensures var d := Value(s.v[x]) * Font.GlyphHeight;
      SpriteReadable(t, Font.GlyphHeight) && Sprite(t, Font.GlyphHeight) == Font.Glyphs[d..d + Font.GlyphHeight]
    ensures Drawable(t, a, b, Font.GlyphHeight) ==>
      Run(t, Screen(Drw(a, b, Font.GlyphHeight)), rnd').Next? &&
      Drawn(t, Run(t, Screen(Drw(a, b, Font.GlyphHeight)), rnd').state, a, b, Font.GlyphHeight)
  {
    RunFont(s, rnd, x);
    GlyphInMemory(s.mem, Value(s.v[x]));
    if Drawable(t, a, b, Font.GlyphHeight) {
      RunDraw(t, rnd', a, b, Font.GlyphHeight);
    }
  }

  /** The outcome of Fx33 with I + 2 inside memory. */
  predicate BcdStored(s: State, t: State, x: Alu.Reg)
    requires Valid(s) && Valid(t) && s.index + 3 <= MemSize
  {
    var i := s.index;
    t == Tick(s).(pc := t.pc, mem := t.mem) && t.pc == s.pc + 2 &&
    t.mem[i] < 10 && t.mem[i + 1] < 10 && t.mem[i + 2] < 10 &&
    t.mem[i] as int * 100 + t.mem[i + 1] as int * 10 + t.mem[i + 2] as int == s.v[x] as int &&
    forall a :: 0 <= a < MemSize && !(i <= a < i + 3) ==> t.mem[a] == s.mem[a]
  }

  lemma BcdResult(s: State, x: Nibble)
    requires Ready(s) && s.index + 3 <= MemSize
    ensures BcdStored(s, Tick(Advance(s.(mem := Alu.Bcd(s.mem, s.index, s.v[x])))), x)
  {
  }

  /** Fx33 stores the hundreds, tens and ones of Vx at I, I + 1, I + 2 and
      faults when those do not all lie inside memory. */
  lemma RunBcd(s: State, rnd: nat, x: Nibble)
    requires Ready(s)
    ensures Run(s, Index(LdB(x)), rnd).Faulted? <==> s.index + 3 > MemSize
    ensures s.index + 3 <= MemSize ==> Run(s, Index(LdB(x)), rnd).Next? && BcdStored(s, Run(s, Index(LdB(x)), rnd).state, x)
  {
    if s.index + 3 <= MemSize {
      assert Run(s, Index(LdB(x)), rnd) == Next(Tick(Advance(s.(mem := Alu.Bcd(s.mem, s.index, s.v[x])))));
      BcdResult(s, x);
    }
  }

  /** The outcome of Fx55 with I + x inside memory: V0..Vx at I..I + x,
      the rest of memory kept, and I moved past the copied bytes. */
  predicate RegsStored(s: State, t: State, x: Alu.Reg)
    requires Valid(s) && Valid(t) && s.index + x < MemSize
  {
    t == Tick(s).(pc := t.pc, mem := t.mem, index := t.index) && t.pc == s.pc + 2 &&
    t.index == s.index + x + 1 &&
    t.mem[s.index..s.index + x + 1] == s.v[..x + 1] &&
    forall a :: 0 <= a < MemSize && !(s.index <= a <= s.index + x) ==> t.mem[a] == s.mem[a]
  }

  /** The outcome of Fx65 with I + x inside memory: V0..Vx from I..I + x,
      the higher registers kept, and I moved past the copied bytes. */
  predicate RegsLoaded(s: State, t: State, x: Alu.Reg)
    requires Valid(s) && Valid(t) && s.index + x < MemSize
  {
    t == Tick(s).(pc := t.pc, v := t.v, index := t.index) && t.pc == s.pc + 2 &&
    t.index == s.index + x + 1 &&
    t.v[..x + 1] == s.mem[s.index..s.index + x + 1] &&
    forall r :: x < r < Registers ==> t.v[r] == s.v[r]
  }

  /** Fx55 faults exactly when I + x is past the end of memory. */
  lemma RunStoreRegs(s: State, rnd: nat, x: Nibble)
    requires Ready(s)
    ensures Run(s, Index(StoreRegs(x)), rnd).Faulted? <==> s.index + x >= MemSize
    ensures s.index + x < MemSize ==> Run(s, Index(StoreRegs(x)), rnd).Next? && RegsStored(s, Run(s, Index(StoreRegs(x)), rnd).state, x)
  {
    if s.index + x < MemSize {
      var t := Tick(Advance(s.(mem := Memory.Write(s.mem, s.index, s.v[..x + 1]), index := s.index + x + 1)));
      assert Run(s, Index(StoreRegs(x)), rnd) == Next(t);
      assert RegsStored(s, t, x);
    }
  }

  /** Fx65 faults exactly when I + x is past the end of memory. */
  lemma RunLoadRegs(s: State, rnd: nat, x: Nibble)
    requires Ready(s)
    ensures Run(s, Index(LoadRegs(x)), rnd).Faulted? <==> s.index + x >= MemSize
    ensures s.index + x < MemSize ==> Run(s, Index(LoadRegs(x)), rnd).Next? && RegsLoaded(s, Run(s, Index(LoadRegs(x)), rnd).state, x)
  {
    if s.index + x < MemSize {
      var t := Tick(Advance(s.(v := Memory.Write(s.v, 0, s.mem[s.index..s.index + x + 1]), index := s.index + x + 1)));
      assert Run(s, Index(LoadRegs(x)), rnd) == Next(t);
      assert RegsLoaded(s, t, x);
    }
  }

  /** Fx55 then, with I set back, Fx65 of the same x brings V0..Vx back,
      and leaves I where the store left it. */
  lemma StoreThenLoad(s: State, rnd: nat, u: State, rnd': nat, x: Nibble)
    requires Fetches(s, Index(StoreRegs(x))) && s.index + x < MemSize && Step(s, rnd).Next?
    requires Fetches(u, Index(LoadRegs(x))) && u.mem == Step(s, rnd).state.mem && u.index == s.index
    ensures Step(u, rnd').Next?
    ensures Step(u, rnd').state.v[..x + 1] == s.v[..x + 1]
    ensures Step(u, rnd').state.index == Step(s, rnd).state.index
  {
    StepRuns(s, rnd, Index(StoreRegs(x)));
    RunStoreRegs(s, rnd, x);
    StepRuns(u, rnd', Index(LoadRegs(x)));
    RunLoadRegs(u, rnd', x);
  }

  // ---- opcodes the decoder does not know ----

  /** An unknown opcode leaves PC where it is, so the same opcode is
      fetched again next cycle; the timers still tick. */
  lemma RunUnknown(s: State, rnd: nat, op: Word)
    requires Ready(s)
    ensures Run(s, Unknown(op), rnd) == Next(Tick(s))
    ensures Run(s, Unknown(op), rnd).state.pc == s.pc
  {
  }

  /** So a machine that fetches an unknown opcode fetches it again on every
      later cycle. */
  lemma UnknownRepeats(s: State, rnd: nat, op: Word)
    requires Fetches(s, Unknown(op))
    ensures Step(s, rnd).Next? && Fetches(Step(s, rnd).state, Unknown(op))
  {
    StepRuns(s, rnd, Unknown(op));
    RunUnknown(s, rnd, op);
  }
}
