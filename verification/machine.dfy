/** The virtual machine's state, its reset, the ROM loader and the timer
    tick that ends every cycle. */
module Machine {
  import Font
  import Memory
  import Display

  const MemSize := 4096
  /** Address at which programs are loaded and execution starts. */
  const ProgramStart := 0x200
  /** Programs must be strictly shorter than this to be loaded. */
  const MaxProgram := 3584
  const Registers := 16
  const StackDepth := 16
  const KeyCount := 16

  /** A value of a C `uint16_t`. */
  type U16 = n: int | 0 <= n < 0x10000

  /** Conversion of a non-negative C `int` to `uint16_t`: reduction modulo 2^16. */
  function Wrap16(n: nat): (r: U16)
    ensures n < 0x10000 ==> r == n
    ensures 0x10000 <= n < 0x20000 ==> r == n - 0x10000
  {
    n % 0x10000
  }

  /** A byte as an unsigned integer. */
  function Value(b: bv8): (n: nat)
    ensures n < 0x100
  {
    b as nat
  }

  /** A number below 256 survives the trip into a byte and back. */
  lemma ByteValue(n: int)
    requires 0 <= n < 0x100
    ensures Value(n as bv8) == n
  {
  }

  /** Memory, the sixteen V registers, the index register I, the program
      counter, the return stack and its pointer, the delay and sound
      timers, the frame buffer with its redraw flag, and the key pad.
      I, PC and the stack entries are 16-bit and wrap around. */
  datatype State = State(
    mem: seq<bv8>,
    v: seq<bv8>,
    index: U16,
    pc: U16,
    stack: seq<U16>,
    sp: nat,
    delay: bv8,
    sound: bv8,
    display: seq<bv8>,
    draw: bool,
    keys: seq<bv8>)

  /** Every array has its fixed size and the stack pointer is within the stack. */
  predicate Valid(s: State) {
    |s.mem| == MemSize && |s.v| == Registers && |s.stack| == StackDepth &&
    s.sp <= StackDepth && |s.display| == Display.Cells && |s.keys| == KeyCount
  }

  /** The reset state: the font in the first 80 bytes, the rest of memory,
      registers, stack, timers, keys and screen cleared, PC at 0x200. */
  function Init(): (s: State)
    ensures Valid(s)
    ensures s.pc == ProgramStart && s.index == 0 && s.sp == 0
    ensures s.mem[..|Font.Glyphs|] == Font.Glyphs
    ensures forall a :: |Font.Glyphs| <= a < MemSize ==> s.mem[a] == 0
    ensures forall r :: 0 <= r < Registers ==> s.v[r] == 0 && s.stack[r] == 0 && s.keys[r] == 0
    ensures s.delay == 0 && s.sound == 0
    ensures s.display == Display.Blank() && !s.draw
  {
    State(
      mem := Memory.Write(seq(MemSize, _ => 0), 0, Font.Glyphs),
      v := seq(Registers, _ => 0),
      index := 0,
      pc := ProgramStart,
      stack := seq(StackDepth, _ => 0),
      sp := 0,
      delay := 0,
      sound := 0,
      display := Display.Blank(),
      draw := false,
      keys := seq(KeyCount, _ => 0))
  }

  /** Copies a program image to 0x200 when it is shorter than 3584 bytes;
      a longer image is refused and memory is left as it was. */
  function LoadRom(s: State, rom: seq<bv8>): (r: State)
    requires Valid(s)
    ensures Valid(r)
    ensures r == s.(mem := r.mem)
    ensures |rom| < MaxProgram ==> r.mem[ProgramStart..ProgramStart + |rom|] == rom
    ensures forall a :: 0 <= a < MemSize && !(ProgramStart <= a < ProgramStart + |rom|) ==> r.mem[a] == s.mem[a]
    ensures |rom| >= MaxProgram ==> r == s
  {
    if |rom| < MaxProgram then s.(mem := Memory.Write(s.mem, ProgramStart, rom)) else s
  }

  /** Loading a program into the reset machine leaves the font in place. */
  lemma LoadKeepsFont(rom: seq<bv8>)
    ensures LoadRom(Init(), rom).mem[..|Font.Glyphs|] == Font.Glyphs
  {
    var s := Init();
    var r := LoadRom(s, rom);
    forall a | 0 <= a < |Font.Glyphs|
      ensures r.mem[a] == Font.Glyphs[a]
    {
      assert s.mem[..|Font.Glyphs|][a] == s.mem[a];
    }
  }

  /** One decrement of a timer that stops at zero. */
  function Countdown(t: bv8): (r: bv8)
    ensures t == 0 ==> r == 0
    ensures t != 0 ==> r < t && r as int == t as int - 1
  {
    if t > 0 then t - 1 else t
  }

  /** The end of a cycle: both timers count down by one unless already zero. */
  function Tick(s: State): (r: State)
    ensures r == s.(delay := r.delay, sound := r.sound)
    ensures r.delay <= s.delay && r.sound <= s.sound
    ensures s.delay != 0 ==> r.delay as int == s.delay as int - 1
    ensures s.sound != 0 ==> r.sound as int == s.sound as int - 1
    ensures s.delay == 0 ==> r.delay == 0
    ensures s.sound == 0 ==> r.sound == 0
  {
    s.(delay := Countdown(s.delay), sound := Countdown(s.sound))
  }
}
