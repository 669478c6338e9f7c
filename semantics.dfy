/** What one interpreter cycle does, as functions on `Machine` values.

    Each handler receives the machine with PC already advanced past the
    instruction, and the opcode with its operand fields `x` (bits 8-11) and
    `y` (bits 4-7). A low mask `& (2^k - 1)` is written `% 2^k`
    (Bits.AndLow); every other mask is written with `And`. */
module Semantics {
  import opened Bits
  import opened Chip8

  // ---------------------------------------------------------------------
  // Operand fields

  /** `op & 0x0FFF`: an address. */
  function Nnn(op: nat): nat { op % 4096 }

  /** `op & 0x00FF`: an immediate byte. */
  function Kk(op: nat): Byte { op % 256 }

  /** `op & 0x000F`: a sprite height. */
  function N(op: nat): nat { op % 16 }

  /** `(op & 0x0F00) >> 8` */
  function X(op: nat): Reg {
    AndBound(op, 0x0F00);
    ShiftsAreArithmetic(And(op, 0x0F00), 8);
    Pow2Values();
    Shr(And(op, 0x0F00), 8)
  }

  /** `(op & 0x00F0) >> 4` */
  function Y(op: nat): Reg {
    AndBound(op, 0x00F0);
    ShiftsAreArithmetic(And(op, 0x00F0), 4);
    Pow2Values();
    Shr(And(op, 0x00F0), 4)
  }

  // ---------------------------------------------------------------------
  // Handlers (the `_00E0` ... `_FX65` methods)

  /** 00E0: blank the screen. */
  function Op00E0(m: Machine): (r: Machine)
    requires m.Valid()
    ensures r.Valid() && r == m.(display := r.display, shouldDraw := true)
    ensures forall i :: 0 <= i < ScreenSize ==> r.display[i] == 0
  {
    m.(display := seq(ScreenSize, _ => 0), shouldDraw := true)
  }

  /** 00EE: return. Popping an empty stack raises inside the handler and the
      exception is swallowed, so nothing changes. */
  function Op00EE(m: Machine): (r: Machine)
    ensures |m.stack| == 0 ==> r == m
    ensures |m.stack| > 0 ==> r == m.(pc := r.pc, stack := r.stack) && r.stack + [r.pc] == m.stack
  {
    if |m.stack| == 0 then m
    else m.(pc := m.stack[|m.stack| - 1], stack := m.stack[..|m.stack| - 1])
  }

  /** 1NNN: jump. */
  function Op1NNN(m: Machine, op: nat): (r: Machine)
    ensures r == m.(pc := r.pc) && r.pc < 4096 && r.pc == op % 4096
  {
    m.(pc := Nnn(op))
  }

  /** 2NNN: call; pushes the already advanced PC. */
  function Op2NNN(m: Machine, op: nat): (r: Machine)
    ensures r == m.(pc := r.pc, stack := r.stack)
    ensures r.stack == m.stack + [m.pc] && r.pc == op % 4096
  {
    m.(stack := m.stack + [m.pc], pc := Nnn(op))
  }

  /** 3XKK: skip the next instruction if Vx == KK. */
  function Op3XKK(m: Machine, op: nat, x: Reg): (r: Machine)
    requires m.Valid()
    ensures r == m.(pc := r.pc) && (r.pc == m.pc || r.pc == m.pc + 2)
    ensures r.pc == m.pc + 2 <==> m.registers[x] == op % 256
  {
    if m.registers[x] == Kk(op) then m.(pc := m.pc + 2) else m
  }

  /** 4XKK: skip the next instruction if Vx != KK. */
  function Op4XKK(m: Machine, op: nat, x: Reg): (r: Machine)
    requires m.Valid()
    ensures r == m.(pc := r.pc) && (r.pc == m.pc || r.pc == m.pc + 2)
    ensures r.pc == m.pc + 2 <==> m.registers[x] != op % 256
  {
    if m.registers[x] != Kk(op) then m.(pc := m.pc + 2) else m
  }

  /** 5XY0 (any low nibble): skip the next instruction if Vx == Vy. */
  function Op5XY0(m: Machine, x: Reg, y: Reg): (r: Machine)
    requires m.Valid()
    ensures r == m.(pc := r.pc) && (r.pc == m.pc || r.pc == m.pc + 2)
    ensures r.pc == m.pc + 2 <==> m.registers[x] == m.registers[y]
  {
    if m.registers[x] == m.registers[y] then m.(pc := m.pc + 2) else m
  }

  /** Only register `x` changes, and it becomes `v`. */
  ghost predicate SetsOnly(m: Machine, r: Machine, x: Reg, v: nat)
    requires m.Valid()
  {
    r.Valid() && r == m.(registers := r.registers) && r.registers[x] == v
    && forall i :: 0 <= i < 16 && i != x ==> r.registers[i] == m.registers[i]
  }

  /** Only registers `x` and VF change: VF becomes `f` (unless `x` is VF)
      and Vx becomes `v`. */
  ghost predicate SetsWithFlag(m: Machine, r: Machine, x: Reg, f: nat, v: nat)
    requires m.Valid()
  {
    r.Valid() && r == m.(registers := r.registers) && r.registers[x] == v
    && (x != Flag ==> r.registers[Flag] == f)
    && forall i :: 0 <= i < 16 && i != x && i != Flag ==> r.registers[i] == m.registers[i]
  }

  /** 6XKK: Vx = KK. */
  function Op6XKK(m: Machine, op: nat, x: Reg): (r: Machine)
    requires m.Valid()
    ensures SetsOnly(m, r, x, op % 256)
  {
    m.(registers := m.registers[x := Kk(op)])
  }

  /** 7XKK: Vx += KK, with neither a mask nor a carry flag. */
  function Op7XKK(m: Machine, op: nat, x: Reg): (r: Machine)
    requires m.Valid()
    ensures SetsOnly(m, r, x, m.registers[x] + op % 256)
  {
    m.(registers := m.registers[x := m.registers[x] + Kk(op)])
  }

  /** 8XY0: Vx = Vy, then Vx &= 0xFF. */
  function Op8XY0(m: Machine, x: Reg, y: Reg): (r: Machine)
    requires m.Valid()
    ensures SetsOnly(m, r, x, m.registers[y] % 256)
  {
    m.(registers := m.registers[x := m.registers[y] % 256])
  }

  /** 8XY1: Vx |= Vy, then Vx &= 0xFF. */
  function Op8XY1(m: Machine, x: Reg, y: Reg): (r: Machine)
    requires m.Valid()
    ensures SetsOnly(m, r, x, Or(m.registers[x], m.registers[y]) % 256)
  {
    m.(registers := m.registers[x := Or(m.registers[x], m.registers[y]) % 256])
  }

  /** 8XY2: Vx &= Vy, then Vx &= 0xFF. */
  function Op8XY2(m: Machine, x: Reg, y: Reg): (r: Machine)
    requires m.Valid()
    ensures SetsOnly(m, r, x, And(m.registers[x], m.registers[y]) % 256)
  {
    m.(registers := m.registers[x := And(m.registers[x], m.registers[y]) % 256])
  }

  /** 8XY3: Vx ^= Vy, then Vx &= 0xFF. */
  function Op8XY3(m: Machine, x: Reg, y: Reg): (r: Machine)
    requires m.Valid()
    ensures SetsOnly(m, r, x, Xor(m.registers[x], m.registers[y]) % 256)
  {
    m.(registers := m.registers[x := Xor(m.registers[x], m.registers[y]) % 256])
  }

  /** 8XY4: VF = carry of Vx + Vy, then Vx = (Vx + Vy) & 0xFF. The flag is
      written first, so an operand that is VF is read after the write. */
  function Op8XY4(m: Machine, x: Reg, y: Reg): (r: Machine)
    requires m.Valid()
    ensures r.Valid() && r == m.(registers := r.registers) && r.registers[x] < 256
    ensures x != Flag && y != Flag ==>
      SetsWithFlag(m, r, x, if m.registers[x] + m.registers[y] > 255 then 1 else 0,
                   (m.registers[x] + m.registers[y]) % 256)
  {
    var regs := m.registers[Flag := if m.registers[x] + m.registers[y] > 0xFF then 1 else 0];
    m.(registers := regs[x := (regs[x] + regs[y]) % 256])
  }

  /** 8XY5: VF = (Vx > Vy), then Vx = (Vx - Vy) & 0xFF. */
  function Op8XY5(m: Machine, x: Reg, y: Reg): (r: Machine)
    requires m.Valid()
    ensures r.Valid() && r == m.(registers := r.registers) && r.registers[x] < 256
    ensures x != Flag && y != Flag ==>
      SetsWithFlag(m, r, x, if m.registers[x] > m.registers[y] then 1 else 0,
                   (m.registers[x] as int - m.registers[y]) % 256)
  {
    var regs := m.registers[Flag := if m.registers[x] > m.registers[y] then 1 else 0];
    var diff: int := regs[x] - regs[y];
    m.(registers := regs[x := diff % 256])
  }

  /** 8XY6: VF = Vx & 1, then Vx >>= 1 (no mask). */
  function Op8XY6(m: Machine, x: Reg): (r: Machine)
    requires m.Valid()
    ensures r.Valid() && r == m.(registers := r.registers)
    ensures x != Flag ==> SetsWithFlag(m, r, x, m.registers[x] % 2, m.registers[x] / 2)
  {
    var regs := m.registers[Flag := m.registers[x] % 2];
    ShiftsAreArithmetic(regs[x], 1);
    Pow2Values();
    m.(registers := regs[x := Shr(regs[x], 1)])
  }

  /** 8XY7: VF = (Vy > Vx), then Vx = (Vy - Vx) & 0xFF. */
  function Op8XY7(m: Machine, x: Reg, y: Reg): (r: Machine)
    requires m.Valid()
    ensures r.Valid() && r == m.(registers := r.registers) && r.registers[x] < 256
    ensures x != Flag && y != Flag ==>
      SetsWithFlag(m, r, x, if m.registers[y] > m.registers[x] then 1 else 0,
                   (m.registers[y] as int - m.registers[x]) % 256)
  {
    var regs := m.registers[Flag := if m.registers[y] > m.registers[x] then 1 else 0];
    var diff: int := regs[y] - regs[x];
    m.(registers := regs[x := diff % 256])
  }

  /** 8XYE: VF = (Vx & 0xF0) >> 7, then Vx = (Vx << 1) & 0xFF. */
  function Op8XYE(m: Machine, x: Reg): (r: Machine)
    requires m.Valid()
    ensures r.Valid() && r == m.(registers := r.registers) && r.registers[x] < 256
    ensures x != Flag ==>
      SetsWithFlag(m, r, x, Shr(And(m.registers[x], 0xF0), 7), Shl(m.registers[x], 1) % 256)
  {
    var regs := m.registers[Flag := Shr(And(m.registers[x], 0xF0), 7)];
    m.(registers := regs[x := Shl(regs[x], 1) % 256])
  }

  /** 9XY0 (any low nibble; the table holds `_9XXX`): skip if Vx != Vy. */
  function Op9XXX(m: Machine, x: Reg, y: Reg): (r: Machine)
    requires m.Valid()
    ensures r == m.(pc := r.pc) && (r.pc == m.pc || r.pc == m.pc + 2)
    ensures r.pc == m.pc + 2 <==> m.registers[x] != m.registers[y]
  {
    if m.registers[x] != m.registers[y] then m.(pc := m.pc + 2) else m
  }

  /** ANNN: I = NNN. */
  function OpANNN(m: Machine, op: nat): (r: Machine)
    ensures r == m.(index := r.index) && r.index == op % 4096
  {
    m.(index := Nnn(op))
  }

  /** BNNN: jump to NNN + V0 (no mask). */
  function OpBNNN(m: Machine, op: nat): (r: Machine)
    requires m.Valid()
    ensures r == m.(pc := r.pc) && r.pc == op % 4096 + m.registers[0]
  {
    m.(pc := Nnn(op) + m.registers[0])
  }

  /** CXKK: Vx = rnd & KK, for the random byte `rnd`. */
  function OpCXKK(m: Machine, op: nat, x: Reg, rnd: Byte): (r: Machine)
    requires m.Valid()
    ensures SetsOnly(m, r, x, And(rnd, op % 256))
    ensures And(rnd, op % 256) <= op % 256 && And(rnd, op % 256) <= rnd
  {
    AndBound(rnd, Kk(op));
    m.(registers := m.registers[x := And(rnd, Kk(op)) % 256])
  }

  // --- DXYN ---------------------------------------------------------------

  function Min(a: nat, b: nat): (r: nat)
    ensures r <= a && r <= b && (r == a || r == b)
  {
    if a <= b then a else b
  }

  /** How many of the `n` sprite rows starting at row `y0` are on screen:
      rows `0 .. r - 1` are, row `r` (if any) is below the bottom edge. */
  function VisibleRows(y0: nat, n: nat): (r: nat)
    ensures r <= n && (r > 0 ==> y0 + r <= ScreenHeight)
    ensures r < n ==> y0 + r >= ScreenHeight
  {
    if y0 >= ScreenHeight then 0 else Min(n, ScreenHeight - y0)
  }

  /** How many of the 8 sprite columns starting at column `x0` are on
      screen: columns `0 .. r - 1` are, column `r` (if any) is past the
      right edge. */
  function VisibleCols(x0: nat): (r: nat)
    ensures r <= 8 && (r > 0 ==> x0 + r <= ScreenWidth)
    ensures r < 8 ==> x0 + r >= ScreenWidth
  {
    if x0 >= ScreenWidth then 0 else Min(8, ScreenWidth - x0)
  }

  /** Screen cell `i` lies under the sprite of height `n` drawn at (x0, y0). */
  predicate Covered(i: nat, x0: nat, y0: nat, n: nat) {
    x0 <= i % ScreenWidth < x0 + 8 && y0 <= i / ScreenWidth < y0 + n
  }

  /** The sprite pixel of sprite row `row`, column `col`:
      `(memory[I + row] & (1 << 8 - p)) >> (8 - p)` with `p = col + 1`. */
  function SpritePixel(memory: seq<nat>, index: nat, row: nat, col: nat): nat
    requires col < 8 && index + row < |memory|
  {
    var offset := col + 1;
    Shr(And(memory[index + row], Shl(1, 8 - offset)), 8 - offset)
  }

  /** The screen after XOR-ing the sprite into it, clipped at the edges. */
  function DrawnDisplay(display: seq<nat>, memory: seq<nat>, index: nat, x0: nat, y0: nat, n: nat): (d: seq<nat>)
    requires |display| == ScreenSize && (n == 0 || index + n <= |memory|)
    ensures |d| == ScreenSize
  {
    seq(ScreenSize, i requires 0 <= i < ScreenSize =>
      if Covered(i, x0, y0, n)
      then Xor(display[i], SpritePixel(memory, index, i / ScreenWidth - y0, i % ScreenWidth - x0))
      else display[i])
  }

  /** VF after a draw: written on every on-screen cell, so it tells whether
      the last on-screen cell visited (bottom-right of the visible part)
      ends as 0; it stays 0 when nothing is on screen. */
  function DrawFlag(display: seq<nat>, x0: nat, y0: nat, n: nat): (f: nat)
    requires |display| == ScreenSize
    ensures f <= 1
  {
    var rows, cols := VisibleRows(y0, n), VisibleCols(x0);
    if rows == 0 || cols == 0 then 0
    else if display[x0 + cols - 1 + (y0 + rows - 1) * ScreenWidth] == 0 then 1 else 0
  }

  /** DXYN: draw the N-row sprite at memory[I..] at (Vx & 0xFF, Vy & 0xFF).
      VF is cleared before Vx and Vy are read. */
  function OpDXYN(m: Machine, op: nat, x: Reg, y: Reg): (r: Machine)
    requires m.Valid() && (N(op) == 0 || m.index + N(op) <= MemorySize)
    ensures r.Valid() && r == m.(registers := r.registers, display := r.display, shouldDraw := true)
    ensures r.registers[Flag] <= 1
    ensures forall i :: 0 <= i < 15 ==> r.registers[i] == m.registers[i]
  {
    var regs := m.registers[Flag := 0];
    var x0, y0, n := regs[x] % 256, regs[y] % 256, N(op);
    var d := DrawnDisplay(m.display, m.memory, m.index, x0, y0, n);
    m.(registers := regs[Flag := DrawFlag(d, x0, y0, n)], display := d, shouldDraw := true)
  }

  // --- keys and timers ----------------------------------------------------

  /** EX9E: skip if key `Vx & 0xF` is down. */
  function OpEX9E(m: Machine, x: Reg): (r: Machine)
    requires m.Valid()
    ensures r == m.(pc := r.pc) && (r.pc == m.pc || r.pc == m.pc + 2)
    ensures r.pc == m.pc + 2 <==> m.keys[m.registers[x] % 16]
  {
    if m.keys[m.registers[x] % 16] then m.(pc := m.pc + 2) else m
  }

  /** EXA1: skip if key `Vx & 0xF` is up. */
  function OpEXA1(m: Machine, x: Reg): (r: Machine)
    requires m.Valid()
    ensures r == m.(pc := r.pc) && (r.pc == m.pc || r.pc == m.pc + 2)
    ensures r.pc == m.pc + 2 <==> !m.keys[m.registers[x] % 16]
  {
    if !m.keys[m.registers[x] % 16] then m.(pc := m.pc + 2) else m
  }

  /** FX07: Vx = delay timer. */
  function OpFX07(m: Machine, x: Reg): (r: Machine)
    requires m.Valid()
    ensures SetsOnly(m, r, x, m.delayTimer)
  {
    m.(registers := m.registers[x := m.delayTimer])
  }

  /** `get_key`: the lowest key that is down, or -1. */
  function GetKey(keys: seq<bool>): (k: int)
    ensures -1 <= k < |keys|
    ensures k == -1 <==> forall j :: 0 <= j < |keys| ==> !keys[j]
    ensures k >= 0 ==> keys[k] && forall j :: 0 <= j < k ==> !keys[j]
  {
    if |keys| == 0 then -1
    else if keys[0] then 0
    else
      var k := GetKey(keys[1..]);
      if k < 0 then -1 else k + 1
  }

  /** FX0A: Vx = the lowest key down; with none down, PC is moved back onto
      this instruction so that the next cycle runs it again. */
  function OpFX0A(m: Machine, x: Reg): (r: Machine)
    requires m.Valid() && m.pc >= 2
    ensures GetKey(m.keys) >= 0 ==> SetsOnly(m, r, x, GetKey(m.keys))
    ensures GetKey(m.keys) < 0 ==> r == m.(pc := m.pc - 2)
  {
    var k := GetKey(m.keys);
    if k >= 0 then m.(registers := m.registers[x := k]) else m.(pc := m.pc - 2)
  }

  /** FX15: delay timer = Vx. */
  function OpFX15(m: Machine, x: Reg): (r: Machine)
    requires m.Valid()
    ensures r == m.(delayTimer := m.registers[x])
  {
    m.(delayTimer := m.registers[x])
  }

  /** FX18: sound timer = Vx. */
  function OpFX18(m: Machine, x: Reg): (r: Machine)
    requires m.Valid()
    ensures r == m.(soundTimer := m.registers[x])
  {
    m.(soundTimer := m.registers[x])
  }

  /** FX1E: I += Vx; past 0xFFF, VF = 1 and I &= 0xFFF, otherwise VF = 0. */
  function OpFX1E(m: Machine, x: Reg): (r: Machine)
    requires m.Valid()
    ensures r.Valid() && r == m.(index := r.index, registers := r.registers)
    ensures r.index == (m.index + m.registers[x]) % 4096
    ensures r.registers[Flag] == if m.index + m.registers[x] > 0xFFF then 1 else 0
    ensures forall i :: 0 <= i < 15 ==> r.registers[i] == m.registers[i]
  {
    var i := m.index + m.registers[x];
    if i > 0xFFF then m.(index := i % 4096, registers := m.registers[Flag := 1])
    else m.(index := i, registers := m.registers[Flag := 0])
  }

  /** FX29: I = (5 * Vx) & 0xFFF, the address of the glyph for digit Vx. */
  function OpFX29(m: Machine, x: Reg): (r: Machine)
    requires m.Valid()
    ensures r == m.(index := r.index) && r.index == (5 * m.registers[x]) % 4096
    ensures m.registers[x] < 16 ==> r.index == 5 * m.registers[x] && r.index + 5 <= |Fonts|
  {
    m.(index := (5 * m.registers[x]) % 4096)
  }

  /** The three decimal digits stored by FX33: hundreds, tens and ones
      (integer division; see the Bcd module for the source's division). */
  function Digits(v: nat): (d: (nat, nat, nat))
    ensures d.1 < 10 && d.2 < 10
    ensures 100 * d.0 + 10 * d.1 + d.2 == v
  {
    (v / 100, (v % 100) / 10, v % 10)
  }

  /** FX33: store the decimal digits of Vx at I, I+1 and I+2. */
  function OpFX33(m: Machine, x: Reg): (r: Machine)
    requires m.Valid() && m.index + 2 < MemorySize
    ensures r.Valid() && r == m.(memory := r.memory)
    ensures 100 * r.memory[m.index] + 10 * r.memory[m.index + 1] + r.memory[m.index + 2] == m.registers[x]
    ensures r.memory[m.index + 1] < 10 && r.memory[m.index + 2] < 10
    ensures forall j :: 0 <= j < MemorySize && !(m.index <= j < m.index + 3) ==> r.memory[j] == m.memory[j]
  {
    var d := Digits(m.registers[x]);
    m.(memory := m.memory[m.index := d.0][m.index + 1 := d.1][m.index + 2 := d.2])
  }

  /** FX55: memory[I + i] = Vi for i in 0..x, then I += x + 1. */
  function OpFX55(m: Machine, x: Reg): (r: Machine)
    requires m.Valid() && m.index + x < MemorySize
    ensures r.Valid() && r == m.(memory := r.memory, index := m.index + x + 1)
    ensures forall j :: 0 <= j <= x ==> r.memory[m.index + j] == m.registers[j]
    ensures forall j :: 0 <= j < MemorySize && !(m.index <= j <= m.index + x) ==> r.memory[j] == m.memory[j]
  {
    m.(memory := seq(MemorySize, j requires 0 <= j < MemorySize =>
         if m.index <= j <= m.index + x then m.registers[j - m.index] else m.memory[j]),
       index := m.index + x + 1)
  }

  /** FX65: Vi = memory[I + i] for i in 0..x, then I += x + 1. */
  function OpFX65(m: Machine, x: Reg): (r: Machine)
    requires m.Valid() && m.index + x < MemorySize
    ensures r.Valid() && r == m.(registers := r.registers, index := m.index + x + 1)
    ensures forall j :: 0 <= j <= x ==> r.registers[j] == m.memory[m.index + j]
    ensures forall j :: x < j < 16 ==> r.registers[j] == m.registers[j]
  {
    m.(registers := seq(16, j requires 0 <= j < 16 =>
         if j <= x then m.memory[m.index + j] else m.registers[j]),
       index := m.index + x + 1)
  }

  // ---------------------------------------------------------------------
  // Dispatch

  /** What a handler needs so that it does not raise partway through:
      DXYN reads N rows at I, FX33 writes three cells at I, FX55 and FX65
      touch x + 1 cells at I, and FX0A steps PC back by 2. */
  predicate Safe(m: Machine, h: Handler, op: nat, x: Reg) {
    match h
    case HDXYN => N(op) == 0 || m.index + N(op) <= MemorySize
    case HFX33 => m.index + 2 < MemorySize
    case HFX55 => m.index + x < MemorySize
    case HFX65 => m.index + x < MemorySize
    case HFX0A => m.pc >= 2
    case _ => true
  }

  /** Runs the handler `h` (not a dispatcher). */
  function Execute(m: Machine, h: Handler, op: nat, x: Reg, y: Reg, rnd: Byte): (r: Machine)
    requires m.Valid() && !h.IsDispatcher() && Safe(m, h, op, x)
    ensures r.Valid()
  {
    match h
    case H00E0 => Op00E0(m)
    case H00EE => Op00EE(m)
    case H1NNN => Op1NNN(m, op)
    case H2NNN => Op2NNN(m, op)
    case H3XKK => Op3XKK(m, op, x)
    case H4XKK => Op4XKK(m, op, x)
    case H5XY0 => Op5XY0(m, x, y)
    case H6XKK => Op6XKK(m, op, x)
    case H7XKK => Op7XKK(m, op, x)
    case H8XY0 => Op8XY0(m, x, y)
    case H8XY1 => Op8XY1(m, x, y)
    case H8XY2 => Op8XY2(m, x, y)
    case H8XY3 => Op8XY3(m, x, y)
    case H8XY4 => Op8XY4(m, x, y)
    case H8XY5 => Op8XY5(m, x, y)
    case H8XY6 => Op8XY6(m, x)
    case H8XY7 => Op8XY7(m, x, y)
    case H8XYE => Op8XYE(m, x)
    case H9XXX => Op9XXX(m, x, y)
    case HANNN => OpANNN(m, op)
    case HBNNN => OpBNNN(m, op)
    case HCXKK => OpCXKK(m, op, x, rnd)
    case HDXYN => OpDXYN(m, op, x, y)
    case HEX9E => OpEX9E(m, x)
    case HEXA1 => OpEXA1(m, x)
    case HFX07 => OpFX07(m, x)
    case HFX0A => OpFX0A(m, x)
    case HFX15 => OpFX15(m, x)
    case HFX18 => OpFX18(m, x)
    case HFX1E => OpFX1E(m, x)
    case HFX29 => OpFX29(m, x)
    case HFX33 => OpFX33(m, x)
    case HFX55 => OpFX55(m, x)
    case HFX65 => OpFX65(m, x)
  }

  /** A second-level lookup. A missing key raises `KeyError`, which the
      dispatcher swallows; a key that finds a dispatcher again (0x0?00
      finds `_0000`, 0xE?X0 finds `_EXXX`, 0xF?00 finds `_FXXX`) makes it
      call itself until the recursion limit raises, which is swallowed too.
      Either way no handler runs. */
  function Lookup(key: nat): (h: Option<Handler>)
    ensures h.Some? ==> !h.value.IsDispatcher()
  {
    match FunctionMap(key)
    case Some(h) => if h.IsDispatcher() then None else Some(h)
    case None => None
  }

  /** The handler the two-level table lookup reaches for `op`, if any. */
  function Resolve(op: nat): (h: Option<Handler>)
    ensures h.Some? ==> !h.value.IsDispatcher()
  {
    match FunctionMap(And(op, 0xF000))
    case None => None
    case Some(H0000) => Lookup(And(op, 0xF0FF))
    case Some(H8XXX) => Lookup(And(op, 0xF00F) + 0xFF0)
    case Some(HEXXX) => Lookup(And(op, 0xF00F))
    case Some(HFXXX) => Lookup(And(op, 0xF0FF))
    case Some(h) => Some(h)
  }

  predicate RunSafe(m: Machine, h: Option<Handler>, op: nat, x: Reg) {
    h.Some? ==> Safe(m, h.value, op, x)
  }

  /** Runs the handler found, or nothing if the lookup failed. */
  function Run(m: Machine, h: Option<Handler>, op: nat, x: Reg, y: Reg, rnd: Byte): (r: Machine)
    requires m.Valid() && (h.Some? ==> !h.value.IsDispatcher()) && RunSafe(m, h, op, x)
    ensures r.Valid()
    ensures h.None? ==> r == m
  {
    match h
    case None => m
    case Some(handler) => Execute(m, handler, op, x, y, rnd)
  }

  // ---------------------------------------------------------------------
  // The cycle

  /** `(memory[pc] << 8) | memory[pc + 1]` */
  function Fetch(m: Machine): nat
    requires m.Valid() && m.pc + 1 < MemorySize
  {
    Or(Shl(m.memory[m.pc], 8), m.memory[m.pc + 1])
  }

  /** Each timer above zero goes down by one. */
  function TickTimers(m: Machine): (r: Machine)
    ensures r == m.(delayTimer := r.delayTimer, soundTimer := r.soundTimer)
    ensures r.delayTimer == if m.delayTimer > 0 then m.delayTimer - 1 else 0
    ensures r.soundTimer == if m.soundTimer > 0 then m.soundTimer - 1 else 0
  {
    m.(delayTimer := if m.delayTimer > 0 then m.delayTimer - 1 else m.delayTimer,
       soundTimer := if m.soundTimer > 0 then m.soundTimer - 1 else m.soundTimer)
  }

  /** The fetch does not run off memory and the handler reached does not
      raise partway through. */
  predicate CycleSafe(m: Machine) {
    m.Valid() && m.pc + 1 < MemorySize &&
    var op := Fetch(m);
    RunSafe(m.(pc := m.pc + 2), Resolve(op), op, X(op))
  }

  /** One cycle: fetch, advance PC by 2, decode x and y, dispatch, tick the
      timers. `rnd` is the byte CXKK would draw at random. */
  function Cycle(m: Machine, rnd: Byte): (r: Machine)
    requires CycleSafe(m)
    ensures r.Valid()
  {
    var op := Fetch(m);
    var advanced := m.(pc := m.pc + 2);
    TickTimers(Run(advanced, Resolve(op), op, X(op), Y(op), rnd))
  }

  // ---------------------------------------------------------------------
  // Initialisation, loading, input

  /** The state `init` leaves: memory zeroed apart from the font at 0,
      registers and screen zeroed, PC at 0x200, empty stack, no key down. */
  function Initial(): (r: Machine)
    ensures r.Valid() && r.pc == ProgramStart && r.index == 0 && r.stack == []
    ensures r.memory[..|Fonts|] == Fonts
    ensures forall i :: |Fonts| <= i < MemorySize ==> r.memory[i] == 0
    ensures forall i :: 0 <= i < 16 ==> r.registers[i] == 0 && !r.keys[i]
    ensures forall i :: 0 <= i < ScreenSize ==> r.display[i] == 0
    ensures r.delayTimer == 0 && r.soundTimer == 0 && !r.shouldDraw
  {
    Machine(
      memory := Fonts + seq(MemorySize - |Fonts|, _ => 0),
      registers := seq(16, _ => 0),
      index := 0,
      pc := ProgramStart,
      stack := [],
      display := seq(ScreenSize, _ => 0),
      keys := seq(16, _ => false),
      delayTimer := 0,
      soundTimer := 0,
      shouldDraw := false)
  }

  /** The copy loop of `load`: program byte i goes to 0x200 + i. */
  function LoadProgram(m: Machine, program: seq<Byte>): (r: Machine)
    requires m.Valid() && |program| <= ProgramCapacity
    ensures r.Valid() && r == m.(memory := r.memory)
    ensures forall i :: 0 <= i < |program| ==> r.memory[ProgramStart + i] == program[i]
    ensures forall j :: 0 <= j < MemorySize && !(ProgramStart <= j < ProgramStart + |program|) ==>
      r.memory[j] == m.memory[j]
  {
    m.(memory := m.memory[..ProgramStart] + program + m.memory[ProgramStart + |program|..])
  }

  /** A key event from the host: key `k` goes down or up. */
  function SetKey(m: Machine, k: Reg, down: bool): (r: Machine)
    requires m.Valid()
    ensures r.Valid() && r == m.(keys := r.keys) && r.keys[k] == down
    ensures forall j :: 0 <= j < 16 && j != k ==> r.keys[j] == m.keys[j]
  {
    m.(keys := m.keys[k := down])
  }
}
