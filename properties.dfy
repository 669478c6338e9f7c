/** Properties of the interpreter that relate several steps or that say what
    an instruction's arithmetic means. */
module Properties {
  import opened Bits
  import opened Chip8
  import opened Semantics
  import opened Decoding

  // ---------------------------------------------------------------------
  // The cycle

  /** A cycle runs the handler the opcode's nibbles name, on the machine
      with PC already past the instruction, with x and y read from bits
      8-11 and 4-7, and only then ticks the timers. */
  lemma CycleDecoded(m: Machine, rnd: Byte, op: nat)
    requires CycleSafe(m) && op == Fetch(m)
    ensures X(op) == (op / 256) % 16 && Y(op) == (op / 16) % 16
    ensures Decode(op) == Resolve(op)
    ensures Cycle(m, rnd) == TickTimers(Run(m.(pc := m.pc + 2), Decode(op), op, (op / 256) % 16, (op / 16) % 16, rnd))
  {
    ResolveDecode(op);
    RegisterFields(op);
  }

  /** An opcode that names no handler only moves PC past itself; the timers
      still tick. */
  lemma UnknownOpcodeIsNoOp(m: Machine, rnd: Byte)
    requires CycleSafe(m) && Decode(Fetch(m)) == None
    ensures Cycle(m, rnd) == TickTimers(m.(pc := m.pc + 2))
  {
    ResolveDecode(Fetch(m));
  }

  /** 8XY8 falls through the table: family 8 has no arithmetic instruction 8. */
  lemma UnknownOpcode8(x: nat, y: nat)
    requires x < 16 && y < 16
    ensures Decode(0x8000 + x * 256 + y * 16 + 0x8) == None
  {
    FieldsRoundTrip(0x8, x, y, 0x8);
  }

  /** E??5 falls through the table: family E looks at the low nibble only. */
  lemma UnknownOpcodeE(x: nat, y: nat)
    requires x < 16 && y < 16
    ensures Decode(0xE000 + x * 256 + y * 16 + 0x5) == None
  {
    FieldsRoundTrip(0xE, x, y, 0x5);
  }

  /** F?99 falls through the table. */
  lemma UnknownOpcodeF(x: nat)
    requires x < 16
    ensures Decode(0xF000 + x * 256 + 0x99) == None
  {
    FieldsRoundTrip(0xF, x, 0x9, 0x9);
  }

  /** 0x0?00 runs no handler: its second-level key finds `_0000` again. */
  lemma DispatcherKey0(x: nat)
    requires x < 16
    ensures Decode(0x0000 + x * 256) == None
  {
    FieldsRoundTrip(0x0, x, 0, 0);
  }

  /** E??0 runs no handler: its second-level key finds `_EXXX` again. */
  lemma DispatcherKeyE(x: nat, y: nat)
    requires x < 16 && y < 16
    ensures Decode(0xE000 + x * 256 + y * 16) == None
  {
    FieldsRoundTrip(0xE, x, y, 0);
  }

  /** F?00 runs no handler: its second-level key finds `_FXXX` again. */
  lemma DispatcherKeyF(x: nat)
    requires x < 16
    ensures Decode(0xF000 + x * 256) == None
  {
    FieldsRoundTrip(0xF, x, 0, 0);
  }

  /** The masks ignore nibbles: 0x0?E0 clears the screen for any second
      nibble, E??E tests a key like EX9E whatever its third nibble, and
      5XY? and 9XY? compare registers whatever their low nibble. */
  lemma IgnoredNibbles(x: nat, y: nat, n: nat)
    requires x < 16 && y < 16 && n < 16
    ensures Decode(0x0000 + x * 256 + 0xE0) == Some(H00E0)
    ensures Decode(0xE000 + x * 256 + y * 16 + 0xE) == Some(HEX9E)
    ensures Decode(0x5000 + x * 256 + y * 16 + n) == Some(H5XY0)
    ensures Decode(0x9000 + x * 256 + y * 16 + n) == Some(H9XXX)
  {
    assert Decode(0x0000 + x * 256 + 0xE0) == Some(H00E0) by {
      FieldsRoundTrip(0x0, x, 0xE, 0);
    }
    assert Decode(0xE000 + x * 256 + y * 16 + 0xE) == Some(HEX9E) by {
      FieldsRoundTrip(0xE, x, y, 0xE);
    }
    assert Decode(0x5000 + x * 256 + y * 16 + n) == Some(H5XY0) by {
      FieldsRoundTrip(0x5, x, y, n);
    }
    assert Decode(0x9000 + x * 256 + y * 16 + n) == Some(H9XXX) by {
      FieldsRoundTrip(0x9, x, y, n);
    }
  }

  /** FX15 loads the delay timer from Vx, and the same cycle then ticks it:
      after the cycle it is one below Vx (or 0). */
  lemma DelayTimerSetThenTicked(m: Machine, rnd: Byte)
    requires CycleSafe(m) && Decode(Fetch(m)) == Some(HFX15)
    ensures var v := m.registers[(Fetch(m) / 256) % 16];
      Cycle(m, rnd).delayTimer == (if v > 0 then v - 1 else 0)
  {
    CycleDecoded(m, rnd, Fetch(m));
  }

  /** FX18 does the same for the sound timer. */
  lemma SoundTimerSetThenTicked(m: Machine, rnd: Byte)
    requires CycleSafe(m) && Decode(Fetch(m)) == Some(HFX18)
    ensures var v := m.registers[(Fetch(m) / 256) % 16];
      Cycle(m, rnd).soundTimer == (if v > 0 then v - 1 else 0)
  {
    CycleDecoded(m, rnd, Fetch(m));
  }

  // ---------------------------------------------------------------------
  // Subroutines

  /** A return undoes a call. */
  lemma ReturnUndoesCall(m: Machine, op: nat)
    ensures Op00EE(Op2NNN(m, op)) == m
  {
  }

  /** Over two cycles, a call at PC followed by a return at the called
      address resumes at the instruction after the call, with the stack as
      it was. */
  lemma CallThenReturn(m: Machine, rnd1: Byte, rnd2: Byte)
    requires CycleSafe(m) && Decode(Fetch(m)) == Some(H2NNN)
    requires CycleSafe(Cycle(m, rnd1)) && Decode(Fetch(Cycle(m, rnd1))) == Some(H00EE)
    ensures Cycle(m, rnd1).pc == Fetch(m) % 4096
    ensures Cycle(m, rnd1).stack == m.stack + [m.pc + 2]
    ensures Cycle(Cycle(m, rnd1), rnd2).pc == m.pc + 2
    ensures Cycle(Cycle(m, rnd1), rnd2).stack == m.stack
  {
    CycleDecoded(m, rnd1, Fetch(m));
    CycleDecoded(Cycle(m, rnd1), rnd2, Fetch(Cycle(m, rnd1)));
  }

  /** A return with an empty stack raises inside the handler, which is
      swallowed: the cycle only moves PC past the instruction. */
  lemma ReturnOnEmptyStack(m: Machine, rnd: Byte)
    requires CycleSafe(m) && Decode(Fetch(m)) == Some(H00EE) && m.stack == []
    ensures Cycle(m, rnd) == TickTimers(m.(pc := m.pc + 2))
  {
    CycleDecoded(m, rnd, Fetch(m));
  }

  // ---------------------------------------------------------------------
  // Arithmetic

  /** 8XY4 on byte operands: the carry in VF and the new Vx together are
      the exact sum. */
  lemma AddWithCarry(m: Machine, x: Reg, y: Reg)
    requires m.Valid() && x != Flag && y != Flag
    requires m.registers[x] < 256 && m.registers[y] < 256
    ensures var r := Op8XY4(m, x, y);
      256 * r.registers[Flag] + r.registers[x] == m.registers[x] + m.registers[y]
  {
  }

  /** 8XY5 on byte operands: Vx becomes the difference modulo 256, and VF is
      1 only when Vx is strictly greater (equal operands give 0). */
  lemma SubtractWithFlag(m: Machine, x: Reg, y: Reg)
    requires m.Valid() && x != Flag && y != Flag
    requires m.registers[x] < 256 && m.registers[y] < 256
    ensures var r := Op8XY5(m, x, y);
      r.registers[x] == (if m.registers[x] >= m.registers[y] then m.registers[x] - m.registers[y]
                         else m.registers[x] + 256 - m.registers[y])
      && (r.registers[Flag] == 1 <==> m.registers[x] > m.registers[y])
  {
  }

  /** With Vx = VF, 8XY4 adds Vy to the flag it has just written, not to the
      old VF. */
  lemma AddIntoFlag(m: Machine, y: Reg)
    requires m.Valid() && y != Flag
    ensures var carry := if m.registers[Flag] + m.registers[y] > 255 then 1 else 0;
      Op8XY4(m, Flag, y).registers[Flag] == (carry + m.registers[y]) % 256
  {
  }

  /** 8XYE: `(Vx & 0xF0) >> 7` is bit 7 of Vx, the bit shifted out. */
  lemma ShiftLeftFlag(m: Machine, x: Reg)
    requires m.Valid() && x != Flag
    ensures Op8XYE(m, x).registers[Flag] == Bit(m.registers[x], 7)
    ensures Op8XYE(m, x).registers[x] == (2 * m.registers[x]) % 256
  {
    var v := m.registers[x];
    NibbleMask(v, 4, 16);
    Pow2Values();
    ShiftsAreArithmetic(And(v, 0xF0), 7);
    ShiftsAreArithmetic(v, 7);
    ShiftsAreArithmetic(v, 1);
    var q := v / 16;
    DivModUnique(v, 128, q / 8, (q % 8) * 16 + v % 16);
    DivModUnique((q % 16) * 16, 128, (q % 16) / 8, ((q % 16) % 8) * 16);
    DivModUnique(q, 16, q / 16, q % 16);
    DivModUnique(q / 8, 2, q / 16, (q % 16) / 8);
  }

  /** 8XY6: VF is bit 0 of Vx, the bit shifted out. */
  lemma ShiftRightFlag(m: Machine, x: Reg)
    requires m.Valid() && x != Flag
    ensures Op8XY6(m, x).registers[Flag] == Bit(m.registers[x], 0)
  {
  }

  // ---------------------------------------------------------------------
  // Drawing

  /** DXYN on one on-screen sprite pixel: the screen cell at
      (x0 + c, y0 + r) is XOR-ed with bit 7 - c of sprite row r. VF is
      cleared before Vx and Vy are read, so DFYN and DXFN draw at column or
      row 0. */
  lemma DrawCell(m: Machine, op: nat, x: Reg, y: Reg, r: nat, c: nat)
    requires m.Valid() && (N(op) == 0 || m.index + N(op) <= MemorySize)
    requires r < N(op) && c < 8
    requires var regs := m.registers[Flag := 0];
      regs[x] % 256 + c < ScreenWidth && regs[y] % 256 + r < ScreenHeight
    ensures var regs := m.registers[Flag := 0];
      var i := (regs[x] % 256 + c) + (regs[y] % 256 + r) * ScreenWidth;
      i < ScreenSize &&
      OpDXYN(m, op, x, y).display[i] == Xor(m.display[i], Bit(m.memory[m.index + r], 7 - c))
  {
    var regs := m.registers[Flag := 0];
    var x0, y0 := regs[x] % 256, regs[y] % 256;
    assert OpDXYN(m, op, x, y).display == DrawnDisplay(m.display, m.memory, m.index, x0, y0, N(op));
    DrawnCell(m.display, m.memory, m.index, x0, y0, N(op), r, c);
  }

  /** One cell of the drawn screen, with the sprite bit read as bit 7 - c. */
  lemma DrawnCell(display: seq<nat>, memory: seq<nat>, index: nat, x0: nat, y0: nat, n: nat, r: nat, c: nat)
    requires |display| == ScreenSize && (n == 0 || index + n <= |memory|)
    requires r < n && c < 8 && x0 + c < ScreenWidth && y0 + r < ScreenHeight
    ensures var i := (x0 + c) + (y0 + r) * ScreenWidth;
      i < ScreenSize &&
      DrawnDisplay(display, memory, index, x0, y0, n)[i] == Xor(display[i], Bit(memory[index + r], 7 - c))
  {
    var i := (x0 + c) + (y0 + r) * ScreenWidth;
    DivModUnique(i, ScreenWidth, y0 + r, x0 + c);
    assert Covered(i, x0, y0, n);
    var k := 8 - (c + 1);
    assert k == 7 - c;
    MaskedBit(memory[index + r], k);
    assert SpritePixel(memory, index, r, c) == Bit(memory[index + r], 7 - c);
  }

  /** DXYN changes no cell outside the sprite's rectangle, and clips rather
      than wraps: cells of the sprite past the right or bottom edge are not
      drawn anywhere. */
  lemma DrawOnlyUnderSprite(m: Machine, op: nat, x: Reg, y: Reg)
    requires m.Valid() && (N(op) == 0 || m.index + N(op) <= MemorySize)
    ensures var regs := m.registers[Flag := 0];
      var x0, y0 := regs[x] % 256, regs[y] % 256;
      forall i :: 0 <= i < ScreenSize && !Covered(i, x0, y0, N(op)) ==>
        OpDXYN(m, op, x, y).display[i] == m.display[i]
  {
  }

  // ---------------------------------------------------------------------
  // Register dumps

  /** FX55 then FX65 from the same address reads back the registers it
      stored; I ends x + 1 past that address. */
  lemma StoreThenLoad(m: Machine, x: Reg)
    requires m.Valid() && m.index + x < MemorySize
    ensures var stored := OpFX55(m, x);
      var loaded := OpFX65(stored.(index := m.index), x);
      loaded.registers == m.registers && loaded.memory == stored.memory
      && loaded.index == m.index + x + 1
  {
    var stored := OpFX55(m, x);
    var loaded := OpFX65(stored.(index := m.index), x);
    assert loaded.registers == m.registers by {
      forall j | 0 <= j < 16
        ensures loaded.registers[j] == m.registers[j]
      {
        if j <= x {
          assert stored.memory[m.index + j] == m.registers[j];
        }
      }
    }
  }

  /** FX65 then FX55 from the same address leaves memory as it was. */
  lemma LoadThenStore(m: Machine, x: Reg)
    requires m.Valid() && m.index + x < MemorySize
    ensures var loaded := OpFX65(m, x);
      OpFX55(loaded.(index := m.index), x).memory == m.memory
  {
    var loaded := OpFX65(m, x);
    var stored := OpFX55(loaded.(index := m.index), x);
    forall j | 0 <= j < MemorySize
      ensures stored.memory[j] == m.memory[j]
    {
      if m.index <= j <= m.index + x {
        assert stored.memory[j] == loaded.registers[j - m.index];
      }
    }
  }

  // ---------------------------------------------------------------------
  // Keys

  /** FX0A with no key down moves PC back onto itself, so the next cycle
      runs it again; with a key down it stores the lowest one in Vx and the
      program goes on. */
  lemma WaitForKey(m: Machine, rnd: Byte)
    requires CycleSafe(m) && Decode(Fetch(m)) == Some(HFX0A)
    ensures var r, vx := Cycle(m, rnd), (Fetch(m) / 256) % 16;
      (GetKey(m.keys) < 0 ==> r.pc == m.pc && r.registers == m.registers)
      && (GetKey(m.keys) >= 0 ==>
            r.pc == m.pc + 2 && r.registers[vx] == GetKey(m.keys)
            && forall j :: 0 <= j < 16 && m.keys[j] ==> r.registers[vx] <= j)
  {
    CycleDecoded(m, rnd, Fetch(m));
  }

  /** Pressing a key when none is down makes it the key FX0A will take. */
  lemma PressedKeyIsTaken(m: Machine, k: Reg)
    requires m.Valid() && GetKey(m.keys) == -1
    ensures GetKey(SetKey(m, k, true).keys) == k
  {
  }

  /** FX29 points I at the five glyph rows of digit Vx, as long as the font
      `init` copied to address 0 is still there. */
  lemma GlyphAddress(m: Machine, x: Reg)
    requires m.Valid() && m.memory[..|Fonts|] == Fonts && m.registers[x] < 16
    ensures var r := OpFX29(m, x);
      r.index + 5 <= |Fonts| && r.memory[r.index..r.index + 5] == Fonts[5 * m.registers[x]..5 * m.registers[x] + 5]
  {
    var r := OpFX29(m, x);
    assert r.memory[..|Fonts|] == Fonts;
    assert r.memory[r.index..r.index + 5] == r.memory[..|Fonts|][r.index..r.index + 5];
  }

  // ---------------------------------------------------------------------
  // Start-up

  /** After start-up and loading, the first cycle fetches the program's
      first two bytes as one big-endian opcode. */
  lemma FirstFetch(program: seq<Byte>)
    requires 2 <= |program| <= ProgramCapacity
    ensures var m := LoadProgram(Initial(), program);
      m.Valid() && m.pc + 1 < MemorySize && Fetch(m) == program[0] as nat * 256 + program[1]
  {
    var m := LoadProgram(Initial(), program);
    assert m.memory[m.pc] == program[0] && m.memory[m.pc + 1] == program[1];
    FetchValue(m);
  }
}
