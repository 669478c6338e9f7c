/** The interpreter object: the state lives in fields and arrays that the
    handler methods update in place, and every method is proved to do what
    the corresponding Semantics function says to the state it observes. */
module Interpreter {
  import opened Bits
  import opened Chip8
  import Semantics

  // ---------------------------------------------------------------------
  // The drawing loop of DXYN, part way through

  /** Cell `i` has been visited once the loop has finished rows `0 .. row - 1`
      and columns `0 .. col - 1` of row `row`. */
  predicate Visited(i: nat, x0: nat, y0: nat, row: nat, col: nat) {
    Semantics.Covered(i, x0, y0, row)
    || (i / ScreenWidth == y0 + row && x0 <= i % ScreenWidth < x0 + col)
  }

  /** The sprite pixel in column `col` of a sprite row read from memory. */
  function RowPixel(rowBits: nat, col: nat): nat
    requires col < 8
  {
    var pixelOffset := col + 1;
    var bitmask := Shl(1, 8 - pixelOffset);
    Shr(And(rowBits, bitmask), 8 - pixelOffset)
  }

  /** The screen once the cells visited so far have been XOR-ed with the
      rows of `sprite`. */
  ghost function PartialDisplay(d0: seq<nat>, sprite: seq<nat>, x0: nat, y0: nat, row: nat, col: nat): (d: seq<nat>)
    requires |d0| == ScreenSize && col <= 8 && row <= |sprite| && (col == 0 || row < |sprite|)
    ensures |d| == ScreenSize
  {
    seq(ScreenSize, i requires 0 <= i < ScreenSize =>
      if Visited(i, x0, y0, row, col)
      then Xor(d0[i], RowPixel(sprite[i / ScreenWidth - y0], i % ScreenWidth - x0))
      else d0[i])
  }

  /** VF once the cells visited so far have been drawn: set from the last
      on-screen cell visited, 0 if there is none. */
  ghost function VisitedFlag(d: seq<nat>, x0: nat, y0: nat, row: nat, col: nat): (f: nat)
    requires |d| == ScreenSize && col <= 8
  {
    var c := Semantics.Min(col, Semantics.VisibleCols(x0));
    if y0 + row < ScreenHeight && c > 0 then
      CellInScreen(x0 + c - 1, y0 + row);
      if d[x0 + c - 1 + (y0 + row) * ScreenWidth] == 0 then 1 else 0
    else Semantics.DrawFlag(d, x0, y0, row)
  }

  /** Column `c` of row `r` is cell `c + 64 r`. */
  lemma CellInScreen(c: nat, r: nat)
    requires c < ScreenWidth && r < ScreenHeight
    ensures c + r * ScreenWidth < ScreenSize
    ensures (c + r * ScreenWidth) % ScreenWidth == c && (c + r * ScreenWidth) / ScreenWidth == r
  {
    DivModUnique(c + r * ScreenWidth, ScreenWidth, r, c);
  }

  /** Visiting one more cell that is on screen XORs its sprite pixel into
      it; the cell has not been visited before. */
  lemma DrawStepOn(d0: seq<nat>, sprite: seq<nat>, x0: nat, y0: nat, row: nat, col: nat)
    requires |d0| == ScreenSize && col < 8 && row < |sprite|
    requires y0 + row < ScreenHeight && x0 + col < ScreenWidth
    ensures var before, after := PartialDisplay(d0, sprite, x0, y0, row, col),
                                 PartialDisplay(d0, sprite, x0, y0, row, col + 1);
      var loc := x0 + col + (y0 + row) * ScreenWidth;
      loc < ScreenSize && before[loc] == d0[loc]
      && after == before[loc := Xor(before[loc], RowPixel(sprite[row], col))]
  {
    var before, after := PartialDisplay(d0, sprite, x0, y0, row, col),
                         PartialDisplay(d0, sprite, x0, y0, row, col + 1);
    var loc := x0 + col + (y0 + row) * ScreenWidth;
    CellInScreen(x0 + col, y0 + row);
    assert !Visited(loc, x0, y0, row, col) && Visited(loc, x0, y0, row, col + 1);
    forall i | 0 <= i < ScreenSize && i != loc
      ensures after[i] == before[i]
    {
      assert i == i / ScreenWidth * ScreenWidth + i % ScreenWidth;
      assert Visited(i, x0, y0, row, col + 1) == Visited(i, x0, y0, row, col);
    }
  }

  /** Visiting one more cell that is off screen changes nothing. */
  lemma DrawStepOff(d0: seq<nat>, sprite: seq<nat>, x0: nat, y0: nat, row: nat, col: nat)
    requires |d0| == ScreenSize && col < 8 && row < |sprite|
    requires !(y0 + row < ScreenHeight && x0 + col < ScreenWidth)
    ensures PartialDisplay(d0, sprite, x0, y0, row, col + 1) == PartialDisplay(d0, sprite, x0, y0, row, col)
  {
    var before, after := PartialDisplay(d0, sprite, x0, y0, row, col),
                         PartialDisplay(d0, sprite, x0, y0, row, col + 1);
    forall i | 0 <= i < ScreenSize
      ensures after[i] == before[i]
    {
      assert i / ScreenWidth < ScreenHeight;
      assert Visited(i, x0, y0, row, col + 1) == Visited(i, x0, y0, row, col);
    }
  }

  /** The `n` sprite rows DXYN reads from memory at `index`. */
  function SpriteRows(mem: seq<nat>, index: nat, n: nat): (s: seq<nat>)
    requires n == 0 || index + n <= |mem|
    ensures |s| == n && forall r :: 0 <= r < n ==> s[r] == mem[index + r]
  {
    if n == 0 then [] else mem[index..index + n]
  }

  /** Finishing a row is starting the next one. */
  lemma DrawNextRow(d0: seq<nat>, sprite: seq<nat>, x0: nat, y0: nat, row: nat)
    requires |d0| == ScreenSize && row < |sprite|
    ensures PartialDisplay(d0, sprite, x0, y0, row, 8) == PartialDisplay(d0, sprite, x0, y0, row + 1, 0)
  {
  }

  /** Once every row is done the screen is DrawnDisplay's. */
  lemma DrawWhole(d0: seq<nat>, mem: seq<nat>, index: nat, x0: nat, y0: nat, n: nat)
    requires |d0| == ScreenSize && (n == 0 || index + n <= |mem|)
    ensures PartialDisplay(d0, SpriteRows(mem, index, n), x0, y0, n, 0) == Semantics.DrawnDisplay(d0, mem, index, x0, y0, n)
  {
  }

  /** VF after one more cell: taken from that cell if it is on screen,
      unchanged otherwise. */
  lemma FlagStep(d: seq<nat>, x0: nat, y0: nat, row: nat, col: nat)
    requires |d| == ScreenSize && col < 8
    ensures y0 + row < ScreenHeight && x0 + col < ScreenWidth ==>
      VisitedFlag(d, x0, y0, row, col + 1) == if d[x0 + col + (y0 + row) * ScreenWidth] == 0 then 1 else 0
    ensures !(y0 + row < ScreenHeight && x0 + col < ScreenWidth) ==>
      VisitedFlag(d, x0, y0, row, col + 1) == VisitedFlag(d, x0, y0, row, col)
  {
  }

  /** VF at the end of a row is VF at the start of the next. */
  lemma FlagNextRow(d: seq<nat>, x0: nat, y0: nat, row: nat)
    requires |d| == ScreenSize
    ensures VisitedFlag(d, x0, y0, row, 8) == VisitedFlag(d, x0, y0, row + 1, 0)
  {
  }

  /** Once every row is done VF is DrawFlag's. */
  lemma FlagWhole(d: seq<nat>, x0: nat, y0: nat, n: nat)
    requires |d| == ScreenSize
    ensures VisitedFlag(d, x0, y0, n, 0) == Semantics.DrawFlag(d, x0, y0, n)
  {
  }

  class Emulator {
    var memory: array<nat>
    var registers: array<nat>
    var display: array<nat>
    var keys: array<bool>
    var stack: seq<nat>
    var index: nat
    var pc: nat
    var delayTimer: nat
    var soundTimer: nat
    var shouldDraw: bool
    /** The opcode of the current cycle and its x and y fields. */
    var opcode: nat
    var vx: Reg
    var vy: Reg

    ghost predicate Valid()
      reads this
    {
      memory.Length == MemorySize && registers.Length == 16
      && display.Length == ScreenSize && keys.Length == 16
      && memory != registers && memory != display && registers != display
    }

    /** The machine state the object holds. */
    ghost function State(): Machine
      reads this, memory, registers, display, keys
    {
      Machine(memory[..], registers[..], index, pc, stack, display[..], keys[..],
              delayTimer, soundTimer, shouldDraw)
    }

    /** `init`: zeroed state, PC at 0x200, the font copied to address 0. */
    constructor Init()
      ensures Valid() && State() == Semantics.Initial()
      ensures opcode == 0 && vx == 0 && vy == 0
    {
      var mem := FontMemory();
      memory := mem;
      registers := new nat[16](_ => 0);
      display := new nat[ScreenSize](_ => 0);
      keys := new bool[16](_ => false);
      stack := [];
      pc := ProgramStart;
      index := 0;
      delayTimer := 0;
      soundTimer := 0;
      shouldDraw := false;
      opcode := 0;
      vx := 0;
      vy := 0;
    }

    /** The memory `init` sets up: 4096 zero cells, then the font copied
        to addresses 0 to 79. */
    static method FontMemory() returns (mem: array<nat>)
      ensures fresh(mem) && mem[..] == Semantics.Initial().memory
    {
      mem := new nat[MemorySize](_ => 0);
      for i := 0 to |Fonts|
        invariant forall j :: 0 <= j < i ==> mem[j] == Fonts[j]
        invariant forall j :: i <= j < MemorySize ==> mem[j] == 0
      {
        mem[i] := Fonts[i];
      }
      assert mem[..] == Semantics.Initial().memory;
    }

    /** `load`: copy the program bytes to 0x200 onwards. */
    method Load(program: seq<Byte>)
      requires Valid() && |program| <= ProgramCapacity
      modifies memory
      ensures Valid() && State() == Semantics.LoadProgram(old(State()), program)
    {
      for i := 0 to |program|
        invariant forall j :: 0 <= j < i ==> memory[ProgramStart + j] == program[j]
        invariant forall j :: 0 <= j < MemorySize && !(ProgramStart <= j < ProgramStart + i) ==>
          memory[j] == old(memory[j])
      {
        memory[i + ProgramStart] := program[i];
      }
      assert memory[..] == Semantics.LoadProgram(old(State()), program).memory;
    }

    /** A key goes down or up (`on_key_press` / `on_key_release` after the
        host key has been mapped to `k`). */
    method SetKey(k: Reg, down: bool)
      requires Valid()
      modifies keys
      ensures Valid() && State() == Semantics.SetKey(old(State()), k, down)
    {
      keys[k] := down;
    }

    /** `get_key`: the lowest key that is down, or -1. */
    method GetKey() returns (k: int)
      requires Valid()
      ensures k == Semantics.GetKey(keys[..])
    {
      for i := 0 to 16
        invariant forall j :: 0 <= j < i ==> !keys[j]
      {
        if keys[i] {
          return i;
        }
      }
      return -1;
    }

    // -------------------------------------------------------------------
    // Handlers

    method Op00E0()
      requires Valid()
      modifies this
      ensures opcode == old(opcode) && vx == old(vx) && vy == old(vy)
      ensures Valid() && State() == Semantics.Op00E0(old(State()))
    {
      display := new nat[ScreenSize](_ => 0);
      shouldDraw := true;
    }

    method Op00EE()
      requires Valid()
      modifies this
      ensures opcode == old(opcode) && vx == old(vx) && vy == old(vy)
      ensures Valid() && State() == Semantics.Op00EE(old(State()))
    {
      if |stack| > 0 {
        pc := stack[|stack| - 1];
        stack := stack[..|stack| - 1];
      }
    }

    method Op1NNN()
      requires Valid()
      modifies this
      ensures opcode == old(opcode) && vx == old(vx) && vy == old(vy)
      ensures Valid() && State() == Semantics.Op1NNN(old(State()), old(opcode))
    {
      pc := opcode % 4096;
    }

    method Op2NNN()
      requires Valid()
      modifies this
      ensures opcode == old(opcode) && vx == old(vx) && vy == old(vy)
      ensures Valid() && State() == Semantics.Op2NNN(old(State()), old(opcode))
    {
      stack := stack + [pc];
      pc := opcode % 4096;
    }

    method Op3XKK()
      requires Valid()
      modifies this
      ensures opcode == old(opcode) && vx == old(vx) && vy == old(vy)
      ensures Valid() && State() == Semantics.Op3XKK(old(State()), old(opcode), old(vx))
    {
      if registers[vx] == opcode % 256 {
        pc := pc + 2;
      }
    }

    method Op4XKK()
      requires Valid()
      modifies this
      ensures opcode == old(opcode) && vx == old(vx) && vy == old(vy)
      ensures Valid() && State() == Semantics.Op4XKK(old(State()), old(opcode), old(vx))
    {
      if registers[vx] != opcode % 256 {
        pc := pc + 2;
      }
    }

    method Op5XY0()
      requires Valid()
      modifies this
      ensures opcode == old(opcode) && vx == old(vx) && vy == old(vy)
      ensures Valid() && State() == Semantics.Op5XY0(old(State()), old(vx), old(vy))
    {
      if registers[vx] == registers[vy] {
        pc := pc + 2;
      }
    }

    method Op6XKK()
      requires Valid()
      modifies registers
      ensures Valid() && State() == Semantics.Op6XKK(old(State()), opcode, vx)
    {
      registers[vx] := opcode % 256;
    }

    method Op7XKK()
      requires Valid()
      modifies registers
      ensures Valid() && State() == Semantics.Op7XKK(old(State()), opcode, vx)
    {
      registers[vx] := registers[vx] + opcode % 256;
    }

    method Op8XY0()
      requires Valid()
      modifies registers
      ensures Valid() && State() == Semantics.Op8XY0(old(State()), vx, vy)
    {
      registers[vx] := registers[vy];
      registers[vx] := registers[vx] % 256;
    }

    method Op8XY1()
      requires Valid()
      modifies registers
      ensures Valid() && State() == Semantics.Op8XY1(old(State()), vx, vy)
    {
      registers[vx] := Or(registers[vx], registers[vy]);
      registers[vx] := registers[vx] % 256;
    }

    method Op8XY2()
      requires Valid()
      modifies registers
      ensures Valid() && State() == Semantics.Op8XY2(old(State()), vx, vy)
    {
      registers[vx] := And(registers[vx], registers[vy]);
      registers[vx] := registers[vx] % 256;
    }

    method Op8XY3()
      requires Valid()
      modifies registers
      ensures Valid() && State() == Semantics.Op8XY3(old(State()), vx, vy)
    {
      registers[vx] := Xor(registers[vx], registers[vy]);
      registers[vx] := registers[vx] % 256;
    }

    method Op8XY4()
      requires Valid()
      modifies registers
      ensures Valid() && State() == Semantics.Op8XY4(old(State()), vx, vy)
    {
      if registers[vx] + registers[vy] > 0xFF {
        registers[Flag] := 1;
      } else {
        registers[Flag] := 0;
      }
      registers[vx] := registers[vx] + registers[vy];
      registers[vx] := registers[vx] % 256;
    }

    method Op8XY5()
      requires Valid()
      modifies registers
      ensures Valid() && State() == Semantics.Op8XY5(old(State()), vx, vy)
    {
      if registers[vx] > registers[vy] {
        registers[Flag] := 1;
      } else {
        registers[Flag] := 0;
      }
      var diff: int := registers[vx] as int - registers[vy];
      registers[vx] := diff % 256;
    }

    method Op8XY6()
      requires Valid()
      modifies registers
      ensures Valid() && State() == Semantics.Op8XY6(old(State()), vx)
    {
      registers[Flag] := registers[vx] % 2;
      registers[vx] := Shr(registers[vx], 1);
    }

    method Op8XY7()
      requires Valid()
      modifies registers
      ensures Valid() && State() == Semantics.Op8XY7(old(State()), vx, vy)
    {
      if registers[vy] > registers[vx] {
        registers[Flag] := 1;
      } else {
        registers[Flag] := 0;
      }
      var diff: int := registers[vy] as int - registers[vx];
      registers[vx] := diff % 256;
    }

    method Op8XYE()
      requires Valid()
      modifies registers
      ensures Valid() && State() == Semantics.Op8XYE(old(State()), vx)
    {
      registers[Flag] := Shr(And(registers[vx], 0xF0), 7);
      registers[vx] := Shl(registers[vx], 1);
      registers[vx] := registers[vx] % 256;
    }

    method Op9XXX()
      requires Valid()
      modifies this
      ensures opcode == old(opcode) && vx == old(vx) && vy == old(vy)
      ensures Valid() && State() == Semantics.Op9XXX(old(State()), old(vx), old(vy))
    {
      if registers[vx] != registers[vy] {
        pc := pc + 2;
      }
    }

    method OpANNN()
      requires Valid()
      modifies this
      ensures opcode == old(opcode) && vx == old(vx) && vy == old(vy)
      ensures Valid() && State() == Semantics.OpANNN(old(State()), old(opcode))
    {
      index := opcode % 4096;
    }

    method OpBNNN()
      requires Valid()
      modifies this
      ensures opcode == old(opcode) && vx == old(vx) && vy == old(vy)
      ensures Valid() && State() == Semantics.OpBNNN(old(State()), old(opcode))
    {
      pc := opcode % 4096 + registers[0];
    }

    /** `rnd` stands for `random.randint(0, 0xFF)`. */
    method OpCXKK(rnd: Byte)
      requires Valid()
      modifies registers
      ensures Valid() && State() == Semantics.OpCXKK(old(State()), opcode, vx, rnd)
    {
      registers[vx] := And(rnd, opcode % 256);
      registers[vx] := registers[vx] % 256;
    }

    /** DXYN: XOR the sprite of N rows at I into the screen at (Vx, Vy),
        row by row and column by column; cells off screen are skipped, and
        every on-screen cell sets VF from its new value. */
    method OpDXYN()
      requires Valid() && (opcode % 16 == 0 || index + opcode % 16 <= MemorySize)
      modifies this, registers, display
      ensures opcode == old(opcode) && vx == old(vx) && vy == old(vy)
      ensures Valid() && State() == Semantics.OpDXYN(old(State()), old(opcode), old(vx), old(vy))
    {
      registers[Flag] := 0;
      var x := registers[vx] % 256;
      var y := registers[vy] % 256;
      var height := opcode % 16;
      DrawSprite(x, y, height);
      shouldDraw := true;
    }

    /** The outer loop of DXYN: sprite rows 0 to `height - 1`. */
    method DrawSprite(x: nat, y: nat, height: nat)
      requires Valid() && (height == 0 || index + height <= MemorySize) && registers[Flag] == 0
      modifies registers, display
      ensures display[..] == Semantics.DrawnDisplay(old(display[..]), memory[..], index, x, y, height)
      ensures registers[Flag] == Semantics.DrawFlag(display[..], x, y, height)
      ensures forall j :: 0 <= j < Flag ==> registers[j] == old(registers[j])
    {
      ghost var d0 := display[..];
      ghost var sprite := SpriteRows(memory[..], index, height);
      var row := 0;
      while row < height
        invariant row <= height && |sprite| == height
        invariant forall r :: 0 <= r < height ==> memory[index + r] == sprite[r]
        invariant display[..] == PartialDisplay(d0, sprite, x, y, row, 0)
        invariant registers[Flag] == VisitedFlag(display[..], x, y, row, 0)
        invariant forall j :: 0 <= j < Flag ==> registers[j] == old(registers[j])
      {
        var currentRow := memory[row + index];
        DrawRow(x, y, row, currentRow, d0, sprite);
        row := row + 1;
      }
      DrawWhole(d0, memory[..], index, x, y, height);
      FlagWhole(display[..], x, y, height);
    }

    /** The inner loop of DXYN: the eight columns of sprite row `row`. */
    method DrawRow(x: nat, y: nat, row: nat, currentRow: nat, ghost d0: seq<nat>, ghost sprite: seq<nat>)
      requires registers.Length == 16 && display.Length == ScreenSize && registers != display
      requires |d0| == ScreenSize && row < |sprite| && currentRow == sprite[row]
      requires display[..] == PartialDisplay(d0, sprite, x, y, row, 0)
      requires registers[Flag] == VisitedFlag(display[..], x, y, row, 0)
      modifies registers, display
      ensures display[..] == PartialDisplay(d0, sprite, x, y, row + 1, 0)
      ensures registers[Flag] == VisitedFlag(display[..], x, y, row + 1, 0)
      ensures forall j :: 0 <= j < Flag ==> registers[j] == old(registers[j])
    {
      var pixelOffset := 0;
      while pixelOffset < 8
        invariant pixelOffset <= 8
        invariant display[..] == PartialDisplay(d0, sprite, x, y, row, pixelOffset)
        invariant registers[Flag] == VisitedFlag(display[..], x, y, row, pixelOffset)
        invariant forall j :: 0 <= j < Flag ==> registers[j] == old(registers[j])
      {
        DrawPixel(x, y, row, pixelOffset, currentRow, d0, sprite);
        pixelOffset := pixelOffset + 1;
      }
      DrawNextRow(d0, sprite, x, y, row);
      FlagNextRow(display[..], x, y, row);
    }

    /** One pass of the inner loop: column `col` of sprite row `row`. An
        on-screen cell is XOR-ed with its sprite pixel and VF set to 1 if
        the cell is now 0, to 0 otherwise. */
    method DrawPixel(x: nat, y: nat, row: nat, col: nat, currentRow: nat, ghost d0: seq<nat>, ghost sprite: seq<nat>)
      requires registers.Length == 16 && display.Length == ScreenSize && registers != display
      requires |d0| == ScreenSize && col < 8 && row < |sprite| && currentRow == sprite[row]
      requires display[..] == PartialDisplay(d0, sprite, x, y, row, col)
      requires registers[Flag] == VisitedFlag(display[..], x, y, row, col)
      modifies registers, display
      ensures display[..] == PartialDisplay(d0, sprite, x, y, row, col + 1)
      ensures registers[Flag] == VisitedFlag(display[..], x, y, row, col + 1)
      ensures forall j :: 0 <= j < Flag ==> registers[j] == old(registers[j])
    {
      var location := x + col + (y + row) * ScreenWidth;
      FlagStep(display[..], x, y, row, col);
      var pixelOffset := col + 1;
      if y + row >= ScreenHeight || x + pixelOffset - 1 >= ScreenWidth {
        DrawStepOff(d0, sprite, x, y, row, col);
        return;
      }
      DrawStepOn(d0, sprite, x, y, row, col);
      var currentPixel := RowPixel(currentRow, col);
      display[location] := Xor(display[location], currentPixel);
      assert display[..] == old(display[..])[location := Xor(old(display[location]), currentPixel)];
      FlagStep(display[..], x, y, row, col);
      if display[location] == 0 {
        registers[Flag] := 1;
      } else {
        registers[Flag] := 0;
      }
    }

    method OpEX9E()
      requires Valid()
      modifies this
      ensures opcode == old(opcode) && vx == old(vx) && vy == old(vy)
      ensures Valid() && State() == Semantics.OpEX9E(old(State()), old(vx))
    {
      var keyPressed := registers[vx] % 16;
      if keys[keyPressed] {
        pc := pc + 2;
      }
    }

    method OpEXA1()
      requires Valid()
      modifies this
      ensures opcode == old(opcode) && vx == old(vx) && vy == old(vy)
      ensures Valid() && State() == Semantics.OpEXA1(old(State()), old(vx))
    {
      var keyPressed := registers[vx] % 16;
      if !keys[keyPressed] {
        pc := pc + 2;
      }
    }

    method OpFX07()
      requires Valid()
      modifies registers
      ensures Valid() && State() == Semantics.OpFX07(old(State()), vx)
    {
      registers[vx] := delayTimer;
    }

    method OpFX0A()
      requires Valid() && pc >= 2
      modifies this, registers
      ensures opcode == old(opcode) && vx == old(vx) && vy == old(vy)
      ensures Valid() && State() == Semantics.OpFX0A(old(State()), old(vx))
    {
      var keyPressed := GetKey();
      if keyPressed >= 0 {
        registers[vx] := keyPressed;
      } else {
        pc := pc - 2;
      }
    }

    method OpFX15()
      requires Valid()
      modifies this
      ensures opcode == old(opcode) && vx == old(vx) && vy == old(vy)
      ensures Valid() && State() == Semantics.OpFX15(old(State()), old(vx))
    {
      delayTimer := registers[vx];
    }

    method OpFX18()
      requires Valid()
      modifies this
      ensures opcode == old(opcode) && vx == old(vx) && vy == old(vy)
      ensures Valid() && State() == Semantics.OpFX18(old(State()), old(vx))
    {
      soundTimer := registers[vx];
    }

    method OpFX1E()
      requires Valid()
      modifies this, registers
      ensures opcode == old(opcode) && vx == old(vx) && vy == old(vy)
      ensures Valid() && State() == Semantics.OpFX1E(old(State()), old(vx))
    {
      index := index + registers[vx];
      if index > 0xFFF {
        registers[Flag] := 1;
        index := index % 4096;
      } else {
        registers[Flag] := 0;
      }
    }

    method OpFX29()
      requires Valid()
      modifies this
      ensures opcode == old(opcode) && vx == old(vx) && vy == old(vy)
      ensures Valid() && State() == Semantics.OpFX29(old(State()), old(vx))
    {
      index := (5 * registers[vx]) % 4096;
    }

    method OpFX33()
      requires Valid() && index + 2 < MemorySize
      modifies memory
      ensures Valid() && State() == Semantics.OpFX33(old(State()), vx)
    {
      var v := registers[vx];
      memory[index] := v / 100;
      memory[index + 1] := (v % 100) / 10;
      memory[index + 2] := v % 10;
    }

    method OpFX55()
      requires Valid() && index + vx < MemorySize
      modifies this, memory
      ensures opcode == old(opcode) && vx == old(vx) && vy == old(vy)
      ensures Valid() && State() == Semantics.OpFX55(old(State()), old(vx))
    {
      var i := 0;
      while i <= vx
        modifies memory
        invariant 0 <= i <= vx + 1
        invariant forall j :: 0 <= j < i ==> memory[index + j] == registers[j]
        invariant forall j :: 0 <= j < MemorySize && !(index <= j < index + i) ==> memory[j] == old(memory[j])
      {
        memory[index + i] := registers[i];
        i := i + 1;
      }
      ghost var target := Semantics.OpFX55(old(State()), vx).memory;
      forall j | 0 <= j < MemorySize
        ensures memory[j] == target[j]
      {
        if index <= j <= index + vx {
          assert memory[index + (j - index)] == registers[j - index];
        }
      }
      assert memory[..] == target;
      index := index + vx + 1;
    }

    method OpFX65()
      requires Valid() && index + vx < MemorySize
      modifies this, registers
      ensures opcode == old(opcode) && vx == old(vx) && vy == old(vy)
      ensures Valid() && State() == Semantics.OpFX65(old(State()), old(vx))
    {
      var i := 0;
      while i <= vx
        modifies registers
        invariant 0 <= i <= vx + 1
        invariant forall j :: 0 <= j < i ==> registers[j] == memory[index + j]
        invariant forall j :: i <= j < 16 ==> registers[j] == old(registers[j])
      {
        registers[i] := memory[index + i];
        i := i + 1;
      }
      ghost var target := Semantics.OpFX65(old(State()), vx).registers;
      forall j | 0 <= j < 16
        ensures registers[j] == target[j]
      {
      }
      assert registers[..] == target;
      index := index + vx + 1;
    }

    // -------------------------------------------------------------------
    // Dispatch

    /** Calls the method the table holds for handler `h`. */
    method Execute(h: Handler, rnd: Byte)
      requires Valid() && !h.IsDispatcher() && Semantics.Safe(State(), h, opcode, vx)
      modifies this, memory, registers, display
      ensures opcode == old(opcode) && vx == old(vx) && vy == old(vy)
      ensures Valid() && State() == Semantics.Execute(old(State()), h, old(opcode), old(vx), old(vy), rnd)
    {
      match h
      case H00E0 => Op00E0();
      case H00EE => Op00EE();
      case H1NNN => Op1NNN();
      case H2NNN => Op2NNN();
      case H3XKK => Op3XKK();
      case H4XKK => Op4XKK();
      case H5XY0 => Op5XY0();
      case H6XKK => Op6XKK();
      case H7XKK => Op7XKK();
      case H8XY0 => Op8XY0();
      case H8XY1 => Op8XY1();
      case H8XY2 => Op8XY2();
      case H8XY3 => Op8XY3();
      case H8XY4 => Op8XY4();
      case H8XY5 => Op8XY5();
      case H8XY6 => Op8XY6();
      case H8XY7 => Op8XY7();
      case H8XYE => Op8XYE();
      case H9XXX => Op9XXX();
      case HANNN => OpANNN();
      case HBNNN => OpBNNN();
      case HCXKK => OpCXKK(rnd);
      case HDXYN => OpDXYN();
      case HEX9E => OpEX9E();
      case HEXA1 => OpEXA1();
      case HFX07 => OpFX07();
      case HFX0A => OpFX0A();
      case HFX15 => OpFX15();
      case HFX18 => OpFX18();
      case HFX1E => OpFX1E();
      case HFX29 => OpFX29();
      case HFX33 => OpFX33();
      case HFX55 => OpFX55();
      case HFX65 => OpFX65();
    }

    /** A second-level dispatcher: looks `key` up in the table and calls
        what it finds; a missing key, or a key that leads back to a
        dispatcher, ends in an error that is logged and swallowed. */
    method Dispatch(key: nat, rnd: Byte)
      requires Valid() && Semantics.RunSafe(State(), Semantics.Lookup(key), opcode, vx)
      modifies this, memory, registers, display
      ensures opcode == old(opcode) && vx == old(vx) && vy == old(vy)
      ensures Valid()
      ensures State() == Semantics.Run(old(State()), Semantics.Lookup(key), old(opcode), old(vx), old(vy), rnd)
    {
      var h := Semantics.Lookup(key);
      if h.Some? {
        Execute(h.value, rnd);
      }
    }

    /** `_0000`: the key is `opcode & 0xF0FF`. */
    method Op0000(rnd: Byte)
      requires Valid() && Semantics.RunSafe(State(), Semantics.Lookup(And(opcode, 0xF0FF)), opcode, vx)
      modifies this, memory, registers, display
      ensures opcode == old(opcode) && vx == old(vx) && vy == old(vy)
      ensures Valid()
      ensures State() == Semantics.Run(old(State()), Semantics.Lookup(And(old(opcode), 0xF0FF)), old(opcode), old(vx), old(vy), rnd)
    {
      var extracted := And(opcode, 0xF0FF);
      Dispatch(extracted, rnd);
    }

    /** `_8XXX`: the key is `(opcode & 0xF00F) + 0xFF0`. */
    method Op8XXX(rnd: Byte)
      requires Valid() && Semantics.RunSafe(State(), Semantics.Lookup(And(opcode, 0xF00F) + 0xFF0), opcode, vx)
      modifies this, memory, registers, display
      ensures opcode == old(opcode) && vx == old(vx) && vy == old(vy)
      ensures Valid()
      ensures State() == Semantics.Run(old(State()), Semantics.Lookup(And(old(opcode), 0xF00F) + 0xFF0), old(opcode), old(vx), old(vy), rnd)
    {
      var extracted := And(opcode, 0xF00F) + 0xFF0;
      Dispatch(extracted, rnd);
    }

    /** `_EXXX`: the key is `opcode & 0xF00F`. */
    method OpEXXX(rnd: Byte)
      requires Valid() && Semantics.RunSafe(State(), Semantics.Lookup(And(opcode, 0xF00F)), opcode, vx)
      modifies this, memory, registers, display
      ensures opcode == old(opcode) && vx == old(vx) && vy == old(vy)
      ensures Valid()
      ensures State() == Semantics.Run(old(State()), Semantics.Lookup(And(old(opcode), 0xF00F)), old(opcode), old(vx), old(vy), rnd)
    {
      var extracted := And(opcode, 0xF00F);
      Dispatch(extracted, rnd);
    }

    /** `_FXXX`: the key is `opcode & 0xF0FF`. */
    method OpFXXX(rnd: Byte)
      requires Valid() && Semantics.RunSafe(State(), Semantics.Lookup(And(opcode, 0xF0FF)), opcode, vx)
      modifies this, memory, registers, display
      ensures opcode == old(opcode) && vx == old(vx) && vy == old(vy)
      ensures Valid()
      ensures State() == Semantics.Run(old(State()), Semantics.Lookup(And(old(opcode), 0xF0FF)), old(opcode), old(vx), old(vy), rnd)
    {
      var extracted := And(opcode, 0xF0FF);
      Dispatch(extracted, rnd);
    }

    /** The first-level lookup of `cycle`: the key is `opcode & 0xF000`,
        which always finds either a handler or one of the four
        second-level dispatchers. */
    method DispatchFamily(rnd: Byte)
      requires Valid() && Semantics.RunSafe(State(), Semantics.Resolve(opcode), opcode, vx)
      modifies this, memory, registers, display
      ensures opcode == old(opcode) && vx == old(vx) && vy == old(vy)
      ensures Valid()
      ensures State() == Semantics.Run(old(State()), Semantics.Resolve(old(opcode)), old(opcode), old(vx), old(vy), rnd)
    {
      var extracted := And(opcode, 0xF000);
      var h := FunctionMap(extracted);
      if h == Some(H0000) {
        Op0000(rnd);
      } else if h == Some(H8XXX) {
        Op8XXX(rnd);
      } else if h == Some(HEXXX) {
        OpEXXX(rnd);
      } else if h == Some(HFXXX) {
        OpFXXX(rnd);
      } else if h.Some? {
        Execute(h.value, rnd);
      }
    }

    /** `cycle`: fetch the opcode at PC, step PC past it, take x and y
        from it, call the handler the table holds for `opcode & 0xF000`,
        then count both timers down. `rnd` is the byte CXKK would draw. */
    method Cycle(rnd: Byte)
      requires Valid() && Semantics.CycleSafe(State())
      modifies this, memory, registers, display
      ensures Valid() && State() == Semantics.Cycle(old(State()), rnd)
      ensures opcode == Semantics.Fetch(old(State())) && vx == Semantics.X(opcode) && vy == Semantics.Y(opcode)
    {
      FetchOpcode();
      DispatchFamily(rnd);
      TickTimers();
    }

    /** The start of `cycle`: the opcode is the big-endian pair of cells at
        PC, PC moves past it, and x and y are its second and third nibbles. */
    method FetchOpcode()
      requires Valid() && pc + 1 < MemorySize
      modifies this
      ensures Valid() && State() == old(State()).(pc := old(pc) + 2)
      ensures memory == old(memory) && registers == old(registers) && display == old(display)
      ensures opcode == Semantics.Fetch(old(State()))
      ensures vx == Semantics.X(opcode) && vy == Semantics.Y(opcode)
    {
      opcode := Or(Shl(memory[pc], 8), memory[pc + 1]);
      pc := pc + 2;
      vx := Semantics.X(opcode);
      vy := Semantics.Y(opcode);
    }

    /** The end of `cycle`: each timer above zero goes down by one. */
    method TickTimers()
      requires Valid()
      modifies this
      ensures opcode == old(opcode) && vx == old(vx) && vy == old(vy)
      ensures Valid() && State() == Semantics.TickTimers(old(State()))
    {
      if delayTimer > 0 {
        delayTimer := delayTimer - 1;
      }
      if soundTimer > 0 {
        soundTimer := soundTimer - 1;
      }
    }
  }
}
