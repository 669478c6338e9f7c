/** The CHIP-8 machine state, the font table and the interpreter's opcode
    table, as values. */
module Chip8 {

  datatype Option<T> = None | Some(value: T)

  type Byte = b: nat | b < 256

  /** A register number, 0x0 to 0xF; register 0xF is VF, the flag register. */
  type Reg = r: nat | r < 16

  const MemorySize: nat := 4096
  const ProgramStart: nat := 0x200
  const ProgramCapacity: nat := MemorySize - ProgramStart
  const ScreenWidth: nat := 64
  const ScreenHeight: nat := 32
  const ScreenSize: nat := ScreenWidth * ScreenHeight
  const Flag: Reg := 0xF

  /** The 16 hexadecimal digit glyphs, five rows of a 4-pixel-wide sprite each. */
  const Fonts: seq<Byte> := [
    0xF0, 0x90, 0x90, 0x90, 0xF0, // 0
    0x20, 0x60, 0x20, 0x20, 0x70, // 1
    0xF0, 0x10, 0xF0, 0x80, 0xF0, // 2
    0xF0, 0x10, 0xF0, 0x10, 0xF0, // 3
    0x90, 0x90, 0xF0, 0x10, 0x10, // 4
    0xF0, 0x80, 0xF0, 0x10, 0xF0, // 5
    0xF0, 0x80, 0xF0, 0x90, 0xF0, // 6
    0xF0, 0x10, 0x20, 0x40, 0x40, // 7
    0xF0, 0x90, 0xF0, 0x90, 0xF0, // 8
    0xF0, 0x90, 0xF0, 0x10, 0xF0, // 9
    0xF0, 0x90, 0xF0, 0x90, 0x90, // A
    0xE0, 0x90, 0xE0, 0x90, 0xE0, // B
    0xF0, 0x80, 0x80, 0x80, 0xF0, // C
    0xE0, 0x90, 0x90, 0x90, 0xE0, // D
    0xF0, 0x80, 0xF0, 0x80, 0xF0, // E
    0xF0, 0x80, 0xF0, 0x80, 0x80  // F
  ]

  /** The entries of the interpreter's handler table. The first four are the
      family dispatchers, which re-key the opcode and look it up again. */
  datatype Handler =
    | H0000 | H8XXX | HEXXX | HFXXX
    | H00E0 | H00EE | H1NNN | H2NNN | H3XKK | H4XKK | H5XY0 | H6XKK | H7XKK
    | H8XY0 | H8XY1 | H8XY2 | H8XY3 | H8XY4 | H8XY5 | H8XY6 | H8XY7 | H8XYE
    | H9XXX | HANNN | HBNNN | HCXKK | HDXYN | HEX9E | HEXA1
    | HFX07 | HFX0A | HFX15 | HFX18 | HFX1E | HFX29 | HFX33 | HFX55 | HFX65
  {
    predicate IsDispatcher() {
      H0000? || H8XXX? || HEXXX? || HFXXX?
    }
  }

  /** The handler table (`function_map`), keyed by masked opcode: the top
      nibble selects a family; families 0, 8, E and F are keyed again by
      their dispatcher. A key not in the table finds nothing. */
  function FunctionMap(key: nat): Option<Handler> {
    match key
    case 0x0000 => Some(H0000)
    case 0x00E0 => Some(H00E0)
    case 0x00EE => Some(H00EE)
    case 0x1000 => Some(H1NNN)
    case 0x2000 => Some(H2NNN)
    case 0x3000 => Some(H3XKK)
    case 0x4000 => Some(H4XKK)
    case 0x5000 => Some(H5XY0)
    case 0x6000 => Some(H6XKK)
    case 0x7000 => Some(H7XKK)
    case 0x8000 => Some(H8XXX)
    case 0x8FF0 => Some(H8XY0)
    case 0x8FF1 => Some(H8XY1)
    case 0x8FF2 => Some(H8XY2)
    case 0x8FF3 => Some(H8XY3)
    case 0x8FF4 => Some(H8XY4)
    case 0x8FF5 => Some(H8XY5)
    case 0x8FF6 => Some(H8XY6)
    case 0x8FF7 => Some(H8XY7)
    case 0x8FFE => Some(H8XYE)
    case 0x9000 => Some(H9XXX)
    case 0xA000 => Some(HANNN)
    case 0xB000 => Some(HBNNN)
    case 0xC000 => Some(HCXKK)
    case 0xD000 => Some(HDXYN)
    case 0xE000 => Some(HEXXX)
    case 0xE00E => Some(HEX9E)
    case 0xE001 => Some(HEXA1)
    case 0xF000 => Some(HFXXX)
    case 0xF007 => Some(HFX07)
    case 0xF00A => Some(HFX0A)
    case 0xF015 => Some(HFX15)
    case 0xF018 => Some(HFX18)
    case 0xF01E => Some(HFX1E)
    case 0xF029 => Some(HFX29)
    case 0xF033 => Some(HFX33)
    case 0xF055 => Some(HFX55)
    case 0xF065 => Some(HFX65)
    case _ => None
  }

  /** Everything a cycle reads or writes. Cells, registers and the index
      register are unbounded integers: the interpreter masks them only where
      an instruction says so. */
  datatype Machine = Machine(
    memory: seq<nat>,
    registers: seq<nat>,
    index: nat,
    pc: nat,
    stack: seq<nat>,
    display: seq<nat>,
    keys: seq<bool>,
    delayTimer: nat,
    soundTimer: nat,
    shouldDraw: bool)
  {
    predicate Valid() {
      |memory| == MemorySize && |registers| == 16 && |display| == ScreenSize && |keys| == 16
    }
  }
}
