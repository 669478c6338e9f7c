/** How `cycle` takes an opcode apart, stated with plain arithmetic.

    The interpreter extracts fields with masks and shifts and finds its
    handler through a two-level table keyed by masked opcodes. This module
    gives the nibble-by-nibble reading of an opcode that those masks
    implement, including the places where the masks ignore a nibble
    (0x0?E0 clears the screen whatever its second nibble, E??E is EX9E,
    5XY? and 9XY? ignore the low nibble), and proves that the table lookup
    agrees with it. */
module Decoding {
  import opened Bits
  import opened Chip8
  import opened Semantics

  /** The opcode's top nibble, which selects the instruction family. */
  function Family(op: nat): nat { (op / 4096) % 16 }

  /** The handler an opcode reaches, read off its nibbles: the top nibble
      picks the family; family 0 is told apart by the low byte, family 8
      and E by the low nibble, family F by the low byte. */
  function Decode(op: nat): Option<Handler> {
    var t, kk, n := Family(op), op % 256, op % 16;
    if t == 0x0 then
      if kk == 0xE0 then Some(H00E0) else if kk == 0xEE then Some(H00EE) else None
    else if t == 0x1 then Some(H1NNN)
    else if t == 0x2 then Some(H2NNN)
    else if t == 0x3 then Some(H3XKK)
    else if t == 0x4 then Some(H4XKK)
    else if t == 0x5 then Some(H5XY0)
    else if t == 0x6 then Some(H6XKK)
    else if t == 0x7 then Some(H7XKK)
    else if t == 0x8 then
      if n == 0x0 then Some(H8XY0) else if n == 0x1 then Some(H8XY1)
      else if n == 0x2 then Some(H8XY2) else if n == 0x3 then Some(H8XY3)
      else if n == 0x4 then Some(H8XY4) else if n == 0x5 then Some(H8XY5)
      else if n == 0x6 then Some(H8XY6) else if n == 0x7 then Some(H8XY7)
      else if n == 0xE then Some(H8XYE) else None
    else if t == 0x9 then Some(H9XXX)
    else if t == 0xA then Some(HANNN)
    else if t == 0xB then Some(HBNNN)
    else if t == 0xC then Some(HCXKK)
    else if t == 0xD then Some(HDXYN)
    else if t == 0xE then
      if n == 0xE then Some(HEX9E) else if n == 0x1 then Some(HEXA1) else None
    else
      if kk == 0x07 then Some(HFX07) else if kk == 0x0A then Some(HFX0A)
      else if kk == 0x15 then Some(HFX15) else if kk == 0x18 then Some(HFX18)
      else if kk == 0x1E then Some(HFX1E) else if kk == 0x29 then Some(HFX29)
      else if kk == 0x33 then Some(HFX33) else if kk == 0x55 then Some(HFX55)
      else if kk == 0x65 then Some(HFX65) else None
  }

  // ---------------------------------------------------------------------
  // Masks as arithmetic

  /** A low mask of `k` bits is the remainder modulo `2^k`. */
  lemma LowMask(a: nat, k: nat)
    ensures And(a, Pow2(k) - 1) == a % Pow2(k)
  {
    AndLow(a, k);
    ShiftsAreArithmetic(a, k);
  }

  /** `a & (0xF << k)` keeps the nibble of `a` at bit `k`, for `k` = 4, 8
      or 12. */
  lemma NibbleMask(a: nat, k: nat, p: nat)
    requires (k == 4 && p == 16) || (k == 8 && p == 256) || (k == 12 && p == 4096)
    ensures And(a, 15 * p) == (a / p) % 16 * p
  {
    assert Pow2(k) == p && Pow2(4) == 16 by { Pow2Values(); }
    assert Shl(15, k) == 15 * p by { ShiftsAreArithmetic(15, k); }
    var hi := Shr(a, k);
    assert hi == a / p by { ShiftsAreArithmetic(a, k); }
    assert And(hi, 15) == hi % 16 by { LowMask(hi, 4); }
    assert Shl(And(hi, 15), k) == And(hi, 15) * p by { ShiftsAreArithmetic(And(hi, 15), k); }
    assert And(Low(a, k), 0) == 0 by { AndZero(Low(a, k)); }
    AndSplit(a, 15, 0, k);
  }

  /** `op & 0x0FFF`, `op & 0x00FF` and `op & 0x000F` are the address, the
      byte and the nibble of Nnn, Kk and N. */
  lemma LowFields(op: nat)
    ensures Nnn(op) == And(op, 0x0FFF) && Kk(op) == And(op, 0x00FF) && N(op) == And(op, 0x000F)
  {
    Pow2Values();
    LowMask(op, 12);
    LowMask(op, 8);
    LowMask(op, 4);
  }

  /** Adding low bits below bit 12 to the family mask adds the same bits of
      the opcode. */
  lemma FamilyMaskPlus(op: nat, lo: nat)
    requires lo == 0xFF || lo == 0xF
    ensures And(op, 0xF000 + lo) == Family(op) * 4096 + And(op % 4096, lo)
  {
    assert Pow2(12) == 4096 && Pow2(4) == 16 by { Pow2Values(); }
    assert Shl(15, 12) == 0xF000 by { ShiftsAreArithmetic(15, 12); }
    var hi := Shr(op, 12);
    assert hi == op / 4096 && Low(op, 12) == op % 4096 by { ShiftsAreArithmetic(op, 12); }
    assert And(hi, 15) == hi % 16 by { LowMask(hi, 4); }
    assert Shl(And(hi, 15), 12) == And(hi, 15) * 4096 by { ShiftsAreArithmetic(And(hi, 15), 12); }
    AndSplit(op, 15, lo, 12);
  }

  lemma LowOfAddress(a: nat)
    ensures (a % 4096) % 256 == a % 256 && (a % 4096) % 16 == a % 16
  {
    var q, r := a / 4096, a % 4096;
    DivModUnique(a, 256, q * 16 + r / 256, r % 256);
    DivModUnique(a, 16, q * 256 + r / 16, r % 16);
  }

  /** The three family keys the dispatchers use. */
  lemma FamilyKeys(op: nat)
    ensures And(op, 0xF000) == Family(op) * 4096
    ensures And(op, 0xF0FF) == Family(op) * 4096 + op % 256
    ensures And(op, 0xF00F) == Family(op) * 4096 + op % 16
  {
    NibbleMask(op, 12, 4096);
    assert Pow2(8) == 256 && Pow2(4) == 16 by { Pow2Values(); }
    LowOfAddress(op);
    FamilyMaskPlus(op, 0xFF);
    LowMask(op % 4096, 8);
    FamilyMaskPlus(op, 0xF);
    LowMask(op % 4096, 4);
  }

  /** `cycle` reads x from bits 8-11 and y from bits 4-7. */
  lemma RegisterFields(op: nat)
    ensures X(op) == (op / 256) % 16 && Y(op) == (op / 16) % 16
  {
    assert Pow2(8) == 256 && Pow2(4) == 16 by { Pow2Values(); }
    NibbleMask(op, 8, 256);
    ShiftsAreArithmetic(And(op, 0x0F00), 8);
    NibbleMask(op, 4, 16);
    ShiftsAreArithmetic(And(op, 0x00F0), 4);
  }

  /** Decoding an opcode assembled from four nibbles gives the nibbles back. */
  lemma {:induction false} FieldsRoundTrip(t: nat, x: nat, y: nat, n: nat)
    requires t < 16 && x < 16 && y < 16 && n < 16
    ensures var op := t * 4096 + x * 256 + y * 16 + n;
      Family(op) == t && X(op) == x && Y(op) == y && N(op) == n
      && Kk(op) == y * 16 + n && Nnn(op) == x * 256 + y * 16 + n
  {
    var op := t * 4096 + x * 256 + y * 16 + n;
    RegisterFields(op);
    DivModUnique(op, 4096, t, x * 256 + y * 16 + n);
    DivModUnique(op, 256, t * 16 + x, y * 16 + n);
    DivModUnique(t * 16 + x, 16, t, x);
    DivModUnique(op, 16, t * 256 + x * 16 + y, n);
    DivModUnique(t * 256 + x * 16 + y, 16, t * 16 + x, y);
  }

  /** The fetched opcode is the big-endian pair of bytes at PC. */
  lemma FetchValue(m: Machine)
    requires m.Valid() && m.pc + 1 < MemorySize && m.memory[m.pc + 1] < 256
    ensures Fetch(m) == m.memory[m.pc] * 256 + m.memory[m.pc + 1]
  {
    Pow2Values();
    OrShift(m.memory[m.pc], m.memory[m.pc + 1], 8);
    ShiftsAreArithmetic(m.memory[m.pc], 8);
  }

  // ---------------------------------------------------------------------
  // The table lookup

  /** Second-level keys of family 0: `op & 0xF0FF` is the low byte. */
  lemma LookupFamily0(kk: nat)
    requires kk < 256
    ensures Lookup(kk) == if kk == 0xE0 then Some(H00E0) else if kk == 0xEE then Some(H00EE) else None
  {
  }

  /** Second-level keys of family 8: `(op & 0xF00F) + 0xFF0` is 0x8FF0 plus
      the low nibble. */
  lemma LookupFamily8(n: nat)
    requires n < 16
    ensures Lookup(0x8FF0 + n) ==
      if n == 0x0 then Some(H8XY0) else if n == 0x1 then Some(H8XY1)
      else if n == 0x2 then Some(H8XY2) else if n == 0x3 then Some(H8XY3)
      else if n == 0x4 then Some(H8XY4) else if n == 0x5 then Some(H8XY5)
      else if n == 0x6 then Some(H8XY6) else if n == 0x7 then Some(H8XY7)
      else if n == 0xE then Some(H8XYE) else None
  {
  }

  /** Second-level keys of family E: `op & 0xF00F` is 0xE000 plus the low
      nibble. */
  lemma LookupFamilyE(n: nat)
    requires n < 16
    ensures Lookup(0xE000 + n) == if n == 0xE then Some(HEX9E) else if n == 0x1 then Some(HEXA1) else None
  {
  }

  /** Second-level keys of family F: `op & 0xF0FF` is 0xF000 plus the low
      byte. */
  lemma LookupFamilyF(kk: nat)
    requires kk < 256
    ensures Lookup(0xF000 + kk) ==
      if kk == 0x07 then Some(HFX07) else if kk == 0x0A then Some(HFX0A)
      else if kk == 0x15 then Some(HFX15) else if kk == 0x18 then Some(HFX18)
      else if kk == 0x1E then Some(HFX1E) else if kk == 0x29 then Some(HFX29)
      else if kk == 0x33 then Some(HFX33) else if kk == 0x55 then Some(HFX55)
      else if kk == 0x65 then Some(HFX65) else None
  {
  }

  /** The two-level table lookup finds exactly the handler the nibbles name,
      and finds nothing for every other opcode. */
  lemma ResolveDecode(op: nat)
    ensures Resolve(op) == Decode(op)
  {
    FamilyKeys(op);
    var t, kk, n := Family(op), op % 256, op % 16;
    if t == 0x0 {
      LookupFamily0(kk);
    } else if t == 0x8 {
      LookupFamily8(n);
    } else if t == 0xE {
      LookupFamilyE(n);
    } else if t == 0xF {
      LookupFamilyF(kk);
    } else if t == 1 {
      assert And(op, 0xF000) == 0x1000;
    } else if t == 2 {
      assert And(op, 0xF000) == 0x2000;
    } else if t == 3 {
      assert And(op, 0xF000) == 0x3000;
    } else if t == 4 {
      assert And(op, 0xF000) == 0x4000;
    } else if t == 5 {
      assert And(op, 0xF000) == 0x5000;
    } else if t == 6 {
      assert And(op, 0xF000) == 0x6000;
    } else if t == 7 {
      assert And(op, 0xF000) == 0x7000;
    } else if t == 9 {
      assert And(op, 0xF000) == 0x9000;
    } else if t == 0xA {
      assert And(op, 0xF000) == 0xA000;
    } else if t == 0xB {
      assert And(op, 0xF000) == 0xB000;
    } else if t == 0xC {
      assert And(op, 0xF000) == 0xC000;
    } else {
      assert And(op, 0xF000) == 0xD000;
    }
  }
}
