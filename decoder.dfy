// The instruction set and the dispatch of cpu.c's decode: the closed table
// from an opcode word to the handler that executes it, as a datatype of
// decoded instructions. Words that reach dummy_instr decode to None.

module Decoder {
  import opened Fields
  import opened MachineState

  /** A 12-bit address nnn. */
  type Addr = a: int | 0 <= a < 0x1000

  /** One constructor per handler of the dispatch table, with the fields the
      handler reads from the opcode (x = second nibble, y = third nibble,
      n = fourth nibble, kk = low byte, nnn = low 12 bits). */
  datatype Instr =
    | Sys(nnn: Addr)                  // 0nnn  (ignored)
    | Cls                             // 00E0
    | Ret                             // 00EE
    | Jp(nnn: Addr)                   // 1nnn
    | Call(nnn: Addr)                 // 2nnn
    | SeByte(x: Nibble, kk: Octet)         // 3xkk
    | SneByte(x: Nibble, kk: Octet)        // 4xkk
    | SeReg(x: Nibble, y: Nibble)           // 5xy0
    | LdByte(x: Nibble, kk: Octet)         // 6xkk
    | AddByte(x: Nibble, kk: Octet)        // 7xkk
    | LdReg(x: Nibble, y: Nibble)           // 8xy0
    | Or(x: Nibble, y: Nibble)              // 8xy1
    | And(x: Nibble, y: Nibble)             // 8xy2
    | Xor(x: Nibble, y: Nibble)             // 8xy3
    | AddReg(x: Nibble, y: Nibble)          // 8xy4
    | Sub(x: Nibble, y: Nibble)             // 8xy5
    | Shr(x: Nibble, y: Nibble)             // 8xy6
    | Subn(x: Nibble, y: Nibble)            // 8xy7
    | Shl(x: Nibble, y: Nibble)             // 8xyE
    | SneReg(x: Nibble, y: Nibble)          // 9xy0
    | LdI(nnn: Addr)                  // Annn
    | JpV0(nnn: Addr)                 // Bnnn
    | Rnd(x: Nibble, kk: Octet)            // Cxkk
    | Drw(x: Nibble, y: Nibble, n: Nibble)    // Dxyn
    | Skp(x: Nibble)                     // Ex9E
    | Sknp(x: Nibble)                    // ExA1
    | LdVxDt(x: Nibble)                  // Fx07
    | LdVxKey(x: Nibble)                 // Fx0A
    | LdDtVx(x: Nibble)                  // Fx15
    | LdStVx(x: Nibble)                  // Fx18
    | AddI(x: Nibble)                    // Fx1E
    | LdFont(x: Nibble)                  // Fx29
    | LdBcd(x: Nibble)                   // Fx33
    | StoreRegs(x: Nibble)               // Fx55
    | LoadRegs(x: Nibble)                // Fx65

  /** The dispatch of cpu.c's decode. None stands for dummy_instr, which
      reports "not implemented" and ends the program. */
  function Decode(opcode: Word): (r: Option<Instr>)
    ensures r.None? ==> Opcode2Nib(opcode, 0) in {0x5, 0x8, 0x9, 0xE, 0xF}
    ensures r.Some? && Opcode2Nib(opcode, 0) == 0x0 ==> r.value.Sys? || r.value.Cls? || r.value.Ret?
  {
    DecodeNibs(Opcode2Nib(opcode, 0), Opcode2Nib(opcode, 1), Opcode2Nib(opcode, 2), Opcode2Nib(opcode, 3))
  }

  /** The switch on the four nibbles of the opcode, leftmost first. */
  function DecodeNibs(nib0: Nibble, nib1: Nibble, nib2: Nibble, nib3: Nibble): (r: Option<Instr>)
    ensures r.None? ==> nib0 in {0x5, 0x8, 0x9, 0xE, 0xF}
    ensures r.Some? && nib0 == 0x0 ==> r.value.Sys? || r.value.Cls? || r.value.Ret?
  {
    var x, y, n := nib1, nib2, nib3;
    var kk := Nibs2Byte(nib2, nib3);
    var nnn := Nibs2Addr(0, nib1, nib2, nib3);
    if nib0 == 0x0 then
      if nib1 == 0x0 && nib2 == 0xE && nib3 == 0x0 then Some(Cls)
      else if nib1 == 0x0 && nib2 == 0xE && nib3 == 0xE then Some(Ret)
      else Some(Sys(nnn))
    else if nib0 == 0x1 then Some(Jp(nnn))
    else if nib0 == 0x2 then Some(Call(nnn))
    else if nib0 == 0x3 then Some(SeByte(x, kk))
    else if nib0 == 0x4 then Some(SneByte(x, kk))
    else if nib0 == 0x5 then
      if nib3 == 0x0 then Some(SeReg(x, y)) else None
    else if nib0 == 0x6 then Some(LdByte(x, kk))
    else if nib0 == 0x7 then Some(AddByte(x, kk))
    else if nib0 == 0x8 then
      if nib3 == 0x0 then Some(LdReg(x, y))
      else if nib3 == 0x1 then Some(Or(x, y))
      else if nib3 == 0x2 then Some(And(x, y))
      else if nib3 == 0x3 then Some(Xor(x, y))
      else if nib3 == 0x4 then Some(AddReg(x, y))
      else if nib3 == 0x5 then Some(Sub(x, y))
      else if nib3 == 0x6 then Some(Shr(x, y))
      else if nib3 == 0x7 then Some(Subn(x, y))
      else if nib3 == 0xE then Some(Shl(x, y))
      else None
    else if nib0 == 0x9 then
      if nib3 == 0x0 then Some(SneReg(x, y)) else None
    else if nib0 == 0xA then Some(LdI(nnn))
    else if nib0 == 0xB then Some(JpV0(nnn))
    else if nib0 == 0xC then Some(Rnd(x, kk))
    else if nib0 == 0xD then Some(Drw(x, y, n))
    else if nib0 == 0xE then
      if nib2 == 0x9 && nib3 == 0xE then Some(Skp(x))
      else if nib2 == 0xA && nib3 == 0x1 then Some(Sknp(x))
      else None
    else
      if nib2 == 0x0 && nib3 == 0x7 then Some(LdVxDt(x))
      else if nib2 == 0x0 && nib3 == 0xA then Some(LdVxKey(x))
      else if nib2 == 0x1 && nib3 == 0x5 then Some(LdDtVx(x))
      else if nib2 == 0x1 && nib3 == 0x8 then Some(LdStVx(x))
      else if nib2 == 0x1 && nib3 == 0xE then Some(AddI(x))
      else if nib2 == 0x2 && nib3 == 0x9 then Some(LdFont(x))
      else if nib2 == 0x3 && nib3 == 0x3 then Some(LdBcd(x))
      else if nib2 == 0x5 && nib3 == 0x5 then Some(StoreRegs(x))
      else if nib2 == 0x6 && nib3 == 0x5 then Some(LoadRegs(x))
      else None
  }

  // ---------------------------------------------------------------------
  // The inverse: assembling an instruction into its opcode word

  /** The high and the low nibble of a byte. */
  function Hi(kk: Octet): Nibble
  {
    kk / 0x10
  }

  function Lo(kk: Octet): Nibble
  {
    kk % 0x10
  }

  /** The four nibbles of an instruction's opcode, leftmost first. */
  function Nibbles(ins: Instr): (Nibble, Nibble, Nibble, Nibble)
  {
    match ins
    case Sys(nnn) => (0x0, Opcode2Nib(nnn, 1), Opcode2Nib(nnn, 2), Opcode2Nib(nnn, 3))
    case Cls => (0x0, 0x0, 0xE, 0x0)
    case Ret => (0x0, 0x0, 0xE, 0xE)
    case Jp(nnn) => (0x1, Opcode2Nib(nnn, 1), Opcode2Nib(nnn, 2), Opcode2Nib(nnn, 3))
    case Call(nnn) => (0x2, Opcode2Nib(nnn, 1), Opcode2Nib(nnn, 2), Opcode2Nib(nnn, 3))
    case SeByte(x, kk) => (0x3, x, Hi(kk), Lo(kk))
    case SneByte(x, kk) => (0x4, x, Hi(kk), Lo(kk))
    case SeReg(x, y) => (0x5, x, y, 0x0)
    case LdByte(x, kk) => (0x6, x, Hi(kk), Lo(kk))
    case AddByte(x, kk) => (0x7, x, Hi(kk), Lo(kk))
    case LdReg(x, y) => (0x8, x, y, 0x0)
    case Or(x, y) => (0x8, x, y, 0x1)
    case And(x, y) => (0x8, x, y, 0x2)
    case Xor(x, y) => (0x8, x, y, 0x3)
    case AddReg(x, y) => (0x8, x, y, 0x4)
    case Sub(x, y) => (0x8, x, y, 0x5)
    case Shr(x, y) => (0x8, x, y, 0x6)
    case Subn(x, y) => (0x8, x, y, 0x7)
    case Shl(x, y) => (0x8, x, y, 0xE)
    case SneReg(x, y) => (0x9, x, y, 0x0)
    case LdI(nnn) => (0xA, Opcode2Nib(nnn, 1), Opcode2Nib(nnn, 2), Opcode2Nib(nnn, 3))
    case JpV0(nnn) => (0xB, Opcode2Nib(nnn, 1), Opcode2Nib(nnn, 2), Opcode2Nib(nnn, 3))
    case Rnd(x, kk) => (0xC, x, Hi(kk), Lo(kk))
    case Drw(x, y, n) => (0xD, x, y, n)
    case Skp(x) => (0xE, x, 0x9, 0xE)
    case Sknp(x) => (0xE, x, 0xA, 0x1)
    case LdVxDt(x) => (0xF, x, 0x0, 0x7)
    case LdVxKey(x) => (0xF, x, 0x0, 0xA)
    case LdDtVx(x) => (0xF, x, 0x1, 0x5)
    case LdStVx(x) => (0xF, x, 0x1, 0x8)
    case AddI(x) => (0xF, x, 0x1, 0xE)
    case LdFont(x) => (0xF, x, 0x2, 0x9)
    case LdBcd(x) => (0xF, x, 0x3, 0x3)
    case StoreRegs(x) => (0xF, x, 0x5, 0x5)
    case LoadRegs(x) => (0xF, x, 0x6, 0x5)
  }

  /** The opcode word of an instruction, as an assembler writes it. */
  function Encode(ins: Instr): Word
  {
    var (a, b, c, d) := Nibbles(ins);
    Nibs2Addr(a, b, c, d)
  }

  /** The one overlap in the table: 00E0 and 00EE are not SYS calls. */
  predicate Canonical(ins: Instr)
  {
    ins.Sys? ==> ins.nnn != 0x0E0 && ins.nnn != 0x0EE
  }

  lemma ByteSplit(kk: Octet)
    ensures Nibs2Byte(Hi(kk), Lo(kk)) == kk
  {
  }

  lemma AddrSplit(nnn: Addr)
    ensures Nibs2Addr(0, Opcode2Nib(nnn, 1), Opcode2Nib(nnn, 2), Opcode2Nib(nnn, 3)) == nnn
  {
    OpcodeSplitJoin(nnn);
    assert Opcode2Nib(nnn, 0) == 0;
  }

  lemma DecodeEncodeAddr(ins: Instr)
    requires ins.Sys? || ins.Jp? || ins.Call? || ins.LdI? || ins.JpV0?
    requires Canonical(ins)
    ensures Decode(Encode(ins)) == Some(ins)
  {
    AddrSplit(ins.nnn);
  }

  lemma DecodeEncodeByte(ins: Instr)
    requires ins.SeByte? || ins.SneByte? || ins.LdByte? || ins.AddByte? || ins.Rnd?
    ensures Decode(Encode(ins)) == Some(ins)
  {
    ByteSplit(ins.kk);
  }

  lemma DecodeEncodeLogic(ins: Instr)
    requires ins.LdReg? || ins.Or? || ins.And? || ins.Xor? || ins.AddReg?
    ensures Decode(Encode(ins)) == Some(ins)
  {
  }

  lemma DecodeEncodeArith(ins: Instr)
    requires ins.Sub? || ins.Shr? || ins.Subn? || ins.Shl?
    ensures Decode(Encode(ins)) == Some(ins)
  {
  }

  lemma DecodeEncodeOther(ins: Instr)
    requires ins.Cls? || ins.Ret? || ins.SeReg? || ins.SneReg? || ins.Drw? || ins.Skp? || ins.Sknp?
    ensures Decode(Encode(ins)) == Some(ins)
  {
  }

  lemma DecodeEncodeTimers(ins: Instr)
    requires ins.LdVxDt? || ins.LdVxKey? || ins.LdDtVx? || ins.LdStVx? || ins.AddI?
    ensures Decode(Encode(ins)) == Some(ins)
  {
  }

  lemma DecodeEncodeMemory(ins: Instr)
    requires ins.LdFont? || ins.LdBcd? || ins.StoreRegs? || ins.LoadRegs?
    ensures Decode(Encode(ins)) == Some(ins)
  {
  }

  /** Every instruction decodes from its own opcode. */
  lemma DecodeEncode(ins: Instr)
    requires Canonical(ins)
    ensures Decode(Encode(ins)) == Some(ins)
  {
    if ins.Sys? || ins.Jp? || ins.Call? || ins.LdI? || ins.JpV0? {
      DecodeEncodeAddr(ins);
    } else if ins.SeByte? || ins.SneByte? || ins.LdByte? || ins.AddByte? || ins.Rnd? {
      DecodeEncodeByte(ins);
    } else if ins.LdReg? || ins.Or? || ins.And? || ins.Xor? || ins.AddReg? {
      DecodeEncodeLogic(ins);
    } else if ins.Sub? || ins.Shr? || ins.Subn? || ins.Shl? {
      DecodeEncodeArith(ins);
    } else if ins.Cls? || ins.Ret? || ins.SeReg? || ins.SneReg? || ins.Drw? || ins.Skp? || ins.Sknp? {
      DecodeEncodeOther(ins);
    } else if ins.LdVxDt? || ins.LdVxKey? || ins.LdDtVx? || ins.LdStVx? || ins.AddI? {
      DecodeEncodeTimers(ins);
    } else {
      DecodeEncodeMemory(ins);
    }
  }

  lemma ByteJoin(hi: Nibble, lo: Nibble)
    ensures Hi(Nibs2Byte(hi, lo)) == hi && Lo(Nibs2Byte(hi, lo)) == lo
  {
  }

  lemma NibblesDecodeSystem(b: Nibble, c: Nibble, d: Nibble)
    requires DecodeNibs(0x0, b, c, d).Some?
    ensures Canonical(DecodeNibs(0x0, b, c, d).value)
    ensures Nibbles(DecodeNibs(0x0, b, c, d).value) == (0x0, b, c, d)
  {
  }

  lemma NibblesDecodeJump(b: Nibble, c: Nibble, d: Nibble)
    requires DecodeNibs(0x1, b, c, d).Some?
    ensures Canonical(DecodeNibs(0x1, b, c, d).value)
    ensures Nibbles(DecodeNibs(0x1, b, c, d).value) == (0x1, b, c, d)
  {
  }

  lemma NibblesDecodeCall(b: Nibble, c: Nibble, d: Nibble)
    requires DecodeNibs(0x2, b, c, d).Some?
    ensures Canonical(DecodeNibs(0x2, b, c, d).value)
    ensures Nibbles(DecodeNibs(0x2, b, c, d).value) == (0x2, b, c, d)
  {
  }

  lemma NibblesDecodeSeByte(b: Nibble, c: Nibble, d: Nibble)
    requires DecodeNibs(0x3, b, c, d).Some?
    ensures Canonical(DecodeNibs(0x3, b, c, d).value)
    ensures Nibbles(DecodeNibs(0x3, b, c, d).value) == (0x3, b, c, d)
  {
    assert DecodeNibs(0x3, b, c, d) == Some(SeByte(b, Nibs2Byte(c, d)));
    ByteJoin(c, d);
  }

  lemma NibblesDecodeSneByte(b: Nibble, c: Nibble, d: Nibble)
    requires DecodeNibs(0x4, b, c, d).Some?
    ensures Canonical(DecodeNibs(0x4, b, c, d).value)
    ensures Nibbles(DecodeNibs(0x4, b, c, d).value) == (0x4, b, c, d)
  {
    assert DecodeNibs(0x4, b, c, d) == Some(SneByte(b, Nibs2Byte(c, d)));
    ByteJoin(c, d);
  }

  lemma NibblesDecodeSeReg(b: Nibble, c: Nibble, d: Nibble)
    requires DecodeNibs(0x5, b, c, d).Some?
    ensures Canonical(DecodeNibs(0x5, b, c, d).value)
    ensures Nibbles(DecodeNibs(0x5, b, c, d).value) == (0x5, b, c, d)
  {
  }

  lemma NibblesDecodeLdByte(b: Nibble, c: Nibble, d: Nibble)
    requires DecodeNibs(0x6, b, c, d).Some?
    ensures Canonical(DecodeNibs(0x6, b, c, d).value)
    ensures Nibbles(DecodeNibs(0x6, b, c, d).value) == (0x6, b, c, d)
  {
    assert DecodeNibs(0x6, b, c, d) == Some(LdByte(b, Nibs2Byte(c, d)));
    ByteJoin(c, d);
  }

  lemma NibblesDecodeAddByte(b: Nibble, c: Nibble, d: Nibble)
    requires DecodeNibs(0x7, b, c, d).Some?
    ensures Canonical(DecodeNibs(0x7, b, c, d).value)
    ensures Nibbles(DecodeNibs(0x7, b, c, d).value) == (0x7, b, c, d)
  {
    assert DecodeNibs(0x7, b, c, d) == Some(AddByte(b, Nibs2Byte(c, d)));
    ByteJoin(c, d);
  }

  lemma NibblesDecodeAlu(b: Nibble, c: Nibble, d: Nibble)
    requires DecodeNibs(0x8, b, c, d).Some?
    ensures Canonical(DecodeNibs(0x8, b, c, d).value)
    ensures Nibbles(DecodeNibs(0x8, b, c, d).value) == (0x8, b, c, d)
  {
  }



  lemma NibblesDecodeSneReg(b: Nibble, c: Nibble, d: Nibble)
    requires DecodeNibs(0x9, b, c, d).Some?
    ensures Canonical(DecodeNibs(0x9, b, c, d).value)
    ensures Nibbles(DecodeNibs(0x9, b, c, d).value) == (0x9, b, c, d)
  {
  }

  lemma NibblesDecodeLdI(b: Nibble, c: Nibble, d: Nibble)
    requires DecodeNibs(0xA, b, c, d).Some?
    ensures Canonical(DecodeNibs(0xA, b, c, d).value)
    ensures Nibbles(DecodeNibs(0xA, b, c, d).value) == (0xA, b, c, d)
  {
  }

  lemma NibblesDecodeJpV0(b: Nibble, c: Nibble, d: Nibble)
    requires DecodeNibs(0xB, b, c, d).Some?
    ensures Canonical(DecodeNibs(0xB, b, c, d).value)
    ensures Nibbles(DecodeNibs(0xB, b, c, d).value) == (0xB, b, c, d)
  {
  }

  lemma NibblesDecodeRnd(b: Nibble, c: Nibble, d: Nibble)
    requires DecodeNibs(0xC, b, c, d).Some?
    ensures Canonical(DecodeNibs(0xC, b, c, d).value)
    ensures Nibbles(DecodeNibs(0xC, b, c, d).value) == (0xC, b, c, d)
  {
    assert DecodeNibs(0xC, b, c, d) == Some(Rnd(b, Nibs2Byte(c, d)));
    ByteJoin(c, d);
  }

  lemma NibblesDecodeDrw(b: Nibble, c: Nibble, d: Nibble)
    requires DecodeNibs(0xD, b, c, d).Some?
    ensures Canonical(DecodeNibs(0xD, b, c, d).value)
    ensures Nibbles(DecodeNibs(0xD, b, c, d).value) == (0xD, b, c, d)
  {
  }

  lemma NibblesDecodeKeys(b: Nibble, c: Nibble, d: Nibble)
    requires DecodeNibs(0xE, b, c, d).Some?
    ensures Canonical(DecodeNibs(0xE, b, c, d).value)
    ensures Nibbles(DecodeNibs(0xE, b, c, d).value) == (0xE, b, c, d)
  {
  }

  lemma NibblesDecodeMisc(b: Nibble, c: Nibble, d: Nibble)
    requires DecodeNibs(0xF, b, c, d).Some?
    ensures Canonical(DecodeNibs(0xF, b, c, d).value)
    ensures Nibbles(DecodeNibs(0xF, b, c, d).value) == (0xF, b, c, d)
  {
  }



  /** The switch only dispatches a nibble pattern to an instruction with
      exactly those nibbles. */
  lemma NibblesDecode(a: Nibble, b: Nibble, c: Nibble, d: Nibble)
    requires DecodeNibs(a, b, c, d).Some?
    ensures Canonical(DecodeNibs(a, b, c, d).value)
    ensures Nibbles(DecodeNibs(a, b, c, d).value) == (a, b, c, d)
  {
    if a == 0x0 {
      NibblesDecodeSystem(b, c, d);
    } else if a == 0x1 {
      NibblesDecodeJump(b, c, d);
    } else if a == 0x2 {
      NibblesDecodeCall(b, c, d);
    } else if a == 0x3 {
      NibblesDecodeSeByte(b, c, d);
    } else if a == 0x4 {
      NibblesDecodeSneByte(b, c, d);
    } else if a == 0x5 {
      NibblesDecodeSeReg(b, c, d);
    } else if a == 0x6 {
      NibblesDecodeLdByte(b, c, d);
    } else if a == 0x7 {
      NibblesDecodeAddByte(b, c, d);
    } else if a == 0x8 {
      NibblesDecodeAlu(b, c, d);
    } else if a == 0x9 {
      NibblesDecodeSneReg(b, c, d);
    } else if a == 0xA {
      NibblesDecodeLdI(b, c, d);
    } else if a == 0xB {
      NibblesDecodeJpV0(b, c, d);
    } else if a == 0xC {
      NibblesDecodeRnd(b, c, d);
    } else if a == 0xD {
      NibblesDecodeDrw(b, c, d);
    } else if a == 0xE {
      NibblesDecodeKeys(b, c, d);
    } else {
      NibblesDecodeMisc(b, c, d);
    }
  }

  /** Every opcode that decodes is the encoding of what it decodes to. */
  lemma EncodeDecode(opcode: Word)
    requires Decode(opcode).Some?
    ensures Canonical(Decode(opcode).value)
    ensures Encode(Decode(opcode).value) == opcode
  {
    NibblesDecode(Opcode2Nib(opcode, 0), Opcode2Nib(opcode, 1), Opcode2Nib(opcode, 2), Opcode2Nib(opcode, 3));
    OpcodeSplitJoin(opcode);
  }
}
