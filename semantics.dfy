// What each handler of cpu.c does to the machine, as functions on Machine
// values, and the cycle (fetch, decode, execute) built from them. The
// imperative class in cpu.dfy is proved to follow these functions.
//
// The C arithmetic happens on unsigned bytes and words and on int; the
// conversions back to uint8_t and uint16_t are written out with U8 and U16.
// Undefined behaviour in the C code (reading or writing memory past its end,
// a shift by more than the width of int) becomes a precondition, collected
// in Defined and CycleDefined. A failed C assert and dummy_instr, both of
// which end the program, become a Fault in the Outcome.

module Semantics {
  import opened Fields
  import opened Bits
  import opened MachineState
  import opened Display
  import opened Decoder

  /** Why the program stops: the stack asserts of CALL and RET, or an opcode
      with no handler (dummy_instr). */
  datatype Fault = StackOverflow | StackUnderflow | NotImplemented(opcode: Word)

  /** The machine after a step, and the fault that ended the program, if any.
      On a fault the machine is the state in which the program stopped. */
  datatype Outcome = Outcome(m: Machine, fault: Option<Fault>)

  /** Every register other than `a` and `b` keeps its value. */
  predicate RegsKept(m: Machine, r: Machine, a: Reg, b: Reg)
    requires m.Valid() && r.Valid()
  {
    forall k: Reg :: k != a && k != b ==> r.v[k] == m.v[k]
  }

  /** `pc += 2` when `cond` holds: the skip instructions. */
  function SkipIf(m: Machine, cond: bool): (r: Machine)
    requires m.Valid()
    ensures r.Valid() && r == m.(pc := r.pc)
    ensures r.pc == if cond then U16(m.pc + 2) else m.pc
  {
    if cond then m.(pc := U16(m.pc + 2)) else m
  }

  // ---------------------------------------------------------------------
  // 0nnn .. 2nnn: system, flow of control

  /** 00E0: every pixel goes dark. */
  function Cls(m: Machine): (r: Machine)
    requires m.Valid()
    ensures r.Valid() && r == m.(disp := r.disp)
    ensures forall x: nat, y: nat :: x < WIDTH && y < HEIGHT ==> !PixelOn(r.disp, x, y)
  {
    m.(disp := Blank(DISP_BYTES))
  }

  /** 00EE: pop the return address. The C assert demands 0 < sp <= 15. */
  function Ret(m: Machine): (r: Outcome)
    requires m.Valid()
    ensures r.m.Valid()
    ensures r.fault.Some? <==> !(0 < m.sp <= 15)
    ensures r.fault.Some? ==> r == Outcome(m, Some(StackUnderflow))
    ensures r.fault.None? ==> r.m == m.(pc := m.stack[m.sp - 1], sp := m.sp - 1)
  {
    if 0 < m.sp <= 15 then Outcome(m.(pc := m.stack[m.sp - 1], sp := m.sp - 1), None)
    else Outcome(m, Some(StackUnderflow))
  }

  /** 1nnn: jump. */
  function Jump(m: Machine, nnn: Addr): (r: Machine)
    requires m.Valid()
    ensures r.Valid() && r == m.(pc := nnn)
  {
    m.(pc := nnn)
  }

  /** 2nnn: push pc into slot sp, then jump. The C assert demands sp < 15, so
      at most 15 return addresses are ever held and slot 15 is never written. */
  function Call(m: Machine, nnn: Addr): (r: Outcome)
    requires m.Valid()
    ensures r.m.Valid()
    ensures r.fault.Some? <==> m.sp >= 15
    ensures r.fault.Some? ==> r == Outcome(m, Some(StackOverflow))
    ensures r.fault.None? ==>
      r.m == m.(sp := m.sp + 1, stack := r.m.stack, pc := nnn) &&
      r.m.stack[m.sp] == m.pc &&
      (forall k :: 0 <= k < 16 && k != m.sp ==> r.m.stack[k] == m.stack[k])
  {
    if m.sp < 15 then
      Outcome(m.(sp := m.sp + 1, stack := m.stack[m.sp := m.pc], pc := nnn), None)
    else Outcome(m, Some(StackOverflow))
  }

  // ---------------------------------------------------------------------
  // 3xkk .. 7xkk, 9xy0: comparisons and immediate loads

  /** 3xkk: skip when Vx == kk. */
  function SeByte(m: Machine, x: Reg, kk: Octet): (r: Machine)
    requires m.Valid()
    ensures r.Valid() && r == m.(pc := r.pc)
    ensures r.pc == if m.v[x] == kk then U16(m.pc + 2) else m.pc
  {
    SkipIf(m, m.v[x] == kk)
  }

  /** 4xkk: skip when Vx != kk. */
  function SneByte(m: Machine, x: Reg, kk: Octet): (r: Machine)
    requires m.Valid()
    ensures r.Valid() && r == m.(pc := r.pc)
    ensures r.pc == if m.v[x] != kk then U16(m.pc + 2) else m.pc
  {
    SkipIf(m, m.v[x] != kk)
  }

  /** 5xy0: skip when Vx == Vy; a register always equals itself. */
  function SeReg(m: Machine, x: Reg, y: Reg): (r: Machine)
    requires m.Valid()
    ensures r.Valid() && r == m.(pc := r.pc)
    ensures r.pc == if m.v[x] == m.v[y] then U16(m.pc + 2) else m.pc
    ensures x == y ==> r.pc == U16(m.pc + 2)
  {
    SkipIf(m, m.v[x] == m.v[y])
  }

  /** 9xy0: skip when Vx != Vy. */
  function SneReg(m: Machine, x: Reg, y: Reg): (r: Machine)
    requires m.Valid()
    ensures r.Valid() && r == m.(pc := r.pc)
    ensures r.pc == if m.v[x] != m.v[y] then U16(m.pc + 2) else m.pc
    ensures x == y ==> r.pc == m.pc
  {
    SkipIf(m, m.v[x] != m.v[y])
  }

  /** 6xkk: Vx = kk. */
  function LdByte(m: Machine, x: Reg, kk: Octet): (r: Machine)
    requires m.Valid()
    ensures r.Valid() && r == m.(v := r.v) && RegsKept(m, r, x, x)
    ensures r.v[x] == kk
  {
    m.(v := m.v[x := kk])
  }

  /** 7xkk: Vx = Vx + kk, wrapping at 8 bits; VF is not touched. */
  function AddByte(m: Machine, x: Reg, kk: Octet): (r: Machine)
    requires m.Valid()
    ensures r.Valid() && r == m.(v := r.v) && RegsKept(m, r, x, x)
    ensures r.v[x] == m.v[x] + kk || r.v[x] == m.v[x] + kk - 0x100
  {
    m.(v := m.v[x := U8(m.v[x] + kk)])
  }

  // ---------------------------------------------------------------------
  // 8xy_: register to register

  /** write_with_carry: the result first, then VF, so when dest is VF the
      flag is what remains. */
  function WriteWithCarry(m: Machine, dest: Reg, val: Octet, carry: Octet): (r: Machine)
    requires m.Valid()
    ensures r.Valid() && r == m.(v := r.v) && RegsKept(m, r, dest, VF)
    ensures r.v[VF] == carry
    ensures dest != VF ==> r.v[dest] == val
  {
    m.(v := m.v[dest := val][VF := carry])
  }

  /** 8xy0: Vx = Vy. */
  function LdReg(m: Machine, x: Reg, y: Reg): (r: Machine)
    requires m.Valid()
    ensures r.Valid() && r == m.(v := r.v) && RegsKept(m, r, x, x)
    ensures r.v[x] == m.v[y]
  {
    m.(v := m.v[x := m.v[y]])
  }

  /** The 8-bit result of a C bitwise operator on two bytes. */
  function Logic8(op: LogicOp, a: Octet, b: Octet): (r: Octet)
    ensures forall p: nat :: p < 8 ==> Bit(r, p) == Apply(op, Bit(a, p), Bit(b, p))
  {
    Pow2Values();
    LogicBits(op, a, b, 8);
    BitLogic(op, a, b, 8)
  }

  /** 8xy1: Vx = Vx | Vy, bit by bit. */
  function Or(m: Machine, x: Reg, y: Reg): (r: Machine)
    requires m.Valid()
    ensures r.Valid() && r == m.(v := r.v) && RegsKept(m, r, x, x)
    ensures forall p: nat :: p < 8 ==> (Bit(r.v[x], p) <==> Bit(m.v[x], p) || Bit(m.v[y], p))
  {
    m.(v := m.v[x := Logic8(OrOp, m.v[x], m.v[y])])
  }

  /** 8xy2: Vx = Vx & Vy, bit by bit. */
  function And(m: Machine, x: Reg, y: Reg): (r: Machine)
    requires m.Valid()
    ensures r.Valid() && r == m.(v := r.v) && RegsKept(m, r, x, x)
    ensures forall p: nat :: p < 8 ==> (Bit(r.v[x], p) <==> Bit(m.v[x], p) && Bit(m.v[y], p))
  {
    m.(v := m.v[x := Logic8(AndOp, m.v[x], m.v[y])])
  }

  /** 8xy3: Vx = Vx ^ Vy, bit by bit. */
  function Xor(m: Machine, x: Reg, y: Reg): (r: Machine)
    requires m.Valid()
    ensures r.Valid() && r == m.(v := r.v) && RegsKept(m, r, x, x)
    ensures forall p: nat :: p < 8 ==> (Bit(r.v[x], p) <==> Bit(m.v[x], p) != Bit(m.v[y], p))
  {
    m.(v := m.v[x := Logic8(XorOp, m.v[x], m.v[y])])
  }

  /** 8xy4: Vx = Vx + Vy, VF = carry. Read as a 9-bit number, (VF, Vx) is
      the exact sum; when x is F the flag is what remains. */
  function AddReg(m: Machine, x: Reg, y: Reg): (r: Machine)
    requires m.Valid()
    ensures r.Valid() && r == m.(v := r.v) && RegsKept(m, r, x, VF)
    ensures r.v[VF] == if m.v[x] as int + m.v[y] > 0xFF then 1 else 0
    ensures x != VF ==> r.v[VF] as int * 0x100 + r.v[x] == m.v[x] as int + m.v[y]
  {
    var tmp: Word := m.v[x] as int + m.v[y];
    m.(v := m.v[x := tmp % 0x100][VF := if (tmp / 0x100) % 0x100 != 0 then 1 else 0])
  }

  /** 8xy5: Vx = Vx - Vy, VF = 1 when there is no borrow (Vx >= Vy). With the
      borrow as bit 8, Vx + 256 * (1 - VF) - Vy is the result. */
  function Sub(m: Machine, x: Reg, y: Reg): (r: Machine)
    requires m.Valid()
    ensures r.Valid() && r == m.(v := r.v) && RegsKept(m, r, x, VF)
    ensures r.v[VF] == if m.v[x] >= m.v[y] then 1 else 0
    ensures x != VF ==> r.v[x] == m.v[x] as int - m.v[y] + (1 - r.v[VF] as int) * 0x100
  {
    WriteWithCarry(m, x, U8(m.v[x] as int - m.v[y]), if m.v[x] >= m.v[y] then 1 else 0)
  }

  /** 8xy6: Vx = Vx >> 1, VF = the bit shifted out. */
  function Shr(m: Machine, x: Reg, y: Reg): (r: Machine)
    requires m.Valid()
    ensures r.Valid() && r == m.(v := r.v) && RegsKept(m, r, x, VF)
    ensures r.v[VF] <= 1 && (r.v[VF] == 1 <==> Bit(m.v[x], 0))
    ensures x != VF ==> r.v[x] as int * 2 + r.v[VF] == m.v[x]
  {
    WriteWithCarry(m, x, m.v[x] / 2, m.v[x] % 2)
  }

  /** 8xy7: Vx = Vy - Vx, VF = 1 when there is no borrow (Vy >= Vx). */
  function Subn(m: Machine, x: Reg, y: Reg): (r: Machine)
    requires m.Valid()
    ensures r.Valid() && r == m.(v := r.v) && RegsKept(m, r, x, VF)
    ensures r.v[VF] == if m.v[y] >= m.v[x] then 1 else 0
    ensures x != VF ==> r.v[x] == m.v[y] as int - m.v[x] + (1 - r.v[VF] as int) * 0x100
  {
    WriteWithCarry(m, x, U8(m.v[y] as int - m.v[x]), if m.v[y] >= m.v[x] then 1 else 0)
  }

  /** 8xyE: Vx = Vy << 1, VF = the bit shifted out of Vy. Unlike 8xy6 this
      reads Vy, not Vx. Read as a 9-bit number, (VF, Vx) is 2 * Vy. */
  function Shl(m: Machine, x: Reg, y: Reg): (r: Machine)
    requires m.Valid()
    ensures r.Valid() && r == m.(v := r.v) && RegsKept(m, r, x, VF)
    ensures r.v[VF] == if m.v[y] >= 0x80 then 1 else 0
    ensures x != VF ==> r.v[VF] as int * 0x100 + r.v[x] == m.v[y] as int * 2
  {
    WriteWithCarry(m, x, U8(m.v[y] as int * 2), (m.v[y] / 0x80) % 2)
  }

  // ---------------------------------------------------------------------
  // Annn .. Cxkk: the address register, computed jumps, random numbers

  /** Annn: I = nnn. */
  function LdI(m: Machine, nnn: Addr): (r: Machine)
    requires m.Valid()
    ensures r.Valid() && r == m.(i := nnn)
  {
    m.(i := nnn)
  }

  /** Bnnn: jump to nnn + V0; the sum is at most 0x10FE, so the conversion
      to uint16_t never wraps. */
  function JpV0(m: Machine, nnn: Addr): (r: Machine)
    requires m.Valid()
    ensures r.Valid() && r == m.(pc := r.pc)
    ensures r.pc == nnn + m.v[0]
  {
    m.(pc := U16(nnn + m.v[0]))
  }

  /** Cxkk: Vx = (rand % 255) & kk, where `rand` is the value rand() returned.
      Because of the `% 0xff` the random byte is at most 254, and the result
      has no bit that kk lacks. */
  function Rnd(m: Machine, x: Reg, kk: Octet, rand: nat): (r: Machine)
    requires m.Valid()
    ensures r.Valid() && r == m.(v := r.v) && RegsKept(m, r, x, x)
    ensures r.v[x] <= 254 && r.v[x] <= kk
    ensures forall p: nat :: p < 8 ==> (Bit(r.v[x], p) <==> Bit(rand % 0xFF, p) && Bit(kk, p))
  {
    var byte: Octet := rand % 0xFF;
    AndAtMost(byte, kk, 8);
    AndAtMost(kk, byte, 8);
    AndCommutes(byte, kk, 8);
    m.(v := m.v[x := Logic8(AndOp, byte, kk)])
  }

  lemma {:induction false} AndCommutes(a: nat, b: nat, w: nat)
    ensures BitLogic(AndOp, a, b, w) == BitLogic(AndOp, b, a, w)
  {
    if w > 0 {
      AndCommutes(a / 2, b / 2, w - 1);
    }
  }

  // ---------------------------------------------------------------------
  // Dxyn: drawing

  /** A memory byte as a row of sprite pixels. */
  function SpriteRow(b: Octet): bv8
  {
    b as bv8
  }

  /** The C loop reads mem[I + row] only for row < n, so a sprite of no rows
      reads nothing whatever I holds. */
  predicate SpriteInMemory(m: Machine, n: Nibble)
  {
    n == 0 || m.i + n <= MEM_SIZE
  }

  /** The n sprite bytes at I. */
  function Sprite(m: Machine, n: Nibble): (s: seq<bv8>)
    requires m.Valid() && SpriteInMemory(m, n)
    ensures |s| == n
    ensures forall k :: 0 <= k < n ==> m.i + k < MEM_SIZE && s[k] == SpriteRow(m.mem[m.i + k])
  {
    seq(n, k requires 0 <= k < n => SpriteRow(m.mem[m.i + k]))
  }

  /** Dxyn: the coordinates are read before VF is cleared; every set bit of
      the sprite flips its (wrapped) pixel and VF ends as 1 exactly when some
      lit pixel went dark. */
  function Draw(m: Machine, x: Reg, y: Reg, n: Nibble): (r: Machine)
    requires m.Valid() && SpriteInMemory(m, n)
    ensures r.Valid() && r == m.(v := r.v, disp := r.disp) && RegsKept(m, r, VF, VF)
  {
    var drawn := DrawRows(m.disp, Sprite(m, n), m.v[x], m.v[y], n);
    m.(disp := drawn.0, v := m.v[VF := 0][VF := if drawn.1 then 1 else 0])
  }

  /** What Dxyn does to the display and to VF: exactly the pixels the sprite
      covers are flipped, and VF ends as 1 exactly when some set bit of the
      sprite landed on a lit pixel. */
  lemma DrawEffect(m: Machine, x: Reg, y: Reg, n: Nibble)
    requires m.Valid() && SpriteInMemory(m, n)
    ensures var r := Draw(m, x, y, n);
      r.v[VF] == if SpriteHits(m.disp, Sprite(m, n), m.v[x], m.v[y], n) then 1 else 0
    ensures var r := Draw(m, x, y, n);
      forall px: nat, py: nat :: px < WIDTH && py < HEIGHT ==>
        PixelOn(r.disp, px, py) == (PixelOn(m.disp, px, py) != Covered(Sprite(m, n), m.v[x], m.v[y], n, px, py))
  {
    DrawRowsHits(m.disp, Sprite(m, n), m.v[x], m.v[y], n);
    DrawnPixels(m.disp, Sprite(m, n), m.v[x], m.v[y], n);
  }

  lemma DrawnPixels(d: seq<bv8>, sprite: seq<bv8>, x0: nat, y0: nat, rows: nat)
    requires |d| == DISP_BYTES && rows <= |sprite| && rows <= HEIGHT
    ensures forall px: nat, py: nat :: px < WIDTH && py < HEIGHT ==>
      PixelOn(DrawRows(d, sprite, x0, y0, rows).0, px, py) == (PixelOn(d, px, py) != Covered(sprite, x0, y0, rows, px, py))
  {
    forall px: nat, py: nat | px < WIDTH && py < HEIGHT
      ensures PixelOn(DrawRows(d, sprite, x0, y0, rows).0, px, py) == (PixelOn(d, px, py) != Covered(sprite, x0, y0, rows, px, py))
    {
      DrawRowsPixels(d, sprite, x0, y0, rows, px, py);
    }
  }

  // ---------------------------------------------------------------------
  // Ex9E, ExA1: keys

  /** Whether key k is held: bit k of the key bitmap. */
  predicate KeyDown(keys: Word, k: Nibble)
  {
    Bit(keys, k)
  }

  /** `(uint16_t)(1 << v)`: for 16 <= v <= 30 the int has no bits left in
      the low 16, so the mask is 0. */
  function KeyMask(v: Octet): (mask: Word)
    requires v <= 30
    ensures forall p: nat :: Bit(mask, p) <==> v < 16 && p == v
  {
    Pow2Values();
    Pow2Bits(v);
    ZeroBitsAll();
    if v < 16 then Pow2Below(v, 16); Pow2(v) else 0
  }

  /** `(keys & (1 << v)) != 0`: key v is held, and v names a key at all. */
  function KeyHeld(keys: Word, v: Octet): (held: bool)
    requires v <= 30
    ensures held <==> v < 16 && KeyDown(keys, v)
  {
    if v < 16 then AndPow2(keys, v, 16); BitLogic(AndOp, keys, KeyMask(v), 16) != 0
    else AndZero(keys, 16); BitLogic(AndOp, keys, KeyMask(v), 16) != 0
  }

  /** Ex9E: skip when the key numbered Vx is held. */
  function Skp(m: Machine, x: Reg): (r: Machine)
    requires m.Valid() && m.v[x] <= 30
    ensures r.Valid() && r == m.(pc := r.pc)
    ensures r.pc == if m.v[x] < 16 && KeyDown(m.keys, m.v[x]) then U16(m.pc + 2) else m.pc
  {
    SkipIf(m, KeyHeld(m.keys, m.v[x]))
  }

  /** ExA1: skip when the key numbered Vx is not held. */
  function Sknp(m: Machine, x: Reg): (r: Machine)
    requires m.Valid() && m.v[x] <= 30
    ensures r.Valid() && r == m.(pc := r.pc)
    ensures r.pc == if m.v[x] < 16 && KeyDown(m.keys, m.v[x]) then m.pc else U16(m.pc + 2)
  {
    SkipIf(m, !KeyHeld(m.keys, m.v[x]))
  }

  // ---------------------------------------------------------------------
  // Fx__: timers, key wait, I, memory

  /** Fx07: Vx = DT. */
  function LdVxDt(m: Machine, x: Reg): (r: Machine)
    requires m.Valid()
    ensures r.Valid() && r == m.(v := r.v) && RegsKept(m, r, x, x) && r.v[x] == m.dt
  {
    m.(v := m.v[x := m.dt])
  }

  /** Fx0A: latch the wait for a key and remember the target register. */
  function LdVxKey(m: Machine, x: Reg): (r: Machine)
    requires m.Valid()
    ensures r.Valid() && r.waitKey && r.keyVx == x && r == m.(waitKey := r.waitKey, keyVx := r.keyVx)
  {
    m.(waitKey := true, keyVx := x)
  }

  /** Fx15: DT = Vx. */
  function LdDtVx(m: Machine, x: Reg): (r: Machine)
    requires m.Valid()
    ensures r.Valid() && r.dt == m.v[x] && r == m.(dt := r.dt)
  {
    m.(dt := m.v[x])
  }

  /** Fx18: ST = Vx. */
  function LdStVx(m: Machine, x: Reg): (r: Machine)
    requires m.Valid()
    ensures r.Valid() && r.st == m.v[x] && r == m.(st := r.st)
  {
    m.(st := m.v[x])
  }

  /** Fx1E: I = I + Vx, wrapping at 16 bits; VF is not touched. */
  function AddI(m: Machine, x: Reg): (r: Machine)
    requires m.Valid()
    ensures r.Valid() && r == m.(i := r.i)
    ensures r.i == m.i + m.v[x] || r.i == m.i + m.v[x] - 0x1_0000
  {
    m.(i := U16(m.i + m.v[x]))
  }

  /** Fx29: I = 0x100 + 5 * Vx, the address of the glyph of digit Vx (no
      wrap: at most 0x5FB). */
  function LdFont(m: Machine, x: Reg): (r: Machine)
    requires m.Valid()
    ensures r.Valid() && r == m.(i := r.i)
    ensures r.i == DIGIT_SPRITES_ADDR + 5 * m.v[x] as int
  {
    m.(i := U16(DIGIT_SPRITES_ADDR + m.v[x] as int * 5))
  }

  /** Fx33: the hundreds, tens and ones digit of Vx at I, I+1 and I+2. */
  function Bcd(m: Machine, x: Reg): (r: Machine)
    requires m.Valid() && m.i + 2 < MEM_SIZE
    ensures r.Valid() && r == m.(mem := r.mem)
    ensures r.mem[m.i] < 10 && r.mem[m.i + 1] < 10 && r.mem[m.i + 2] < 10
    ensures 100 * r.mem[m.i] as int + 10 * r.mem[m.i + 1] as int + r.mem[m.i + 2] as int == m.v[x]
    ensures forall k :: 0 <= k < MEM_SIZE && !(m.i <= k <= m.i + 2) ==> r.mem[k] == m.mem[k]
  {
    var n := m.v[x];
    DecimalDigits(n);
    m.(mem := m.mem[m.i := (n / 100) % 10][m.i + 1 := (n / 10) % 10][m.i + 2 := n % 10])
  }

  /** A byte is 100 * hundreds + 10 * tens + ones. */
  lemma DecimalDigits(n: Octet)
    ensures (n / 100) % 10 < 10 && (n / 10) % 10 < 10 && n % 10 < 10
    ensures 100 * ((n / 100) % 10) + 10 * ((n / 10) % 10) + n % 10 == n
  {
    assert n / 100 < 3;
    assert n / 10 == 10 * (n / 100) + (n / 10) % 10;
  }

  /** Fx55: V0 .. Vx to mem[I .. I+x]; I itself is left as it was. */
  function StoreRegs(m: Machine, x: Reg): (r: Machine)
    requires m.Valid() && m.i + x < MEM_SIZE
    ensures r.Valid() && r == m.(mem := r.mem)
    ensures forall k :: 0 <= k <= x ==> r.mem[m.i + k] == m.v[k]
    ensures forall k :: 0 <= k < MEM_SIZE && !(m.i <= k <= m.i + x) ==> r.mem[k] == m.mem[k]
  {
    m.(mem := m.mem[..m.i] + m.v[..x + 1] + m.mem[m.i + x + 1..])
  }

  /** Fx65: mem[I .. I+x] to V0 .. Vx; I itself is left as it was. */
  function LoadRegs(m: Machine, x: Reg): (r: Machine)
    requires m.Valid() && m.i + x < MEM_SIZE
    ensures r.Valid() && r == m.(v := r.v)
    ensures forall k :: 0 <= k <= x ==> r.v[k] == m.mem[m.i + k]
    ensures forall k :: x < k < 16 ==> r.v[k] == m.v[k]
  {
    m.(v := m.mem[m.i .. m.i + x + 1] + m.v[x + 1..])
  }

  // ---------------------------------------------------------------------
  // The cycle

  /** What the C code needs to stay defined when it runs `ins` on m: memory
      accesses inside mem, and a key shift by less than the width of int. */
  predicate Defined(m: Machine, ins: Instr)
    requires m.Valid()
  {
    match ins
    case Drw(_, _, n) => SpriteInMemory(m, n)
    case Skp(x) => m.v[x] <= 30
    case Sknp(x) => m.v[x] <= 30
    case LdBcd(_) => m.i + 2 < MEM_SIZE
    case StoreRegs(x) => m.i + x < MEM_SIZE
    case LoadRegs(x) => m.i + x < MEM_SIZE
    case _ => true
  }

  /** The handler families: flow of control, skips, register loads and
      logic, register arithmetic with a flag, I / timers / key wait, and the
      memory and display instructions (the rest). */
  predicate FlowOp(ins: Instr)
  {
    ins.Sys? || ins.Cls? || ins.Ret? || ins.Jp? || ins.Call? || ins.JpV0?
  }

  predicate SkipOp(ins: Instr)
  {
    ins.SeByte? || ins.SneByte? || ins.SeReg? || ins.SneReg? || ins.Skp? || ins.Sknp?
  }

  predicate LoadOp(ins: Instr)
  {
    ins.LdByte? || ins.AddByte? || ins.LdReg? || ins.Or? || ins.And? || ins.Xor? || ins.Rnd?
  }

  predicate ArithOp(ins: Instr)
  {
    ins.AddReg? || ins.Sub? || ins.Shr? || ins.Subn? || ins.Shl?
  }

  predicate IndexOp(ins: Instr)
  {
    ins.LdI? || ins.LdVxDt? || ins.LdVxKey? || ins.LdDtVx? || ins.LdStVx? || ins.AddI? || ins.LdFont?
  }

  function ExecuteFlow(m: Machine, ins: Instr): (r: Outcome)
    requires m.Valid() && FlowOp(ins)
    ensures r.m.Valid() && r.m == m.(pc := r.m.pc, sp := r.m.sp, stack := r.m.stack, disp := r.m.disp)
    ensures r.fault.Some? ==> r.m == m && (ins.Call? || ins.Ret?)
    ensures ins.Sys? ==> r == Outcome(m, None)
  {
    match ins
    case Sys(_) => Outcome(m, None)
    case Cls => Outcome(Cls(m), None)
    case Ret => Ret(m)
    case Jp(nnn) => Outcome(Jump(m, nnn), None)
    case Call(nnn) => Call(m, nnn)
    case JpV0(nnn) => Outcome(JpV0(m, nnn), None)
    case _ => Outcome(m, None)
  }

  function ExecuteSkip(m: Machine, ins: Instr): (r: Machine)
    requires m.Valid() && SkipOp(ins) && Defined(m, ins)
    ensures r.Valid() && r == m.(pc := r.pc)
    ensures r.pc == m.pc || r.pc == U16(m.pc + 2)
  {
    match ins
    case SeByte(x, kk) => SeByte(m, x, kk)
    case SneByte(x, kk) => SneByte(m, x, kk)
    case SeReg(x, y) => SeReg(m, x, y)
    case SneReg(x, y) => SneReg(m, x, y)
    case Skp(x) => Skp(m, x)
    case Sknp(x) => Sknp(m, x)
    case _ => m
  }

  function ExecuteLoad(m: Machine, ins: Instr, rand: nat): (r: Machine)
    requires m.Valid() && LoadOp(ins)
    ensures r.Valid() && r == m.(v := r.v) && RegsKept(m, r, ins.x, ins.x)
  {
    match ins
    case LdByte(x, kk) => LdByte(m, x, kk)
    case AddByte(x, kk) => AddByte(m, x, kk)
    case LdReg(x, y) => LdReg(m, x, y)
    case Or(x, y) => Or(m, x, y)
    case And(x, y) => And(m, x, y)
    case Xor(x, y) => Xor(m, x, y)
    case Rnd(x, kk) => Rnd(m, x, kk, rand)
    case _ => m
  }

  function ExecuteArith(m: Machine, ins: Instr): (r: Machine)
    requires m.Valid() && ArithOp(ins)
    ensures r.Valid() && r == m.(v := r.v) && RegsKept(m, r, ins.x, VF)
  {
    match ins
    case AddReg(x, y) => AddReg(m, x, y)
    case Sub(x, y) => Sub(m, x, y)
    case Shr(x, y) => Shr(m, x, y)
    case Subn(x, y) => Subn(m, x, y)
    case Shl(x, y) => Shl(m, x, y)
    case _ => m
  }

  function ExecuteIndex(m: Machine, ins: Instr): (r: Machine)
    requires m.Valid() && IndexOp(ins)
    ensures r.Valid() && r == m.(v := r.v, i := r.i, dt := r.dt, st := r.st, waitKey := r.waitKey, keyVx := r.keyVx)
    ensures !ins.LdI? ==> RegsKept(m, r, ins.x, ins.x)
  {
    match ins
    case LdI(nnn) => LdI(m, nnn)
    case LdVxDt(x) => LdVxDt(m, x)
    case LdVxKey(x) => LdVxKey(m, x)
    case LdDtVx(x) => LdDtVx(m, x)
    case LdStVx(x) => LdStVx(m, x)
    case AddI(x) => AddI(m, x)
    case LdFont(x) => LdFont(m, x)
    case _ => m
  }

  function ExecuteMem(m: Machine, ins: Instr): (r: Machine)
    requires m.Valid() && Defined(m, ins)
    requires ins.Drw? || ins.LdBcd? || ins.StoreRegs? || ins.LoadRegs?
    ensures r.Valid() && r == m.(mem := r.mem, v := r.v, disp := r.disp)
  {
    match ins
    case Drw(x, y, n) => Draw(m, x, y, n)
    case LdBcd(x) => Bcd(m, x)
    case StoreRegs(x) => StoreRegs(m, x)
    case LoadRegs(x) => LoadRegs(m, x)
    case _ => m
  }

  /** execute: run the handler of `ins`. `rand` is what rand() returns. Only
      CALL and RET can fail, and a failure leaves the machine as it was. */
  function Execute(m: Machine, ins: Instr, rand: nat): (r: Outcome)
    requires m.Valid() && Defined(m, ins)
    ensures r.m.Valid()
    ensures r.fault.Some? ==> r.m == m
    ensures r.fault == Some(StackOverflow) <==> ins.Call? && m.sp >= 15
    ensures r.fault == Some(StackUnderflow) <==> ins.Ret? && !(0 < m.sp <= 15)
    ensures r.fault.Some? ==> r.fault == Some(StackOverflow) || r.fault == Some(StackUnderflow)
  {
    if FlowOp(ins) then ExecuteFlow(m, ins)
    else if SkipOp(ins) then Outcome(ExecuteSkip(m, ins), None)
    else if LoadOp(ins) then Outcome(ExecuteLoad(m, ins, rand), None)
    else if ArithOp(ins) then Outcome(ExecuteArith(m, ins), None)
    else if IndexOp(ins) then Outcome(ExecuteIndex(m, ins), None)
    else Outcome(ExecuteMem(m, ins), None)
  }

  /** fetch: the big-endian word at pc, and pc advanced by 2. */
  function Fetch(m: Machine): (r: (Word, Machine))
    requires m.Valid() && m.pc + 1 < MEM_SIZE
    ensures r.1.Valid() && r.1 == m.(pc := m.pc + 2)
    ensures Nibs2Byte(Opcode2Nib(r.0, 0), Opcode2Nib(r.0, 1)) == m.mem[m.pc]
    ensures Nibs2Byte(Opcode2Nib(r.0, 2), Opcode2Nib(r.0, 3)) == m.mem[m.pc + 1]
  {
    (Bytes2Opcode(m.mem[m.pc], m.mem[m.pc + 1]), m.(pc := U16(m.pc + 2)))
  }

  /** What cpu_cycle needs to stay defined on m. */
  predicate CycleDefined(m: Machine)
    requires m.Valid()
  {
    m.waitKey ||
    (m.pc + 1 < MEM_SIZE &&
     var (opcode, next) := Fetch(m);
     Decode(opcode).Some? ==> Defined(next, Decode(opcode).value))
  }

  /** cpu_cycle: nothing while a key is awaited; otherwise fetch, decode and
      execute, stopping at an opcode that has no handler. */
  function Cycle(m: Machine, rand: nat): (r: Outcome)
    requires m.Valid() && CycleDefined(m)
    ensures r.m.Valid()
    ensures m.waitKey ==> r == Outcome(m, None)
    ensures !m.waitKey ==> (r.fault == Some(NotImplemented(Fetch(m).0)) <==> Decode(Fetch(m).0).None?)
    ensures !m.waitKey && r.fault.Some? ==> r.m == Fetch(m).1
  {
    if m.waitKey then Outcome(m, None)
    else
      var (opcode, next) := Fetch(m);
      match Decode(opcode)
      case None => Outcome(next, Some(NotImplemented(opcode)))
      case Some(ins) => Execute(next, ins, rand)
  }

  // ---------------------------------------------------------------------
  // The other entry points of cpu.c

  /** cpu_tick60hz: both timers count down to 0 and stay there. */
  function Tick60Hz(m: Machine): (r: Machine)
    requires m.Valid()
    ensures r.Valid() && r == m.(dt := r.dt, st := r.st)
    ensures r.dt == if m.dt == 0 then 0 else m.dt - 1
    ensures r.st == if m.st == 0 then 0 else m.st - 1
  {
    m.(dt := if m.dt > 0 then m.dt - 1 else m.dt, st := if m.st > 0 then m.st - 1 else m.st)
  }

  /** cpu_reset. The memsets cover 0xf registers and 0xf stack slots, so VF
      and stack[15] keep their values; the font is copied to 0x100. */
  function Reset(m: Machine): (r: Machine)
    requires m.Valid()
    ensures r.Valid()
    ensures r.mem[DIGIT_SPRITES_ADDR .. DIGIT_SPRITES_ADDR + 80] == DIGIT_SPRITES
    ensures forall k :: 0 <= k < MEM_SIZE && !(DIGIT_SPRITES_ADDR <= k < DIGIT_SPRITES_ADDR + 80) ==> r.mem[k] == m.mem[k]
    ensures forall k :: 0 <= k < 15 ==> r.v[k] == 0 && r.stack[k] == 0
    ensures r.v[15] == m.v[15] && r.stack[15] == m.stack[15]
    ensures forall x: nat, y: nat :: x < WIDTH && y < HEIGHT ==> !PixelOn(r.disp, x, y)
    ensures r.i == 0 && r.dt == 0 && r.st == 0 && r.sp == 0 && r.pc == BASE_ADDR
    ensures r.keys == 0 && !r.waitKey && r.keyVx == 0
  {
    Machine(
      m.mem[..DIGIT_SPRITES_ADDR] + DIGIT_SPRITES + m.mem[DIGIT_SPRITES_ADDR + 80..],
      Zeros(15) + [m.v[15]],
      0, 0, 0, 0,
      ZeroWords(15) + [m.stack[15]],
      BASE_ADDR, 0,
      Blank(DISP_BYTES),
      false, 0)
  }

  /** cpu_init: clear mem[0 .. 0xFFE] (the memset is 0xfff bytes long, so
      the last byte is kept), then reset. srand is not modelled. */
  function Init(m: Machine): (r: Machine)
    requires m.Valid()
    ensures r.Valid()
    ensures r.mem[MEM_SIZE - 1] == m.mem[MEM_SIZE - 1]
    ensures forall k :: 0 <= k < MEM_SIZE - 1 && !(DIGIT_SPRITES_ADDR <= k < DIGIT_SPRITES_ADDR + 80) ==> r.mem[k] == 0
    ensures r.mem[DIGIT_SPRITES_ADDR .. DIGIT_SPRITES_ADDR + 80] == DIGIT_SPRITES
    ensures r.(mem := Reset(m).mem) == Reset(m)
  {
    Reset(m.(mem := Zeros(MEM_SIZE - 1) + [m.mem[MEM_SIZE - 1]]))
  }

  /** The largest ROM cpu_load_rom's assert lets through. */
  const MAX_ROM: int := 0xFFF - BASE_ADDR

  /** The memory part of cpu_load_rom: the ROM bytes at BASE_ADDR. None is
      the failed size assert. */
  function LoadRom(m: Machine, rom: seq<Octet>): (r: Option<Machine>)
    requires m.Valid()
    ensures r.None? <==> |rom| > MAX_ROM
    ensures r.Some? ==> r.value.Valid() && r.value == m.(mem := r.value.mem)
    ensures r.Some? ==> r.value.mem[BASE_ADDR .. BASE_ADDR + |rom|] == rom
    ensures r.Some? ==> forall k :: 0 <= k < MEM_SIZE && !(BASE_ADDR <= k < BASE_ADDR + |rom|) ==> r.value.mem[k] == m.mem[k]
  {
    if |rom| > MAX_ROM then None
    else Some(m.(mem := m.mem[..BASE_ADDR] + rom + m.mem[BASE_ADDR + |rom|..]))
  }

  /** The 16-bit key bitmap with bit `key` set (`keys |= 1 << key`) or
      cleared (`keys &= ~(1 << key)`). */
  function KeyBits(keys: Word, key: Nibble, down: bool): (r: Word)
    ensures KeyDown(r, key) == down
    ensures forall k: Nibble :: k != key ==> KeyDown(r, k) == KeyDown(keys, k)
  {
    Pow2Values();
    Pow2Bits(key);
    LogicBits(if down then OrOp else AndNotOp, keys, Pow2(key), 16);
    BitLogic(if down then OrOp else AndNotOp, keys, Pow2(key), 16)
  }

  /** cpu_set_key_state. A key-down event sets the key's bit and, while a
      key is awaited, stores the key number in the latched register and ends
      the wait; a key-up event clears the bit. None is the failed key assert. */
  function SetKeyState(m: Machine, key: Octet, state: Octet): (r: Option<Machine>)
    requires m.Valid()
    ensures r.None? <==> key > 0xF
    ensures r.Some? ==> r.value.Valid() && KeyDown(r.value.keys, key) == (state != 0)
    ensures r.Some? ==> forall k: Nibble :: k != key ==> KeyDown(r.value.keys, k) == KeyDown(m.keys, k)
    ensures r.Some? && (state == 0 || !m.waitKey) ==> r.value == m.(keys := r.value.keys)
    ensures r.Some? && state != 0 && m.waitKey ==>
      r.value == m.(keys := r.value.keys, v := m.v[m.keyVx := key], waitKey := false)
  {
    if key > 0xF then None
    else
      var pressed := m.(keys := KeyBits(m.keys, key, state != 0));
      Some(if state != 0 && m.waitKey then pressed.(v := m.v[m.keyVx := key], waitKey := false) else pressed)
  }
}
