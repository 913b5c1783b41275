// The interpreter as the C code runs it: `struct chip8` as a class whose
// arrays are updated in place, with one method per handler and per entry
// point of cpu.c. Every method is proved to do what the corresponding
// function of module Semantics says, on the abstract value Abs().

module Cpu {
  import opened Fields
  import opened Bits
  import opened MachineState
  import opened Display
  import Decoder
  import Semantics

  class Chip8 {
    const mem: array<Octet>
    const v: array<Octet>
    var i: Word
    var dt: Octet
    var st: Octet
    var sp: Octet
    const stack: array<Word>
    var pc: Word
    var keys: Word
    const disp: array<bv8>
    var waitKey: bool
    var keyVx: Reg

    /** The array sizes of cpu.h; the two byte arrays are distinct. */
    ghost predicate Valid()
      reads this
    {
      mem.Length == MEM_SIZE && v.Length == 16 && stack.Length == 16 && disp.Length == DISP_BYTES && mem != v
    }

    /** The state as a Machine value. */
    ghost function Abs(): (m: Machine)
      requires Valid()
      reads this, mem, v, stack, disp
      ensures m.Valid()
    {
      Machine(mem[..], v[..], i, dt, st, sp, stack[..], pc, keys, disp[..], waitKey, keyVx)
    }

    /** The zero-initialised global `struct chip8`. */
    constructor ()
      ensures Valid() && Abs() == ZeroMachine()
      ensures fresh(mem) && fresh(v) && fresh(stack) && fresh(disp)
    {
      mem := new Octet[MEM_SIZE](_ => 0);
      v := new Octet[16](_ => 0);
      stack := new Word[16](_ => 0);
      disp := new bv8[DISP_BYTES](_ => 0);
      i, dt, st, sp, pc, keys := 0, 0, 0, 0, 0, 0;
      waitKey, keyVx := false, 0;
    }

    // -------------------------------------------------------------------
    // 0nnn .. 2nnn

    /** 00E0: memset of the display. */
    method Cls()
      requires Valid()
      modifies disp
      ensures Valid() && Abs() == Semantics.Cls(old(Abs()))
    {
      forall k | 0 <= k < DISP_BYTES {
        disp[k] := 0;
      }
      assert disp[..] == Blank(DISP_BYTES);
    }

    /** 00EE; the failed assert on sp is the fault. */
    method Ret() returns (fault: Option<Semantics.Fault>)
      requires Valid()
      modifies this
      ensures Valid() && Semantics.Outcome(Abs(), fault) == Semantics.Ret(old(Abs()))
    {
      if !(0 < sp <= 15) {
        return Some(Semantics.StackUnderflow);
      }
      pc := stack[sp - 1];
      sp := sp - 1;
      fault := None;
    }

    /** 1nnn. */
    method Jump(nnn: Decoder.Addr)
      requires Valid()
      modifies this
      ensures Valid() && Abs() == Semantics.Jump(old(Abs()), nnn)
    {
      pc := nnn;
    }

    /** 2nnn; the failed assert on sp is the fault. */
    method Call(nnn: Decoder.Addr) returns (fault: Option<Semantics.Fault>)
      requires Valid()
      modifies this, stack
      ensures Valid() && Semantics.Outcome(Abs(), fault) == Semantics.Call(old(Abs()), nnn)
    {
      if !(sp < 15) {
        return Some(Semantics.StackOverflow);
      }
      sp := sp + 1;
      stack[sp - 1] := pc;
      pc := nnn;
      fault := None;
    }

    // -------------------------------------------------------------------
    // 3xkk .. 7xkk, 9xy0

    /** `pc += 2` when `cond` holds. */
    method SkipIf(cond: bool)
      requires Valid()
      modifies this
      ensures Valid() && Abs() == Semantics.SkipIf(old(Abs()), cond)
    {
      if cond {
        pc := U16(pc + 2);
      }
    }

    /** 3xkk. */
    method SeByte(x: Reg, kk: Octet)
      requires Valid()
      modifies this
      ensures Valid() && Abs() == Semantics.SeByte(old(Abs()), x, kk)
    {
      SkipIf(v[x] == kk);
    }

    /** 4xkk. */
    method SneByte(x: Reg, kk: Octet)
      requires Valid()
      modifies this
      ensures Valid() && Abs() == Semantics.SneByte(old(Abs()), x, kk)
    {
      SkipIf(v[x] != kk);
    }

    /** 5xy0. */
    method SeReg(x: Reg, y: Reg)
      requires Valid()
      modifies this
      ensures Valid() && Abs() == Semantics.SeReg(old(Abs()), x, y)
    {
      SkipIf(v[x] == v[y]);
    }

    /** 9xy0. */
    method SneReg(x: Reg, y: Reg)
      requires Valid()
      modifies this
      ensures Valid() && Abs() == Semantics.SneReg(old(Abs()), x, y)
    {
      SkipIf(v[x] != v[y]);
    }

    /** 6xkk. */
    method LdByte(x: Reg, kk: Octet)
      requires Valid()
      modifies v
      ensures Valid() && Abs() == Semantics.LdByte(old(Abs()), x, kk)
    {
      v[x] := kk;
    }

    /** 7xkk. */
    method AddByte(x: Reg, kk: Octet)
      requires Valid()
      modifies v
      ensures Valid() && Abs() == Semantics.AddByte(old(Abs()), x, kk)
    {
      v[x] := U8(v[x] + kk);
    }

    // -------------------------------------------------------------------
    // 8xy_

    /** write_with_carry. */
    method WriteWithCarry(dest: Reg, val: Octet, carry: Octet)
      requires Valid()
      modifies v
      ensures Valid() && Abs() == Semantics.WriteWithCarry(old(Abs()), dest, val, carry)
    {
      v[dest] := val;
      v[VF] := carry;
    }

    /** 8xy0. */
    method LdReg(x: Reg, y: Reg)
      requires Valid()
      modifies v
      ensures Valid() && Abs() == Semantics.LdReg(old(Abs()), x, y)
    {
      v[x] := v[y];
    }

    /** 8xy1. */
    method Or(x: Reg, y: Reg)
      requires Valid()
      modifies v
      ensures Valid() && Abs() == Semantics.Or(old(Abs()), x, y)
    {
      v[x] := Semantics.Logic8(OrOp, v[x], v[y]);
    }

    /** 8xy2. */
    method And(x: Reg, y: Reg)
      requires Valid()
      modifies v
      ensures Valid() && Abs() == Semantics.And(old(Abs()), x, y)
    {
      v[x] := Semantics.Logic8(AndOp, v[x], v[y]);
    }

    /** 8xy3. */
    method Xor(x: Reg, y: Reg)
      requires Valid()
      modifies v
      ensures Valid() && Abs() == Semantics.Xor(old(Abs()), x, y)
    {
      v[x] := Semantics.Logic8(XorOp, v[x], v[y]);
    }

    /** 8xy4: the 16-bit sum, its low byte to Vx, then the carry to VF. */
    method AddReg(x: Reg, y: Reg)
      requires Valid()
      modifies v
      ensures Valid() && Abs() == Semantics.AddReg(old(Abs()), x, y)
    {
      var tmp: Word := v[x] as int + v[y];
      v[x] := tmp % 0x100;
      v[VF] := if (tmp / 0x100) % 0x100 != 0 then 1 else 0;
    }

    /** 8xy5. */
    method Sub(x: Reg, y: Reg)
      requires Valid()
      modifies v
      ensures Valid() && Abs() == Semantics.Sub(old(Abs()), x, y)
    {
      WriteWithCarry(x, U8(v[x] as int - v[y]), if v[x] >= v[y] then 1 else 0);
    }

    /** 8xy6. */
    method Shr(x: Reg, y: Reg)
      requires Valid()
      modifies v
      ensures Valid() && Abs() == Semantics.Shr(old(Abs()), x, y)
    {
      WriteWithCarry(x, v[x] / 2, v[x] % 2);
    }

    /** 8xy7. */
    method Subn(x: Reg, y: Reg)
      requires Valid()
      modifies v
      ensures Valid() && Abs() == Semantics.Subn(old(Abs()), x, y)
    {
      WriteWithCarry(x, U8(v[y] as int - v[x]), if v[y] >= v[x] then 1 else 0);
    }

    /** 8xyE. */
    method Shl(x: Reg, y: Reg)
      requires Valid()
      modifies v
      ensures Valid() && Abs() == Semantics.Shl(old(Abs()), x, y)
    {
      WriteWithCarry(x, U8(v[y] as int * 2), (v[y] / 0x80) % 2);
    }

    // -------------------------------------------------------------------
    // Annn .. Cxkk

    /** Annn. */
    method LdI(nnn: Decoder.Addr)
      requires Valid()
      modifies this
      ensures Valid() && Abs() == Semantics.LdI(old(Abs()), nnn)
    {
      i := nnn;
    }

    /** Bnnn. */
    method JpV0(nnn: Decoder.Addr)
      requires Valid()
      modifies this
      ensures Valid() && Abs() == Semantics.JpV0(old(Abs()), nnn)
    {
      pc := U16(nnn + v[0]);
    }

    /** Cxkk, with `rand` the value rand() returned. */
    method Rnd(x: Reg, kk: Octet, rand: nat)
      requires Valid()
      modifies v
      ensures Valid() && Abs() == Semantics.Rnd(old(Abs()), x, kk, rand)
    {
      v[x] := Semantics.Logic8(AndOp, rand % 0xFF, kk);
    }

    // -------------------------------------------------------------------
    // Dxyn

    /** xor_pixel. */
    method XorPixel(x: nat, y: nat) returns (result: bv8)
      requires Valid()
      modifies disp
      ensures Valid() && disp[..] == Display.XorPixel(old(disp[..]), x, y).0
      ensures result == Display.XorPixel(old(disp[..]), x, y).1
    {
      var target := TargetByte(x, y);
      disp[target] := Toggle(disp[target], ValueMask(x));
      result := Masked(disp[target], ValueMask(x));
    }

    /** The inner loop of Dxyn: the 8 pixels of one sprite row, each set bit
        (`sprite_row & (128 >> px)`, BitMaskIsShift) flipped by xor_pixel;
        `hit` records a flipped pixel that was lit. */
    method DrawSpriteRow(bits: bv8, x0: nat, y: nat) returns (hit: bool)
      requires Valid()
      modifies disp
      ensures Valid() && disp[..] == DrawRow(old(disp[..]), bits, x0, y, 8).0
      ensures hit == DrawRow(old(disp[..]), bits, x0, y, 8).1
    {
      ghost var d0 := disp[..];
      hit := false;
      var px := 0;
      while px < 8
        invariant 0 <= px <= 8
        invariant disp[..] == DrawRow(d0, bits, x0, y, px).0
        invariant hit == DrawRow(d0, bits, x0, y, px).1
      {
        DrawRowNext(d0, bits, x0, y, px);
        if bits & BitMask(px) != 0 {
          var result := XorPixel(x0 + px, y);
          if result == 0 {
            hit := true;
          }
        }
        px := px + 1;
      }
    }

    /** The outer loop of Dxyn: the n rows of the sprite at I, row `row`
        drawn at (x0, y0 + row); `hit` records a collision in any row. */
    method DrawSprite(ghost sprite: seq<bv8>, x0: nat, y0: nat, n: Nibble) returns (hit: bool)
      requires Valid() && (n == 0 || i + n <= MEM_SIZE)
      requires |sprite| == n && forall k :: 0 <= k < n ==> sprite[k] == Semantics.SpriteRow(mem[i + k])
      modifies disp
      ensures Valid() && disp[..] == DrawRows(old(disp[..]), sprite, x0, y0, n).0
      ensures hit == DrawRows(old(disp[..]), sprite, x0, y0, n).1
    {
      ghost var d0 := disp[..];
      hit := false;
      var row := 0;
      while row < n
        invariant 0 <= row <= n
        invariant disp[..] == DrawRows(d0, sprite, x0, y0, row).0
        invariant hit == DrawRows(d0, sprite, x0, y0, row).1
      {
        DrawRowsNext(d0, sprite, x0, y0, row);
        var spriteRow := Semantics.SpriteRow(mem[i + row]);
        var rowHit := DrawSpriteRow(spriteRow, x0, y0 + row);
        hit := hit || rowHit;
        row := row + 1;
      }
    }

    /** Dxyn: VF cleared, then the n sprite rows from memory at I drawn at
        (Vx, Vy); VF set on a collision. */
    method Draw(x: Reg, y: Reg, n: Nibble)
      requires Valid() && (n == 0 || i + n <= MEM_SIZE)
      modifies v, disp
      ensures Valid() && Abs() == Semantics.Draw(old(Abs()), x, y, n)
    {
      ghost var sprite := Semantics.Sprite(Abs(), n);
      var startX, startY := v[x], v[y];
      v[VF] := 0;
      var hit := DrawSprite(sprite, startX, startY, n);
      if hit {
        v[VF] := 1;
      }
    }

    // -------------------------------------------------------------------
    // Ex9E, ExA1, Fx__

    /** Ex9E. */
    method Skp(x: Reg)
      requires Valid() && v[x] <= 30
      modifies this
      ensures Valid() && Abs() == Semantics.Skp(old(Abs()), x)
    {
      SkipIf(Semantics.KeyHeld(keys, v[x]));
    }

    /** ExA1. */
    method Sknp(x: Reg)
      requires Valid() && v[x] <= 30
      modifies this
      ensures Valid() && Abs() == Semantics.Sknp(old(Abs()), x)
    {
      SkipIf(!Semantics.KeyHeld(keys, v[x]));
    }

    /** Fx07. */
    method LdVxDt(x: Reg)
      requires Valid()
      modifies v
      ensures Valid() && Abs() == Semantics.LdVxDt(old(Abs()), x)
    {
      v[x] := dt;
    }

    /** Fx0A. */
    method LdVxKey(x: Reg)
      requires Valid()
      modifies this
      ensures Valid() && Abs() == Semantics.LdVxKey(old(Abs()), x)
    {
      waitKey := true;
      keyVx := x;
    }

    /** Fx15. */
    method LdDtVx(x: Reg)
      requires Valid()
      modifies this
      ensures Valid() && Abs() == Semantics.LdDtVx(old(Abs()), x)
    {
      dt := v[x];
    }

    /** Fx18. */
    method LdStVx(x: Reg)
      requires Valid()
      modifies this
      ensures Valid() && Abs() == Semantics.LdStVx(old(Abs()), x)
    {
      st := v[x];
    }

    /** Fx1E. */
    method AddI(x: Reg)
      requires Valid()
      modifies this
      ensures Valid() && Abs() == Semantics.AddI(old(Abs()), x)
    {
      i := U16(i + v[x]);
    }

    /** Fx29. */
    method LdFont(x: Reg)
      requires Valid()
      modifies this
      ensures Valid() && Abs() == Semantics.LdFont(old(Abs()), x)
    {
      i := U16(DIGIT_SPRITES_ADDR + v[x] as int * 5);
    }

    /** Fx33. */
    method Bcd(x: Reg)
      requires Valid() && i + 2 < MEM_SIZE
      modifies mem
      ensures Valid() && Abs() == Semantics.Bcd(old(Abs()), x)
    {
      mem[i] := (v[x] / 100) % 10;
      mem[i + 1] := (v[x] / 10) % 10;
      mem[i + 2] := v[x] % 10;
    }

    /** Fx55: the loop over V0 .. Vx. */
    method StoreRegs(x: Reg)
      requires Valid() && i + x < MEM_SIZE
      modifies mem
      ensures Valid() && Abs() == Semantics.StoreRegs(old(Abs()), x)
    {
      var k := 0;
      while k <= x
        invariant 0 <= k <= x + 1
        invariant forall j :: 0 <= j < MEM_SIZE ==> mem[j] == if i <= j < i + k then v[j - i] else old(mem[j])
      {
        mem[i + k] := v[k];
        k := k + 1;
      }
      ghost var r := Semantics.StoreRegs(old(Abs()), x);
      assert forall j :: 0 <= j < MEM_SIZE ==> mem[j] == r.mem[j];
      assert mem[..] == r.mem;
    }

    /** Fx65: the loop over V0 .. Vx. */
    method LoadRegs(x: Reg)
      requires Valid() && i + x < MEM_SIZE
      modifies v
      ensures Valid() && Abs() == Semantics.LoadRegs(old(Abs()), x)
    {
      var k := 0;
      while k <= x
        invariant 0 <= k <= x + 1
        invariant forall j :: 0 <= j < 16 ==> v[j] == if j < k then mem[i + j] else old(v[j])
      {
        v[k] := mem[i + k];
        k := k + 1;
      }
      ghost var r := Semantics.LoadRegs(old(Abs()), x);
      assert forall j :: 0 <= j < 16 ==> v[j] == r.v[j];
      assert v[..] == r.v;
    }

    // -------------------------------------------------------------------
    // The cycle

    /** execute, for 00E0 .. 2nnn and Bnnn (0nnn does nothing). */
    method ExecuteFlow(ins: Decoder.Instr) returns (fault: Option<Semantics.Fault>)
      requires Valid() && Semantics.FlowOp(ins)
      modifies this, stack, disp
      ensures Valid() && Semantics.Outcome(Abs(), fault) == Semantics.ExecuteFlow(old(Abs()), ins)
    {
      fault := None;
      if ins.Cls? {
        Cls();
      } else if ins.Ret? {
        fault := Ret();
      } else if ins.Jp? {
        Jump(ins.nnn);
      } else if ins.Call? {
        fault := Call(ins.nnn);
      } else if ins.JpV0? {
        JpV0(ins.nnn);
      }
    }

    /** execute, for the skips 3xkk, 4xkk, 5xy0, 9xy0, Ex9E and ExA1. */
    method ExecuteSkip(ins: Decoder.Instr)
      requires Valid() && Semantics.SkipOp(ins) && Semantics.Defined(Abs(), ins)
      modifies this
      ensures Valid() && Abs() == Semantics.ExecuteSkip(old(Abs()), ins)
    {
      if ins.SeByte? {
        SeByte(ins.x, ins.kk);
      } else if ins.SneByte? {
        SneByte(ins.x, ins.kk);
      } else if ins.SeReg? {
        SeReg(ins.x, ins.y);
      } else if ins.SneReg? {
        SneReg(ins.x, ins.y);
      } else if ins.Skp? {
        Skp(ins.x);
      } else {
        Sknp(ins.x);
      }
    }

    /** execute, for 6xkk, 7xkk, 8xy0 .. 8xy3 and Cxkk. */
    method ExecuteLoad(ins: Decoder.Instr, rand: nat)
      requires Valid() && Semantics.LoadOp(ins)
      modifies v
      ensures Valid() && Abs() == Semantics.ExecuteLoad(old(Abs()), ins, rand)
    {
      if ins.LdByte? {
        LdByte(ins.x, ins.kk);
      } else if ins.AddByte? {
        AddByte(ins.x, ins.kk);
      } else if ins.LdReg? {
        LdReg(ins.x, ins.y);
      } else if ins.Or? {
        Or(ins.x, ins.y);
      } else if ins.And? {
        And(ins.x, ins.y);
      } else if ins.Xor? {
        Xor(ins.x, ins.y);
      } else {
        Rnd(ins.x, ins.kk, rand);
      }
    }

    /** execute, for 8xy4 .. 8xyE. */
    method ExecuteArith(ins: Decoder.Instr)
      requires Valid() && Semantics.ArithOp(ins)
      modifies v
      ensures Valid() && Abs() == Semantics.ExecuteArith(old(Abs()), ins)
    {
      if ins.AddReg? {
        AddReg(ins.x, ins.y);
      } else if ins.Sub? {
        Sub(ins.x, ins.y);
      } else if ins.Shr? {
        Shr(ins.x, ins.y);
      } else if ins.Subn? {
        Subn(ins.x, ins.y);
      } else {
        Shl(ins.x, ins.y);
      }
    }

    /** execute, for Annn and the Fx__ instructions on I, the timers and the key wait. */
    method ExecuteIndex(ins: Decoder.Instr)
      requires Valid() && Semantics.IndexOp(ins)
      modifies this, v
      ensures Valid() && Abs() == Semantics.ExecuteIndex(old(Abs()), ins)
    {
      if ins.LdI? {
        LdI(ins.nnn);
      } else if ins.LdVxDt? {
        LdVxDt(ins.x);
      } else if ins.LdVxKey? {
        LdVxKey(ins.x);
      } else if ins.LdDtVx? {
        LdDtVx(ins.x);
      } else if ins.LdStVx? {
        LdStVx(ins.x);
      } else if ins.AddI? {
        AddI(ins.x);
      } else {
        LdFont(ins.x);
      }
    }

    /** execute, for Dxyn, Fx33, Fx55 and Fx65. */
    method ExecuteMem(ins: Decoder.Instr)
      requires Valid() && Semantics.Defined(Abs(), ins)
      requires ins.Drw? || ins.LdBcd? || ins.StoreRegs? || ins.LoadRegs?
      modifies mem, v, disp
      ensures Valid() && Abs() == Semantics.ExecuteMem(old(Abs()), ins)
    {
      if ins.Drw? {
        Draw(ins.x, ins.y, ins.n);
      } else if ins.LdBcd? {
        Bcd(ins.x);
      } else if ins.StoreRegs? {
        StoreRegs(ins.x);
      } else {
        LoadRegs(ins.x);
      }
    }

    /** execute: run the handler of `ins`; `rand` is what rand() returns. */
    method Execute(ins: Decoder.Instr, rand: nat) returns (fault: Option<Semantics.Fault>)
      requires Valid() && Semantics.Defined(Abs(), ins)
      modifies this, mem, v, stack, disp
      ensures Valid() && Semantics.Outcome(Abs(), fault) == Semantics.Execute(old(Abs()), ins, rand)
    {
      fault := None;
      if Semantics.FlowOp(ins) {
        fault := ExecuteFlow(ins);
      } else if Semantics.SkipOp(ins) {
        ExecuteSkip(ins);
      } else if Semantics.LoadOp(ins) {
        ExecuteLoad(ins, rand);
      } else if Semantics.ArithOp(ins) {
        ExecuteArith(ins);
      } else if Semantics.IndexOp(ins) {
        ExecuteIndex(ins);
      } else {
        ExecuteMem(ins);
      }
    }

    /** cpu_cycle: nothing while a key is awaited; otherwise fetch (pc += 2),
        decode, and execute. */
    method Cycle(rand: nat) returns (fault: Option<Semantics.Fault>)
      requires Valid() && Semantics.CycleDefined(Abs())
      modifies this, mem, v, stack, disp
      ensures Valid() && Semantics.Outcome(Abs(), fault) == Semantics.Cycle(old(Abs()), rand)
    {
      if waitKey {
        return None;
      }
      var opcode := Bytes2Opcode(mem[pc], mem[pc + 1]);
      pc := U16(pc + 2);
      match Decoder.Decode(opcode)
      case None => fault := Some(Semantics.NotImplemented(opcode));
      case Some(ins) => fault := Execute(ins, rand);
    }

    // -------------------------------------------------------------------
    // The other entry points

    /** cpu_tick60hz. */
    method Tick60Hz()
      requires Valid()
      modifies this
      ensures Valid() && Abs() == Semantics.Tick60Hz(old(Abs()))
    {
      if dt > 0 {
        dt := dt - 1;
      }
      if st > 0 {
        st := st - 1;
      }
    }

    /** The memcpy of the digit sprites to 0x100 in cpu_reset. */
    method CopyFont()
      requires Valid()
      modifies mem
      ensures Valid()
      ensures mem[..] == old(mem[..])[..DIGIT_SPRITES_ADDR] + DIGIT_SPRITES + old(mem[..])[DIGIT_SPRITES_ADDR + 80..]
    {
      ghost var before := mem[..];
      forall k | 0 <= k < 80 {
        mem[DIGIT_SPRITES_ADDR + k] := DIGIT_SPRITES[k];
      }
      ghost var after := before[..DIGIT_SPRITES_ADDR] + DIGIT_SPRITES + before[DIGIT_SPRITES_ADDR + 80..];
      forall k | 0 <= k < MEM_SIZE
        ensures mem[k] == after[k]
      {
        if k < DIGIT_SPRITES_ADDR {
          assert after[k] == before[k];
        } else if k < DIGIT_SPRITES_ADDR + 80 {
          assert after[k] == DIGIT_SPRITES[k - DIGIT_SPRITES_ADDR];
        } else {
          assert after[k] == before[k];
        }
      }
      assert mem[..] == after;
    }

    /** cpu_reset: the memsets of 15 registers, 15 stack slots and the
        display, the font copy, and the scalar fields. */
    method Reset()
      requires Valid()
      modifies this, mem, v, stack, disp
      ensures Valid() && Abs() == Semantics.Reset(old(Abs()))
    {
      ghost var r := Semantics.Reset(Abs());
      CopyFont();
      forall k | 0 <= k < 15 {
        v[k] := 0;
      }
      assert v[..] == r.v;
      forall k | 0 <= k < 15 {
        stack[k] := 0;
      }
      assert stack[..] == r.stack;
      forall k | 0 <= k < DISP_BYTES {
        disp[k] := 0;
      }
      assert disp[..] == r.disp;
      i, dt, st, sp, pc, keys := 0, 0, 0, 0, BASE_ADDR, 0;
      waitKey, keyVx := false, 0;
    }

    /** cpu_init: the memset of 0xfff bytes of memory, then reset. */
    method Init()
      requires Valid()
      modifies this, mem, v, stack, disp
      ensures Valid() && Abs() == Semantics.Init(old(Abs()))
    {
      forall k | 0 <= k < MEM_SIZE - 1 {
        mem[k] := 0;
      }
      assert mem[..] == Zeros(MEM_SIZE - 1) + [old(mem[MEM_SIZE - 1])];
      Reset();
    }

    /** The memory part of cpu_load_rom; false is the failed size assert,
        which leaves the state as it was. */
    method LoadRom(rom: seq<Octet>) returns (ok: bool)
      requires Valid()
      modifies mem
      ensures Valid()
      ensures ok == Semantics.LoadRom(old(Abs()), rom).Some?
      ensures ok ==> Abs() == Semantics.LoadRom(old(Abs()), rom).value
      ensures !ok ==> Abs() == old(Abs())
    {
      if |rom| > Semantics.MAX_ROM {
        return false;
      }
      forall k | 0 <= k < |rom| {
        mem[BASE_ADDR + k] := rom[k];
      }
      ghost var r := Semantics.LoadRom(old(Abs()), rom).value;
      assert forall k :: 0 <= k < MEM_SIZE ==> mem[k] == r.mem[k];
      assert mem[..] == r.mem;
      ok := true;
    }

    /** cpu_get_pixel for non-negative coordinates. */
    method GetPixel(x: int, y: int) returns (result: bv8)
      requires Valid() && x >= 0 && y >= 0
      ensures result == Display.GetPixel(disp[..], x, y)
    {
      var target := TargetByte(x, y);
      result := Masked(disp[target], ValueMask(x));
    }

    /** cpu_set_key_state; false is the failed key assert, which leaves the
        state as it was. */
    method SetKeyState(key: Octet, state: Octet) returns (ok: bool)
      requires Valid()
      modifies this, v
      ensures Valid()
      ensures ok == Semantics.SetKeyState(old(Abs()), key, state).Some?
      ensures ok ==> Abs() == Semantics.SetKeyState(old(Abs()), key, state).value
      ensures !ok ==> Abs() == old(Abs())
    {
      if key > 0xF {
        return false;
      }
      keys := Semantics.KeyBits(keys, key, state != 0);
      if state != 0 && waitKey {
        v[keyVx] := key;
        waitKey := false;
      }
      ok := true;
    }
  }
}
