// Properties of the interpreter that relate several steps: subroutine call
// and return, the stack bound, drawing the same sprite twice, the key-wait
// latch, the timers, reset, the register dump and reload, and running the
// instruction stored at pc.

module Properties {
  import opened Fields
  import opened Bits
  import opened MachineState
  import opened Display
  import Decoder
  import opened Semantics

  /** The two bytes at `addr` hold the encoding of `ins`. */
  predicate InstrAt(m: Machine, addr: int, ins: Decoder.Instr)
    requires m.Valid()
  {
    0 <= addr && addr + 1 < MEM_SIZE && Bytes2Opcode(m.mem[addr], m.mem[addr + 1]) == Decoder.Encode(ins)
  }

  // ---------------------------------------------------------------------
  // Fetch, decode, execute

  /** A cycle runs the instruction stored at pc, on the machine whose pc
      already points past it. */
  lemma CycleRunsInstrAtPc(m: Machine, ins: Decoder.Instr, rand: nat)
    requires m.Valid() && !m.waitKey && InstrAt(m, m.pc, ins) && Decoder.Canonical(ins)
    ensures Fetch(m).0 == Decoder.Encode(ins) && Fetch(m).1.pc == m.pc + 2
    ensures Decoder.Decode(Fetch(m).0) == Some(ins)
    ensures Defined(Fetch(m).1, ins) ==> CycleDefined(m) && Cycle(m, rand) == Execute(Fetch(m).1, ins, rand)
  {
    Decoder.DecodeEncode(ins);
  }

  /** After a ROM is loaded and the machine reset, the first cycle fetches the
      ROM's first two bytes. */
  lemma FirstFetchIsRomStart(m: Machine, rom: seq<Octet>)
    requires m.Valid() && 2 <= |rom| <= MAX_ROM
    ensures LoadRom(m, rom).Some?
    ensures var r := Reset(LoadRom(m, rom).value);
      Fetch(r).0 == Bytes2Opcode(rom[0], rom[1]) && Fetch(r).1.pc == BASE_ADDR + 2
  {
    var loaded := LoadRom(m, rom).value;
    assert loaded.mem[BASE_ADDR] == rom[0] && loaded.mem[BASE_ADDR + 1] == rom[1];
  }

  // ---------------------------------------------------------------------
  // Subroutines and the stack

  /** 2nnn followed by 00EE at nnn comes back to the instruction after the
      call with the stack pointer restored; the only trace left is the return
      address (the CALL's own address + 2) in stack slot sp. */
  lemma CallThenReturn(m: Machine, nnn: Decoder.Addr, rand1: nat, rand2: nat)
    requires m.Valid() && !m.waitKey && m.sp < 15
    requires InstrAt(m, m.pc, Decoder.Call(nnn)) && InstrAt(m, nnn, Decoder.Ret)
    ensures CycleDefined(m)
    ensures var c := Cycle(m, rand1);
      c.fault.None? && c.m.pc == nnn && c.m.sp == m.sp + 1 && CycleDefined(c.m) &&
      var back := Cycle(c.m, rand2);
      back.fault.None? && back.m == m.(pc := m.pc + 2, stack := m.stack[m.sp := m.pc + 2])
  {
    CycleRunsInstrAtPc(m, Decoder.Call(nnn), rand1);
    var c := Cycle(m, rand1);
    assert c.m.mem == m.mem;
    CycleRunsInstrAtPc(c.m, Decoder.Ret, rand2);
  }

  /** A CALL with 15 return addresses held stops the program (the C assert),
      so the stack never holds a 16th. */
  lemma CallAtDepth15Stops(m: Machine, nnn: Decoder.Addr, rand: nat)
    requires m.Valid() && !m.waitKey && m.sp == 15 && InstrAt(m, m.pc, Decoder.Call(nnn))
    ensures CycleDefined(m) && Cycle(m, rand).fault == Some(StackOverflow)
  {
    CycleRunsInstrAtPc(m, Decoder.Call(nnn), rand);
  }

  /** No instruction takes sp above 15 or writes stack slot 15. */
  lemma ExecuteKeepsStackBound(m: Machine, ins: Decoder.Instr, rand: nat)
    requires m.Valid() && Defined(m, ins) && m.sp <= 15
    ensures Execute(m, ins, rand).m.sp <= 15
    ensures Execute(m, ins, rand).m.stack[15] == m.stack[15]
  {
    if !FlowOp(ins) {
      assert Execute(m, ins, rand).m.sp == m.sp && Execute(m, ins, rand).m.stack == m.stack;
    } else if ins.Call? {
      assert Execute(m, ins, rand) == Call(m, ins.nnn);
    }
  }

  // ---------------------------------------------------------------------
  // Drawing

  /** Dxy0 draws nothing; it only clears VF. */
  lemma DrawNoRows(m: Machine, x: Reg, y: Reg)
    requires m.Valid()
    ensures Draw(m, x, y, 0) == m.(v := m.v[VF := 0])
  {
  }

  /** Drawing the same sprite twice at the same place leaves the display as
      it was, and the second draw reports a collision exactly when the sprite
      has a set bit over a pixel that was dark before the first. The
      coordinate registers must not be VF, which the first draw overwrites. */
  lemma DrawTwiceRestores(m: Machine, x: Reg, y: Reg, n: Nibble)
    requires m.Valid() && SpriteInMemory(m, n) && x != VF && y != VF
    ensures var once := Draw(m, x, y, n);
      var twice := Draw(once, x, y, n);
      twice.disp == m.disp &&
      (twice.v[VF] == 1 <==> SpriteMisses(m.disp, Sprite(m, n), m.v[x], m.v[y], n))
  {
    var once := Draw(m, x, y, n);
    assert Sprite(once, n) == Sprite(m, n);
    DrawTwice(m.disp, Sprite(m, n), m.v[x], m.v[y], n);
    DrawRowsHits(DrawRows(m.disp, Sprite(m, n), m.v[x], m.v[y], n).0, Sprite(m, n), m.v[x], m.v[y], n);
  }

  /** On a blank display the first draw of a sprite with a set bit reports
      no collision and the second one does. */
  lemma RedrawOnBlankCollides(m: Machine, x: Reg, y: Reg, n: Nibble, row: nat, col: nat)
    requires m.Valid() && SpriteInMemory(m, n) && x != VF && y != VF
    requires m.disp == Blank(DISP_BYTES)
    requires row < n && col < 8 && Sprite(m, n)[row] & BitMask(col) != 0
    ensures Draw(m, x, y, n).v[VF] == 0
    ensures Draw(Draw(m, x, y, n), x, y, n).v[VF] == 1
  {
    var s, x0, y0 := Sprite(m, n), m.v[x], m.v[y];
    forall px: nat, py: nat
      ensures !PixelOn(m.disp, px, py)
    {
      assert m.disp[TargetByte(px, py)] == 0;
    }
    assert SpriteMissAt(m.disp, s, x0, y0, row, col);
    DrawEffect(m, x, y, n);
    DrawTwiceRestores(m, x, y, n);
  }

  // ---------------------------------------------------------------------
  // Waiting for a key

  /** While a key is awaited, cycles change nothing, whatever rand() says. */
  lemma WaitingStalls(m: Machine, rand: nat)
    requires m.Valid() && m.waitKey
    ensures CycleDefined(m) && Cycle(m, rand) == Outcome(m, None)
  {
  }

  /** Fx0A then a key-down event: Vx holds the key and the wait is over.
      A key that was already held releases the wait also (the latch looks
      at the event, not at a change of the key's state). */
  lemma KeyWaitReleasedByPress(m: Machine, x: Reg, key: Nibble)
    requires m.Valid()
    ensures var w := LdVxKey(m, x);
      var r := SetKeyState(w, key, 1);
      r.Some? && !r.value.waitKey && r.value.v[x] == key && KeyDown(r.value.keys, key) &&
      (forall k: Reg :: k != x ==> r.value.v[k] == m.v[k])
  {
  }

  /** A key already held: pressing it again leaves the bitmap as it was. */
  lemma PressHeldKey(m: Machine, key: Nibble, state: Octet)
    requires m.Valid() && KeyDown(m.keys, key) && state != 0
    ensures SetKeyState(m, key, state).Some? && SetKeyState(m, key, state).value.keys == m.keys
  {
    var r := SetKeyState(m, key, state).value;
    Pow2Values();
    forall p: nat | p < 16
      ensures Bit(r.keys, p) == Bit(m.keys, p)
    {
      assert KeyDown(r.keys, p) == KeyDown(m.keys, p);
    }
    SameBits(r.keys, m.keys, 16);
  }

  /** A key-up event does not end the wait. */
  lemma KeyReleaseKeepsWaiting(m: Machine, key: Nibble)
    requires m.Valid() && m.waitKey
    ensures SetKeyState(m, key, 0).Some? && SetKeyState(m, key, 0).value.waitKey
    ensures !KeyDown(SetKeyState(m, key, 0).value.keys, key)
  {
  }

  // ---------------------------------------------------------------------
  // Timers

  /** `k` calls of cpu_tick60hz. */
  function Ticks(m: Machine, k: nat): (r: Machine)
    requires m.Valid()
    ensures r.Valid()
    decreases k
  {
    if k == 0 then m else Ticks(Tick60Hz(m), k - 1)
  }

  /** After k ticks each timer has gone down by k, but not below 0, and
      nothing else has changed. */
  lemma {:induction false} TicksFloorAtZero(m: Machine, k: nat)
    requires m.Valid()
    ensures var r := Ticks(m, k);
      r == m.(dt := r.dt, st := r.st) &&
      r.dt == (if m.dt >= k then m.dt - k else 0) &&
      r.st == (if m.st >= k then m.st - k else 0)
    decreases k
  {
    if k > 0 {
      TicksFloorAtZero(Tick60Hz(m), k - 1);
    }
  }

  // ---------------------------------------------------------------------
  // Reset and init

  /** Resetting twice is resetting once. */
  lemma ResetIdempotent(m: Machine)
    requires m.Valid()
    ensures Reset(Reset(m)) == Reset(m)
  {
    var r := Reset(m);
    var rr := Reset(r);
    assert rr.mem == r.mem by {
      assert forall k :: 0 <= k < MEM_SIZE ==> rr.mem[k] == r.mem[k];
    }
    assert rr.v == r.v && rr.stack == r.stack;
  }

  /** After init the font sits at 0x100 and Fx29 points I at the glyph of
      the digit in Vx. */
  lemma FontAfterInit(m: Machine, x: Reg, digit: Nibble)
    requires m.Valid()
    ensures var r := Init(m).(v := Init(m).v[x := digit]);
      var ld := LdFont(r, x);
      ld.i + 5 <= MEM_SIZE && ld.mem[ld.i .. ld.i + 5] == DIGIT_SPRITES[5 * digit .. 5 * digit + 5]
  {
    var r := Init(m).(v := Init(m).v[x := digit]);
    var ld := LdFont(r, x);
    assert ld.mem[DIGIT_SPRITES_ADDR .. DIGIT_SPRITES_ADDR + 80] == DIGIT_SPRITES;
    assert ld.mem[ld.i .. ld.i + 5] == ld.mem[DIGIT_SPRITES_ADDR .. DIGIT_SPRITES_ADDR + 80][5 * digit .. 5 * digit + 5];
  }

  // ---------------------------------------------------------------------
  // Register dump and reload

  /** Fx55 then Fx65 with the same x and I gives back the registers. */
  lemma StoreThenLoad(m: Machine, x: Reg)
    requires m.Valid() && m.i + x < MEM_SIZE
    ensures LoadRegs(StoreRegs(m, x), x).v == m.v
  {
    var r := LoadRegs(StoreRegs(m, x), x);
    assert forall k :: 0 <= k < 16 ==> r.v[k] == m.v[k];
  }

  /** Fx65 then Fx55 with the same x and I leaves memory as it was. */
  lemma LoadThenStore(m: Machine, x: Reg)
    requires m.Valid() && m.i + x < MEM_SIZE
    ensures StoreRegs(LoadRegs(m, x), x).mem == m.mem
  {
    var r := StoreRegs(LoadRegs(m, x), x);
    assert forall k :: 0 <= k < MEM_SIZE ==> r.mem[k] == m.mem[k];
  }
}
