// The machine state of `struct chip8` (cpu.h) as a value, with the constants
// of cpu.c: the memory layout and the hexadecimal digit sprites.

module MachineState {
  import opened Fields

  const MEM_SIZE: int := 4096
  /** Programs are loaded, and execution starts, here. */
  const BASE_ADDR: int := 0x200
  /** The hexadecimal digit sprites are copied here on every reset. */
  const DIGIT_SPRITES_ADDR: int := 0x100
  /** 64 x 32 one-bit pixels, 8 bytes per row. */
  const DISP_BYTES: int := 8 * 32

  /** Sixteen 5-byte glyphs, digits 0 to F. */
  const DIGIT_SPRITES: seq<Octet> := [
    0xF0, 0x90, 0x90, 0x90, 0xF0, // 0
    0x20, 0x60, 0x20, 0x20, 0x70, // 1
    0xF0, 0x10, 0xF0, 0x80, 0xF0, // 2
    0xF0, 0x10, 0xF0, 0x10, 0xF0, // 3
    0x90, 0x90, 0xF0, 0x10, 0x10, // 4
    0xF0, 0x80, 0xF0, 0x10, 0xF0, // 5
    0xF0, 0x80, 0xF0, 0x90, 0xF0, // 6
    0xF0, 0x10, 0x20, 0x40, 0x40, // 7
    0xF0, 0x90, 0xF0, 0x90, 0xF0, // 8
    0xF0, 0x90, 0xF0, 0x10, 0xF0, // 9
    0xF0, 0x90, 0xF0, 0x90, 0x90, // A
    0xE0, 0x90, 0xE0, 0x90, 0xE0, // B
    0xF0, 0x80, 0x80, 0x80, 0xF0, // C
    0xE0, 0x90, 0x90, 0x90, 0xE0, // D
    0xF0, 0x80, 0xF0, 0x80, 0xF0, // E
    0xF0, 0x80, 0xF0, 0x80, 0x80  // F
  ]

  /** A register index V0 .. VF. */
  type Reg = Nibble

  /** The flag register VF. */
  const VF: Reg := 0xF

  /** The whole machine. The unsigned fields of `struct chip8` are bounded
      integers; the display keeps its packed bytes as bit-vectors, since only
      bitwise operations touch it. `waitKey` is the C byte `wait_key`, which the
      code only ever sets to 0 or 1; `keyVx` is `key_vx`, always a register index. */
  datatype Machine = Machine(
    mem: seq<Octet>,
    v: seq<Octet>,
    i: Word,
    dt: Octet,
    st: Octet,
    sp: Octet,
    stack: seq<Word>,
    pc: Word,
    keys: Word,
    disp: seq<bv8>,
    waitKey: bool,
    keyVx: Reg)
  {
    /** The array sizes of cpu.h. */
    predicate Valid() {
      |mem| == MEM_SIZE && |v| == 16 && |stack| == 16 && |disp| == DISP_BYTES
    }
  }

  /** `n` copies of `x`: what a memset leaves. */
  function Fill<T>(n: nat, x: T): (z: seq<T>)
    ensures |z| == n && forall k :: 0 <= k < n ==> z[k] == x
  {
    seq(n, _ => x)
  }

  /** `n` zero bytes, `n` zero words, and a dark display of `n` bytes. */
  function Zeros(n: nat): seq<Octet>
  {
    Fill(n, 0)
  }

  function ZeroWords(n: nat): seq<Word>
  {
    Fill(n, 0)
  }

  function Blank(n: nat): seq<bv8>
  {
    Fill(n, 0)
  }

  /** The all-zero object, as the zero-initialised global `struct chip8` starts. */
  function ZeroMachine(): (m: Machine)
    ensures m.Valid()
  {
    Machine(Zeros(MEM_SIZE), Zeros(16), 0, 0, 0, 0, ZeroWords(16), 0, 0, Blank(DISP_BYTES), false, 0)
  }
}
