// Field helpers of the interpreter: splitting a 16-bit opcode into its four
// nibbles (most significant first) and building words and bytes back from
// nibbles and bytes. The opcode word and its fields are modelled as bounded
// naturals: for unsigned values the C shifts and masks are divisions and
// remainders by powers of two, which is what is written here.

module Fields {
  import opened Bits

  datatype Option<+T> = None | Some(value: T)

  /** A nibble, as the C helpers pass it (`uint8_t`, below 16). */
  type Nibble = k: int | 0 <= k < 16
  /** An unsigned byte value used as an instruction field. */
  type Octet = k: int | 0 <= k < 0x100
  /** An unsigned 16-bit opcode word. */
  type Word = w: int | 0 <= w < 0x1_0000

  /** The conversion of an integer to `uint8_t` and to `uint16_t`. */
  function U8(n: int): Octet { n % 0x100 }
  function U16(n: int): Word { n % 0x1_0000 }

  /** Nibble `n` of `opcode`; n = 0 is the leftmost nibble
      (the C code shifts right by 4 * (3 - n) and masks with 0xF). */
  function Opcode2Nib(opcode: Word, n: nat): Nibble
    requires n <= 3
  {
    if n == 0 then opcode / 0x1000
    else if n == 1 then (opcode / 0x100) % 0x10
    else if n == 2 then (opcode / 0x10) % 0x10
    else opcode % 0x10
  }

  /** opcode2nib's own formula, `(opcode >> (4 * (3 - n))) & 0xF`, for an
      unsigned word: a division by 2^(4 * (3 - n)) and a remainder by 16. */
  lemma Opcode2NibIsShift(opcode: Word, n: nat)
    requires n <= 3
    ensures Opcode2Nib(opcode, n) == (opcode / Pow2(4 * (3 - n))) % 0x10
  {
    assert Pow2(0) == 1 && Pow2(4) == 0x10 && Pow2(8) == 0x100 && Pow2(12) == 0x1000;
  }

  /** The word whose nibbles, leftmost first, are nib0 .. nib3. */
  function Nibs2Addr(nib0: Nibble, nib1: Nibble, nib2: Nibble, nib3: Nibble): (w: Word)
    ensures Opcode2Nib(w, 0) == nib0 && Opcode2Nib(w, 1) == nib1
    ensures Opcode2Nib(w, 2) == nib2 && Opcode2Nib(w, 3) == nib3
    ensures nib0 == 0 ==> w < 0x1000
  {
    NibblesOfWord(nib0, nib1, nib2, nib3);
    nib0 * 0x1000 + nib1 * 0x100 + nib2 * 0x10 + nib3
  }

  /** The big-endian word made of two bytes. */
  function Bytes2Opcode(high: Octet, low: Octet): (w: Word)
    ensures Nibs2Byte(Opcode2Nib(w, 0), Opcode2Nib(w, 1)) == high
    ensures Nibs2Byte(Opcode2Nib(w, 2), Opcode2Nib(w, 3)) == low
  {
    BytesOfWord(high, low);
    high * 0x100 + low
  }

  /** The byte whose high nibble is nib0 and low nibble nib1. */
  function Nibs2Byte(nib0: Nibble, nib1: Nibble): (b: Octet)
    ensures b / 0x10 == nib0 && b % 0x10 == nib1
  {
    nib0 * 0x10 + nib1
  }

  /** Splitting a word into nibbles and joining them gives the word back. */
  lemma OpcodeSplitJoin(w: Word)
    ensures Nibs2Addr(Opcode2Nib(w, 0), Opcode2Nib(w, 1), Opcode2Nib(w, 2), Opcode2Nib(w, 3)) == w
  {
    var hi, lo := w / 0x100, w % 0x100;
    assert w == hi * 0x100 + lo;
    assert hi / 0x10 == w / 0x1000;
    assert (w / 0x10) % 0x10 == lo / 0x10;
  }

  // Division facts for the constant radixes used above.

  lemma DivRadix(w: int, q: int, r: int, k: int)
    requires k == 0x10 || k == 0x100 || k == 0x1000
    requires 0 <= r < k && w == q * k + r
    ensures w / k == q && w % k == r
  {
  }

  lemma NibblesOfWord(nib0: Nibble, nib1: Nibble, nib2: Nibble, nib3: Nibble)
    ensures var w := nib0 * 0x1000 + nib1 * 0x100 + nib2 * 0x10 + nib3;
      w / 0x1000 == nib0 && (w / 0x100) % 0x10 == nib1 && (w / 0x10) % 0x10 == nib2 && w % 0x10 == nib3
  {
    var w := nib0 * 0x1000 + nib1 * 0x100 + nib2 * 0x10 + nib3;
    DivRadix(w, nib0, nib1 * 0x100 + nib2 * 0x10 + nib3, 0x1000);
    DivRadix(w, nib0 * 0x10 + nib1, nib2 * 0x10 + nib3, 0x100);
    DivRadix(nib0 * 0x10 + nib1, nib0, nib1, 0x10);
    DivRadix(w, nib0 * 0x100 + nib1 * 0x10 + nib2, nib3, 0x10);
    DivRadix(nib0 * 0x100 + nib1 * 0x10 + nib2, nib0 * 0x10 + nib1, nib2, 0x10);
  }

  lemma BytesOfWord(high: Octet, low: Octet)
    ensures high == high / 0x10 * 0x10 + high % 0x10 && low == low / 0x10 * 0x10 + low % 0x10
    ensures var w := high * 0x100 + low;
      w / 0x1000 == high / 0x10 && (w / 0x100) % 0x10 == high % 0x10 &&
      (w / 0x10) % 0x10 == low / 0x10 && w % 0x10 == low % 0x10
  {
    var w := high * 0x100 + low;
    NibblesOfWord(high / 0x10, high % 0x10, low / 0x10, low % 0x10);
  }
}
