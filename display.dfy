// The 64 x 32 monochrome display of cpu.c as a packed bit plane: pixel
// addressing (xor_pixel, cpu_get_pixel), the sprite drawing loop of Dxyn as
// a fold, and what that fold does pixel by pixel.

module Display {
  import opened MachineState

  const WIDTH: int := 64
  const HEIGHT: int := 32

  /** `128 >> b`: bit `b` of a byte, b = 0 being the leftmost (most significant).
      Written out case by case; BitMaskIsShift states that it is the shift. */
  function BitMask(b: nat): bv8
    requires b < 8
  {
    if b == 0 then 0x80 else if b == 1 then 0x40 else if b == 2 then 0x20 else if b == 3 then 0x10
    else if b == 4 then 0x08 else if b == 5 then 0x04 else if b == 6 then 0x02 else 0x01
  }

  lemma BitMaskIsShift(b: nat)
    requires b < 8
    ensures BitMask(b) == (128 as bv8) >> b
  {
  }

  /** The display byte holding pixel (x, y), both coordinates wrapped. */
  function TargetByte(x: nat, y: nat): (k: nat)
    ensures k < DISP_BYTES
  {
    (y % HEIGHT) * 8 + (x % WIDTH) / 8
  }

  /** The mask of pixel column `x` within its byte. */
  function ValueMask(x: nat): bv8
  {
    BitMask(x % 8)
  }

  /** `byte ^ mask` and `byte & mask` for display bytes. */
  function Toggle(byte: bv8, mask: bv8): bv8
  {
    byte ^ mask
  }

  function Masked(byte: bv8, mask: bv8): bv8
  {
    byte & mask
  }

  /** Whether pixel (x, y) is lit; coordinates wrap (torus). */
  predicate PixelOn(d: seq<bv8>, x: nat, y: nat)
    requires |d| == DISP_BYTES
  {
    d[TargetByte(x, y)] & ValueMask(x) != 0
  }

  /** cpu_get_pixel for non-negative coordinates: the masked display byte,
      which is either 0 or the pixel's mask. */
  function GetPixel(d: seq<bv8>, x: int, y: int): (r: bv8)
    requires |d| == DISP_BYTES
    requires x >= 0 && y >= 0
    ensures r == 0 || r == ValueMask(x)
    ensures r != 0 <==> PixelOn(d, x, y)
  {
    Masked(d[TargetByte(x, y)], ValueMask(x))
  }

  /** xor_pixel: flip pixel (x, y) and return the masked byte AFTER the flip,
      which is 0 exactly when the pixel was lit before (a collision). */
  function XorPixel(d: seq<bv8>, x: nat, y: nat): (r: (seq<bv8>, bv8))
    requires |d| == DISP_BYTES
    ensures |r.0| == DISP_BYTES
    ensures r.1 == 0 <==> PixelOn(d, x, y)
  {
    var k := TargetByte(x, y);
    var d' := d[k := Toggle(d[k], ValueMask(x))];
    (d', Masked(d'[k], ValueMask(x)))
  }

  // ---------------------------------------------------------------------
  // Bits and addresses

  lemma BitMaskInjective(a: nat, b: nat)
    requires a < 8 && b < 8 && BitMask(a) == BitMask(b)
    ensures a == b
  {
  }

  lemma XorOtherBit(byte: bv8, a: nat, b: nat)
    requires a < 8 && b < 8 && a != b
    ensures (byte ^ BitMask(a)) & BitMask(b) == byte & BitMask(b)
  {
  }

  lemma XorSameBit(byte: bv8, a: nat)
    requires a < 8
    ensures ((byte ^ BitMask(a)) & BitMask(a) != 0) == (byte & BitMask(a) == 0)
  {
  }

  /** A byte is determined by which of its eight bits are set. */
  lemma {:induction false} ByteFromBits(p: bv8, q: bv8)
    requires forall b: nat :: b < 8 ==> (p & BitMask(b) != 0) == (q & BitMask(b) != 0)
    ensures p == q
  {
    assert (p & BitMask(0) != 0) == (q & BitMask(0) != 0);
    assert (p & BitMask(1) != 0) == (q & BitMask(1) != 0);
    assert (p & BitMask(2) != 0) == (q & BitMask(2) != 0);
    assert (p & BitMask(3) != 0) == (q & BitMask(3) != 0);
    assert (p & BitMask(4) != 0) == (q & BitMask(4) != 0);
    assert (p & BitMask(5) != 0) == (q & BitMask(5) != 0);
    assert (p & BitMask(6) != 0) == (q & BitMask(6) != 0);
    assert (p & BitMask(7) != 0) == (q & BitMask(7) != 0);
  }

  /** Pixel addressing ignores whole turns of the torus. */
  lemma PixelWrap(d: seq<bv8>, x: nat, y: nat)
    requires |d| == DISP_BYTES
    ensures TargetByte(x % WIDTH, y % HEIGHT) == TargetByte(x, y)
    ensures ValueMask(x % WIDTH) == ValueMask(x)
    ensures PixelOn(d, x % WIDTH, y % HEIGHT) == PixelOn(d, x, y)
  {
    assert (x % WIDTH) % 8 == x % 8;
  }

  lemma GridDiv(x: nat, y: nat, x': nat, y': nat)
    requires x < WIDTH && y < HEIGHT && x' < WIDTH && y' < HEIGHT
    requires y * 8 + x / 8 == y' * 8 + x' / 8 && x % 8 == x' % 8
    ensures x == x' && y == y'
  {
    assert x / 8 < 8 && x' / 8 < 8;
    assert x == 8 * (x / 8) + x % 8;
    assert x' == 8 * (x' / 8) + x' % 8;
  }

  /** Distinct grid pixels have distinct (byte, mask) addresses. */
  lemma PixelAddressInjective(x: nat, y: nat, x': nat, y': nat)
    requires x < WIDTH && y < HEIGHT && x' < WIDTH && y' < HEIGHT
    requires TargetByte(x, y) == TargetByte(x', y') && ValueMask(x) == ValueMask(x')
    ensures x == x' && y == y'
  {
    BitMaskInjective(x % 8, x' % 8);
    TargetByteInGrid(x, y);
    TargetByteInGrid(x', y');
    GridDiv(x, y, x', y');
  }

  lemma TargetByteInGrid(x: nat, y: nat)
    requires x < WIDTH && y < HEIGHT
    ensures TargetByte(x, y) == y * 8 + x / 8
  {
    assert x % WIDTH == x && y % HEIGHT == y;
  }

  lemma XorPixelOtherByte(d: seq<bv8>, x: nat, y: nat, x': nat, y': nat)
    requires |d| == DISP_BYTES && x' < WIDTH && y' < HEIGHT
    requires TargetByte(x', y') != TargetByte(x, y)
    ensures PixelOn(XorPixel(d, x, y).0, x', y') == PixelOn(d, x', y')
    ensures !(x' == x % WIDTH && y' == y % HEIGHT)
  {
    PixelWrap(d, x, y);
  }

  lemma XorPixelSameBit(d: seq<bv8>, x: nat, y: nat, x': nat, y': nat)
    requires |d| == DISP_BYTES && x' < WIDTH && y' < HEIGHT
    requires TargetByte(x', y') == TargetByte(x, y) && x' % 8 == x % 8
    ensures PixelOn(XorPixel(d, x, y).0, x', y') == !PixelOn(d, x', y')
    ensures x' == x % WIDTH && y' == y % HEIGHT
  {
    PixelWrap(d, x, y);
    PixelAddressInjective(x', y', x % WIDTH, y % HEIGHT);
    XorSameBit(d[TargetByte(x, y)], x % 8);
  }

  lemma XorPixelOtherBit(d: seq<bv8>, x: nat, y: nat, x': nat, y': nat)
    requires |d| == DISP_BYTES && x' < WIDTH && y' < HEIGHT
    requires TargetByte(x', y') == TargetByte(x, y) && x' % 8 != x % 8
    ensures PixelOn(XorPixel(d, x, y).0, x', y') == PixelOn(d, x', y')
    ensures x' != x % WIDTH
  {
    var k := TargetByte(x, y);
    var d' := XorPixel(d, x, y).0;
    assert d'[k] == d[k] ^ BitMask(x % 8);
    XorOtherBit(d[k], x % 8, x' % 8);
    ColumnBit(x);
  }

  /** Wrapping a column keeps its position within its byte. */
  lemma ColumnBit(x: nat)
    ensures (x % WIDTH) % 8 == x % 8
  {
    var q, r := x / WIDTH, x % WIDTH;
    assert x == 8 * (8 * q + r / 8) + r % 8;
  }

  /** xor_pixel flips exactly the addressed pixel. */
  lemma XorPixelFlipsOne(d: seq<bv8>, x: nat, y: nat, x': nat, y': nat)
    requires |d| == DISP_BYTES && x' < WIDTH && y' < HEIGHT
    ensures PixelOn(XorPixel(d, x, y).0, x', y') == (PixelOn(d, x', y') != (x' == x % WIDTH && y' == y % HEIGHT))
  {
    if TargetByte(x', y') != TargetByte(x, y) {
      XorPixelOtherByte(d, x, y, x', y');
    } else if x' % 8 == x % 8 {
      XorPixelSameBit(d, x, y, x', y');
    } else {
      XorPixelOtherBit(d, x, y, x', y');
    }
  }

  lemma ByteColumn(k: nat, b: nat)
    requires k < DISP_BYTES && b < 8
    ensures TargetByte((k % 8) * 8 + b, k / 8) == k
    ensures ((k % 8) * 8 + b) % 8 == b
  {
    assert ((k % 8) * 8 + b) / 8 == k % 8;
    assert ((k % 8) * 8 + b) % WIDTH == (k % 8) * 8 + b;
    assert (k / 8) % HEIGHT == k / 8;
  }

  /** Bit b of display byte k is the pixel at column 8 (k % 8) + b of row k / 8. */
  lemma PixelOfByte(d: seq<bv8>, k: nat, b: nat)
    requires |d| == DISP_BYTES && k < DISP_BYTES && b < 8
    ensures PixelOn(d, (k % 8) * 8 + b, k / 8) == (d[k] & BitMask(b) != 0)
  {
    ByteColumn(k, b);
  }

  /** Two displays with the same pixels are the same display. */
  lemma DisplayFromPixels(d: seq<bv8>, e: seq<bv8>)
    requires |d| == DISP_BYTES && |e| == DISP_BYTES
    requires forall x: nat, y: nat :: x < WIDTH && y < HEIGHT ==> PixelOn(d, x, y) == PixelOn(e, x, y)
    ensures d == e
  {
    forall k | 0 <= k < DISP_BYTES
      ensures d[k] == e[k]
    {
      forall b: nat | b < 8
        ensures (d[k] & BitMask(b) != 0) == (e[k] & BitMask(b) != 0)
      {
        ByteCoords(k, b);
        PixelOfByte(d, k, b);
        PixelOfByte(e, k, b);
      }
      ByteFromBits(d[k], e[k]);
    }
  }

  lemma ByteCoords(k: nat, b: nat)
    requires k < DISP_BYTES && b < 8
    ensures (k % 8) * 8 + b < WIDTH && k / 8 < HEIGHT
  {
  }

  // ---------------------------------------------------------------------
  // The drawing loop of Dxyn

  /** Column offset of grid column x from a sprite at column x0, on the torus. */
  function Dx(x0: nat, x: nat): nat
  {
    (x - x0) % WIDTH
  }

  /** Row offset of grid row y from a sprite at row y0, on the torus. */
  function Dy(y0: nat, y: nat): nat
  {
    (y - y0) % HEIGHT
  }

  lemma OffsetAt(x0: nat, p: nat, w: nat, x: nat)
    requires (w == WIDTH || w == HEIGHT) && p < w && x < w
    ensures (x - x0) % w == p <==> x == (x0 + p) % w
  {
  }

  /** The inner loop over the 8 pixels of one sprite row, after `px` of them:
      the display and whether some flipped pixel was lit. */
  function DrawRow(d: seq<bv8>, bits: bv8, x0: nat, y: nat, px: nat): (r: (seq<bv8>, bool))
    requires |d| == DISP_BYTES && px <= 8
    ensures |r.0| == DISP_BYTES
  {
    if px == 0 then (d, false)
    else
      var prev := DrawRow(d, bits, x0, y, px - 1);
      if bits & BitMask(px - 1) != 0 then
        var flipped := XorPixel(prev.0, x0 + px - 1, y);
        (flipped.0, prev.1 || flipped.1 == 0)
      else prev
  }

  /** One more step of the inner loop, component by component. */
  lemma DrawRowNext(d: seq<bv8>, bits: bv8, x0: nat, y: nat, px: nat)
    requires |d| == DISP_BYTES && px < 8
    ensures var prev, next := DrawRow(d, bits, x0, y, px), DrawRow(d, bits, x0, y, px + 1);
      if bits & BitMask(px) != 0 then
        next.0 == XorPixel(prev.0, x0 + px, y).0 && next.1 == (prev.1 || XorPixel(prev.0, x0 + px, y).1 == 0)
      else
        next.0 == prev.0 && next.1 == prev.1
  {
  }

  /** The outer loop over the first `rows` rows of a sprite, each drawn by DrawRow. */
  function DrawRows(d: seq<bv8>, sprite: seq<bv8>, x0: nat, y0: nat, rows: nat): (r: (seq<bv8>, bool))
    requires |d| == DISP_BYTES && rows <= |sprite|
    ensures |r.0| == DISP_BYTES
  {
    if rows == 0 then (d, false)
    else
      var prev := DrawRows(d, sprite, x0, y0, rows - 1);
      var row := DrawRow(prev.0, sprite[rows - 1], x0, y0 + rows - 1, 8);
      (row.0, prev.1 || row.1)
  }

  /** One more step of the outer loop, component by component. */
  lemma DrawRowsNext(d: seq<bv8>, sprite: seq<bv8>, x0: nat, y0: nat, rows: nat)
    requires |d| == DISP_BYTES && rows < |sprite|
    ensures var prev, next := DrawRows(d, sprite, x0, y0, rows), DrawRows(d, sprite, x0, y0, rows + 1);
      var row := DrawRow(prev.0, sprite[rows], x0, y0 + rows, 8);
      next.0 == row.0 && next.1 == (prev.1 || row.1)
  {
  }

  /** Reference definition: the first `rows` rows of a sprite drawn at (x0, y0)
      cover grid pixel (x, y). */
  predicate Covered(sprite: seq<bv8>, x0: nat, y0: nat, rows: nat, x: nat, y: nat)
    requires rows <= |sprite|
  {
    Dy(y0, y) < rows && Dx(x0, x) < 8 && sprite[Dy(y0, y)] & BitMask(Dx(x0, x)) != 0
  }

  /** Bit p of a sprite row drawn at (x0, y) is set and lands on a lit pixel. */
  predicate HitAt(d: seq<bv8>, bits: bv8, x0: nat, y: nat, p: nat)
    requires |d| == DISP_BYTES && p < 8
  {
    bits & BitMask(p) != 0 && PixelOn(d, x0 + p, y)
  }

  /** Bit p of row r of a sprite drawn at (x0, y0) is set and lands on a lit pixel. */
  predicate SpriteHitAt(d: seq<bv8>, sprite: seq<bv8>, x0: nat, y0: nat, r: nat, p: nat)
    requires |d| == DISP_BYTES && r < |sprite| && p < 8
  {
    HitAt(d, sprite[r], x0, y0 + r, p)
  }

  /** Reference definition: some set bit among the first `px` bits of `bits` lands
      on a lit pixel of row y. */
  predicate RowHits(d: seq<bv8>, bits: bv8, x0: nat, y: nat, px: nat)
    requires |d| == DISP_BYTES && px <= 8
  {
    exists p: nat :: p < px && HitAt(d, bits, x0, y, p)
  }

  /** Reference definition: some set bit of the first `rows` rows lands on a lit pixel. */
  predicate SpriteHits(d: seq<bv8>, sprite: seq<bv8>, x0: nat, y0: nat, rows: nat)
    requires |d| == DISP_BYTES && rows <= |sprite|
  {
    exists r: nat, p: nat :: r < rows && p < 8 && SpriteHitAt(d, sprite, x0, y0, r, p)
  }

  /** After the inner loop, exactly the pixels of row y under the set bits are flipped. */
  lemma {:induction false} DrawRowPixels(d: seq<bv8>, bits: bv8, x0: nat, y: nat, px: nat, x: nat, y': nat)
    requires |d| == DISP_BYTES && px <= 8 && x < WIDTH && y' < HEIGHT
    ensures PixelOn(DrawRow(d, bits, x0, y, px).0, x, y')
         == (PixelOn(d, x, y') != (y' == y % HEIGHT && Dx(x0, x) < px && bits & BitMask(Dx(x0, x)) != 0))
  {
    if px > 0 {
      var p := px - 1;
      var prev, cur := DrawRow(d, bits, x0, y, p).0, DrawRow(d, bits, x0, y, px).0;
      DrawRowPixels(d, bits, x0, y, p, x, y');
      OffsetAt(x0, p, WIDTH, x);
      var here := x == (x0 + p) % WIDTH && y' == y % HEIGHT;
      if bits & BitMask(p) != 0 {
        XorPixelFlipsOne(prev, x0 + p, y, x, y');
        assert PixelOn(cur, x, y') == (PixelOn(prev, x, y') != here);
      } else {
        assert cur == prev;
      }
      assert (y' == y % HEIGHT && Dx(x0, x) < px && bits & BitMask(Dx(x0, x)) != 0)
          == ((y' == y % HEIGHT && Dx(x0, x) < p && bits & BitMask(Dx(x0, x)) != 0) || (bits & BitMask(p) != 0 && here));
    }
  }

  /** Pixels of row y at or right of column x0 + px are not yet touched by the inner loop. */
  lemma DrawRowUntouched(d: seq<bv8>, bits: bv8, x0: nat, y: nat, px: nat, p: nat)
    requires |d| == DISP_BYTES && px <= p < 8
    ensures PixelOn(DrawRow(d, bits, x0, y, px).0, x0 + p, y) == PixelOn(d, x0 + p, y)
  {
    var e := DrawRow(d, bits, x0, y, px).0;
    PixelWrap(e, x0 + p, y);
    PixelWrap(d, x0 + p, y);
    OffsetAt(x0, p, WIDTH, (x0 + p) % WIDTH);
    DrawRowPixels(d, bits, x0, y, px, (x0 + p) % WIDTH, y % HEIGHT);
  }

  lemma RowHitsStep(d: seq<bv8>, bits: bv8, x0: nat, y: nat, px: nat)
    requires |d| == DISP_BYTES && 0 < px <= 8
    ensures RowHits(d, bits, x0, y, px)
        == (RowHits(d, bits, x0, y, px - 1) || HitAt(d, bits, x0, y, px - 1))
  {
    if RowHits(d, bits, x0, y, px) {
      RowHitsShrink(d, bits, x0, y, px);
    }
    if RowHits(d, bits, x0, y, px - 1) || HitAt(d, bits, x0, y, px - 1) {
      RowHitsGrow(d, bits, x0, y, px);
    }
  }

  lemma RowHitsShrink(d: seq<bv8>, bits: bv8, x0: nat, y: nat, px: nat)
    requires |d| == DISP_BYTES && 0 < px <= 8 && RowHits(d, bits, x0, y, px)
    ensures RowHits(d, bits, x0, y, px - 1) || HitAt(d, bits, x0, y, px - 1)
  {
    var p: nat :| p < px && HitAt(d, bits, x0, y, p);
    if p < px - 1 {
      assert RowHits(d, bits, x0, y, px - 1);
    }
  }

  lemma RowHitsGrow(d: seq<bv8>, bits: bv8, x0: nat, y: nat, px: nat)
    requires |d| == DISP_BYTES && 0 < px <= 8
    requires RowHits(d, bits, x0, y, px - 1) || HitAt(d, bits, x0, y, px - 1)
    ensures RowHits(d, bits, x0, y, px)
  {
    if !HitAt(d, bits, x0, y, px - 1) {
      var p: nat :| p < px - 1 && HitAt(d, bits, x0, y, p);
      assert p < px;
    }
  }

  /** The inner loop reports a collision exactly when a set bit lands on a lit pixel. */
  lemma {:induction false} DrawRowHits(d: seq<bv8>, bits: bv8, x0: nat, y: nat, px: nat)
    requires |d| == DISP_BYTES && px <= 8
    ensures DrawRow(d, bits, x0, y, px).1 == RowHits(d, bits, x0, y, px)
  {
    if px > 0 {
      DrawRowHits(d, bits, x0, y, px - 1);
      DrawRowUntouched(d, bits, x0, y, px - 1, px - 1);
      RowHitsStep(d, bits, x0, y, px);
    }
  }

  /** After the outer loop, exactly the covered pixels are flipped. */
  lemma {:induction false} DrawRowsPixels(d: seq<bv8>, sprite: seq<bv8>, x0: nat, y0: nat, rows: nat, x: nat, y: nat)
    requires |d| == DISP_BYTES && rows <= |sprite| && rows <= HEIGHT && x < WIDTH && y < HEIGHT
    ensures PixelOn(DrawRows(d, sprite, x0, y0, rows).0, x, y) == (PixelOn(d, x, y) != Covered(sprite, x0, y0, rows, x, y))
  {
    if rows > 0 {
      var r := rows - 1;
      var prev, cur := DrawRows(d, sprite, x0, y0, r).0, DrawRows(d, sprite, x0, y0, rows).0;
      DrawRowsPixels(d, sprite, x0, y0, r, x, y);
      assert cur == DrawRow(prev, sprite[r], x0, y0 + r, 8).0;
      DrawRowPixels(prev, sprite[r], x0, y0 + r, 8, x, y);
      OffsetAt(y0, r, HEIGHT, y);
      assert Covered(sprite, x0, y0, rows, x, y)
          == (Covered(sprite, x0, y0, r, x, y) || (Dy(y0, y) == r && Dx(x0, x) < 8 && sprite[r] & BitMask(Dx(x0, x)) != 0));
    }
  }

  /** Rows at or below row y0 + rows are not yet touched by the outer loop. */
  lemma DrawRowsUntouched(d: seq<bv8>, sprite: seq<bv8>, x0: nat, y0: nat, rows: nat, r: nat, p: nat)
    requires |d| == DISP_BYTES && rows <= |sprite| && rows <= r < HEIGHT
    ensures PixelOn(DrawRows(d, sprite, x0, y0, rows).0, x0 + p, y0 + r) == PixelOn(d, x0 + p, y0 + r)
  {
    var e := DrawRows(d, sprite, x0, y0, rows).0;
    PixelWrap(e, x0 + p, y0 + r);
    PixelWrap(d, x0 + p, y0 + r);
    OffsetAt(y0, r, HEIGHT, (y0 + r) % HEIGHT);
    DrawRowsPixels(d, sprite, x0, y0, rows, (x0 + p) % WIDTH, (y0 + r) % HEIGHT);
  }

  lemma RowHitsFrame(d: seq<bv8>, e: seq<bv8>, bits: bv8, x0: nat, y: nat)
    requires |d| == DISP_BYTES && |e| == DISP_BYTES
    requires forall p: nat | p < 8 :: HitAt(d, bits, x0, y, p) == HitAt(e, bits, x0, y, p)
    ensures RowHits(d, bits, x0, y, 8) == RowHits(e, bits, x0, y, 8)
  {
  }

  lemma SpriteHitsStep(d: seq<bv8>, sprite: seq<bv8>, x0: nat, y0: nat, rows: nat)
    requires |d| == DISP_BYTES && 0 < rows <= |sprite|
    ensures SpriteHits(d, sprite, x0, y0, rows)
        == (SpriteHits(d, sprite, x0, y0, rows - 1) || RowHits(d, sprite[rows - 1], x0, y0 + (rows - 1), 8))
  {
    if SpriteHits(d, sprite, x0, y0, rows) {
      SpriteHitsShrink(d, sprite, x0, y0, rows);
    }
    if SpriteHits(d, sprite, x0, y0, rows - 1) || RowHits(d, sprite[rows - 1], x0, y0 + (rows - 1), 8) {
      SpriteHitsGrow(d, sprite, x0, y0, rows);
    }
  }

  lemma SpriteHitsShrink(d: seq<bv8>, sprite: seq<bv8>, x0: nat, y0: nat, rows: nat)
    requires |d| == DISP_BYTES && 0 < rows <= |sprite| && SpriteHits(d, sprite, x0, y0, rows)
    ensures SpriteHits(d, sprite, x0, y0, rows - 1) || RowHits(d, sprite[rows - 1], x0, y0 + (rows - 1), 8)
  {
    var r: nat, p: nat :| r < rows && p < 8 && SpriteHitAt(d, sprite, x0, y0, r, p);
    if r < rows - 1 {
      assert SpriteHits(d, sprite, x0, y0, rows - 1);
    } else {
      assert RowHits(d, sprite[rows - 1], x0, y0 + (rows - 1), 8);
    }
  }

  lemma SpriteHitsGrow(d: seq<bv8>, sprite: seq<bv8>, x0: nat, y0: nat, rows: nat)
    requires |d| == DISP_BYTES && 0 < rows <= |sprite|
    requires SpriteHits(d, sprite, x0, y0, rows - 1) || RowHits(d, sprite[rows - 1], x0, y0 + (rows - 1), 8)
    ensures SpriteHits(d, sprite, x0, y0, rows)
  {
    if SpriteHits(d, sprite, x0, y0, rows - 1) {
      var r: nat, p: nat :| r < rows - 1 && p < 8 && SpriteHitAt(d, sprite, x0, y0, r, p);
      assert r < rows;
    } else {
      var p: nat :| p < 8 && HitAt(d, sprite[rows - 1], x0, y0 + (rows - 1), p);
      assert SpriteHitAt(d, sprite, x0, y0, rows - 1, p);
    }
  }

  /** The outer loop reports a collision exactly when a set bit lands on a lit pixel. */
  lemma {:induction false} DrawRowsHits(d: seq<bv8>, sprite: seq<bv8>, x0: nat, y0: nat, rows: nat)
    requires |d| == DISP_BYTES && rows <= |sprite| && rows <= HEIGHT
    ensures DrawRows(d, sprite, x0, y0, rows).1 == SpriteHits(d, sprite, x0, y0, rows)
  {
    if rows > 0 {
      DrawRowsHits(d, sprite, x0, y0, rows - 1);
      var prev := DrawRows(d, sprite, x0, y0, rows - 1);
      var bits, y := sprite[rows - 1], y0 + (rows - 1);
      DrawRowHits(prev.0, bits, x0, y, 8);
      // the row about to be drawn is still as it was in d
      forall p: nat | p < 8
        ensures HitAt(prev.0, bits, x0, y, p) == HitAt(d, bits, x0, y, p)
      {
        DrawRowsUntouched(d, sprite, x0, y0, rows - 1, rows - 1, p);
      }
      RowHitsFrame(prev.0, d, bits, x0, y);
      SpriteHitsStep(d, sprite, x0, y0, rows);
    }
  }

  /** Bit p of row r of a sprite drawn at (x0, y0) is set and lands on a dark pixel. */
  predicate SpriteMissAt(d: seq<bv8>, sprite: seq<bv8>, x0: nat, y0: nat, r: nat, p: nat)
    requires |d| == DISP_BYTES && r < |sprite| && p < 8
  {
    sprite[r] & BitMask(p) != 0 && !PixelOn(d, x0 + p, y0 + r)
  }

  /** Reference definition: some set bit of the first `rows` rows lands on a dark pixel. */
  predicate SpriteMisses(d: seq<bv8>, sprite: seq<bv8>, x0: nat, y0: nat, rows: nat)
    requires |d| == DISP_BYTES && rows <= |sprite|
  {
    exists r: nat, p: nat :: r < rows && p < 8 && SpriteMissAt(d, sprite, x0, y0, r, p)
  }

  /** The pixel under bit p of row r is flipped exactly when that bit is set. */
  lemma DrawnPixelAt(d: seq<bv8>, sprite: seq<bv8>, x0: nat, y0: nat, rows: nat, r: nat, p: nat)
    requires |d| == DISP_BYTES && rows <= |sprite| && rows <= HEIGHT && r < rows && p < 8
    ensures PixelOn(DrawRows(d, sprite, x0, y0, rows).0, x0 + p, y0 + r)
         == (PixelOn(d, x0 + p, y0 + r) != (sprite[r] & BitMask(p) != 0))
  {
    var e := DrawRows(d, sprite, x0, y0, rows).0;
    var x, y := (x0 + p) % WIDTH, (y0 + r) % HEIGHT;
    PixelWrap(e, x0 + p, y0 + r);
    PixelWrap(d, x0 + p, y0 + r);
    OffsetAt(x0, p, WIDTH, x);
    OffsetAt(y0, r, HEIGHT, y);
    DrawRowsPixels(d, sprite, x0, y0, rows, x, y);
  }

  /** A set bit lands on a lit pixel after the first draw exactly when it
      landed on a dark one before it. */
  lemma HitAfterDraw(d: seq<bv8>, sprite: seq<bv8>, x0: nat, y0: nat, rows: nat, r: nat, p: nat)
    requires |d| == DISP_BYTES && rows <= |sprite| && rows <= HEIGHT && r < rows && p < 8
    ensures SpriteHitAt(DrawRows(d, sprite, x0, y0, rows).0, sprite, x0, y0, r, p) == SpriteMissAt(d, sprite, x0, y0, r, p)
  {
    DrawnPixelAt(d, sprite, x0, y0, rows, r, p);
  }

  /** Drawing a sprite twice at the same place restores the display. */
  lemma DrawTwiceRestores(d: seq<bv8>, sprite: seq<bv8>, x0: nat, y0: nat, rows: nat)
    requires |d| == DISP_BYTES && rows <= |sprite| && rows <= HEIGHT
    ensures DrawRows(DrawRows(d, sprite, x0, y0, rows).0, sprite, x0, y0, rows).0 == d
  {
    var d1 := DrawRows(d, sprite, x0, y0, rows).0;
    var d2 := DrawRows(d1, sprite, x0, y0, rows).0;
    forall x: nat, y: nat | x < WIDTH && y < HEIGHT
      ensures PixelOn(d2, x, y) == PixelOn(d, x, y)
    {
      DrawRowsPixels(d, sprite, x0, y0, rows, x, y);
      DrawRowsPixels(d1, sprite, x0, y0, rows, x, y);
    }
    DisplayFromPixels(d2, d);
  }

  /** After a first draw, a second one hits exactly where the first one missed. */
  lemma HitsAfterDraw(d: seq<bv8>, sprite: seq<bv8>, x0: nat, y0: nat, rows: nat)
    requires |d| == DISP_BYTES && rows <= |sprite| && rows <= HEIGHT
    ensures SpriteHits(DrawRows(d, sprite, x0, y0, rows).0, sprite, x0, y0, rows) == SpriteMisses(d, sprite, x0, y0, rows)
  {
    var d1 := DrawRows(d, sprite, x0, y0, rows).0;
    if SpriteHits(d1, sprite, x0, y0, rows) {
      var r: nat, p: nat :| r < rows && p < 8 && SpriteHitAt(d1, sprite, x0, y0, r, p);
      HitAfterDraw(d, sprite, x0, y0, rows, r, p);
    }
    if SpriteMisses(d, sprite, x0, y0, rows) {
      var r: nat, p: nat :| r < rows && p < 8 && SpriteMissAt(d, sprite, x0, y0, r, p);
      HitAfterDraw(d, sprite, x0, y0, rows, r, p);
    }
  }

  /** Drawing a sprite twice at the same place restores the display; the second
      draw reports a collision exactly when some set bit fell on a pixel that was
      dark before the first draw. */
  lemma DrawTwice(d: seq<bv8>, sprite: seq<bv8>, x0: nat, y0: nat, rows: nat)
    requires |d| == DISP_BYTES && rows <= |sprite| && rows <= HEIGHT
    ensures DrawRows(DrawRows(d, sprite, x0, y0, rows).0, sprite, x0, y0, rows).0 == d
    ensures DrawRows(DrawRows(d, sprite, x0, y0, rows).0, sprite, x0, y0, rows).1 == SpriteMisses(d, sprite, x0, y0, rows)
  {
    DrawTwiceRestores(d, sprite, x0, y0, rows);
    DrawRowsHits(DrawRows(d, sprite, x0, y0, rows).0, sprite, x0, y0, rows);
    HitsAfterDraw(d, sprite, x0, y0, rows);
  }
}
