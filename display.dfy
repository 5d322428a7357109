/** The 64x32 monochrome screen of `src/state.rs` (`struct TermDisplay`): a
    flat array of 2048 pixels, addressed with wrap-around in both directions. */
module Display {
  import opened Words

  const WIDTH_PX: nat := 64
  const HEIGHT_PX: nat := 32
  const PIXELS: nat := 64 * 32

  /** `get_idx`: the row is `y & 0x1f` (y mod 32), the column `x & 0x3f`
      (x mod 64), so every pair of bytes names a cell of the screen. */
  function GetIdx(x: Byte, y: Byte): (idx: nat)
    ensures idx < PIXELS
    ensures idx % WIDTH_PX == x % WIDTH_PX && idx / WIDTH_PX == y % HEIGHT_PX
  {
    (y % 32) * 64 + x % 64
  }

  /** Two coordinate pairs name the same cell exactly when they agree modulo
      the screen size. */
  lemma SameCell(x1: Byte, y1: Byte, x2: Byte, y2: Byte)
    ensures GetIdx(x1, y1) == GetIdx(x2, y2) <==> x1 % WIDTH_PX == x2 % WIDTH_PX && y1 % HEIGHT_PX == y2 % HEIGHT_PX
  {
    var i1, i2 := GetIdx(x1, y1), GetIdx(x2, y2);
    assert i1 == (i1 / WIDTH_PX) * WIDTH_PX + i1 % WIDTH_PX;
    assert i2 == (i2 / WIDTH_PX) * WIDTH_PX + i2 % WIDTH_PX;
  }

  /** Writing one pixel of a screen value and reading any pixel back: the
      written cell reads the new value, every other cell its old one. */
  lemma PixelAfterSet(s: seq<bool>, x: Byte, y: Byte, tf: bool, x': Byte, y': Byte)
    requires |s| == PIXELS
    ensures s[GetIdx(x, y) := tf][GetIdx(x', y')] ==
            if x % WIDTH_PX == x' % WIDTH_PX && y % HEIGHT_PX == y' % HEIGHT_PX then tf else s[GetIdx(x', y')]
  {
    SameCell(x, y, x', y');
  }

  /** The screen with every pixel off. */
  function Blank(): (s: seq<bool>)
    ensures |s| == PIXELS && forall k :: 0 <= k < PIXELS ==> !s[k]
  {
    seq(PIXELS, _ => false)
  }

  class TermDisplay {
    var display: array<bool>

    ghost predicate Valid()
      reads this
    {
      display.Length == PIXELS
    }

    /** `TermDisplay::new` */
    constructor ()
      ensures Valid() && fresh(display)
      ensures display[..] == Blank()
    {
      display := new bool[PIXELS](_ => false);
    }

    /** `clear`: `fill(false)` */
    method Clear()
      requires Valid()
      modifies display
      ensures Valid()
      ensures display[..] == Blank()
    {
      forall k | 0 <= k < display.Length {
        display[k] := false;
      }
    }

    /** `get_pixel` */
    function GetPixel(x: Byte, y: Byte): (r: bool)
      reads this, display
      requires Valid()
      ensures r == display[..][GetIdx(x, y)]
    {
      display[GetIdx(x, y)]
    }

    /** `set_pixel`: only the addressed cell changes. */
    method SetPixel(x: Byte, y: Byte, tf: bool)
      requires Valid()
      modifies display
      ensures Valid()
      ensures display[..] == old(display[..])[GetIdx(x, y) := tf]
    {
      display[GetIdx(x, y)] := tf;
    }
  }
}
