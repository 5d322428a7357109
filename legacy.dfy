/** The single-file engine of `src/main.rs`, a second machine next to the one
    of `src/state.rs`. It decodes and executes in one step (`run_address`)
    with its own conventions:

    - a call pushes the address of the call itself, and the `pc += 2` at
      the end of every step that does not jump makes a return land after it;
    - a taken skip adds 4 to pc and returns at once;
    - `00E0` and `Dxyn` only record the opcode in `drawop`; the screen work
      is done later by `draw`, which always resets `drawop` to 0;
    - the register operations `8xyN` and the skip `9xyN` take their register
      numbers from `drawop`, not from the opcode;
    - the screen is not wrapped: reading off the screen gives an unlit pixel
      and writing off the screen panics.

    `Step` and `DrawPending` are the values a step and a draw compute, with
    `None` wherever the Rust code panics (a debug build traps `u8`/`u16`
    overflow); the class `Chip8State` updates its fields in place and is
    proved to compute exactly them. */
module Legacy {
  import opened Words
  import opened Display
  import Sprites
  import Instructions

  /** `memo: [u8; 0xf00]` */
  const MEMO_SIZE: nat := 0xF00

  /** `get_opcode`: the two bytes, high byte first. */
  function GetOpcode(first: Byte, second: Byte): (r: Word)
    ensures r / 0x100 == first && r % 0x100 == second
  {
    FromBeBytes(first, second)
  }

  /** `get_0x00`: the nibble below the family nibble. */
  function Get0x00(op: Word): (r: nat)
    ensures r < 16 && op / 0x100 == (op / 0x1000) * 0x10 + r
  {
    op / 0x100 % 0x10
  }

  /** `get_00y0`: the nibble above the low nibble. */
  function Get00y0(op: Word): (r: nat)
    ensures r < 16 && op / 0x10 == (op / 0x100) * 0x10 + r
  {
    op / 0x10 % 0x10
  }

  /** `get_00nn`: the low byte. */
  function Get00nn(op: Word): (r: Byte)
    ensures op == (op / 0x100) * 0x100 + r
  {
    op % 0x100
  }

  /** The extractors of this engine pick the same fields as those of the
      decoder in `src/instruction.rs`. */
  lemma ExtractorsAgree(op: Word)
    ensures Get0x00(op) == Instructions.GetX(op).k
    ensures Get00y0(op) == Instructions.GetY(op).k
    ensures Get00nn(op) == Instructions.GetNN(op)
  {
  }

  /** The fields of `struct Chip8State`, the random generator left out. */
  datatype LState = LState(pc: Word, i: Word, v: seq<Byte>, stack: seq<Word>, delay: Byte,
                           keyboard: Byte, display: seq<bool>, drawop: Word)

  predicate ValidState(st: LState)
  {
    |st.v| == 16 && |st.display| == PIXELS
  }

  /** `init`: pc at 0x200 and everything else zero, off or empty. */
  function Initial(): (st: LState)
    ensures ValidState(st) && st.pc == 0x200 && st.i == 0 && st.stack == [] && st.drawop == 0
    ensures st.delay == 0 && st.keyboard == 0
    ensures forall k :: 0 <= k < 16 ==> st.v[k] == 0
    ensures forall k :: 0 <= k < PIXELS ==> !st.display[k]
  {
    LState(0x200, 0, seq(16, _ => 0), [], 0, 0, Blank(), 0)
  }

  // ---------------------------------------------------------------------
  // The unwrapped screen

  /** Column `x`, row `y` is a pixel of the 64x32 screen. */
  predicate OnScreen(x: int, y: int)
  {
    0 <= x < 64 && 0 <= y < 32
  }

  /** `y * 64 + x`: one cell per pixel of the screen. */
  function PixelIndex(x: int, y: int): (idx: nat)
    requires OnScreen(x, y)
    ensures idx < PIXELS && idx % WIDTH_PX == x && idx / WIDTH_PX == y
  {
    y * 64 + x
  }

  /** `get_pixel`: a pixel off the screen reads as unlit. */
  function PixelAt(s: seq<bool>, x: Byte, y: Byte): (r: bool)
    requires |s| == PIXELS
    ensures r ==> OnScreen(x, y)
  {
    if y > 31 || x > 63 then false else s[PixelIndex(x, y)]
  }

  /** `set_pixel`: `None` (the panic) off the screen. */
  function PixelSet(s: seq<bool>, x: Byte, y: Byte, tf: bool): (r: Option<seq<bool>>)
    requires |s| == PIXELS
    ensures r.Some? <==> OnScreen(x, y)
    ensures r.Some? ==> |r.value| == PIXELS
  {
    if y > 31 || x > 63 then None else Some(s[PixelIndex(x, y) := tf])
  }

  /** After a `set_pixel` that does not panic, the pixel written reads back
      the new value and every other pixel reads as before. */
  lemma SetThenGet(s: seq<bool>, x: Byte, y: Byte, tf: bool, x': Byte, y': Byte)
    requires |s| == PIXELS && OnScreen(x, y)
    ensures PixelAt(PixelSet(s, x, y, tf).value, x', y') ==
            if x' == x && y' == y then tf else PixelAt(s, x', y')
  {
    if OnScreen(x', y') && PixelIndex(x', y') == PixelIndex(x, y) {
      assert x' == x && y' == y;
    }
  }

  // ---------------------------------------------------------------------
  // `draw`, the sprite case: bit `q` of row `p` flips the pixel at
  // `(x0 - q, y0 + p)`

  /** Bit `q` of row `p` of a sprite whose rightmost column is `x0` and
      whose top row is `y0` lands on the screen. */
  predicate Lands(x0: int, y0: int, p: int, q: int)
  {
    OnScreen(x0 - q, y0 + p)
  }

  /** The cell that bit `q` of row `p` lands on. */
  function Cell(x0: int, y0: int, p: int, q: int): (k: nat)
    requires Lands(x0, y0, p, q)
    ensures k < PIXELS
  {
    PixelIndex(x0 - q, y0 + p)
  }

  /** The inner `while q < 8` loop from bit `q` on: every pixel is read with
      `get_pixel`, and those under a set bit are flipped with `set_pixel`,
      which panics off the screen. */
  function FlipBits(s: seq<bool>, hit: bool, x0: Byte, y: Byte, bits: Byte, q: nat)
    : (r: Option<(seq<bool>, bool)>)
    requires |s| == PIXELS && 7 <= x0 && q <= 8
    ensures r.Some? ==> |r.value.0| == PIXELS
    decreases 8 - q
  {
    if q == 8 then Some((s, hit))
    else
      var x: Byte := x0 - q;
      var was := PixelAt(s, x, y);
      if Bit(bits, q) then
        match PixelSet(s, x, y, !was)
        case None => None
        case Some(t) => FlipBits(t, hit || was, x0, y, bits, q + 1)
      else
        FlipBits(s, hit, x0, y, bits, q + 1)
  }

  /** The outer `while p < h` loop from row `p` on; `None` where `memo[i + p]`
      lies past the memory or `y0 + p` overflows a byte. */
  function FlipRows(s: seq<bool>, hit: bool, x0: Byte, y0: Byte, memo: seq<Byte>, i: Word, p: nat, h: nat)
    : (r: Option<(seq<bool>, bool)>)
    requires |s| == PIXELS && 7 <= x0 && p <= h
    ensures r.Some? ==> |r.value.0| == PIXELS
    decreases h - p
  {
    if p == h then Some((s, hit))
    else if i + p >= |memo| then None
    else if y0 + p > 0xFF then None
    else
      match FlipBits(s, hit, x0, y0 + p, memo[i + p], 0)
      case None => None
      case Some(row) => FlipRows(row.0, row.1, x0, y0, memo, i, p + 1, h)
  }

  /** Every set bit of `bits` from bit `q` on lands on the screen in row `y`. */
  predicate BitsOnScreen(x0: int, y: int, bits: Byte, q: nat)
  {
    forall q' :: q <= q' < 8 && Bit(bits, q') ==> Lands(x0, y, 0, q')
  }

  /** Row `p` of the sprite can be drawn: its byte is in memory, its row
      number fits a byte, and its set bits land on the screen. */
  predicate RowFits(x0: int, y0: int, memo: seq<Byte>, i: Word, p: nat)
  {
    i + p < |memo| && y0 + p <= 0xFF && BitsOnScreen(x0, y0 + p, memo[i + p], 0)
  }

  /** Rows `p..h-1` can all be drawn. */
  predicate SpriteFits(x0: int, y0: int, memo: seq<Byte>, i: Word, p: nat, h: nat)
  {
    forall p' :: p <= p' < h ==> RowFits(x0, y0, memo, i, p')
  }

  /** A sprite whose rows `p..h-1` fit has a first row that fits, and its
      other rows fit. */
  lemma SpriteFitsNext(x0: int, y0: int, memo: seq<Byte>, i: Word, p: nat, h: nat)
    requires p < h && SpriteFits(x0, y0, memo, i, p, h)
    ensures RowFits(x0, y0, memo, i, p) && SpriteFits(x0, y0, memo, i, p + 1, h)
  {
    assert RowFits(x0, y0, memo, i, p);
  }

  /** A row panics exactly when one of its set bits lands off the screen. */
  lemma {:induction false} FlipBitsSome(s: seq<bool>, hit: bool, x0: Byte, y: Byte, bits: Byte, q: nat)
    requires |s| == PIXELS && 7 <= x0 && q <= 8
    ensures FlipBits(s, hit, x0, y, bits, q).Some? <==> BitsOnScreen(x0, y, bits, q)
    decreases 8 - q
  {
    if q < 8 {
      var x: Byte := x0 - q;
      var was := PixelAt(s, x, y);
      if Bit(bits, q) {
        if OnScreen(x, y) {
          FlipBitsSome(PixelSet(s, x, y, !was).value, hit || was, x0, y, bits, q + 1);
        }
      } else {
        FlipBitsSome(s, hit, x0, y, bits, q + 1);
      }
    }
  }

  /** One step of `FlipRows`: row `p` is drawn, then the rest. */
  lemma FlipRowsStep(s: seq<bool>, hit: bool, x0: Byte, y0: Byte, memo: seq<Byte>, i: Word, p: nat, h: nat,
                     y: Byte, bits: Byte)
    requires |s| == PIXELS && 7 <= x0 && p < h && i + p < |memo| && y == y0 + p && bits == memo[i + p]
    ensures FlipRows(s, hit, x0, y0, memo, i, p, h) ==
            match FlipBits(s, hit, x0, y, bits, 0)
            case None => None
            case Some(row) => FlipRows(row.0, row.1, x0, y0, memo, i, p + 1, h)
  {
  }

  /** The sprite panics exactly when one of its rows does not fit. */
  lemma {:induction false} FlipRowsSome(s: seq<bool>, hit: bool, x0: Byte, y0: Byte, memo: seq<Byte>, i: Word, p: nat, h: nat)
    requires |s| == PIXELS && 7 <= x0 && p <= h
    ensures FlipRows(s, hit, x0, y0, memo, i, p, h).Some? <==> SpriteFits(x0, y0, memo, i, p, h)
    decreases h - p
  {
    if p < h {
      if !RowFits(x0, y0, memo, i, p) {
        if i + p < |memo| && y0 + p <= 0xFF {
          FlipBitsSome(s, hit, x0, y0 + p, memo[i + p], 0);
        }
      } else {
        var y: Byte := y0 + p;
        var bits := memo[i + p];
        FlipBitsSome(s, hit, x0, y, bits, 0);
        var row := FlipBits(s, hit, x0, y, bits, 0).value;
        FlipRowsSome(row.0, row.1, x0, y0, memo, i, p + 1, h);
        assert SpriteFits(x0, y0, memo, i, p, h) <==> SpriteFits(x0, y0, memo, i, p + 1, h);
      }
    }
  }

  /** The cells flipped by the set bits of `bits` from bit `q` on. */
  function BitCells(x0: int, y: int, bits: Byte, q: nat): set<nat>
  {
    set q': nat | q <= q' < 8 && Bit(bits, q') && Lands(x0, y, 0, q') :: Cell(x0, y, 0, q')
  }

  lemma BitCellsStep(x0: Byte, y: Byte, bits: Byte, q: nat)
    requires q < 8 && BitsOnScreen(x0, y, bits, q)
    ensures BitCells(x0, y, bits, q) ==
            (if Bit(bits, q) then {Cell(x0, y, 0, q)} else {}) + BitCells(x0, y, bits, q + 1)
  {
    var c := BitCells(x0, y, bits, q);
    var c' := BitCells(x0, y, bits, q + 1);
    forall k | k in c
      ensures k in (if Bit(bits, q) then {Cell(x0, y, 0, q)} else {}) + c'
    {
      var q': nat :| q <= q' < 8 && Bit(bits, q') && Lands(x0, y, 0, q') && Cell(x0, y, 0, q') == k;
      if q' > q {
        assert k in c';
      }
    }
    forall k | k in c'
      ensures k in c
    {
      var q': nat :| q + 1 <= q' < 8 && Bit(bits, q') && Lands(x0, y, 0, q') && Cell(x0, y, 0, q') == k;
      assert k in c;
    }
    if Bit(bits, q) {
      assert Cell(x0, y, 0, q) in c;
    }
  }

  /** Different bits of a row land in different columns. */
  lemma BitCellsAfter(x0: Byte, y: Byte, bits: Byte, q: nat)
    requires q < 8 && Lands(x0, y, 0, q)
    ensures Cell(x0, y, 0, q) !in BitCells(x0, y, bits, q + 1)
  {
  }

  /** One step of `FlipBits` on a set bit that lands on the screen. */
  lemma FlipBitsStep(s: seq<bool>, hit: bool, x0: Byte, y: Byte, bits: Byte, q: nat, idx: nat)
    requires |s| == PIXELS && 7 <= x0 && q < 8 && Bit(bits, q) && Lands(x0, y, 0, q) && idx == Cell(x0, y, 0, q)
    ensures FlipBits(s, hit, x0, y, bits, q) == FlipBits(s[idx := !s[idx]], hit || s[idx], x0, y, bits, q + 1)
  {
    var x: Byte := x0 - q;
    assert PixelAt(s, x, y) == s[idx];
  }

  /** What one row does: the cells of its set bits are flipped, and the flag
      records whether one of them was lit. */
  lemma {:induction false} FlipBitsXor(s: seq<bool>, hit: bool, x0: Byte, y: Byte, bits: Byte, q: nat)
    requires |s| == PIXELS && 7 <= x0 && q <= 8 && BitsOnScreen(x0, y, bits, q)
    ensures FlipBits(s, hit, x0, y, bits, q).Some?
    ensures var r := FlipBits(s, hit, x0, y, bits, q).value;
            Sprites.Toggled(s, r.0, BitCells(x0, y, bits, q)) &&
            (r.1 <==> hit || Sprites.AnyLit(s, BitCells(x0, y, bits, q)))
    decreases 8 - q
  {
    var c := BitCells(x0, y, bits, q);
    if q == 8 {
      assert c == {};
    } else {
      var c' := BitCells(x0, y, bits, q + 1);
      BitCellsStep(x0, y, bits, q);
      if Bit(bits, q) {
        var idx := Cell(x0, y, 0, q);
        BitCellsAfter(x0, y, bits, q);
        var was := s[idx];
        var s' := s[idx := !was];
        FlipBitsStep(s, hit, x0, y, bits, q, idx);
        FlipBitsXor(s', hit || was, x0, y, bits, q + 1);
        assert c == c' + {idx};
        Sprites.ToggleOne(s, FlipBits(s', hit || was, x0, y, bits, q + 1).value.0, c', idx);
      } else {
        FlipBitsXor(s, hit, x0, y, bits, q + 1);
        assert c == c';
      }
    }
  }

  /** The cells flipped by the set bits of rows `p..h-1`. */
  function RowCells(x0: int, y0: int, memo: seq<Byte>, i: Word, p: nat, h: nat): set<nat>
  {
    set p': nat, q: nat | p <= p' < h && q < 8 && i + p' < |memo| && Bit(memo[i + p'], q) && Lands(x0, y0, p', q)
      :: Cell(x0, y0, p', q)
  }

  lemma RowCellsStep(x0: Byte, y0: Byte, memo: seq<Byte>, i: Word, p: nat, h: nat)
    requires p < h && i + p < |memo|
    ensures RowCells(x0, y0, memo, i, p, h) ==
            BitCells(x0, y0 + p, memo[i + p], 0) + RowCells(x0, y0, memo, i, p + 1, h)
  {
    var c := RowCells(x0, y0, memo, i, p, h);
    var b := BitCells(x0, y0 + p, memo[i + p], 0);
    var c' := RowCells(x0, y0, memo, i, p + 1, h);
    forall k | k in c
      ensures k in b + c'
    {
      var p': nat, q: nat :| p <= p' < h && q < 8 && i + p' < |memo| && Bit(memo[i + p'], q) && Lands(x0, y0, p', q)
                             && Cell(x0, y0, p', q) == k;
      if p' == p {
        assert Cell(x0, y0 + p, 0, q) == k;
      } else {
        assert k in c';
      }
    }
    forall k | k in b
      ensures k in c
    {
      var q: nat :| 0 <= q < 8 && Bit(memo[i + p], q) && Lands(x0, y0 + p, 0, q) && Cell(x0, y0 + p, 0, q) == k;
      assert Cell(x0, y0, p, q) == k;
    }
    forall k | k in c'
      ensures k in c
    {
      var p': nat, q: nat :| p + 1 <= p' < h && q < 8 && i + p' < |memo| && Bit(memo[i + p'], q) && Lands(x0, y0, p', q)
                             && Cell(x0, y0, p', q) == k;
      assert k in c;
    }
  }

  /** The screen is not wrapped, so a row's cells are never those of a later
      row. */
  lemma RowCellsDisjoint(x0: Byte, y0: Byte, memo: seq<Byte>, i: Word, p: nat, h: nat)
    requires p < h && i + p < |memo|
    ensures BitCells(x0, y0 + p, memo[i + p], 0) !! RowCells(x0, y0, memo, i, p + 1, h)
  {
  }

  /** How drawing row `p` and then rows `p+1..h-1` adds up to drawing rows
      `p..h-1`. */
  lemma FlipRowsCombine(s: seq<bool>, hit: bool, x0: Byte, y0: Byte, memo: seq<Byte>, i: Word, p: nat, h: nat,
                        y: Byte, bits: Byte, row: (seq<bool>, bool), r: (seq<bool>, bool))
    requires |s| == PIXELS && 7 <= x0 && p < h && i + p < |memo| && y == y0 + p && bits == memo[i + p]
    requires FlipBits(s, hit, x0, y, bits, 0) == Some(row) && |row.0| == PIXELS
    requires Sprites.Toggled(s, row.0, BitCells(x0, y, bits, 0))
    requires row.1 <==> hit || Sprites.AnyLit(s, BitCells(x0, y, bits, 0))
    requires FlipRows(row.0, row.1, x0, y0, memo, i, p + 1, h) == Some(r) && |r.0| == PIXELS
    requires Sprites.Toggled(row.0, r.0, RowCells(x0, y0, memo, i, p + 1, h))
    requires r.1 <==> row.1 || Sprites.AnyLit(row.0, RowCells(x0, y0, memo, i, p + 1, h))
    ensures FlipRows(s, hit, x0, y0, memo, i, p, h) == Some(r)
    ensures Sprites.Toggled(s, r.0, RowCells(x0, y0, memo, i, p, h))
    ensures r.1 <==> hit || Sprites.AnyLit(s, RowCells(x0, y0, memo, i, p, h))
  {
    var b := BitCells(x0, y, bits, 0);
    var c' := RowCells(x0, y0, memo, i, p + 1, h);
    FlipRowsStep(s, hit, x0, y0, memo, i, p, h, y, bits);
    RowCellsStep(x0, y0, memo, i, p, h);
    RowCellsDisjoint(x0, y0, memo, i, p, h);
    Sprites.ToggleTwice(s, row.0, r.0, b, c');
    Sprites.AnyLitUnion(s, b, c');
  }

  /** What the rows of a sprite that fits do: the cells of its set bits are
      flipped, and the flag records whether one of them was lit. */
  lemma {:induction false} FlipRowsXor(s: seq<bool>, hit: bool, x0: Byte, y0: Byte, memo: seq<Byte>, i: Word, p: nat, h: nat)
    requires |s| == PIXELS && 7 <= x0 && p <= h && SpriteFits(x0, y0, memo, i, p, h)
    ensures FlipRows(s, hit, x0, y0, memo, i, p, h).Some?
    ensures var r := FlipRows(s, hit, x0, y0, memo, i, p, h).value;
            Sprites.Toggled(s, r.0, RowCells(x0, y0, memo, i, p, h)) &&
            (r.1 <==> hit || Sprites.AnyLit(s, RowCells(x0, y0, memo, i, p, h)))
    decreases h - p, 1
  {
    if p == h {
      assert RowCells(x0, y0, memo, i, p, h) == {};
    } else {
      SpriteFitsNext(x0, y0, memo, i, p, h);
      var y: Byte := y0 + p;
      var bits := memo[i + p];
      FlipBitsXor(s, hit, x0, y, bits, 0);
      var row := FlipBits(s, hit, x0, y, bits, 0).value;
      FlipRowsXorRest(s, hit, x0, y0, memo, i, p, h, y, bits, row);
    }
  }

  /** The inductive step of `FlipRowsXor`: once row `p` is drawn, the rest
      of the rows are. */
  lemma {:induction false} FlipRowsXorRest(s: seq<bool>, hit: bool, x0: Byte, y0: Byte, memo: seq<Byte>, i: Word, p: nat, h: nat,
                                           y: Byte, bits: Byte, row: (seq<bool>, bool))
    requires |s| == PIXELS && 7 <= x0 && p < h && i + p < |memo| && y == y0 + p && bits == memo[i + p]
    requires FlipBits(s, hit, x0, y, bits, 0) == Some(row) && |row.0| == PIXELS
    requires Sprites.Toggled(s, row.0, BitCells(x0, y, bits, 0))
    requires row.1 <==> hit || Sprites.AnyLit(s, BitCells(x0, y, bits, 0))
    requires SpriteFits(x0, y0, memo, i, p + 1, h)
    ensures FlipRows(s, hit, x0, y0, memo, i, p, h).Some?
    ensures var r := FlipRows(s, hit, x0, y0, memo, i, p, h).value;
            Sprites.Toggled(s, r.0, RowCells(x0, y0, memo, i, p, h)) &&
            (r.1 <==> hit || Sprites.AnyLit(s, RowCells(x0, y0, memo, i, p, h)))
    decreases h - p, 0
  {
    FlipRowsXor(row.0, row.1, x0, y0, memo, i, p + 1, h);
    var r := FlipRows(row.0, row.1, x0, y0, memo, i, p + 1, h).value;
    FlipRowsCombine(s, hit, x0, y0, memo, i, p, h, y, bits, row, r);
  }

  /** Bit `q` of row `p` flips its own cell and no other bit does. */
  lemma RowCellsAt(x0: Byte, y0: Byte, memo: seq<Byte>, i: Word, h: nat, p: nat, q: nat)
    requires p < h && q < 8 && i + p < |memo| && Lands(x0, y0, p, q)
    ensures Cell(x0, y0, p, q) in RowCells(x0, y0, memo, i, 0, h) <==> Bit(memo[i + p], q)
  {
    var k := Cell(x0, y0, p, q);
    if k in RowCells(x0, y0, memo, i, 0, h) {
      var p': nat, q': nat :| p' < h && q' < 8 && i + p' < |memo| && Bit(memo[i + p'], q') && Lands(x0, y0, p', q')
                              && Cell(x0, y0, p', q') == k;
      assert k % WIDTH_PX == x0 - q && k % WIDTH_PX == x0 - q';
      assert k / WIDTH_PX == y0 + p && k / WIDTH_PX == y0 + p';
    }
  }

  // ---------------------------------------------------------------------
  // `draw`

  /** `draw`: a recorded `0xE...` clears the screen, a recorded `0xD...`
      draws the sprite `Dxyn` with `x0 = V[x] + 7` (a `u8` overflow panics)
      and then sets VF; anything else panics. `drawop` is reset to 0. */
  function DrawPending(st: LState, memo: seq<Byte>): (r: Option<LState>)
    requires ValidState(st) && |memo| == MEMO_SIZE
    ensures r.Some? ==> ValidState(r.value) && r.value.drawop == 0
    ensures r.Some? ==> r.value == st.(display := r.value.display, v := r.value.v, drawop := 0)
    ensures r.Some? ==> forall k :: 0 <= k < 0xF ==> r.value.v[k] == st.v[k]
  {
    var family := st.drawop / 0x1000;
    if family == 0xE then Some(st.(display := Blank(), drawop := 0))
    else if family == 0xD then
      var vx := st.v[Get0x00(st.drawop)];
      if vx as int + 7 > 0xFF then None
      else
        var y0 := st.v[Get00y0(st.drawop)];
        match FlipRows(st.display, false, vx + 7, y0, memo, st.i, 0, st.drawop % 0x10)
        case None => None
        case Some(res) => Some(st.(display := res.0, v := st.v[0xF := if res.1 then 1 else 0], drawop := 0))
    else None
  }

  /** The column of bit 0 of the recorded sprite. */
  function SpriteX0(st: LState): int
    requires ValidState(st)
  {
    st.v[Get0x00(st.drawop)] as int + 7
  }

  /** The row of the recorded sprite's first byte. */
  function SpriteY0(st: LState): int
    requires ValidState(st)
  {
    st.v[Get00y0(st.drawop)]
  }

  /** `draw` panics exactly when the recorded operation is neither a clear
      nor a sprite, or the sprite's column overflows a byte, or a row lies
      past the memory, below row 255 or has a set bit off the screen. */
  lemma DrawSome(st: LState, memo: seq<Byte>)
    requires ValidState(st) && |memo| == MEMO_SIZE
    ensures DrawPending(st, memo).Some? <==>
              st.drawop / 0x1000 == 0xE ||
              (st.drawop / 0x1000 == 0xD && SpriteX0(st) <= 0xFF &&
               SpriteFits(SpriteX0(st), SpriteY0(st), memo, st.i, 0, st.drawop % 0x10))
  {
    if st.drawop / 0x1000 == 0xD && SpriteX0(st) <= 0xFF {
      FlipRowsSome(st.display, false, SpriteX0(st), SpriteY0(st), memo, st.i, 0, st.drawop % 0x10);
    }
  }

  /** A recorded clear turns every pixel off. */
  lemma DrawClear(st: LState, memo: seq<Byte>)
    requires ValidState(st) && |memo| == MEMO_SIZE && st.drawop / 0x1000 == 0xE
    ensures DrawPending(st, memo).Some?
    ensures var r := DrawPending(st, memo).value;
            r.v == st.v && forall k :: 0 <= k < PIXELS ==> !r.display[k]
  {
  }

  /** Cell by cell, the rows of a sprite that fits flip the cell of every
      set bit and keep every other cell. */
  lemma FlipRowsCells(s: seq<bool>, x0: Byte, y0: Byte, memo: seq<Byte>, i: Word, h: nat)
    requires |s| == PIXELS && 7 <= x0 && SpriteFits(x0, y0, memo, i, 0, h)
    ensures FlipRows(s, false, x0, y0, memo, i, 0, h).Some?
    ensures var r := FlipRows(s, false, x0, y0, memo, i, 0, h).value;
            && (forall p, q :: 0 <= p < h && 0 <= q < 8 && i + p < |memo| && Lands(x0, y0, p, q) ==>
                  r.0[Cell(x0, y0, p, q)] == (s[Cell(x0, y0, p, q)] != Bit(memo[i + p], q)))
            && (forall k :: 0 <= k < PIXELS && k !in RowCells(x0, y0, memo, i, 0, h) ==> r.0[k] == s[k])
  {
    FlipRowsXor(s, false, x0, y0, memo, i, 0, h);
    var r := FlipRows(s, false, x0, y0, memo, i, 0, h).value;
    forall p, q | 0 <= p < h && 0 <= q < 8 && i + p < |memo| && Lands(x0, y0, p, q)
      ensures r.0[Cell(x0, y0, p, q)] == (s[Cell(x0, y0, p, q)] != Bit(memo[i + p], q))
    {
      RowCellsAt(x0, y0, memo, i, h, p, q);
    }
  }

  /** The flag of the rows of a sprite that fits is set exactly when the cell
      of one of its set bits was lit. */
  lemma FlipRowsFlag(s: seq<bool>, x0: Byte, y0: Byte, memo: seq<Byte>, i: Word, h: nat)
    requires |s| == PIXELS && 7 <= x0 && SpriteFits(x0, y0, memo, i, 0, h)
    ensures FlipRows(s, false, x0, y0, memo, i, 0, h).Some?
    ensures FlipRows(s, false, x0, y0, memo, i, 0, h).value.1 <==>
              exists p, q :: 0 <= p < h && 0 <= q < 8 && i + p < |memo| && Bit(memo[i + p], q) &&
                             Lands(x0, y0, p, q) && s[Cell(x0, y0, p, q)]
  {
    var c := RowCells(x0, y0, memo, i, 0, h);
    FlipRowsXor(s, false, x0, y0, memo, i, 0, h);
    if Sprites.AnyLit(s, c) {
      var k :| k in c && k < |s| && s[k];
      var p: nat, q: nat :| p < h && q < 8 && i + p < |memo| && Bit(memo[i + p], q) && Lands(x0, y0, p, q)
                            && Cell(x0, y0, p, q) == k;
      assert s[Cell(x0, y0, p, q)];
    }
    if exists p, q :: 0 <= p < h && 0 <= q < 8 && i + p < |memo| && Bit(memo[i + p], q) &&
                      Lands(x0, y0, p, q) && s[Cell(x0, y0, p, q)] {
      var p, q :| 0 <= p < h && 0 <= q < 8 && i + p < |memo| && Bit(memo[i + p], q) &&
                  Lands(x0, y0, p, q) && s[Cell(x0, y0, p, q)];
      RowCellsAt(x0, y0, memo, i, h, p, q);
      assert Sprites.AnyLit(s, c);
    }
  }

  /** What a recorded sprite that can be drawn does, cell by cell: the cell
      of every set bit is flipped, every other cell keeps its value, and VF is
      1 exactly when one of the flipped cells was lit before, 0 otherwise. */
  lemma DrawSpriteXor(st: LState, memo: seq<Byte>)
    requires ValidState(st) && |memo| == MEMO_SIZE && st.drawop / 0x1000 == 0xD
    requires DrawPending(st, memo).Some?
    ensures var r := DrawPending(st, memo).value;
            var x0, y0, h := SpriteX0(st), SpriteY0(st), st.drawop % 0x10;
            && (forall p, q :: 0 <= p < h && 0 <= q < 8 && st.i + p < |memo| && Lands(x0, y0, p, q) ==>
                  r.display[Cell(x0, y0, p, q)] == (st.display[Cell(x0, y0, p, q)] != Bit(memo[st.i + p], q)))
            && (forall k :: 0 <= k < PIXELS && k !in RowCells(x0, y0, memo, st.i, 0, h) ==> r.display[k] == st.display[k])
            && r.v[0xF] <= 1
            && (r.v[0xF] == 1 <==>
                  exists p, q :: 0 <= p < h && 0 <= q < 8 && st.i + p < |memo| && Bit(memo[st.i + p], q) &&
                                 Lands(x0, y0, p, q) && st.display[Cell(x0, y0, p, q)])
  {
    var x0: Byte := SpriteX0(st);
    var y0 := SpriteY0(st);
    var h := st.drawop % 0x10;
    DrawSome(st, memo);
    FlipRowsCells(st.display, x0, y0, memo, st.i, h);
    FlipRowsFlag(st.display, x0, y0, memo, st.i, h);
  }

  // ---------------------------------------------------------------------
  // `run_address`

  /** How an arm of `run_address` ends: with `return` (pc already set) or by
      falling through to the trailing `pc += 2`. */
  datatype Flow = Jumped(next: LState) | Continued(next: LState)

  /** A taken skip: `pc += 4` (a `u16` overflow panics) and `return`. */
  function SkipTaken(st: LState): Option<Flow>
  {
    if st.pc + 4 > 0xFFFF then None else Some(Jumped(st.(pc := st.pc + 4)))
  }

  /** The arms of `8xyN` on the sixteen registers: copy, OR, AND and XOR,
      then the `u8` sum and the two differences, which panic on overflow;
      any other `N` panics. Only register `x` changes. */
  function RegisterOp(v: seq<Byte>, x: nat, y: nat, n: nat): (r: Option<seq<Byte>>)
    requires |v| == 16 && x < 16 && y < 16
    ensures r.Some? <==> (n <= 3 || (n == 4 && v[x] as int + v[y] <= 0xFF) || (n == 5 && v[y] <= v[x]) || (n == 7 && v[x] <= v[y]))
    ensures r.Some? ==> |r.value| == 16 && forall k :: 0 <= k < 16 && k != x ==> r.value[k] == v[k]
    ensures n == 0 && r.Some? ==> r.value[x] == v[y]
    ensures n == 1 && r.Some? ==> forall b :: 0 <= b < 8 ==> Bit(r.value[x], b) == (Bit(v[x], b) || Bit(v[y], b))
    ensures n == 2 && r.Some? ==> forall b :: 0 <= b < 8 ==> Bit(r.value[x], b) == (Bit(v[x], b) && Bit(v[y], b))
    ensures n == 3 && r.Some? ==> forall b :: 0 <= b < 8 ==> Bit(r.value[x], b) == (Bit(v[x], b) != Bit(v[y], b))
    ensures n == 4 && r.Some? ==> r.value[x] == v[x] as int + v[y]
    ensures n == 5 && r.Some? ==> r.value[x] as int + v[y] == v[x]
    ensures n == 7 && r.Some? ==> r.value[x] as int + v[x] == v[y]
  {
    if n == 0 then Some(v[x := v[y]])
    else if n == 1 then Some(v[x := Or8(v[x], v[y])])
    else if n == 2 then Some(v[x := And8(v[x], v[y])])
    else if n == 3 then Some(v[x := Xor8(v[x], v[y])])
    else if n == 4 then (if v[x] as int + v[y] > 0xFF then None else Some(v[x := v[x] + v[y]]))
    else if n == 5 then (if v[x] < v[y] then None else Some(v[x := v[x] - v[y]]))
    else if n == 7 then (if v[y] < v[x] then None else Some(v[x := v[y] - v[x]]))
    else None
  }

  /** The families whose arms decide where execution goes on: `0` (clear and
      return), `1nnn`, `2nnn` and the skips `3xnn`, `4xnn`, `9xyN`, `ExNN`. */
  predicate IsControl(op: Word)
  {
    var f := op / 0x1000;
    f == 0x0 || f == 0x1 || f == 0x2 || f == 0x3 || f == 0x4 || f == 0x9 || f == 0xE
  }

  /** The arms of the control families; `9xyN` compares the registers named
      by the nibbles of `drawop`. */
  function ControlArm(st: LState, op: Word): (r: Option<Flow>)
    requires ValidState(st) && IsControl(op)
    ensures r.Some? ==> ValidState(r.value.next)
    ensures r.Some? ==> r.value.next == st.(pc := r.value.next.pc, stack := r.value.next.stack, drawop := r.value.next.drawop)
  {
    var family := op / 0x1000;
    var x := Get0x00(op);
    var nn := Get00nn(op);
    if family == 0x0 then
      if op == 0x00E0 then Some(Continued(st.(drawop := 0xE000)))
      else if op == 0x00EE then
        if |st.stack| == 0 then None
        else Some(Continued(st.(pc := st.stack[|st.stack| - 1], stack := st.stack[..|st.stack| - 1])))
      else None
    else if family == 0x1 then Some(Jumped(st.(pc := op % 0x1000)))
    else if family == 0x2 then Some(Jumped(st.(stack := st.stack + [st.pc], pc := op % 0x1000)))
    else if family == 0x3 then
      if st.v[x] == nn then SkipTaken(st) else Some(Continued(st))
    else if family == 0x4 then
      if st.v[x] != nn then SkipTaken(st) else Some(Continued(st))
    else if family == 0x9 then
      if st.v[Get0x00(st.drawop)] != st.v[Get00y0(st.drawop)] then SkipTaken(st) else Some(Continued(st))
    else if nn == 0x9E then (if st.keyboard == st.v[x] then SkipTaken(st) else Some(Continued(st)))
    else if nn == 0xA1 then (if st.keyboard != st.v[x] then SkipTaken(st) else Some(Continued(st)))
    else None
  }

  /** The arms of the other families, which all fall through to the
      trailing `pc += 2`: registers, I, the delay timer and the recorded
      sprite. `8xyN` names its registers by the nibbles of `drawop`. */
  function DataArm(st: LState, op: Word, rnd: Byte): (r: Option<LState>)
    requires ValidState(st) && !IsControl(op)
    ensures r.Some? ==> ValidState(r.value)
    ensures r.Some? ==> r.value == st.(v := r.value.v, i := r.value.i, delay := r.value.delay, drawop := r.value.drawop)
  {
    var family := op / 0x1000;
    var x := Get0x00(op);
    var nn := Get00nn(op);
    if family == 0x6 then Some(st.(v := st.v[x := nn]))
    else if family == 0x7 then Some(st.(v := st.v[x := WrappingAdd8(st.v[x], nn)]))
    else if family == 0x8 then
      match RegisterOp(st.v, Get0x00(st.drawop), Get00y0(st.drawop), op % 0x10)
      case None => None
      case Some(v') => Some(st.(v := v'))
    else if family == 0xA then Some(st.(i := op % 0x1000))
    else if family == 0xC then Some(st.(v := st.v[x := And8(rnd, nn)]))
    else if family == 0xD then Some(st.(drawop := op))
    else if family == 0xF then
      if nn == 0x07 then Some(st.(v := st.v[x := st.delay]))
      else if nn == 0x15 then Some(st.(delay := st.v[x]))
      else if nn == 0x1E then
        if x == 0xF then None
        else if st.i + st.v[x] > 0xFFFF then None
        else Some(st.(i := st.i + st.v[x]))
      else None
    else None
  }

  /** The `match` of `run_address` on the family nibble of `op`. */
  function Dispatch(st: LState, op: Word, rnd: Byte): (r: Option<Flow>)
    requires ValidState(st)
    ensures r.Some? ==> ValidState(r.value.next)
    ensures r.Some? ==> r.value.next.display == st.display && r.value.next.keyboard == st.keyboard
  {
    if IsControl(op) then ControlArm(st, op)
    else
      match DataArm(st, op, rnd)
      case None => None
      case Some(n) => Some(Continued(n))
  }

  /** The opcode at pc: big-endian, the byte at pc first. */
  function OpcodeAt(st: LState, memo: seq<Byte>): (r: Word)
    requires |memo| == MEMO_SIZE && st.pc + 1 < MEMO_SIZE
    ensures r / 0x100 == memo[st.pc] && r % 0x100 == memo[st.pc + 1]
  {
    GetOpcode(memo[st.pc], memo[st.pc + 1])
  }

  /** `run_address`: fetch the opcode at pc (`memo[pc + 1]` past the memory
      panics), run its arm, and unless the arm returned, `pc += 2` (a `u16`
      overflow panics). The screen and the keyboard byte never change. */
  function Step(st: LState, memo: seq<Byte>, rnd: Byte): (r: Option<LState>)
    requires ValidState(st) && |memo| == MEMO_SIZE
    ensures st.pc + 1 >= MEMO_SIZE ==> r.None?
    ensures r.Some? ==> ValidState(r.value) && r.value.display == st.display && r.value.keyboard == st.keyboard
  {
    if st.pc + 1 >= MEMO_SIZE then None
    else
      match Dispatch(st, OpcodeAt(st, memo), rnd)
      case None => None
      case Some(Jumped(n)) => Some(n)
      case Some(Continued(n)) => if n.pc + 2 > 0xFFFF then None else Some(n.(pc := n.pc + 2))
  }

  /** A step of a control family is its arm, then `pc += 2` unless the arm
      returned. */
  lemma StepControl(st: LState, memo: seq<Byte>, rnd: Byte)
    requires ValidState(st) && |memo| == MEMO_SIZE && st.pc + 1 < MEMO_SIZE && IsControl(OpcodeAt(st, memo))
    ensures Step(st, memo, rnd) ==
            match ControlArm(st, OpcodeAt(st, memo))
            case None => None
            case Some(Jumped(n)) => Some(n)
            case Some(Continued(n)) => if n.pc + 2 > 0xFFFF then None else Some(n.(pc := n.pc + 2))
  {
  }

  /** A step of any other family is its arm, then `pc += 2`. */
  lemma StepData(st: LState, memo: seq<Byte>, rnd: Byte)
    requires ValidState(st) && |memo| == MEMO_SIZE && st.pc + 1 < MEMO_SIZE && !IsControl(OpcodeAt(st, memo))
    ensures Step(st, memo, rnd) ==
            match DataArm(st, OpcodeAt(st, memo), rnd)
            case None => None
            case Some(n) => if n.pc + 2 > 0xFFFF then None else Some(n.(pc := n.pc + 2))
  {
  }

  /** `1nnn` jumps to `nnn` and changes nothing else. */
  lemma StepGoto(st: LState, memo: seq<Byte>, rnd: Byte)
    requires ValidState(st) && |memo| == MEMO_SIZE && st.pc + 1 < MEMO_SIZE
    requires OpcodeAt(st, memo) / 0x1000 == 0x1
    ensures Step(st, memo, rnd) == Some(st.(pc := OpcodeAt(st, memo) % 0x1000))
  {
  }

  /** `2nnn` pushes the address of the call itself and jumps to `nnn`; a
      `00EE` there pops it, and the trailing `pc += 2` resumes right after
      the call with the stack as it was. */
  lemma CallThenReturn(st: LState, memo: seq<Byte>, rnd: Byte, rnd': Byte)
    requires ValidState(st) && |memo| == MEMO_SIZE && st.pc + 1 < MEMO_SIZE
    requires OpcodeAt(st, memo) / 0x1000 == 0x2
    ensures Step(st, memo, rnd) == Some(st.(pc := OpcodeAt(st, memo) % 0x1000, stack := st.stack + [st.pc]))
    ensures var called := Step(st, memo, rnd).value;
            called.pc + 1 < MEMO_SIZE && OpcodeAt(called, memo) == 0x00EE ==>
              Step(called, memo, rnd') == Some(st.(pc := st.pc + 2))
  {
    var op := OpcodeAt(st, memo);
    StepControl(st, memo, rnd);
    var called := st.(pc := op % 0x1000, stack := st.stack + [st.pc]);
    assert ControlArm(st, op) == Some(Jumped(called));
    if called.pc + 1 < MEMO_SIZE && OpcodeAt(called, memo) == 0x00EE {
      StepControl(called, memo, rnd');
      assert (st.stack + [st.pc])[..|st.stack|] == st.stack;
      assert ControlArm(called, 0x00EE) == Some(Continued(st));
    }
  }

  /** The opcodes that skip: `3xnn`, `4xnn`, `9xyN`, `Ex9E` and `ExA1`. */
  predicate IsSkip(op: Word)
  {
    var f := op / 0x1000;
    f == 0x3 || f == 0x4 || f == 0x9 || (f == 0xE && (op % 0x100 == 0x9E || op % 0x100 == 0xA1))
  }

  /** When a skip opcode skips: `Vx == nn`, `Vx != nn`, the registers named
      by `drawop` differ, the keyboard byte equals `Vx`, or differs from it. */
  predicate SkipHolds(st: LState, op: Word)
    requires ValidState(st) && IsSkip(op)
  {
    var f, x, nn := op / 0x1000, Get0x00(op), op % 0x100;
    if f == 0x3 then st.v[x] == nn
    else if f == 0x4 then st.v[x] != nn
    else if f == 0x9 then st.v[Get0x00(st.drawop)] != st.v[Get00y0(st.drawop)]
    else if nn == 0x9E then st.keyboard == st.v[x]
    else st.keyboard != st.v[x]
  }

  /** A skip opcode adds 4 to pc when its condition holds and 2 otherwise,
      and changes nothing else. */
  lemma StepSkip(st: LState, memo: seq<Byte>, rnd: Byte)
    requires ValidState(st) && |memo| == MEMO_SIZE && st.pc + 1 < MEMO_SIZE && IsSkip(OpcodeAt(st, memo))
    ensures Step(st, memo, rnd) == Some(st.(pc := st.pc + if SkipHolds(st, OpcodeAt(st, memo)) then 4 else 2))
  {
  }

  /** `6xnn` sets `Vx` to `nn`, `7xnn` adds `nn` modulo 256, and `Cxnn`
      stores the random byte masked by `nn`, so no bit outside `nn` is set;
      no other register changes. */
  lemma StepSetsRegister(st: LState, memo: seq<Byte>, rnd: Byte)
    requires ValidState(st) && |memo| == MEMO_SIZE && st.pc + 1 < MEMO_SIZE
    requires var f := OpcodeAt(st, memo) / 0x1000; f == 0x6 || f == 0x7 || f == 0xC
    ensures Step(st, memo, rnd).Some?
    ensures var op, r := OpcodeAt(st, memo), Step(st, memo, rnd).value;
            var x, nn := Get0x00(op), op % 0x100;
            && r == st.(pc := st.pc + 2, v := r.v)
            && (forall k :: 0 <= k < 16 && k != x ==> r.v[k] == st.v[k])
            && (op / 0x1000 == 0x6 ==> r.v[x] == nn)
            && (op / 0x1000 == 0x7 ==> r.v[x] == (st.v[x] + nn) % 0x100)
            && (op / 0x1000 == 0xC ==> forall b :: 0 <= b < 8 ==> Bit(r.v[x], b) == (Bit(rnd, b) && Bit(nn, b)))
  {
  }

  /** `8xyN` applies `RegisterOp` to the registers named by the nibbles of
      `drawop`, not by those of the opcode. */
  lemma StepRegisterOp(st: LState, memo: seq<Byte>, rnd: Byte)
    requires ValidState(st) && |memo| == MEMO_SIZE && st.pc + 1 < MEMO_SIZE
    requires OpcodeAt(st, memo) / 0x1000 == 0x8
    ensures var r := RegisterOp(st.v, Get0x00(st.drawop), Get00y0(st.drawop), OpcodeAt(st, memo) % 0x10);
            Step(st, memo, rnd) == if r.None? then None else Some(st.(v := r.value, pc := st.pc + 2))
  {
    var op := OpcodeAt(st, memo);
    var r := RegisterOp(st.v, Get0x00(st.drawop), Get00y0(st.drawop), op % 0x10);
    StepData(st, memo, rnd);
    assert DataArm(st, op, rnd) == if r.None? then None else Some(st.(v := r.value));
  }

  /** `draw` leaves `drawop` at 0, so the next `8xy0` copies V0 onto itself,
      whatever `x` and `y` are: only pc moves. */
  lemma CopyAfterDraw(st: LState, memo: seq<Byte>, rnd: Byte)
    requires ValidState(st) && |memo| == MEMO_SIZE && st.pc + 1 < MEMO_SIZE && st.drawop == 0
    requires OpcodeAt(st, memo) / 0x1000 == 0x8 && OpcodeAt(st, memo) % 0x10 == 0
    ensures Step(st, memo, rnd) == Some(st.(pc := st.pc + 2))
  {
    assert st.v[0 := st.v[0]] == st.v;
  }

  /** `00E0` and `Dxyn` only record the operation in `drawop`. */
  lemma StepRecordsDraw(st: LState, memo: seq<Byte>, rnd: Byte)
    requires ValidState(st) && |memo| == MEMO_SIZE && st.pc + 1 < MEMO_SIZE
    requires OpcodeAt(st, memo) == 0x00E0 || OpcodeAt(st, memo) / 0x1000 == 0xD
    ensures Step(st, memo, rnd) ==
            Some(st.(drawop := if OpcodeAt(st, memo) == 0x00E0 then 0xE000 else OpcodeAt(st, memo), pc := st.pc + 2))
  {
  }

  /** A `00E0` step followed by the `draw` it requests leaves a blank screen
      and no pending operation. */
  lemma ClearThenDraw(st: LState, memo: seq<Byte>, rnd: Byte)
    requires ValidState(st) && |memo| == MEMO_SIZE && st.pc + 1 < MEMO_SIZE && OpcodeAt(st, memo) == 0x00E0
    ensures Step(st, memo, rnd).Some?
    ensures DrawPending(Step(st, memo, rnd).value, memo) == Some(st.(pc := st.pc + 2, display := Blank(), drawop := 0))
  {
  }

  /** `Annn` sets I; `Fx07` copies the delay timer into `Vx` and `Fx15`
      the other way; `Fx1E` adds `Vx` to I, and panics for `x = 0xF` or when
      I overflows. */
  lemma StepIndexAndTimer(st: LState, memo: seq<Byte>, rnd: Byte)
    requires ValidState(st) && |memo| == MEMO_SIZE && st.pc + 1 < MEMO_SIZE
    ensures var op := OpcodeAt(st, memo);
            var f, x, nn := op / 0x1000, Get0x00(op), op % 0x100;
            && (f == 0xA ==> Step(st, memo, rnd) == Some(st.(i := op % 0x1000, pc := st.pc + 2)))
            && (f == 0xF && nn == 0x07 ==> Step(st, memo, rnd) == Some(st.(v := st.v[x := st.delay], pc := st.pc + 2)))
            && (f == 0xF && nn == 0x15 ==> Step(st, memo, rnd) == Some(st.(delay := st.v[x], pc := st.pc + 2)))
            && (f == 0xF && nn == 0x1E ==>
                  (Step(st, memo, rnd).Some? <==> x != 0xF && st.i + st.v[x] <= 0xFFFF) &&
                  (Step(st, memo, rnd).Some? ==> Step(st, memo, rnd).value.i == st.i + st.v[x]))
  {
  }

  /** The opcodes `run_address` does not implement panic, and so does a
      return with an empty stack. */
  lemma StepPanics(st: LState, memo: seq<Byte>, rnd: Byte)
    requires ValidState(st) && |memo| == MEMO_SIZE && st.pc + 1 < MEMO_SIZE
    ensures var op := OpcodeAt(st, memo);
            var f, nn := op / 0x1000, op % 0x100;
            (|| f == 0x5 || f == 0xB
             || (f == 0x0 && op != 0x00E0 && op != 0x00EE)
             || (op == 0x00EE && st.stack == [])
             || (f == 0x8 && (op % 0x10 == 6 || op % 0x10 >= 8))
             || (f == 0xE && nn != 0x9E && nn != 0xA1)
             || (f == 0xF && nn != 0x07 && nn != 0x15 && nn != 0x1E)
             || (f == 0xF && nn == 0x1E && Get0x00(op) == 0xF))
            ==> Step(st, memo, rnd).None?
  {
  }

  // ---------------------------------------------------------------------
  // The state, updated in place

  /** `struct Chip8State` of `src/main.rs`, without its random generator. */
  class Chip8State {
    var pc: Word
    var i: Word
    const v: array<Byte>
    var stack: seq<Word>
    var delay: Byte
    var keyboard: Byte
    const display: array<bool>
    var drawop: Word

    ghost predicate Valid()
      reads this
    {
      v.Length == 16 && display.Length == PIXELS
    }

    /** The value the state holds. */
    ghost function Abs(): (st: LState)
      reads this, v, display
      requires Valid()
      ensures ValidState(st)
    {
      LState(pc, i, v[..], stack, delay, keyboard, display[..], drawop)
    }

    /** `init` */
    constructor Init()
      ensures Valid() && fresh(v) && fresh(display)
      ensures Abs() == Initial()
    {
      pc, i := 0x200, 0;
      v := new Byte[16](_ => 0);
      stack := [];
      delay, keyboard := 0, 0;
      display := new bool[PIXELS](_ => false);
      drawop := 0;
    }

    /** `get_pixel` */
    function GetPixel(x: Byte, y: Byte): (r: bool)
      reads this, display
      requires Valid()
      ensures r == PixelAt(display[..], x, y)
    {
      if y > 31 || x > 63 then false else display[y as int * 64 + x as int]
    }

    /** `set_pixel`; `ok == false` where the Rust code panics. */
    method SetPixel(x: Byte, y: Byte, tf: bool) returns (ok: bool)
      requires Valid()
      modifies display
      ensures ok <==> OnScreen(x, y)
      ensures ok ==> display[..] == PixelSet(old(display[..]), x, y, tf).value
      ensures !ok ==> display[..] == old(display[..])
    {
      if y > 31 || x > 63 {
        return false;
      }
      display[y as int * 64 + x as int] := tf;
      ok := true;
    }

    /** The inner `while q < 8` loop of `draw`. */
    method FlipRow(x0: Byte, y: Byte, bits: Byte, hit: bool) returns (ok: bool, anyFlippedOff: bool)
      requires Valid() && 7 <= x0
      modifies display
      ensures ok <==> FlipBits(old(display[..]), hit, x0, y, bits, 0).Some?
      ensures ok ==> (display[..], anyFlippedOff) == FlipBits(old(display[..]), hit, x0, y, bits, 0).value
    {
      anyFlippedOff := hit;
      var q := 0;
      while q < 8
        invariant q <= 8
        invariant FlipBits(display[..], anyFlippedOff, x0, y, bits, q) == FlipBits(old(display[..]), hit, x0, y, bits, 0)
      {
        var x: Byte := x0 - q;
        var flip := Bit(bits, q);
        var oldstate := GetPixel(x, y);
        ghost var before, hitBefore := display[..], anyFlippedOff;
        if flip {
          var written := SetPixel(x, y, !oldstate);
          if !written {
            return false, anyFlippedOff;
          }
          if oldstate {
            anyFlippedOff := true;
          }
        }
        assert FlipBits(before, hitBefore, x0, y, bits, q) == FlipBits(display[..], anyFlippedOff, x0, y, bits, q + 1);
        q := q + 1;
      }
      ok := true;
    }

    /** `draw` without the canvas calls; `ok == false` where the Rust code
        panics. */
    method Draw(memo: array<Byte>) returns (ok: bool)
      requires Valid() && memo.Length == MEMO_SIZE
      modifies this, v, display
      ensures Valid()
      ensures ok <==> DrawPending(old(Abs()), memo[..]).Some?
      ensures ok ==> Abs() == DrawPending(old(Abs()), memo[..]).value
    {
      ghost var st := Abs();
      var family := drawop / 0x1000;
      if family == 0xE {
        forall k | 0 <= k < display.Length {
          display[k] := false;
        }
      } else if family == 0xD {
        var vx := v[Get0x00(drawop)];
        if vx as int + 7 > 0xFF {
          return false;
        }
        var x0: Byte := vx + 7;
        var y0 := v[Get00y0(drawop)];
        var h := drawop % 0x10;
        var anyFlippedOff;
        ok, anyFlippedOff := DrawSprite(memo, x0, y0, h);
        if !ok {
          return false;
        }
        v[0xF] := if anyFlippedOff then 1 else 0;
      } else {
        return false;
      }
      drawop := 0;
      ok := true;
    }

    /** The row loop of `draw`: row `p` of the sprite is `memo[i + p]` and
        lands on screen row `y0 + p`. */
    method DrawSprite(memo: array<Byte>, x0: Byte, y0: Byte, h: nat) returns (ok: bool, anyFlippedOff: bool)
      requires Valid() && memo.Length == MEMO_SIZE && 7 <= x0
      modifies display
      ensures ok <==> FlipRows(old(display[..]), false, x0, y0, memo[..], i, 0, h).Some?
      ensures ok ==> FlipRows(old(display[..]), false, x0, y0, memo[..], i, 0, h).value == (display[..], anyFlippedOff)
    {
      ghost var mem := memo[..];
      ghost var whole := FlipRows(display[..], false, x0, y0, mem, i, 0, h);
      anyFlippedOff := false;
      var p := 0;
      while p < h
        invariant p <= h && memo[..] == mem
        invariant FlipRows(display[..], anyFlippedOff, x0, y0, mem, i, p, h) == whole
      {
        if i as int + p >= MEMO_SIZE {
          assert whole == None;
          return false, anyFlippedOff;
        }
        var bitti := memo[i as int + p];
        if y0 as int + p > 0xFF {
          assert whole == None;
          return false, anyFlippedOff;
        }
        var y: Byte := y0 + p;
        ghost var before, hitBefore := display[..], anyFlippedOff;
        FlipRowsStep(before, hitBefore, x0, y0, mem, i, p, h, y, bitti);
        var rowOk;
        rowOk, anyFlippedOff := FlipRow(x0, y, bitti, anyFlippedOff);
        if !rowOk {
          assert FlipBits(before, hitBefore, x0, y, bitti, 0) == None;
          return false, anyFlippedOff;
        }
        assert FlipBits(before, hitBefore, x0, y, bitti, 0) == Some((display[..], anyFlippedOff));
        p := p + 1;
      }
      ok := true;
    }

    /** A taken skip: `pc += 4` and `return`. */
    method SkipNext() returns (ok: bool)
      requires Valid()
      modifies this
      ensures Valid()
      ensures ok <==> SkipTaken(old(Abs())).Some?
      ensures ok ==> Abs() == SkipTaken(old(Abs())).value.next
    {
      if pc as int + 4 > 0xFFFF {
        return false;
      }
      pc := pc + 4;
      ok := true;
    }

    /** The arms of `8xyN` on registers `x` and `y`. */
    method RunRegisterOp(x: nat, y: nat, n: nat) returns (ok: bool)
      requires Valid() && x < 16 && y < 16
      modifies v
      ensures ok <==> RegisterOp(old(v[..]), x, y, n).Some?
      ensures ok ==> v[..] == RegisterOp(old(v[..]), x, y, n).value
    {
      if n == 0x0 {
        v[x] := v[y];
      } else if n == 0x1 {
        v[x] := Or8(v[x], v[y]);
      } else if n == 0x2 {
        v[x] := And8(v[x], v[y]);
      } else if n == 0x3 {
        v[x] := Xor8(v[x], v[y]);
      } else if n == 0x4 {
        if v[x] as int + v[y] as int > 0xFF {
          return false;
        }
        v[x] := v[x] + v[y];
      } else if n == 0x5 {
        if v[x] < v[y] {
          return false;
        }
        v[x] := v[x] - v[y];
      } else if n == 0x7 {
        if v[y] < v[x] {
          return false;
        }
        v[x] := v[y] - v[x];
      } else {
        return false;
      }
      ok := true;
    }

    /** The arms of the control families; `jumped` when the arm ends with
        `return`. */
    method RunControl(opcode: Word) returns (ok: bool, jumped: bool)
      requires Valid() && IsControl(opcode)
      modifies this
      ensures Valid()
      ensures ok <==> ControlArm(old(Abs()), opcode).Some?
      ensures ok ==> jumped == ControlArm(old(Abs()), opcode).value.Jumped?
      ensures ok ==> Abs() == ControlArm(old(Abs()), opcode).value.next
    {
      jumped := false;
      var family := opcode / 0x1000;
      if family == 0x0 {
        if opcode == 0x00E0 {
          drawop := 0xE000;
        } else if opcode == 0x00EE {
          if |stack| == 0 {
            return false, false;
          }
          pc := stack[|stack| - 1];
          stack := stack[..|stack| - 1];
        } else {
          return false, false;
        }
      } else if family == 0x1 {
        pc := opcode % 0x1000;
        return true, true;
      } else if family == 0x2 {
        stack := stack + [pc];
        pc := opcode % 0x1000;
        return true, true;
      } else if family == 0x3 {
        var varnum := Get0x00(opcode);
        var num := Get00nn(opcode);
        if v[varnum] == num {
          ok := SkipNext();
          return ok, true;
        }
      } else if family == 0x4 {
        var varnum := Get0x00(opcode);
        var num := Get00nn(opcode);
        if v[varnum] != num {
          ok := SkipNext();
          return ok, true;
        }
      } else if family == 0x9 {
        if v[Get0x00(drawop)] != v[Get00y0(drawop)] {
          ok := SkipNext();
          return ok, true;
        }
      } else {
        var varnum := Get0x00(opcode);
        var low := opcode % 0x100;
        if low == 0x9E {
          if keyboard == v[varnum] {
            ok := SkipNext();
            return ok, true;
          }
        } else if low == 0xA1 {
          if keyboard != v[varnum] {
            ok := SkipNext();
            return ok, true;
          }
        } else {
          return false, false;
        }
      }
      ok := true;
    }

    /** The arms of the other families. */
    method RunData(opcode: Word, rnd: Byte) returns (ok: bool)
      requires Valid() && !IsControl(opcode)
      modifies this, v
      ensures Valid()
      ensures ok <==> DataArm(old(Abs()), opcode, rnd).Some?
      ensures ok ==> Abs() == DataArm(old(Abs()), opcode, rnd).value
    {
      var family := opcode / 0x1000;
      if family == 0x6 {
        var varnum := Get0x00(opcode);
        v[varnum] := Get00nn(opcode);
      } else if family == 0x7 {
        var varnum := Get0x00(opcode);
        v[varnum] := WrappingAdd8(v[varnum], Get00nn(opcode));
      } else if family == 0x8 {
        ok := RunRegisterOp(Get0x00(drawop), Get00y0(drawop), opcode % 0x10);
        return;
      } else if family == 0xA {
        i := opcode % 0x1000;
      } else if family == 0xC {
        var varnum := Get0x00(opcode);
        v[varnum] := And8(rnd, Get00nn(opcode));
      } else if family == 0xD {
        drawop := opcode;
      } else if family == 0xF {
        var varnum := Get0x00(opcode);
        var low := opcode % 0x100;
        if low == 0x07 {
          v[varnum] := delay;
        } else if low == 0x15 {
          delay := v[varnum];
        } else if low == 0x1E {
          if varnum == 0xF {
            return false;
          }
          if i as int + v[varnum] as int > 0xFFFF {
            return false;
          }
          i := i + v[varnum];
        } else {
          return false;
        }
      } else {
        return false;
      }
      ok := true;
    }

    /** `run_address` without the tracing; `ok == false` where the Rust code
        panics. `rnd` is the byte the random generator yields. */
    method RunAddress(memo: array<Byte>, rnd: Byte) returns (ok: bool)
      requires Valid() && memo.Length == MEMO_SIZE
      modifies this, v
      ensures Valid()
      ensures ok <==> Step(old(Abs()), memo[..], rnd).Some?
      ensures ok ==> Abs() == Step(old(Abs()), memo[..], rnd).value
    {
      if pc as int + 1 >= MEMO_SIZE {
        return false;
      }
      var opcode := GetOpcode(memo[pc], memo[pc + 1]);
      assert opcode == OpcodeAt(Abs(), memo[..]);
      if IsControl(opcode) {
        var jumped;
        ok, jumped := RunControl(opcode);
        if !ok || jumped {
          return;
        }
      } else {
        ok := RunData(opcode, rnd);
        if !ok {
          return;
        }
      }
      if pc as int + 2 > 0xFFFF {
        return false;
      }
      pc := pc + 2;
      ok := true;
    }
  }
}
