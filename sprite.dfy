/** Sprite drawing of `run_instruction` (`DrawSpriteXYH`, `src/state.rs`) on
    screen values: row `p` of the sprite is the memory byte at `i + p`, bit
    `q` of that byte toggles the pixel at `(x0 - q, y0 + p)` where
    `x0 = vx + 7`, so bit 7 lands at `vx` and bit 0 at `vx + 7`. The flag
    records whether some toggle turned a lit pixel off.

    `DrawBits` and `DrawRows` follow the two nested loops step by step,
    including the points where the Rust code panics; `DrawSpriteXor` says what
    the result is, cell by cell. */
module Sprites {
  import opened Words
  import opened Display

  /** Bits `q..7` of one sprite row, drawn on row `y`. */
  function DrawBits(s: seq<bool>, hit: bool, x0: Byte, y: Byte, bits: Byte, q: nat): (r: (seq<bool>, bool))
    requires |s| == PIXELS && 7 <= x0 && q <= 8
    ensures |r.0| == PIXELS
    decreases 8 - q
  {
    if q == 8 then (s, hit)
    else if Bit(bits, q) then
      var idx := GetIdx(x0 - q, y);
      var was := s[idx];
      DrawBits(s[idx := !was], hit || was, x0, y, bits, q + 1)
    else
      DrawBits(s, hit, x0, y, bits, q + 1)
  }

  /** Rows `p..h-1` of a sprite read from `mem` at `i`; `None` where the Rust
      code panics: `get_memory(i + p)` past the array (which also covers the
      `u16` overflow of `i + p`) or the `u8` overflow of `y0 + p`. */
  function DrawRows(s: seq<bool>, hit: bool, x0: Byte, y0: Byte, mem: seq<Byte>, i: Word, p: nat, h: nat)
    : (r: Option<(seq<bool>, bool)>)
    requires |s| == PIXELS && 7 <= x0 && p <= h
    ensures r.Some? ==> |r.value.0| == PIXELS
    decreases h - p
  {
    if p == h then Some((s, hit))
    else if i + p >= |mem| then None
    else if y0 + p > 0xFF then None
    else
      var row := DrawBits(s, hit, x0, y0 + p, mem[i + p], 0);
      DrawRows(row.0, row.1, x0, y0, mem, i, p + 1, h)
  }

  /** The whole draw: `x0 = vx + 7` first (a `u8` overflow panics), then
      every row, starting with no collision. */
  function DrawSprite(s: seq<bool>, vx: Byte, vy: Byte, mem: seq<Byte>, i: Word, h: nat)
    : (r: Option<(seq<bool>, bool)>)
    requires |s| == PIXELS
    ensures r.Some? ==> |r.value.0| == PIXELS
  {
    if vx + 7 > 0xFF then None
    else DrawRows(s, false, vx + 7, vy, mem, i, 0, h)
  }

  /** The draw does not panic when the sprite's columns, rows and memory bytes
      all stay within a byte and the memory array. */
  predicate InRange(vx: Byte, vy: Byte, memSize: nat, i: Word, h: nat)
  {
    vx + 7 <= 0xFF && (h == 0 || (vy + h - 1 <= 0xFF && i + h - 1 < memSize))
  }

  /** The cell that bit `q` of sprite row `p` lands on. */
  function Cell(x0: Byte, y0: Byte, p: nat, q: nat): (k: nat)
    requires q <= x0 && y0 + p <= 0xFF
    ensures k < PIXELS
  {
    GetIdx(x0 - q, y0 + p)
  }

  /** The cell that bit `q` of row `p` of a sprite drawn at `(vx, vy)` lands
      on: column `vx + 7 - q`, row `vy + p`, both wrapped. */
  function SpriteCell(vx: Byte, vy: Byte, p: nat, q: nat): (k: nat)
    requires vx + 7 <= 0xFF && q < 8 && vy + p <= 0xFF
    ensures k < PIXELS
  {
    Cell(vx + 7, vy, p, q)
  }

  /** Some cell of `c` is lit in `s`. */
  predicate AnyLit(s: seq<bool>, c: set<nat>)
  {
    exists k :: k in c && k < |s| && s[k]
  }

  /** `t` is `s` with exactly the cells of `c` flipped. */
  predicate Toggled(s: seq<bool>, t: seq<bool>, c: set<nat>)
    requires |s| == PIXELS && |t| == PIXELS
  {
    forall k :: 0 <= k < PIXELS ==> t[k] == (s[k] != (k in c))
  }

  /** The cells of bits `q..7` of one row. */
  function BitCells(x0: Byte, y: Byte, bits: Byte, q: nat): set<nat>
    requires 7 <= x0 && q <= 8
  {
    set q': nat | q <= q' < 8 && Bit(bits, q') :: Cell(x0, y, 0, q')
  }

  lemma BitCellsStep(x0: Byte, y: Byte, bits: Byte, q: nat)
    requires 7 <= x0 && q < 8
    ensures forall k :: k in BitCells(x0, y, bits, q) <==>
              (Bit(bits, q) && k == Cell(x0, y, 0, q)) || k in BitCells(x0, y, bits, q + 1)
  {
    forall k
      ensures k in BitCells(x0, y, bits, q) <==>
                (Bit(bits, q) && k == Cell(x0, y, 0, q)) || k in BitCells(x0, y, bits, q + 1)
    {
      if k in BitCells(x0, y, bits, q) {
        var q': nat :| q <= q' < 8 && Bit(bits, q') && Cell(x0, y, 0, q') == k;
        if q' > q {
          assert k in BitCells(x0, y, bits, q + 1);
        }
      }
      if k in BitCells(x0, y, bits, q + 1) {
        var q': nat :| q + 1 <= q' < 8 && Bit(bits, q') && Cell(x0, y, 0, q') == k;
        assert k in BitCells(x0, y, bits, q);
      }
      if Bit(bits, q) && k == Cell(x0, y, 0, q) {
        assert k in BitCells(x0, y, bits, q);
      }
    }
  }

  /** Flipping one cell first and then the cells of `c`, which does not
      hold it, toggles `c` and that cell; a cell of them was lit when that
      cell was or a cell of `c` was lit after the first flip. */
  lemma ToggleOne(s: seq<bool>, t: seq<bool>, c: set<nat>, idx: nat)
    requires |s| == PIXELS && |t| == PIXELS && idx < PIXELS && idx !in c
    requires Toggled(s[idx := !s[idx]], t, c)
    ensures Toggled(s, t, c + {idx})
    ensures AnyLit(s, c + {idx}) <==> s[idx] || AnyLit(s[idx := !s[idx]], c)
  {
    var s' := s[idx := !s[idx]];
    if AnyLit(s', c) {
      var k :| k in c && k < |s'| && s'[k];
      assert k in c + {idx} && s[k];
    }
    if AnyLit(s, c + {idx}) && !s[idx] {
      var k :| k in c + {idx} && k < |s| && s[k];
      assert k in c && s'[k];
    }
  }

  /** The cells of one row are distinct columns: a later bit never lands on
      the cell of an earlier one. */
  lemma BitCellsAfter(x0: Byte, y: Byte, bits: Byte, q: nat)
    requires 7 <= x0 && q < 8
    ensures Cell(x0, y, 0, q) !in BitCells(x0, y, bits, q + 1)
  {
    if Cell(x0, y, 0, q) in BitCells(x0, y, bits, q + 1) {
      var q': nat :| q + 1 <= q' < 8 && Bit(bits, q') && Cell(x0, y, 0, q') == Cell(x0, y, 0, q);
      SameCell(x0 - q', y, x0 - q, y);
    }
  }

  lemma {:induction false} DrawBitsXor(s: seq<bool>, hit: bool, x0: Byte, y: Byte, bits: Byte, q: nat)
    requires |s| == PIXELS && 7 <= x0 && q <= 8
    ensures var r := DrawBits(s, hit, x0, y, bits, q);
            Toggled(s, r.0, BitCells(x0, y, bits, q)) && (r.1 <==> hit || AnyLit(s, BitCells(x0, y, bits, q)))
    decreases 8 - q
  {
    var c := BitCells(x0, y, bits, q);
    if q == 8 {
      assert c == {};
    } else {
      var c' := BitCells(x0, y, bits, q + 1);
      var idx := Cell(x0, y, 0, q);
      BitCellsStep(x0, y, bits, q);
      BitCellsAfter(x0, y, bits, q);
      if Bit(bits, q) {
        var s' := s[idx := !s[idx]];
        DrawBitsXor(s', hit || s[idx], x0, y, bits, q + 1);
        assert c == c' + {idx};
        ToggleOne(s, DrawBits(s', hit || s[idx], x0, y, bits, q + 1).0, c', idx);
      } else {
        DrawBitsXor(s, hit, x0, y, bits, q + 1);
        assert AnyLit(s, c) == AnyLit(s, c');
      }
    }
  }

  /** The cells of the set bits of rows `p..h-1`. */
  function RowCells(x0: Byte, y0: Byte, mem: seq<Byte>, i: Word, p: nat, h: nat): (c: set<nat>)
    requires 7 <= x0 && (p >= h || (y0 + h - 1 <= 0xFF && i + h - 1 < |mem|))
    ensures forall k :: k in c ==> k < PIXELS
  {
    set p': nat, q: nat | p <= p' < h && q < 8 && Bit(mem[i + p'], q) :: Cell(x0, y0, p', q)
  }

  lemma RowCellsStep(x0: Byte, y0: Byte, mem: seq<Byte>, i: Word, p: nat, h: nat)
    requires 7 <= x0 && p < h && y0 + h - 1 <= 0xFF && i + h - 1 < |mem|
    ensures RowCells(x0, y0, mem, i, p, h) ==
            BitCells(x0, y0 + p, mem[i + p], 0) + RowCells(x0, y0, mem, i, p + 1, h)
  {
    var c := RowCells(x0, y0, mem, i, p, h);
    var b := BitCells(x0, y0 + p, mem[i + p], 0);
    var c' := RowCells(x0, y0, mem, i, p + 1, h);
    forall k | k in c
      ensures k in b + c'
    {
      var p': nat, q: nat :| p <= p' < h && q < 8 && Bit(mem[i + p'], q) && Cell(x0, y0, p', q) == k;
      if p' == p {
        assert Cell(x0, y0 + p, 0, q) == k;
      }
    }
    forall k | k in b
      ensures k in c
    {
      var q: nat :| 0 <= q < 8 && Bit(mem[i + p], q) && Cell(x0, y0 + p, 0, q) == k;
      assert Cell(x0, y0, p, q) == k;
    }
  }

  /** Distinct numbers less than `m` apart leave distinct remainders. */
  lemma ModDistinct(a: nat, b: nat, m: nat)
    requires (m == HEIGHT_PX || m == WIDTH_PX) && a < b < a + m
    ensures a % m != b % m
  {
  }

  /** Bit `q` of row `p` and bit `q'` of row `p'` land on the same cell only
      when they are the same bit of the same row, as long as the rows are
      fewer than 32 apart. */
  lemma CellInjective(x0: Byte, y0: Byte, p: nat, q: nat, p': nat, q': nat)
    requires 7 <= x0 && q < 8 && q' < 8 && y0 + p <= 0xFF && y0 + p' <= 0xFF
    requires p < p' + HEIGHT_PX && p' < p + HEIGHT_PX
    ensures Cell(x0, y0, p, q) == Cell(x0, y0, p', q') <==> p == p' && q == q'
  {
    if Cell(x0, y0, p, q) == Cell(x0, y0, p', q') {
      SameCell(x0 - q, y0 + p, x0 - q', y0 + p');
      if p < p' {
        ModDistinct(y0 + p, y0 + p', HEIGHT_PX);
      } else if p' < p {
        ModDistinct(y0 + p', y0 + p, HEIGHT_PX);
      }
      if q < q' {
        ModDistinct(x0 - q', x0 - q, WIDTH_PX);
      } else if q' < q {
        ModDistinct(x0 - q, x0 - q', WIDTH_PX);
      }
    }
  }

  /** Rows fewer than 32 apart are different rows of the screen, so no cell of
      row `p` is a cell of a later row. */
  lemma RowCellsDisjoint(x0: Byte, y0: Byte, mem: seq<Byte>, i: Word, p: nat, h: nat)
    requires 7 <= x0 && p < h <= p + HEIGHT_PX && y0 + h - 1 <= 0xFF && i + h - 1 < |mem|
    ensures BitCells(x0, y0 + p, mem[i + p], 0) !! RowCells(x0, y0, mem, i, p + 1, h)
  {
    var b := BitCells(x0, y0 + p, mem[i + p], 0);
    var c' := RowCells(x0, y0, mem, i, p + 1, h);
    forall k | k in b && k in c'
      ensures false
    {
      var q: nat :| 0 <= q < 8 && Bit(mem[i + p], q) && Cell(x0, y0 + p, 0, q) == k;
      var p': nat, q': nat :| p + 1 <= p' < h && q' < 8 && Bit(mem[i + p'], q') && Cell(x0, y0, p', q') == k;
      assert Cell(x0, y0, p, q) == k;
      CellInjective(x0, y0, p, q, p', q');
    }
  }

  /** `DrawRows` panics exactly when a row's memory byte lies past the array
      or a row coordinate leaves the byte range. */
  lemma {:induction false} DrawRowsSome(s: seq<bool>, hit: bool, x0: Byte, y0: Byte, mem: seq<Byte>, i: Word, p: nat, h: nat)
    requires |s| == PIXELS && 7 <= x0 && p <= h
    ensures DrawRows(s, hit, x0, y0, mem, i, p, h).Some? <==>
              (p == h || (y0 + h - 1 <= 0xFF && i + h - 1 < |mem|))
    decreases h - p
  {
    if p < h && i + p < |mem| && y0 + p <= 0xFF {
      var row := DrawBits(s, hit, x0, y0 + p, mem[i + p], 0);
      DrawRowsSome(row.0, row.1, x0, y0, mem, i, p + 1, h);
    }
  }

  /** One step of `DrawRows`: row `p` is drawn, then the rest. */
  lemma DrawRowsStep(s: seq<bool>, hit: bool, x0: Byte, y0: Byte, mem: seq<Byte>, i: Word, p: nat, h: nat, y: Byte, bits: Byte)
    requires |s| == PIXELS && 7 <= x0 && p < h && i + p < |mem| && y == y0 + p && bits == mem[i + p]
    ensures var row := DrawBits(s, hit, x0, y, bits, 0);
            DrawRows(s, hit, x0, y0, mem, i, p, h) == DrawRows(row.0, row.1, x0, y0, mem, i, p + 1, h)
  {
  }

  /** A lit cell in a union is a lit cell in one of its parts. */
  lemma AnyLitUnion(s: seq<bool>, b: set<nat>, c: set<nat>)
    ensures AnyLit(s, b + c) <==> AnyLit(s, b) || AnyLit(s, c)
  {
    if AnyLit(s, b + c) {
      var k :| k in b + c && k < |s| && s[k];
      assert k in b ==> AnyLit(s, b);
      assert k in c ==> AnyLit(s, c);
    }
    if AnyLit(s, b) {
      var k :| k in b && k < |s| && s[k];
      assert k in b + c;
    }
    if AnyLit(s, c) {
      var k :| k in c && k < |s| && s[k];
      assert k in b + c;
    }
  }

  /** Two screens that agree on the cells of `c` have the same lit cells
      there. */
  lemma AnyLitAgree(s: seq<bool>, t: seq<bool>, c: set<nat>)
    requires |s| == |t| && forall k :: k in c && k < |s| ==> s[k] == t[k]
    ensures AnyLit(s, c) <==> AnyLit(t, c)
  {
    if AnyLit(s, c) {
      var k :| k in c && k < |s| && s[k];
      assert t[k];
    }
    if AnyLit(t, c) {
      var k :| k in c && k < |t| && t[k];
      assert s[k];
    }
  }

  /** Toggling the cells of `b` and then those of a disjoint `c` toggles the
      cells of `b + c`, and leaves the lit cells of `c` as they were after
      the first step. */
  lemma ToggleTwice(s: seq<bool>, t: seq<bool>, u: seq<bool>, b: set<nat>, c: set<nat>)
    requires |s| == PIXELS && |t| == PIXELS && |u| == PIXELS && b !! c
    requires Toggled(s, t, b) && Toggled(t, u, c)
    ensures Toggled(s, u, b + c)
    ensures AnyLit(t, c) <==> AnyLit(s, c)
  {
    AnyLitAgree(s, t, c);
  }

  /** How drawing row `p` and then rows `p+1..h-1` adds up to drawing rows
      `p..h-1`. */
  lemma DrawRowsXorStep(s: seq<bool>, hit: bool, x0: Byte, y0: Byte, mem: seq<Byte>, i: Word, p: nat, h: nat,
                        y: Byte, bits: Byte, row: (seq<bool>, bool), r: (seq<bool>, bool))
    requires |s| == PIXELS && 7 <= x0 && p < h <= p + HEIGHT_PX && y0 + h - 1 <= 0xFF && i + h - 1 < |mem|
    requires y == y0 + p && bits == mem[i + p] && row == DrawBits(s, hit, x0, y, bits, 0)
    requires Toggled(s, row.0, BitCells(x0, y, bits, 0)) && (row.1 <==> hit || AnyLit(s, BitCells(x0, y, bits, 0)))
    requires DrawRows(row.0, row.1, x0, y0, mem, i, p + 1, h) == Some(r) && |r.0| == PIXELS
    requires Toggled(row.0, r.0, RowCells(x0, y0, mem, i, p + 1, h))
    requires r.1 <==> row.1 || AnyLit(row.0, RowCells(x0, y0, mem, i, p + 1, h))
    ensures DrawRows(s, hit, x0, y0, mem, i, p, h) == Some(r)
    ensures Toggled(s, r.0, RowCells(x0, y0, mem, i, p, h))
    ensures r.1 <==> hit || AnyLit(s, RowCells(x0, y0, mem, i, p, h))
  {
    var b := BitCells(x0, y, bits, 0);
    var c' := RowCells(x0, y0, mem, i, p + 1, h);
    DrawRowsStep(s, hit, x0, y0, mem, i, p, h, y, bits);
    RowCellsStep(x0, y0, mem, i, p, h);
    RowCellsDisjoint(x0, y0, mem, i, p, h);
    ToggleTwice(s, row.0, r.0, b, c');
    AnyLitUnion(s, b, c');
  }

  lemma {:induction false} DrawRowsXor(s: seq<bool>, hit: bool, x0: Byte, y0: Byte, mem: seq<Byte>, i: Word, p: nat, h: nat)
    requires |s| == PIXELS && 7 <= x0 && p <= h <= p + HEIGHT_PX
    requires p == h || (y0 + h - 1 <= 0xFF && i + h - 1 < |mem|)
    ensures DrawRows(s, hit, x0, y0, mem, i, p, h).Some?
    ensures var r := DrawRows(s, hit, x0, y0, mem, i, p, h).value;
            Toggled(s, r.0, RowCells(x0, y0, mem, i, p, h)) && (r.1 <==> hit || AnyLit(s, RowCells(x0, y0, mem, i, p, h)))
    decreases h - p
  {
    if p == h {
      assert RowCells(x0, y0, mem, i, p, h) == {};
    } else {
      var y: Byte := y0 + p;
      var bits := mem[i + p];
      var row := DrawBits(s, hit, x0, y, bits, 0);
      DrawBitsXor(s, hit, x0, y, bits, 0);
      DrawRowsXor(row.0, row.1, x0, y0, mem, i, p + 1, h);
      var r := DrawRows(row.0, row.1, x0, y0, mem, i, p + 1, h).value;
      DrawRowsXorStep(s, hit, x0, y0, mem, i, p, h, y, bits, row, r);
    }
  }

  /** The cells that the set bits of a sprite's rows land on. */
  function SpriteCells(vx: Byte, vy: Byte, mem: seq<Byte>, i: Word, h: nat): (c: set<nat>)
    requires InRange(vx, vy, |mem|, i, h)
    ensures forall k :: k in c ==> k < PIXELS
  {
    RowCells(vx + 7, vy, mem, i, 0, h)
  }

  /** Drawing panics exactly outside `InRange`. */
  lemma DrawSpriteSome(s: seq<bool>, vx: Byte, vy: Byte, mem: seq<Byte>, i: Word, h: nat)
    requires |s| == PIXELS
    ensures DrawSprite(s, vx, vy, mem, i, h).Some? <==> InRange(vx, vy, |mem|, i, h)
  {
    if vx + 7 <= 0xFF {
      DrawRowsSome(s, false, vx + 7, vy, mem, i, 0, h);
    }
  }

  /** A sprite of at most 32 rows lands each set bit on its own cell: the cell
      of bit `q` of row `p` belongs to the sprite exactly when that bit is set. */
  lemma SpriteCellsAt(vx: Byte, vy: Byte, mem: seq<Byte>, i: Word, h: nat, p: nat, q: nat)
    requires InRange(vx, vy, |mem|, i, h) && h <= HEIGHT_PX && p < h && q < 8
    ensures SpriteCell(vx, vy, p, q) in SpriteCells(vx, vy, mem, i, h) <==> Bit(mem[i + p], q)
  {
    var k := SpriteCell(vx, vy, p, q);
    if k in SpriteCells(vx, vy, mem, i, h) {
      var p': nat, q': nat :| p' < h && q' < 8 && Bit(mem[i + p'], q') && Cell(vx + 7, vy, p', q') == k;
      CellInjective(vx + 7, vy, p, q, p', q');
    }
  }

  /** What a draw of at most 32 rows does, cell by cell: the cell of every
      set bit is toggled, every other cell keeps its value, and the collision
      flag is set exactly when one of the toggled cells was lit before. */
  lemma DrawSpriteXor(s: seq<bool>, vx: Byte, vy: Byte, mem: seq<Byte>, i: Word, h: nat)
    requires |s| == PIXELS && InRange(vx, vy, |mem|, i, h) && h <= HEIGHT_PX
    ensures DrawSprite(s, vx, vy, mem, i, h).Some?
    ensures var r := DrawSprite(s, vx, vy, mem, i, h).value;
            && (forall p, q :: 0 <= p < h && 0 <= q < 8 ==>
                  r.0[SpriteCell(vx, vy, p, q)] == (s[SpriteCell(vx, vy, p, q)] != Bit(mem[i + p], q)))
            && (forall k :: 0 <= k < PIXELS && k !in SpriteCells(vx, vy, mem, i, h) ==> r.0[k] == s[k])
            && (r.1 <==> exists p, q :: 0 <= p < h && 0 <= q < 8 && Bit(mem[i + p], q) && s[SpriteCell(vx, vy, p, q)])
  {
    var c := SpriteCells(vx, vy, mem, i, h);
    DrawRowsXor(s, false, vx + 7, vy, mem, i, 0, h);
    var r := DrawSprite(s, vx, vy, mem, i, h).value;
    forall p, q | 0 <= p < h && 0 <= q < 8
      ensures r.0[SpriteCell(vx, vy, p, q)] == (s[SpriteCell(vx, vy, p, q)] != Bit(mem[i + p], q))
    {
      SpriteCellsAt(vx, vy, mem, i, h, p, q);
    }
    if r.1 {
      var k :| k in c && k < |s| && s[k];
      var p: nat, q: nat :| p < h && q < 8 && Bit(mem[i + p], q) && Cell(vx + 7, vy, p, q) == k;
      assert SpriteCell(vx, vy, p, q) == k;
    }
    if exists p, q :: 0 <= p < h && 0 <= q < 8 && Bit(mem[i + p], q) && s[SpriteCell(vx, vy, p, q)] {
      var p, q :| 0 <= p < h && 0 <= q < 8 && Bit(mem[i + p], q) && s[SpriteCell(vx, vy, p, q)];
      SpriteCellsAt(vx, vy, mem, i, h, p, q);
      assert AnyLit(s, c);
    }
  }
}
