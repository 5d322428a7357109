/** Machine words of the CHIP-8 engine: unsigned 8- and 16-bit integers and
    the bit operations the engine applies to them.

    Integers are unbounded in Dafny, so `Byte` and `Word` are subset types of
    `int` and every place where the Rust code could overflow is written out by
    the caller. A mask by a contiguous run of low bits followed by a shift is
    division and remainder by powers of two; the general AND, OR and XOR of two
    bytes are defined bit by bit. */
module Words {

  /** `u8` */
  type Byte = x: int | 0 <= x < 0x100

  /** `u16` */
  type Word = x: int | 0 <= x < 0x1_0000

  datatype Option<T> = None | Some(value: T)

  /** Two to the power `n`. */
  function Pow2(n: nat): (r: nat)
    ensures r >= 1
  {
    if n == 0 then 1 else 2 * Pow2(n - 1)
  }

  /** Bit `k` of `b`, that is `(b >> k) & 1 == 1`. */
  function Bit(b: nat, k: nat): bool
    decreases k
  {
    if k == 0 then b % 2 == 1 else Bit(b / 2, k - 1)
  }

  datatype BitOp = AndOp | OrOp | XorOp

  function ApplyBit(op: BitOp, a: bool, b: bool): bool
  {
    match op
    case AndOp => a && b
    case OrOp => a || b
    case XorOp => a != b
  }

  /** The bitwise combination of the low `width` bits of `a` and `b`. */
  function Bitwise(op: BitOp, a: nat, b: nat, width: nat): (r: nat)
    ensures r < Pow2(width)
    decreases width
  {
    if width == 0 then 0
    else
      (if ApplyBit(op, a % 2 == 1, b % 2 == 1) then 1 else 0)
      + 2 * Bitwise(op, a / 2, b / 2, width - 1)
  }

  /** Every bit of a bitwise combination is the combination of the two bits. */
  lemma {:induction false} BitwiseBit(op: BitOp, a: nat, b: nat, width: nat, k: nat)
    requires k < width
    ensures Bit(Bitwise(op, a, b, width), k) == ApplyBit(op, Bit(a, k), Bit(b, k))
    decreases k
  {
    var rest := Bitwise(op, a / 2, b / 2, width - 1);
    var low := if ApplyBit(op, a % 2 == 1, b % 2 == 1) then 1 else 0;
    assert Bitwise(op, a, b, width) == low + 2 * rest;
    if k > 0 {
      assert (low + 2 * rest) / 2 == rest;
      BitwiseBit(op, a / 2, b / 2, width - 1, k - 1);
    }
  }

  lemma BitwiseBits8(op: BitOp, a: nat, b: nat)
    ensures Bitwise(op, a, b, 8) < 0x100
    ensures forall k :: 0 <= k < 8 ==> Bit(Bitwise(op, a, b, 8), k) == ApplyBit(op, Bit(a, k), Bit(b, k))
  {
    assert Pow2(8) == 0x100;
    forall k | 0 <= k < 8 ensures Bit(Bitwise(op, a, b, 8), k) == ApplyBit(op, Bit(a, k), Bit(b, k)) {
      BitwiseBit(op, a, b, 8, k);
    }
  }

  /** `a & b` on `u8` */
  function And8(a: Byte, b: Byte): (r: Byte)
    ensures forall k :: 0 <= k < 8 ==> Bit(r, k) == (Bit(a, k) && Bit(b, k))
  {
    BitwiseBits8(AndOp, a, b);
    Bitwise(AndOp, a, b, 8)
  }

  /** `a | b` on `u8` */
  function Or8(a: Byte, b: Byte): (r: Byte)
    ensures forall k :: 0 <= k < 8 ==> Bit(r, k) == (Bit(a, k) || Bit(b, k))
  {
    BitwiseBits8(OrOp, a, b);
    Bitwise(OrOp, a, b, 8)
  }

  /** `a ^ b` on `u8` */
  function Xor8(a: Byte, b: Byte): (r: Byte)
    ensures forall k :: 0 <= k < 8 ==> Bit(r, k) == (Bit(a, k) != Bit(b, k))
  {
    BitwiseBits8(XorOp, a, b);
    Bitwise(XorOp, a, b, 8)
  }

  /** `a.wrapping_add(b)` on `u8` */
  function WrappingAdd8(a: Byte, b: Byte): (r: Byte)
    ensures a + b < 0x100 ==> r == a + b
    ensures a + b >= 0x100 ==> r == a + b - 0x100
  {
    (a + b) % 0x100
  }

  /** `u16::from_be_bytes([high, low])` */
  function FromBeBytes(high: Byte, low: Byte): (r: Word)
    ensures r / 0x100 == high && r % 0x100 == low
  {
    high * 0x100 + low
  }
}
