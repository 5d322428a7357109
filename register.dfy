/** The register bank of `src/state.rs` (`struct Register`): sixteen 8-bit
    registers V0..VF, the delay and sound timers and the keyboard byte, all
    addressed through `Varset` handles.

    `Bank` is the value the bank holds; the functions over `Bank` say what each
    primitive computes, and the class `Register` updates its fields in place
    and is proved to produce exactly those values. Where the Rust arithmetic
    overflows (a debug build panics) the specification returns `None`. */
module Registers {
  import opened Words
  import opened Instructions

  /** The flag register. */
  const VF: Varset := V(0xF)

  datatype Bank = Bank(v: seq<Byte>, delay: Byte, sound: Byte, keyboard: Byte)

  predicate ValidBank(b: Bank)
  {
    |b.v| == 16
  }

  /** `Register::get` on the value of the bank. */
  function Read(b: Bank, vs: Varset): Byte
    requires ValidBank(b) && Resolvable(vs)
  {
    match vs
    case V(k) => b.v[k]
    case Keyboard => b.keyboard
    case DelayTimer => b.delay
    case SoundTimer => b.sound
  }

  /** `Register::set` on the value of the bank: the handle written reads back
      the new value and every other handle reads as before. */
  function Write(b: Bank, vs: Varset, val: Byte): (r: Bank)
    requires ValidBank(b) && Resolvable(vs)
    ensures ValidBank(r)
    ensures forall ws :: Resolvable(ws) ==> Read(r, ws) == if ws == vs then val else Read(b, ws)
  {
    match vs
    case V(k) => b.(v := b.v[k := val])
    case Keyboard => b.(keyboard := val)
    case DelayTimer => b.(delay := val)
    case SoundTimer => b.(sound := val)
  }

  /** The power-on bank: everything zero. */
  function ZeroBank(): (b: Bank)
    ensures ValidBank(b)
    ensures forall ws :: Resolvable(ws) ==> Read(b, ws) == 0
  {
    Bank(seq(16, _ => 0), 0, 0, 0)
  }

  /** `tick`: the delay timer counts down to zero and stays there; nothing
      else, the sound timer included, changes. */
  function Ticked(b: Bank): (r: Bank)
    requires ValidBank(b)
    ensures ValidBank(r)
    ensures b.delay > 0 ==> Read(r, DelayTimer) + 1 == Read(b, DelayTimer)
    ensures b.delay == 0 ==> Read(r, DelayTimer) == 0
    ensures forall ws :: Resolvable(ws) && ws != DelayTimer ==> Read(r, ws) == Read(b, ws)
  {
    if b.delay > 0 then b.(delay := b.delay - 1) else b
  }

  /** `inc_nocarry`: the destination becomes `(old + val) mod 256`; no flag and
      no other handle changes. */
  function AddedNoCarry(b: Bank, vs: Varset, val: Byte): (r: Bank)
    requires ValidBank(b) && Resolvable(vs)
    ensures ValidBank(r)
    ensures Read(r, vs) == (Read(b, vs) + val) % 0x100
    ensures forall ws :: Resolvable(ws) && ws != vs ==> Read(r, ws) == Read(b, ws)
  {
    Write(b, vs, WrappingAdd8(Read(b, vs), val))
  }

  /** `set_to_var`: the destination takes the source's value. */
  function CopiedVar(b: Bank, vs: Varset, vi: Varset): (r: Bank)
    requires ValidBank(b) && Resolvable(vs) && Resolvable(vi)
    ensures ValidBank(r)
    ensures Read(r, vs) == Read(b, vi)
    ensures forall ws :: Resolvable(ws) && ws != vs ==> Read(r, ws) == Read(b, ws)
  {
    Write(b, vs, Read(b, vi))
  }

  /** `decrement_and_flip`: the destination becomes `source - destination`
      with no flag; the `u8` subtraction panics when the destination is the
      larger. */
  function FlipDecremented(b: Bank, vs: Varset, vi: Varset): (r: Option<Bank>)
    requires ValidBank(b) && Resolvable(vs) && Resolvable(vi)
    ensures r.Some? <==> Read(b, vs) <= Read(b, vi)
    ensures r.Some? ==> ValidBank(r.value) && Read(r.value, vs) == Read(b, vi) - Read(b, vs)
    ensures r.Some? ==> forall ws :: Resolvable(ws) && ws != vs ==> Read(r.value, ws) == Read(b, ws)
  {
    var x := Read(b, vs);
    var y := Read(b, vi);
    if y < x then None else Some(Write(b, vs, y - x))
  }

  /** `decrement_with_borrow`: the `u16` difference `dest - source` is taken
      first, so a borrow panics; otherwise VF is cleared and then the
      destination takes the difference (when the destination is VF itself,
      the difference wins). */
  function BorrowDecremented(b: Bank, vs: Varset, vi: Varset): (r: Option<Bank>)
    requires ValidBank(b) && Resolvable(vs) && Resolvable(vi)
    ensures r.Some? <==> Read(b, vs) >= Read(b, vi)
    ensures r.Some? ==> ValidBank(r.value) && Read(r.value, vs) == Read(b, vs) - Read(b, vi)
    ensures r.Some? && vs != VF ==> Read(r.value, VF) == 0
    ensures r.Some? ==> forall ws :: Resolvable(ws) && ws != vs && ws != VF ==> Read(r.value, ws) == Read(b, ws)
  {
    var x := Read(b, vs);
    var y := Read(b, vi);
    if x < y then None
    else
      // The difference fits in a byte, so the borrow test `val & 0xff00 > 0`
      // is false and VF is cleared.
      var val := x - y;
      Some(Write(Write(b, VF, 0), vs, val))
  }

  /** `bitshift_and_store`: VF takes bit 0 of the old value, then the
      destination takes the old value shifted right by one. */
  function ShiftedRight(b: Bank, vs: Varset): (r: Bank)
    requires ValidBank(b) && Resolvable(vs)
    ensures ValidBank(r)
    ensures Read(r, vs) == Read(b, vs) / 2
    ensures vs != VF ==> (Read(r, VF) == 1 <==> Bit(Read(b, vs), 0)) && Read(r, VF) <= 1
    ensures forall ws :: Resolvable(ws) && ws != vs && ws != VF ==> Read(r, ws) == Read(b, ws)
  {
    var val := Read(b, vs);
    Write(Write(b, VF, val % 2), vs, val / 2)
  }

  /** The bitwise instructions of `run_instruction`: the destination becomes
      the bitwise combination of itself and the source, and VF is left alone
      (unless it is the destination). */
  function Combined(b: Bank, vs: Varset, vi: Varset, op: BitOp): (r: Bank)
    requires ValidBank(b) && Resolvable(vs) && Resolvable(vi)
    ensures ValidBank(r)
    ensures forall k :: 0 <= k < 8 ==> Bit(Read(r, vs), k) == ApplyBit(op, Bit(Read(b, vs), k), Bit(Read(b, vi), k))
    ensures forall ws :: Resolvable(ws) && ws != vs ==> Read(r, ws) == Read(b, ws)
  {
    var x := Read(b, vs);
    var y := Read(b, vi);
    var val := match op
      case AndOp => And8(x, y)
      case OrOp => Or8(x, y)
      case XorOp => Xor8(x, y);
    Write(b, vs, val)
  }

  class Register {
    var v: array<Byte>
    var delay: Byte
    var sound: Byte
    var keyboard: Byte

    ghost predicate Valid()
      reads this
    {
      v.Length == 16
    }

    /** The value the bank holds. */
    ghost function Model(): (b: Bank)
      reads this, v
      requires Valid()
      ensures ValidBank(b)
    {
      Bank(v[..], delay, sound, keyboard)
    }

    /** `Register::new` */
    constructor ()
      ensures Valid() && fresh(v)
      ensures Model() == ZeroBank()
    {
      v := new Byte[16](_ => 0);
      delay, sound, keyboard := 0, 0, 0;
    }

    /** `get` */
    function Get(vs: Varset): (r: Byte)
      reads this, v
      requires Valid() && Resolvable(vs)
      ensures r == Read(Model(), vs)
    {
      match vs
      case V(k) => v[k]
      case Keyboard => keyboard
      case DelayTimer => delay
      case SoundTimer => sound
    }

    /** `tick` */
    method Tick()
      requires Valid()
      modifies this
      ensures Valid() && v == old(v)
      ensures Model() == Ticked(old(Model()))
    {
      if delay > 0 {
        delay := delay - 1;
      }
    }

    /** `vars_are_equal` */
    function VarsAreEqual(va: Varset, vb: Varset): (r: bool)
      reads this, v
      requires Valid() && Resolvable(va) && Resolvable(vb)
      ensures r <==> Read(Model(), va) == Read(Model(), vb)
    {
      Get(va) == Get(vb)
    }

    /** `var_equals_val` */
    function VarEqualsVal(vs: Varset, val: Byte): (r: bool)
      reads this, v
      requires Valid() && Resolvable(vs)
      ensures r <==> Read(Model(), vs) == val
    {
      Get(vs) == val
    }

    /** `set` */
    method Set(vs: Varset, val: Byte)
      requires Valid() && Resolvable(vs)
      modifies this, v
      ensures Valid() && v == old(v)
      ensures Model() == Write(old(Model()), vs, val)
    {
      match vs
      case V(k) => v[k] := val;
      case Keyboard => keyboard := val;
      case DelayTimer => delay := val;
      case SoundTimer => sound := val;
    }

    /** `inc_nocarry` */
    method IncNoCarry(vs: Varset, val: Byte)
      requires Valid() && Resolvable(vs)
      modifies this, v
      ensures Valid() && v == old(v)
      ensures Model() == AddedNoCarry(old(Model()), vs, val)
    {
      var newVal := WrappingAdd8(Get(vs), val);
      Set(vs, newVal);
    }

    /** `set_to_var` */
    method SetToVar(vs: Varset, vi: Varset)
      requires Valid() && Resolvable(vs) && Resolvable(vi)
      modifies this, v
      ensures Valid() && v == old(v)
      ensures Model() == CopiedVar(old(Model()), vs, vi)
    {
      Set(vs, Get(vi));
    }

    /** `decrement_and_flip`; `ok == false` where the Rust code panics. */
    method DecrementAndFlip(vs: Varset, vi: Varset) returns (ok: bool)
      requires Valid() && Resolvable(vs) && Resolvable(vi)
      modifies this, v
      ensures Valid() && v == old(v)
      ensures ok <==> FlipDecremented(old(Model()), vs, vi).Some?
      ensures ok ==> Model() == FlipDecremented(old(Model()), vs, vi).value
    {
      var x := Get(vs);
      var y := Get(vi);
      if y < x {
        return false;
      }
      Set(vs, y - x);
      ok := true;
    }

    /** `decrement_with_borrow`; `ok == false` where the Rust code panics. */
    method DecrementWithBorrow(vs: Varset, vi: Varset) returns (ok: bool)
      requires Valid() && Resolvable(vs) && Resolvable(vi)
      modifies this, v
      ensures Valid() && v == old(v)
      ensures ok <==> BorrowDecremented(old(Model()), vs, vi).Some?
      ensures ok ==> Model() == BorrowDecremented(old(Model()), vs, vi).value
    {
      var x := Get(vs);
      var y := Get(vi);
      if x < y {
        return false;
      }
      var val := x - y;
      Set(VF, 0);
      Set(vs, val);
      ok := true;
    }

    /** `bitshift_and_store` */
    method BitshiftAndStore(vs: Varset)
      requires Valid() && Resolvable(vs)
      modifies this, v
      ensures Valid() && v == old(v)
      ensures Model() == ShiftedRight(old(Model()), vs)
    {
      var val := Get(vs);
      Set(VF, val % 2);
      Set(vs, val / 2);
    }
  }
}
