/** `struct Chip8State` of `src/state.rs`: the program counter, I, the call
    stack, and the register bank, screen and memory image it owns.
    `RunInstruction` updates them in place and is proved to compute
    `Machines.Exec` on the value they hold; where the Rust code panics it
    returns `false`, and the state it leaves behind is not specified. */
module Chip8 {
  import opened Words
  import opened Instructions
  import opened Registers
  import opened Display
  import opened Sprites
  import opened Cartridges
  import opened Machines

  class Chip8State {
    var pc: Word
    var i: Word
    var stack: seq<Word>
    const register: Register
    const display: TermDisplay
    const cartridge: Cartridge

    ghost predicate Valid()
      reads this, register, display, cartridge
    {
      register.Valid() && display.Valid() && cartridge.Valid() && register.v != cartridge.memory
    }

    /** The value the state holds. */
    ghost function Abs(): (m: Machine)
      reads this, register, register.v, display, display.display, cartridge, cartridge.memory
      requires Valid()
      ensures ValidMachine(m)
    {
      Machine(pc, i, stack, register.Model(), display.display[..], cartridge.memory[..])
    }

    /** `Chip8State::new`: execution starts at the cartridge's start address
        with I at 0, an empty stack, a zeroed register bank and a blank
        screen. */
    constructor (cartridge: Cartridge)
      requires cartridge.Valid()
      ensures Valid() && this.cartridge == cartridge
      ensures fresh(register) && fresh(register.v) && fresh(display) && fresh(display.display)
      ensures Abs() == Machine(CARTRIDGE_START, 0, [], ZeroBank(), Blank(), cartridge.memory[..])
    {
      pc := CARTRIDGE_START;
      i := 0;
      stack := [];
      register := new Register();
      display := new TermDisplay();
      this.cartridge := cartridge;
    }

    /** The extra `pc += 2` of a skip. */
    method SkipNext(cond: bool) returns (ok: bool)
      requires Valid()
      modifies this
      ensures Valid()
      ensures ok <==> SkipIf(old(Abs()), cond).Some?
      ensures ok ==> Abs() == SkipIf(old(Abs()), cond).value
    {
      if cond {
        if pc + 2 > 0xFFFF {
          return false;
        }
        pc := pc + 2;
      }
      ok := true;
    }

    /** The `VariableOnValue` arm. */
    method RunOnValue(vs: Varset, val: Byte, op: Operation, rnd: Byte) returns (ok: bool)
      requires register.Valid() && Resolvable(vs)
      modifies register, register.v
      ensures register.Valid() && register.v == old(register.v)
      ensures ok <==> OnValue(old(register.Model()), vs, val, op, rnd).Some?
      ensures ok ==> register.Model() == OnValue(old(register.Model()), vs, val, op, rnd).value
    {
      match op
      case Set =>
        register.Set(vs, val);
        ok := true;
      case IncrementNoCarry =>
        register.IncNoCarry(vs, val);
        ok := true;
      case Randomize =>
        register.Set(vs, And8(rnd, val));
        ok := true;
      case _ =>
        ok := false;
    }

    /** The `VariableOnVariable` arm. */
    method RunOnVariable(vs: Varset, vi: Varset, op: Operation) returns (ok: bool)
      requires register.Valid() && Resolvable(vs) && Resolvable(vi)
      modifies register, register.v
      ensures register.Valid() && register.v == old(register.v)
      ensures ok <==> OnVariable(old(register.Model()), vs, vi, op).Some?
      ensures ok ==> register.Model() == OnVariable(old(register.Model()), vs, vi, op).value
    {
      match op
      case Set =>
        register.SetToVar(vs, vi);
        ok := true;
      case IncrementNoCarry =>
        register.IncNoCarry(vs, register.Get(vi));
        ok := true;
      case DecrementAndFlip =>
        ok := register.DecrementAndFlip(vs, vi);
      case DecrementWithBorrow =>
        ok := register.DecrementWithBorrow(vs, vi);
      case BitOr =>
        RunBitwise(vs, vi, OrOp);
        ok := true;
      case BitAnd =>
        RunBitwise(vs, vi, AndOp);
        ok := true;
      case BitXor =>
        RunBitwise(vs, vi, XorOp);
        ok := true;
      case BitshiftAndStore =>
        register.BitshiftAndStore(vs);
        ok := true;
      case _ =>
        ok := false;
    }

    /** `|=`, `&=` and `^=` of the `VariableOnVariable` arm. */
    method RunBitwise(vs: Varset, vi: Varset, op: BitOp)
      requires register.Valid() && Resolvable(vs) && Resolvable(vi)
      modifies register, register.v
      ensures register.Valid() && register.v == old(register.v)
      ensures register.Model() == Combined(old(register.Model()), vs, vi, op)
    {
      var x := register.Get(vs);
      var y := register.Get(vi);
      var val := match op
        case AndOp => And8(x, y)
        case OrOp => Or8(x, y)
        case XorOp => Xor8(x, y);
      register.Set(vs, val);
    }

    /** The `IOnVariable` arm. */
    method RunOnI(vs: Varset, op: Operation) returns (ok: bool)
      requires Valid() && Resolvable(vs)
      modifies this
      ensures Valid()
      ensures ok <==> OnI(old(Abs()), vs, op).Some?
      ensures ok ==> Abs() == OnI(old(Abs()), vs, op).value
    {
      var x := register.Get(vs);
      match op
      case Set =>
        i := x;
        ok := true;
      case IncrementNoCarry =>
        if i + x > 0xFFFF {
          return false;
        }
        i := i + x;
        ok := true;
      case SpriteMultiply =>
        i := 5 * (x as int);
        ok := true;
      case _ =>
        ok := false;
    }

    /** `StoreVarAsDecimalInPositionI`: three writes in order; the first one
        that fails ends the instruction. */
    method StoreDecimalDigits(vs: Varset) returns (ok: bool)
      requires Valid() && Resolvable(vs)
      modifies cartridge.memory
      ensures Valid()
      ensures ok <==> StoreDecimal(old(Abs()), vs).Some?
      ensures ok ==> Abs() == StoreDecimal(old(Abs()), vs).value
    {
      ghost var n := Abs();
      var val := register.Get(vs);
      DecimalDigits(val);
      var hun: Byte := val / 100;
      var dec: Byte := val / 10 - hun * 10;
      var uno: Byte := val - dec * 10 - hun * 100;
      assert StoreDecimal(n, vs) ==
             if i + 2 >= MEMORY_SIZE then None
             else Some(n.(memory := n.memory[i := hun][i + 1 := dec][i + 2 := uno]));
      ok := cartridge.SetMemory(i, hun);
      if !ok {
        return;
      }
      if i + 1 > 0xFFFF {
        return false;
      }
      ok := cartridge.SetMemory(i + 1, dec);
      if !ok {
        return;
      }
      if i + 2 > 0xFFFF {
        return false;
      }
      ok := cartridge.SetMemory(i + 2, uno);
    }

    /** `DumpVariablesUptoInPositionI`: the loop `for vnum in 0..=vmax`. */
    method DumpVariables(vs: Varset) returns (ok: bool)
      requires Valid() && Resolvable(vs)
      modifies cartridge.memory
      ensures Valid()
      ensures ok <==> Dump(old(Abs()), vs).Some?
      ensures ok ==> Abs() == Dump(old(Abs()), vs).value
    {
      if !vs.V? {
        return false;
      }
      var vmax := vs.k;
      ghost var mem0 := cartridge.memory[..];
      var vnum := 0;
      assert cartridge.memory[..] == CopiedOut(mem0, register.v[..], i, 0);
      while vnum <= vmax
        invariant vnum <= vmax + 1 && (vnum == 0 || i + vnum <= MEMORY_SIZE)
        invariant Valid() && register.Model() == old(register.Model())
        invariant cartridge.memory[..] == CopiedOut(mem0, register.v[..], i, vnum)
      {
        if i + vnum > 0xFFFF {
          return false;
        }
        var written := cartridge.SetMemory(i + vnum, register.Get(V(vnum)));
        if !written {
          return false;
        }
        vnum := vnum + 1;
      }
      ok := true;
    }

    /** `LoadVariablesUptoFromPositionI`: the loop `for vnum in 0..=vmax`. */
    method LoadVariables(vs: Varset) returns (ok: bool)
      requires Valid() && Resolvable(vs)
      modifies register, register.v
      ensures Valid()
      ensures ok <==> Load(old(Abs()), vs).Some?
      ensures ok ==> Abs() == Load(old(Abs()), vs).value
    {
      if !vs.V? {
        return false;
      }
      var vmax := vs.k;
      ghost var bank0 := register.Model();
      var vnum := 0;
      assert bank0.v == CopiedIn(bank0.v, cartridge.memory[..], i, 0);
      while vnum <= vmax
        invariant vnum <= vmax + 1 && (vnum == 0 || i + vnum <= MEMORY_SIZE)
        invariant Valid() && register.v == old(register.v)
        invariant register.Model() == bank0.(v := CopiedIn(bank0.v, cartridge.memory[..], i, vnum))
      {
        if i + vnum > 0xFFFF {
          return false;
        }
        var byte := cartridge.GetMemory(i + vnum);
        if byte.None? {
          return false;
        }
        register.Set(V(vnum), byte.value);
        vnum := vnum + 1;
      }
      ok := true;
    }

    /** The inner loop of `DrawSpriteXYH` over the eight bits of one sprite
        row, bit `q` toggling the pixel at `(x0 - q, y)`. */
    method DrawRow(x0: Byte, y: Byte, bits: Byte, hit: bool) returns (anyFlippedOff: bool)
      requires display.Valid() && 7 <= x0
      modifies display.display
      ensures display.Valid()
      ensures (display.display[..], anyFlippedOff) == DrawBits(old(display.display[..]), hit, x0, y, bits, 0)
    {
      anyFlippedOff := hit;
      var q := 0;
      while q < 8
        invariant q <= 8 && display.Valid()
        invariant DrawBits(display.display[..], anyFlippedOff, x0, y, bits, q) ==
                  DrawBits(old(display.display[..]), hit, x0, y, bits, 0)
      {
        var x: Byte := x0 - q;
        var flip := Bit(bits, q);
        ghost var before, hitBefore := display.display[..], anyFlippedOff;
        if flip {
          var oldState := display.GetPixel(x, y);
          display.SetPixel(x, y, !oldState);
          if oldState {
            anyFlippedOff := true;
          }
        }
        assert DrawBits(before, hitBefore, x0, y, bits, q) ==
               DrawBits(display.display[..], anyFlippedOff, x0, y, bits, q + 1);
        q := q + 1;
      }
    }

    /** `DrawSpriteXYH`: the sprite is drawn from the values of the two
        handles, then VF records the collision. */
    method DrawSpriteXY(vx: Varset, vy: Varset, h: Byte) returns (ok: bool)
      requires Valid() && Resolvable(vx) && Resolvable(vy)
      modifies register, register.v, display.display
      ensures Valid()
      ensures ok <==> Draw(old(Abs()), vx, vy, h).Some?
      ensures ok ==> Abs() == Draw(old(Abs()), vx, vy, h).value
    {
      ghost var n := Abs();
      DrawUnfold(n, vx, vy, h);
      var x := register.Get(vx);
      if x as int + 7 > 0xFF {
        return false;
      }
      var x0: Byte := x + 7;
      var y0 := register.Get(vy);
      assert DrawRows(n.screen, false, x0, y0, n.memory, i, 0, h) == DrawSprite(n.screen, x, y0, n.memory, n.i, h);
      var anyFlippedOff;
      ok, anyFlippedOff := DrawSpriteRows(x0, y0, h);
      if ok {
        register.Set(VF, if anyFlippedOff then 1 else 0);
      }
    }

    /** The outer loop of `DrawSpriteXYH`: row `p` of the sprite is the byte
        at `I + p` and lands on screen row `y0 + p`. */
    method DrawSpriteRows(x0: Byte, y0: Byte, h: Byte) returns (ok: bool, anyFlippedOff: bool)
      requires Valid() && 7 <= x0
      modifies display.display
      ensures Valid()
      ensures var d := DrawRows(old(display.display[..]), false, x0, y0, cartridge.memory[..], i, 0, h);
              (ok <==> d.Some?) && (ok ==> d.value == (display.display[..], anyFlippedOff))
    {
      ghost var mem := cartridge.memory[..];
      ghost var whole := DrawRows(display.display[..], false, x0, y0, mem, i, 0, h);
      anyFlippedOff := false;
      var p := 0;
      while p < h
        invariant p <= h && Valid() && cartridge.memory[..] == mem
        invariant DrawRows(display.display[..], anyFlippedOff, x0, y0, mem, i, p, h) == whole
      {
        if i + p > 0xFFFF {
          return false, anyFlippedOff;
        }
        var bitti := cartridge.GetMemory(i + p);
        if bitti.None? {
          return false, anyFlippedOff;
        }
        if y0 + p > 0xFF {
          return false, anyFlippedOff;
        }
        var y: Byte := y0 + p;
        DrawRowsStep(display.display[..], anyFlippedOff, x0, y0, mem, i, p, h, y, bitti.value);
        anyFlippedOff := DrawRow(x0, y, bitti.value, anyFlippedOff);
        p := p + 1;
      }
      ok := true;
    }

    /** `run_instruction`: `pc += 2`, then the arm of the instruction. */
    method RunInstruction(ins: Instruction, rnd: Byte) returns (ok: bool)
      requires Valid() && WellFormed(ins)
      modifies this, register, register.v, display.display, cartridge.memory
      ensures Valid()
      ensures ok <==> Exec(old(Abs()), ins, rnd).Some?
      ensures ok ==> Abs() == Exec(old(Abs()), ins, rnd).value
    {
      if IsFlow(ins) {
        ok := RunFlow(ins, rnd);
      } else {
        ok := RunEffect(ins, rnd);
      }
    }

    /** The arms of `run_instruction` that only move the program counter or
        the stack, and the panic on an `0NNN` routine. */
    method RunFlow(ins: Instruction, rnd: Byte) returns (ok: bool)
      requires Valid() && WellFormed(ins) && IsFlow(ins)
      modifies this
      ensures Valid()
      ensures ok <==> Exec(old(Abs()), ins, rnd).Some?
      ensures ok ==> Abs() == Exec(old(Abs()), ins, rnd).value
    {
      if pc + 2 > 0xFFFF {
        return false;
      }
      pc := pc + 2;
      match ins
      case RCARoutine(_) =>
        ok := false;
      case GotoAdress(a) =>
        pc := a;
        ok := true;
      case RunSubroutineAtAdress(a) =>
        stack := stack + [pc];
        pc := a;
        ok := true;
      case ReturnFromSubroutine =>
        if |stack| == 0 {
          return false;
        }
        pc := stack[|stack| - 1];
        stack := stack[..|stack| - 1];
        ok := true;
      case SkipNextIfVarEq(vs, val) =>
        ok := SkipNext(register.VarEqualsVal(vs, val));
      case SkipNextIfVarNeq(vs, val) =>
        ok := SkipNext(!register.VarEqualsVal(vs, val));
      case SkipNextIfVarsEq(va, vb) =>
        ok := SkipNext(register.VarsAreEqual(va, vb));
      case SkipNextIfVarsNeq(va, vb) =>
        ok := SkipNext(!register.VarsAreEqual(va, vb));
    }

    /** The remaining arms of `run_instruction`: registers, I, memory and
        screen. */
    method RunEffect(ins: Instruction, rnd: Byte) returns (ok: bool)
      requires Valid() && WellFormed(ins) && !IsFlow(ins)
      modifies this, register, register.v, display.display, cartridge.memory
      ensures Valid()
      ensures ok <==> Exec(old(Abs()), ins, rnd).Some?
      ensures ok ==> Abs() == Exec(old(Abs()), ins, rnd).value
    {
      if pc + 2 > 0xFFFF {
        return false;
      }
      pc := pc + 2;
      match ins
      case VariableOnValue(vs, val, op) =>
        ok := RunOnValue(vs, val, op, rnd);
      case VariableOnVariable(vs, vi, op) =>
        ok := RunOnVariable(vs, vi, op);
      case SetITo(a) =>
        i := a;
        ok := true;
      case IOnVariable(vs, op) =>
        ok := RunOnI(vs, op);
      case StoreVarAsDecimalInPositionI(vs) =>
        ok := StoreDecimalDigits(vs);
      case DumpVariablesUptoInPositionI(vs) =>
        ok := DumpVariables(vs);
      case LoadVariablesUptoFromPositionI(vs) =>
        ok := LoadVariables(vs);
      case ClearDraw =>
        display.Clear();
        ok := true;
      case DrawSpriteXYH(vx, vy, h) =>
        ok := DrawSpriteXY(vx, vy, h);
    }
  }

  /** The instructions that act on the program counter and the stack only. */
  predicate IsFlow(ins: Instruction)
  {
    ins.RCARoutine? || ins.GotoAdress? || ins.RunSubroutineAtAdress? || ins.ReturnFromSubroutine? || IsSkip(ins)
  }
}
