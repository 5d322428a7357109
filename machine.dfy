/** The state of the CHIP-8 engine of `src/state.rs` (`struct Chip8State`) as
    a value, and `run_instruction` as a function on it.

    `Exec` returns `None` where the Rust code panics (an explicit `panic!`,
    an `unwrap` of an empty stack, an index past an array, or an overflowing
    `u8`/`u16` addition or subtraction of a debug build). The random byte that
    `Randomize` draws from the thread's generator is a parameter. The class
    `Chip8.Chip8State` is proved to compute `Exec`. */
module Machines {
  import opened Words
  import opened Instructions
  import opened Registers
  import opened Display
  import opened Sprites
  import opened Cartridges

  datatype Machine = Machine(
    pc: Word,
    i: Word,
    stack: seq<Word>,
    bank: Bank,
    screen: seq<bool>,
    memory: seq<Byte>)

  predicate ValidMachine(m: Machine)
  {
    ValidBank(m.bank) && |m.screen| == PIXELS && |m.memory| == MEMORY_SIZE
  }

  /** The extra `pc += 2` of a skip that is taken. */
  function SkipIf(n: Machine, cond: bool): Option<Machine>
  {
    if !cond then Some(n)
    else if n.pc + 2 > 0xFFFF then None
    else Some(n.(pc := n.pc + 2))
  }

  /** `VariableOnValue`: only Set, IncrementNoCarry and Randomize are
      implemented; Randomize keeps the bits of the random byte that are set in
      the operand. */
  function OnValue(b: Bank, vs: Varset, val: Byte, op: Operation, rnd: Byte): (r: Option<Bank>)
    requires ValidBank(b) && Resolvable(vs)
    ensures r.Some? <==> op == Set || op == IncrementNoCarry || op == Randomize
    ensures r.Some? ==> ValidBank(r.value)
    ensures r.Some? ==> forall ws :: Resolvable(ws) && ws != vs ==> Read(r.value, ws) == Read(b, ws)
    ensures op == Set ==> Read(r.value, vs) == val
    ensures op == IncrementNoCarry ==> Read(r.value, vs) == (Read(b, vs) + val) % 0x100
    ensures op == Randomize ==>
              forall k :: 0 <= k < 8 ==> (Bit(Read(r.value, vs), k) <==> Bit(rnd, k) && Bit(val, k))
  {
    match op
    case Set => Some(Write(b, vs, val))
    case IncrementNoCarry => Some(AddedNoCarry(b, vs, val))
    case Randomize => Some(Write(b, vs, And8(rnd, val)))
    case _ => None
  }

  /** `VariableOnVariable`: every operation but IncrementWithCarry, Randomize
      and SpriteMultiply is implemented; the two subtractions panic on
      underflow. */
  function OnVariable(b: Bank, vs: Varset, vi: Varset, op: Operation): (r: Option<Bank>)
    requires ValidBank(b) && Resolvable(vs) && Resolvable(vi)
    ensures r.Some? <==>
              && op != IncrementWithCarry && op != Randomize && op != SpriteMultiply
              && (op == DecrementAndFlip ==> Read(b, vs) <= Read(b, vi))
              && (op == DecrementWithBorrow ==> Read(b, vs) >= Read(b, vi))
    ensures r.Some? ==> ValidBank(r.value)
    ensures op == Set ==> Read(r.value, vs) == Read(b, vi)
    ensures op == IncrementNoCarry ==> Read(r.value, vs) == (Read(b, vs) + Read(b, vi)) % 0x100
    ensures r.Some? && op != DecrementWithBorrow && op != BitshiftAndStore ==>
              forall ws :: Resolvable(ws) && ws != vs ==> Read(r.value, ws) == Read(b, ws)
  {
    match op
    case Set => Some(CopiedVar(b, vs, vi))
    case IncrementNoCarry => Some(AddedNoCarry(b, vs, Read(b, vi)))
    case DecrementAndFlip => FlipDecremented(b, vs, vi)
    case DecrementWithBorrow => BorrowDecremented(b, vs, vi)
    case BitOr => Some(Combined(b, vs, vi, OrOp))
    case BitAnd => Some(Combined(b, vs, vi, AndOp))
    case BitXor => Some(Combined(b, vs, vi, XorOp))
    case BitshiftAndStore => Some(ShiftedRight(b, vs))
    case _ => None
  }

  /** `IOnVariable`: I takes the value, grows by it (a `u16` overflow
      panics) or points at the 5-byte font glyph of it. */
  function OnI(n: Machine, vs: Varset, op: Operation): (r: Option<Machine>)
    requires ValidMachine(n) && Resolvable(vs)
    ensures r.Some? <==>
              op == Set || op == SpriteMultiply || (op == IncrementNoCarry && n.i + Read(n.bank, vs) <= 0xFFFF)
    ensures r.Some? ==> r.value == n.(i := r.value.i)
    ensures op == Set ==> r.value.i == Read(n.bank, vs)
    ensures r.Some? && op == IncrementNoCarry ==> r.value.i - n.i == Read(n.bank, vs)
    ensures op == SpriteMultiply ==> r.value.i / 5 == Read(n.bank, vs) && r.value.i % 5 == 0
  {
    var x := Read(n.bank, vs);
    match op
    case Set => Some(n.(i := x))
    case IncrementNoCarry => if n.i + x > 0xFFFF then None else Some(n.(i := n.i + x))
    case SpriteMultiply => Some(n.(i := 5 * x))
    case _ => None
  }

  /** The digit arithmetic of `StoreVarAsDecimalInPositionI` on a byte
      gives its hundreds, tens and units. */
  lemma DecimalDigits(val: Byte)
    ensures var hun := val / 100;
            var dec := val / 10 - hun * 10;
            var uno := val - dec * 10 - hun * 100;
            && 0 <= hun <= 2 && 0 <= dec <= 9 && 0 <= uno <= 9
            && hun * 100 + dec * 10 + uno == val
  {
    var t := val / 10;
    assert val == 10 * t + val % 10;
    assert t == 10 * (t / 10) + t % 10;
    assert val / 100 == t / 10;
  }

  /** `StoreVarAsDecimalInPositionI`: the hundreds, tens and units digits go
      to `I`, `I + 1` and `I + 2`; an address past the memory panics. */
  function StoreDecimal(n: Machine, vs: Varset): (r: Option<Machine>)
    requires ValidMachine(n) && Resolvable(vs)
    ensures r.Some? <==> n.i + 2 < MEMORY_SIZE
    ensures r.Some? ==> ValidMachine(r.value) && r.value == n.(memory := r.value.memory)
    ensures r.Some? ==>
              var mem := r.value.memory;
              && mem[n.i] <= 9 && mem[n.i + 1] <= 9 && mem[n.i + 2] <= 9
              && mem[n.i] as int * 100 + mem[n.i + 1] as int * 10 + mem[n.i + 2] == Read(n.bank, vs)
              && forall a :: 0 <= a < MEMORY_SIZE && !(n.i <= a <= n.i + 2) ==> mem[a] == n.memory[a]
  {
    var val := Read(n.bank, vs);
    DecimalDigits(val);
    var hun: Byte := val / 100;
    var dec: Byte := val / 10 - hun * 10;
    var uno: Byte := val - dec * 10 - hun * 100;
    if n.i + 2 >= MEMORY_SIZE then None
    else Some(n.(memory := n.memory[n.i := hun][n.i + 1 := dec][n.i + 2 := uno]))
  }

  /** `mem` with the `count` bytes from `at` replaced by the first `count`
      values of `v`. */
  function CopiedOut(mem: seq<Byte>, v: seq<Byte>, at: nat, count: nat): (r: seq<Byte>)
    requires count <= |v|
    ensures |r| == |mem|
    ensures forall a :: 0 <= a < |mem| ==> r[a] == if at <= a < at + count then v[a - at] else mem[a]
  {
    seq(|mem|, a requires 0 <= a < |mem| => if at <= a < at + count then v[a - at] else mem[a])
  }

  /** `v` with its first `count` values replaced by the bytes of `mem` from
      `at`. */
  function CopiedIn(v: seq<Byte>, mem: seq<Byte>, at: nat, count: nat): (r: seq<Byte>)
    requires count <= |v| && (count == 0 || at + count <= |mem|)
    ensures |r| == |v|
    ensures forall k :: 0 <= k < |v| ==> r[k] == if k < count then mem[at + k] else v[k]
  {
    seq(|v|, k requires 0 <= k < |v| => if k < count then mem[at + k] else v[k])
  }

  /** `DumpVariablesUptoInPositionI`: V0..Vx go to memory from `I`; any other
      handle panics, and so does an address past the memory. */
  function Dump(n: Machine, vs: Varset): (r: Option<Machine>)
    requires ValidMachine(n) && Resolvable(vs)
    ensures r.Some? <==> vs.V? && n.i + vs.k < MEMORY_SIZE
    ensures r.Some? ==> ValidMachine(r.value) && r.value == n.(memory := r.value.memory)
    ensures r.Some? ==> forall a :: 0 <= a < MEMORY_SIZE ==>
              r.value.memory[a] == if n.i <= a <= n.i + vs.k then Read(n.bank, V(a - n.i)) else n.memory[a]
  {
    match vs
    case V(x) =>
      if n.i + x >= MEMORY_SIZE then None
      else Some(n.(memory := CopiedOut(n.memory, n.bank.v, n.i, x + 1)))
    case _ => None
  }

  /** `LoadVariablesUptoFromPositionI`: V0..Vx are read from memory from `I`;
      any other handle panics, and so does an address past the memory. */
  function Load(n: Machine, vs: Varset): (r: Option<Machine>)
    requires ValidMachine(n) && Resolvable(vs)
    ensures r.Some? <==> vs.V? && n.i + vs.k < MEMORY_SIZE
    ensures r.Some? ==> ValidMachine(r.value) && r.value == n.(bank := r.value.bank)
    ensures r.Some? ==> forall k :: 0 <= k < 16 ==>
              Read(r.value.bank, V(k)) == if k <= vs.k then n.memory[n.i + k] else Read(n.bank, V(k))
    ensures r.Some? ==> forall ws :: Resolvable(ws) && !ws.V? ==> Read(r.value.bank, ws) == Read(n.bank, ws)
  {
    match vs
    case V(x) =>
      if n.i + x >= MEMORY_SIZE then None
      else Some(n.(bank := n.bank.(v := CopiedIn(n.bank.v, n.memory, n.i, x + 1))))
    case _ => None
  }

  /** `DrawSpriteXYH`: the sprite is drawn from the values of the two
      handles, then VF records the collision. */
  function Draw(n: Machine, vx: Varset, vy: Varset, h: Byte): (r: Option<Machine>)
    requires ValidMachine(n) && Resolvable(vx) && Resolvable(vy)
    ensures r.Some? <==> InRange(Read(n.bank, vx), Read(n.bank, vy), MEMORY_SIZE, n.i, h)
    ensures r.Some? ==> ValidMachine(r.value) && r.value == n.(screen := r.value.screen, bank := r.value.bank)
    ensures r.Some? ==> Read(r.value.bank, VF) <= 1
    ensures r.Some? ==> forall ws :: Resolvable(ws) && ws != VF ==> Read(r.value.bank, ws) == Read(n.bank, ws)
  {
    DrawSpriteSome(n.screen, Read(n.bank, vx), Read(n.bank, vy), n.memory, n.i, h);
    var d := DrawSprite(n.screen, Read(n.bank, vx), Read(n.bank, vy), n.memory, n.i, h);
    if d.None? then None
    else Some(n.(screen := d.value.0, bank := Write(n.bank, VF, if d.value.1 then 1 else 0)))
  }

  /** `Draw` in terms of the sprite drawing it performs. */
  lemma DrawUnfold(n: Machine, vx: Varset, vy: Varset, h: Byte)
    requires ValidMachine(n) && Resolvable(vx) && Resolvable(vy)
    ensures var d := DrawSprite(n.screen, Read(n.bank, vx), Read(n.bank, vy), n.memory, n.i, h);
            && (Draw(n, vx, vy, h).Some? <==> d.Some?)
            && (d.Some? ==>
                  Draw(n, vx, vy, h).value == n.(screen := d.value.0, bank := Write(n.bank, VF, if d.value.1 then 1 else 0)))
  {
  }

  /** `run_instruction`: the program counter first moves past the
      instruction, then the instruction acts. A step that succeeds leaves a
      well-formed machine, and the `pc += 2` itself fails on `u16` overflow. */
  function Exec(m: Machine, ins: Instruction, rnd: Byte): (r: Option<Machine>)
    requires ValidMachine(m) && WellFormed(ins)
    ensures r.Some? ==> ValidMachine(r.value)
    ensures m.pc + 2 > 0xFFFF ==> r.None?
  {
    if m.pc + 2 > 0xFFFF then None
    else
      var n := m.(pc := m.pc + 2);
      match ins
      case RCARoutine(_) => None
      case GotoAdress(a) => Some(n.(pc := a))
      case RunSubroutineAtAdress(a) => Some(n.(stack := n.stack + [n.pc], pc := a))
      case ReturnFromSubroutine =>
        if |n.stack| == 0 then None
        else Some(n.(pc := n.stack[|n.stack| - 1], stack := n.stack[..|n.stack| - 1]))
      case SkipNextIfVarEq(vs, val) => SkipIf(n, Read(n.bank, vs) == val)
      case SkipNextIfVarNeq(vs, val) => SkipIf(n, Read(n.bank, vs) != val)
      case SkipNextIfVarsEq(va, vb) => SkipIf(n, Read(n.bank, va) == Read(n.bank, vb))
      case SkipNextIfVarsNeq(va, vb) => SkipIf(n, Read(n.bank, va) != Read(n.bank, vb))
      case VariableOnValue(vs, val, op) =>
        var b := OnValue(n.bank, vs, val, op, rnd);
        if b.None? then None else Some(n.(bank := b.value))
      case VariableOnVariable(vs, vi, op) =>
        var b := OnVariable(n.bank, vs, vi, op);
        if b.None? then None else Some(n.(bank := b.value))
      case SetITo(a) => Some(n.(i := a))
      case IOnVariable(vs, op) => OnI(n, vs, op)
      case StoreVarAsDecimalInPositionI(vs) => StoreDecimal(n, vs)
      case DumpVariablesUptoInPositionI(vs) => Dump(n, vs)
      case LoadVariablesUptoFromPositionI(vs) => Load(n, vs)
      case ClearDraw => Some(n.(screen := Blank()))
      case DrawSpriteXYH(vx, vy, h) => Draw(n, vx, vy, h)
  }

  /** The four conditional skips. */
  predicate IsSkip(ins: Instruction)
  {
    ins.SkipNextIfVarEq? || ins.SkipNextIfVarNeq? || ins.SkipNextIfVarsEq? || ins.SkipNextIfVarsNeq?
  }

  /** Whether a skip instruction skips: its two operands compare equal for
      the `Eq` forms, unequal for the `Neq` forms. */
  predicate SkipTaken(b: Bank, ins: Instruction)
    requires ValidBank(b) && WellFormed(ins) && IsSkip(ins)
  {
    match ins
    case SkipNextIfVarEq(vs, val) => Read(b, vs) == val
    case SkipNextIfVarNeq(vs, val) => !(Read(b, vs) == val)
    case SkipNextIfVarsEq(va, vb) => Read(b, va) == Read(b, vb)
    case SkipNextIfVarsNeq(va, vb) => !(Read(b, va) == Read(b, vb))
  }

  /** The cases in which `run_instruction` panics, stated on the machine
      before the instruction. */
  predicate Panics(m: Machine, ins: Instruction)
    requires ValidMachine(m) && WellFormed(ins)
  {
    var next := m.pc + 2;
    || next > 0xFFFF
    || match ins
       case RCARoutine(_) => true
       case ReturnFromSubroutine => m.stack == []
       case SkipNextIfVarEq(_, _) => SkipTaken(m.bank, ins) && next + 2 > 0xFFFF
       case SkipNextIfVarNeq(_, _) => SkipTaken(m.bank, ins) && next + 2 > 0xFFFF
       case SkipNextIfVarsEq(_, _) => SkipTaken(m.bank, ins) && next + 2 > 0xFFFF
       case SkipNextIfVarsNeq(_, _) => SkipTaken(m.bank, ins) && next + 2 > 0xFFFF
       case VariableOnValue(_, _, op) => op !in {Set, IncrementNoCarry, Randomize}
       case VariableOnVariable(vs, vi, op) =>
         || op in {IncrementWithCarry, Randomize, SpriteMultiply}
         || (op == DecrementAndFlip && Read(m.bank, vs) > Read(m.bank, vi))
         || (op == DecrementWithBorrow && Read(m.bank, vs) < Read(m.bank, vi))
       case IOnVariable(vs, op) =>
         || op !in {Set, IncrementNoCarry, SpriteMultiply}
         || (op == IncrementNoCarry && m.i + Read(m.bank, vs) > 0xFFFF)
       case StoreVarAsDecimalInPositionI(_) => m.i + 2 >= MEMORY_SIZE
       case DumpVariablesUptoInPositionI(vs) => !vs.V? || m.i + vs.k >= MEMORY_SIZE
       case LoadVariablesUptoFromPositionI(vs) => !vs.V? || m.i + vs.k >= MEMORY_SIZE
       case DrawSpriteXYH(vx, vy, h) => !InRange(Read(m.bank, vx), Read(m.bank, vy), MEMORY_SIZE, m.i, h)
       case _ => false
  }

  /** `run_instruction` fails exactly in the cases of `Panics`. */
  lemma ExecPanics(m: Machine, ins: Instruction, rnd: Byte)
    requires ValidMachine(m) && WellFormed(ins)
    ensures Exec(m, ins, rnd).None? <==> Panics(m, ins)
  {
  }

  /** A call pushes the address after it and jumps; the matching return pops
      that address, so the machine continues after the call with the stack
      as it was. */
  lemma CallThenReturn(m: Machine, a: Word, rnd: Byte)
    requires ValidMachine(m) && m.pc + 2 <= 0xFFFF && a + 2 <= 0xFFFF
    ensures Exec(m, RunSubroutineAtAdress(a), rnd).Some?
    ensures var m1 := Exec(m, RunSubroutineAtAdress(a), rnd).value;
            && m1.pc == a && m1.stack == m.stack + [m.pc + 2]
            && Exec(m1, ReturnFromSubroutine, rnd) == Some(m.(pc := m.pc + 2))
  {
    var m1 := Exec(m, RunSubroutineAtAdress(a), rnd).value;
    assert m1.stack[..|m1.stack| - 1] == m.stack;
  }

  /** A skip moves the program counter by 4 when it is taken and by 2
      otherwise, and changes nothing else. */
  lemma ExecSkip(m: Machine, ins: Instruction, rnd: Byte)
    requires ValidMachine(m) && WellFormed(ins) && IsSkip(ins)
    ensures var next := m.pc + (if SkipTaken(m.bank, ins) then 4 else 2);
            Exec(m, ins, rnd) == if next > 0xFFFF then None else Some(m.(pc := next))
  {
  }

  /** Every instruction but the jumps, the call, the return and the skips
      continues with the next instruction and leaves the stack alone. */
  lemma ExecSequential(m: Machine, ins: Instruction, rnd: Byte)
    requires ValidMachine(m) && WellFormed(ins)
    requires !ins.GotoAdress? && !ins.RunSubroutineAtAdress? && !ins.ReturnFromSubroutine? && !IsSkip(ins)
    requires Exec(m, ins, rnd).Some?
    ensures Exec(m, ins, rnd).value.pc == m.pc + 2
    ensures Exec(m, ins, rnd).value.stack == m.stack
  {
  }

  /** Which instructions touch which part of the machine: only the decimal
      store and the dump write memory, only the clear and the draw change the
      screen, only `SetITo` and `IOnVariable` change I, and the control-flow
      instructions leave the registers alone. */
  lemma ExecFrame(m: Machine, ins: Instruction, rnd: Byte)
    requires ValidMachine(m) && WellFormed(ins) && Exec(m, ins, rnd).Some?
    ensures var r := Exec(m, ins, rnd).value;
            && (!ins.StoreVarAsDecimalInPositionI? && !ins.DumpVariablesUptoInPositionI? ==> r.memory == m.memory)
            && (!ins.ClearDraw? && !ins.DrawSpriteXYH? ==> r.screen == m.screen)
            && (!ins.SetITo? && !ins.IOnVariable? ==> r.i == m.i)
            && (ins.ClearDraw? ==> r.screen == Blank())
            && ((!ins.VariableOnValue? && !ins.VariableOnVariable? && !ins.LoadVariablesUptoFromPositionI?
                 && !ins.DrawSpriteXYH?) ==> r.bank == m.bank)
  {
  }

  /** Loading the registers that were just dumped changes nothing but the
      program counter. */
  lemma DumpThenLoad(m: Machine, x: nat, rnd: Byte)
    requires ValidMachine(m) && x < 16 && m.pc + 4 <= 0xFFFF && m.i + x < MEMORY_SIZE
    ensures Exec(m, DumpVariablesUptoInPositionI(V(x)), rnd).Some?
    ensures var m1 := Exec(m, DumpVariablesUptoInPositionI(V(x)), rnd).value;
            Exec(m1, LoadVariablesUptoFromPositionI(V(x)), rnd) == Some(m1.(pc := m1.pc + 2))
  {
    var n := m.(pc := m.pc + 2);
    var m1 := n.(memory := CopiedOut(m.memory, m.bank.v, m.i, x + 1));
    ExecCopy(m, x, rnd);
    var n1 := m1.(pc := m1.pc + 2);
    ExecCopy(m1, x, rnd);
    CopiedInOfCopiedOut(m.bank.v, m.memory, m.i, x + 1);
    assert n1.bank.(v := CopiedIn(n1.bank.v, n1.memory, n1.i, x + 1)) == n1.bank;
  }

  /** Dumping the registers that were just loaded changes nothing but the
      program counter. */
  lemma LoadThenDump(m: Machine, x: nat, rnd: Byte)
    requires ValidMachine(m) && x < 16 && m.pc + 4 <= 0xFFFF && m.i + x < MEMORY_SIZE
    ensures Exec(m, LoadVariablesUptoFromPositionI(V(x)), rnd).Some?
    ensures var m1 := Exec(m, LoadVariablesUptoFromPositionI(V(x)), rnd).value;
            Exec(m1, DumpVariablesUptoInPositionI(V(x)), rnd) == Some(m1.(pc := m1.pc + 2))
  {
    var n := m.(pc := m.pc + 2);
    var m1 := n.(bank := n.bank.(v := CopiedIn(m.bank.v, m.memory, m.i, x + 1)));
    ExecCopy(m, x, rnd);
    var n1 := m1.(pc := m1.pc + 2);
    ExecCopy(m1, x, rnd);
    CopiedOutOfCopiedIn(m.bank.v, m.memory, m.i, x + 1);
    assert n1.(memory := CopiedOut(n1.memory, n1.bank.v, n1.i, x + 1)) == n1;
  }

  /** What the dump and the load of V0..Vx compute when neither panics. */
  lemma ExecCopy(m: Machine, x: nat, rnd: Byte)
    requires ValidMachine(m) && x < 16 && m.pc + 2 <= 0xFFFF && m.i + x < MEMORY_SIZE
    ensures var n := m.(pc := m.pc + 2);
            Exec(m, DumpVariablesUptoInPositionI(V(x)), rnd) == Some(n.(memory := CopiedOut(m.memory, m.bank.v, m.i, x + 1)))
    ensures var n := m.(pc := m.pc + 2);
            Exec(m, LoadVariablesUptoFromPositionI(V(x)), rnd) == Some(n.(bank := n.bank.(v := CopiedIn(m.bank.v, m.memory, m.i, x + 1))))
  {
  }

  /** Reading back bytes that were just written to the same place leaves the
      registers as they were. */
  lemma CopiedInOfCopiedOut(v: seq<Byte>, mem: seq<Byte>, at: nat, count: nat)
    requires 0 < count <= |v| && at + count <= |mem|
    ensures CopiedIn(v, CopiedOut(mem, v, at, count), at, count) == v
  {
    var w := CopiedOut(mem, v, at, count);
    var r := CopiedIn(v, w, at, count);
    assert forall k | 0 <= k < |v| :: r[k] == v[k];
  }

  /** Writing back bytes that were just read from the same place leaves the
      memory as it was. */
  lemma CopiedOutOfCopiedIn(v: seq<Byte>, mem: seq<Byte>, at: nat, count: nat)
    requires 0 < count <= |v| && at + count <= |mem|
    ensures CopiedOut(mem, CopiedIn(v, mem, at, count), at, count) == mem
  {
    var w := CopiedIn(v, mem, at, count);
    var r := CopiedOut(mem, w, at, count);
    assert forall a | 0 <= a < |mem| :: r[a] == mem[a];
  }

  /** A draw of at most 32 rows, cell by cell: the cell of every set bit of
      the sprite is toggled, every other cell is kept, and VF is 1 exactly
      when some set bit landed on a lit cell, 0 otherwise. */
  lemma ExecDraw(m: Machine, vx: Varset, vy: Varset, h: Byte, rnd: Byte)
    requires ValidMachine(m) && Resolvable(vx) && Resolvable(vy) && h <= 32
    requires Exec(m, DrawSpriteXYH(vx, vy, h), rnd).Some?
    ensures var r := Exec(m, DrawSpriteXYH(vx, vy, h), rnd).value;
            var x, y := Read(m.bank, vx), Read(m.bank, vy);
            && InRange(x, y, MEMORY_SIZE, m.i, h)
            && (forall p, q :: 0 <= p < h && 0 <= q < 8 ==>
                  r.screen[SpriteCell(x, y, p, q)] == (m.screen[SpriteCell(x, y, p, q)] != Bit(m.memory[m.i + p], q)))
            && (forall k :: 0 <= k < PIXELS && k !in SpriteCells(x, y, m.memory, m.i, h) ==> r.screen[k] == m.screen[k])
            && (Read(r.bank, VF) == 1 <==>
                  exists p, q :: 0 <= p < h && 0 <= q < 8 && Bit(m.memory[m.i + p], q) && m.screen[SpriteCell(x, y, p, q)])
            && (Read(r.bank, VF) == 0 <==> Read(r.bank, VF) != 1)
  {
    var x, y := Read(m.bank, vx), Read(m.bank, vy);
    DrawSpriteSome(m.screen, x, y, m.memory, m.i, h);
    DrawSpriteXor(m.screen, x, y, m.memory, m.i, h);
  }
}

