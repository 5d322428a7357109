/** The CHIP-8 opcode decoder of `src/instruction.rs`: a pure map from a 16-bit
    opcode to a tagged instruction, with the operand extractors it uses. Every
    `panic!` of the decoder is a `DecodeError`. */
module Instructions {
  import opened Words

  /** A handle on one piece of machine state an instruction reads or writes. */
  datatype Varset = V(k: Byte) | Keyboard | DelayTimer | SoundTimer

  datatype Operation =
    | Set
    | IncrementNoCarry
    | IncrementWithCarry
    | DecrementWithBorrow
    | Randomize
    | BitOr
    | BitAnd
    | BitXor
    | BitshiftAndStore
    | DecrementAndFlip
    | SpriteMultiply

  datatype Instruction =
    | RCARoutine(addr: Word)
    | ClearDraw
    | DrawSpriteXYH(vx: Varset, vy: Varset, h: Byte)
    | GotoAdress(addr: Word)
    | RunSubroutineAtAdress(addr: Word)
    | ReturnFromSubroutine
    | SkipNextIfVarsEq(va: Varset, vb: Varset)
    | SkipNextIfVarEq(vs: Varset, val: Byte)
    | SkipNextIfVarsNeq(va: Varset, vb: Varset)
    | SkipNextIfVarNeq(vs: Varset, val: Byte)
    | VariableOnValue(vs: Varset, val: Byte, op: Operation)
    | VariableOnVariable(vs: Varset, vi: Varset, op: Operation)
    | SetITo(addr: Word)
    | IOnVariable(vs: Varset, op: Operation)
    | StoreVarAsDecimalInPositionI(vs: Varset)
    | DumpVariablesUptoInPositionI(vs: Varset)
    | LoadVariablesUptoFromPositionI(vs: Varset)

  /** The decoder's panics, one per `panic!` arm. */
  datatype DecodeError =
    | VarOnVarNotImplemented(opcode: Word)
    | KeyboardNotImplemented(opcode: Word)
    | VfNotAllowed(opcode: Word)
    | SpecialFunctionNotImplemented(opcode: Word)
    | OpcodeNotImplemented(opcode: Word)

  datatype Decoded = Ok(ins: Instruction) | Err(error: DecodeError)

  /** A handle the register bank can resolve: `V(k)` indexes a 16-entry array. */
  predicate Resolvable(vs: Varset)
  {
    vs.V? ==> vs.k < 16
  }

  /** Every register handle an instruction carries is resolvable. */
  predicate WellFormed(ins: Instruction)
  {
    match ins
    case DrawSpriteXYH(vx, vy, _) => Resolvable(vx) && Resolvable(vy)
    case SkipNextIfVarsEq(va, vb) => Resolvable(va) && Resolvable(vb)
    case SkipNextIfVarEq(vs, _) => Resolvable(vs)
    case SkipNextIfVarsNeq(va, vb) => Resolvable(va) && Resolvable(vb)
    case SkipNextIfVarNeq(vs, _) => Resolvable(vs)
    case VariableOnValue(vs, _, _) => Resolvable(vs)
    case VariableOnVariable(vs, vi, _) => Resolvable(vs) && Resolvable(vi)
    case IOnVariable(vs, _) => Resolvable(vs)
    case StoreVarAsDecimalInPositionI(vs) => Resolvable(vs)
    case DumpVariablesUptoInPositionI(vs) => Resolvable(vs)
    case LoadVariablesUptoFromPositionI(vs) => Resolvable(vs)
    case _ => true
  }

  /** The opcode with fields `f` (top nibble), `x`, `y` and `n` (low nibble). */
  function Compose(f: nat, x: nat, y: nat, n: nat): (op: Word)
    requires f < 16 && x < 16 && y < 16 && n < 16
  {
    f * 0x1000 + x * 0x100 + y * 0x10 + n
  }

  /** `opcode & 0xf000`, shifted down: the family nibble. */
  function Family(op: Word): (f: nat)
    ensures f < 16
  {
    op / 0x1000
  }

  /** `get_0x00`: `V((opcode & 0x0f00) >> 8)` */
  function GetX(op: Word): (r: Varset)
    ensures r.V? && r.k < 16
  {
    V(op / 0x100 % 0x10)
  }

  /** `get_00y0`: `V((opcode & 0x00f0) >> 4)` */
  function GetY(op: Word): (r: Varset)
    ensures r.V? && r.k < 16
  {
    V(op / 0x10 % 0x10)
  }

  /** `get_000n`: `opcode & 0x000f` */
  function GetN(op: Word): (r: Byte)
    ensures r <= 0xF
  {
    op % 0x10
  }

  /** `get_00nn`: `opcode & 0x00ff` */
  function GetNN(op: Word): (r: Byte)
    ensures r == GetY(op).k * 0x10 + GetN(op)
  {
    op % 0x100
  }

  /** `get_0nnn`: `opcode & 0x0fff` */
  function GetNNN(op: Word): (r: Word)
    ensures r <= 0xFFF
  {
    op % 0x1000
  }

  /** The extractors take an opcode apart into its four nibbles, and composing
      the nibbles gives the opcode back. */
  lemma FieldsRoundTrip(op: Word)
    ensures op == Compose(Family(op), GetX(op).k, GetY(op).k, GetN(op))
    ensures GetNN(op) == GetY(op).k * 0x10 + GetN(op)
    ensures GetNNN(op) == GetX(op).k * 0x100 + GetNN(op)
  {
    var f, nnn := op / 0x1000, op % 0x1000;
    var x, nn := nnn / 0x100, nnn % 0x100;
    var y, n := nn / 0x10, nn % 0x10;
    assert op == Compose(f, x, y, n);
    ComposeFields(f, x, y, n);
  }

  /** Extracting the fields of a composed opcode gives back its nibbles. */
  lemma ComposeFields(f: nat, x: nat, y: nat, n: nat)
    requires f < 16 && x < 16 && y < 16 && n < 16
    ensures Family(Compose(f, x, y, n)) == f
    ensures GetX(Compose(f, x, y, n)) == V(x)
    ensures GetY(Compose(f, x, y, n)) == V(y)
    ensures GetN(Compose(f, x, y, n)) == n
    ensures GetNN(Compose(f, x, y, n)) == y * 0x10 + n
    ensures GetNNN(Compose(f, x, y, n)) == x * 0x100 + y * 0x10 + n
  {
    var op := Compose(f, x, y, n);
    assert op / 0x1000 == f;
    assert op % 0x1000 == x * 0x100 + y * 0x10 + n;
    assert op / 0x100 == f * 0x10 + x;
    assert op % 0x100 == y * 0x10 + n;
    assert op / 0x10 == f * 0x100 + x * 0x10 + y;
  }

  /** `from_opcode`: the literal opcodes 0x00E0 and 0x00EE first, then the
      family nibble, then the low nibble (family 8) or low byte (E and F).
      Every instruction it produces carries resolvable handles only and a
      sprite height below 16; every error carries the opcode. */
  function Decode(op: Word): (r: Decoded)
    ensures r.Ok? ==> WellFormed(r.ins)
    ensures r.Ok? && r.ins.DrawSpriteXYH? ==> r.ins.h < 16
    ensures r.Err? ==> r.error.opcode == op
  {
    if op == 0x00E0 then Ok(ClearDraw)
    else if op == 0x00EE then Ok(ReturnFromSubroutine)
    else match Family(op)
      case 0x0 => Ok(RCARoutine(GetNNN(op)))
      case 0x1 => Ok(GotoAdress(GetNNN(op)))
      case 0x2 => Ok(RunSubroutineAtAdress(GetNNN(op)))
      case 0x3 => Ok(SkipNextIfVarEq(GetX(op), GetNN(op)))
      case 0x4 => Ok(SkipNextIfVarNeq(GetX(op), GetNN(op)))
      case 0x6 => Ok(VariableOnValue(GetX(op), GetNN(op), Set))
      case 0x7 => Ok(VariableOnValue(GetX(op), GetNN(op), IncrementNoCarry))
      case 0x8 =>
        (match GetN(op)
         case 0 => Ok(VariableOnVariable(GetX(op), GetY(op), Set))
         case 1 => Ok(VariableOnVariable(GetX(op), GetY(op), BitOr))
         case 2 => Ok(VariableOnVariable(GetX(op), GetY(op), BitAnd))
         case 3 => Ok(VariableOnVariable(GetX(op), GetY(op), BitXor))
         case 4 => Ok(VariableOnVariable(GetX(op), GetY(op), IncrementWithCarry))
         case 5 => Ok(VariableOnVariable(GetX(op), GetY(op), DecrementWithBorrow))
         case 6 => Ok(VariableOnVariable(GetX(op), GetY(op), BitshiftAndStore))
         case 7 => Ok(VariableOnVariable(GetX(op), GetY(op), DecrementAndFlip))
         case _ => Err(VarOnVarNotImplemented(op)))
      case 0x9 => Ok(SkipNextIfVarsNeq(GetX(op), GetY(op)))
      case 0xA => Ok(SetITo(GetNNN(op)))
      case 0xC => Ok(VariableOnValue(GetX(op), GetNN(op), Randomize))
      case 0xD => Ok(DrawSpriteXYH(GetX(op), GetY(op), GetN(op)))
      case 0xE =>
        (match GetNN(op)
         case 0x9E => Ok(SkipNextIfVarsEq(GetX(op), Keyboard))
         case 0xA1 => Ok(SkipNextIfVarsNeq(GetX(op), Keyboard))
         case _ => Err(KeyboardNotImplemented(op)))
      case 0xF =>
        (match GetNN(op)
         case 0x07 => Ok(VariableOnVariable(GetX(op), DelayTimer, Set))
         case 0x15 => Ok(VariableOnVariable(DelayTimer, GetX(op), Set))
         case 0x18 => Ok(VariableOnVariable(SoundTimer, GetX(op), Set))
         case 0x1E =>
           if GetX(op) == V(0xF) then Err(VfNotAllowed(op))
           else Ok(IOnVariable(GetX(op), IncrementNoCarry))
         case 0x29 => Ok(IOnVariable(GetX(op), SpriteMultiply))
         case 0x33 => Ok(StoreVarAsDecimalInPositionI(GetX(op)))
         case 0x55 => Ok(DumpVariablesUptoInPositionI(GetX(op)))
         case 0x65 => Ok(LoadVariablesUptoFromPositionI(GetX(op)))
         case _ => Err(SpecialFunctionNotImplemented(op)))
      case _ => Err(OpcodeNotImplemented(op))
  }

  /** The two literal opcodes are matched before the family dispatch; every
      other opcode of family 0 is an RCA routine call. */
  lemma DecodeFamilyZero(nnn: nat)
    requires nnn < 0x1000
    ensures Decode(0x00E0) == Ok(ClearDraw)
    ensures Decode(0x00EE) == Ok(ReturnFromSubroutine)
    ensures nnn != 0x0E0 && nnn != 0x0EE ==> Decode(nnn) == Ok(RCARoutine(nnn))
  {
  }

  /** Families 1, 2 and A carry the 12-bit address `nnn`. */
  lemma DecodeAddressFamilies(f: nat, x: nat, y: nat, n: nat)
    requires f in {0x1, 0x2, 0xA} && x < 16 && y < 16 && n < 16
    ensures f == 0x1 ==> Decode(Compose(f, x, y, n)) == Ok(GotoAdress(x * 0x100 + y * 0x10 + n))
    ensures f == 0x2 ==> Decode(Compose(f, x, y, n)) == Ok(RunSubroutineAtAdress(x * 0x100 + y * 0x10 + n))
    ensures f == 0xA ==> Decode(Compose(f, x, y, n)) == Ok(SetITo(x * 0x100 + y * 0x10 + n))
  {
    DecodeFamilyFields(f, x, y, n);
  }

  /** Families 3, 4, 6, 7 and C carry register `x` and the byte `nn`. */
  lemma DecodeImmediateFamilies(f: nat, x: nat, y: nat, n: nat)
    requires f in {0x3, 0x4, 0x6, 0x7, 0xC} && x < 16 && y < 16 && n < 16
    ensures f == 0x3 ==> Decode(Compose(f, x, y, n)) == Ok(SkipNextIfVarEq(V(x), y * 0x10 + n))
    ensures f == 0x4 ==> Decode(Compose(f, x, y, n)) == Ok(SkipNextIfVarNeq(V(x), y * 0x10 + n))
    ensures f == 0x6 ==> Decode(Compose(f, x, y, n)) == Ok(VariableOnValue(V(x), y * 0x10 + n, Set))
    ensures f == 0x7 ==> Decode(Compose(f, x, y, n)) == Ok(VariableOnValue(V(x), y * 0x10 + n, IncrementNoCarry))
    ensures f == 0xC ==> Decode(Compose(f, x, y, n)) == Ok(VariableOnValue(V(x), y * 0x10 + n, Randomize))
  {
    DecodeFamilyFields(f, x, y, n);
  }

  /** An opcode of a family above 0 is neither of the two literal opcodes,
      so the decoder dispatches on its family with the fields it was built
      from. */
  lemma DecodeFamilyFields(f: nat, x: nat, y: nat, n: nat)
    requires 0 < f < 16 && x < 16 && y < 16 && n < 16
    ensures var op := Compose(f, x, y, n);
            && op != 0x00E0 && op != 0x00EE && Family(op) == f
            && GetX(op) == V(x) && GetY(op) == V(y) && GetN(op) == n
            && GetNN(op) == y * 0x10 + n && GetNNN(op) == x * 0x100 + y * 0x10 + n
  {
    ComposeFields(f, x, y, n);
  }

  /** `8xyN` selects the operation by `N` in the order Set, BitOr, BitAnd,
      BitXor, IncrementWithCarry, DecrementWithBorrow, BitshiftAndStore,
      DecrementAndFlip; `N >= 8` is not implemented. `9xyN` ignores `N`. */
  lemma DecodeRegisterFamilies(x: nat, y: nat, n: nat)
    requires x < 16 && y < 16 && n < 16
    ensures n == 0 ==> Decode(Compose(0x8, x, y, n)) == Ok(VariableOnVariable(V(x), V(y), Set))
    ensures n == 1 ==> Decode(Compose(0x8, x, y, n)) == Ok(VariableOnVariable(V(x), V(y), BitOr))
    ensures n == 2 ==> Decode(Compose(0x8, x, y, n)) == Ok(VariableOnVariable(V(x), V(y), BitAnd))
    ensures n == 3 ==> Decode(Compose(0x8, x, y, n)) == Ok(VariableOnVariable(V(x), V(y), BitXor))
    ensures n == 4 ==> Decode(Compose(0x8, x, y, n)) == Ok(VariableOnVariable(V(x), V(y), IncrementWithCarry))
    ensures n == 5 ==> Decode(Compose(0x8, x, y, n)) == Ok(VariableOnVariable(V(x), V(y), DecrementWithBorrow))
    ensures n == 6 ==> Decode(Compose(0x8, x, y, n)) == Ok(VariableOnVariable(V(x), V(y), BitshiftAndStore))
    ensures n == 7 ==> Decode(Compose(0x8, x, y, n)) == Ok(VariableOnVariable(V(x), V(y), DecrementAndFlip))
    ensures n >= 8 ==> Decode(Compose(0x8, x, y, n)) == Err(VarOnVarNotImplemented(Compose(0x8, x, y, n)))
    ensures Decode(Compose(0x9, x, y, n)) == Ok(SkipNextIfVarsNeq(V(x), V(y)))
    ensures Decode(Compose(0xD, x, y, n)) == Ok(DrawSpriteXYH(V(x), V(y), n))
  {
    DecodeFamilyFields(0x8, x, y, n);
    DecodeFamilyFields(0x9, x, y, n);
    DecodeFamilyFields(0xD, x, y, n);
  }

  /** Families 5 and B have no arm and reach the final panic. */
  lemma DecodeMissingFamilies(op: Word)
    requires Family(op) == 0x5 || Family(op) == 0xB
    ensures Decode(op) == Err(OpcodeNotImplemented(op))
  {
  }

  /** `Ex9E` and `ExA1` compare register `x` with the keyboard byte; every other
      low byte of family E is not implemented. */
  lemma DecodeKeyboardFamily(x: nat, nn: nat)
    requires x < 16 && nn < 0x100
    ensures nn == 0x9E ==> Decode(0xE000 + x * 0x100 + nn) == Ok(SkipNextIfVarsEq(V(x), Keyboard))
    ensures nn == 0xA1 ==> Decode(0xE000 + x * 0x100 + nn) == Ok(SkipNextIfVarsNeq(V(x), Keyboard))
    ensures nn != 0x9E && nn != 0xA1 ==>
              Decode(0xE000 + x * 0x100 + nn) == Err(KeyboardNotImplemented(0xE000 + x * 0x100 + nn))
  {
    ComposeFields(0xE, x, nn / 0x10, nn % 0x10);
  }

  /** Family F: the timers are the source (`Fx07`) or the destination (`Fx15`,
      `Fx18`) of a Set; `Fx1E` refuses VF; `Fx29`, `Fx33`, `Fx55` and `Fx65`
      are the sprite address, the decimal store, the dump and the load. */
  lemma DecodeSpecialFamily(x: nat, nn: nat)
    requires x < 16 && nn < 0x100
    ensures nn == 0x07 ==> Decode(0xF000 + x * 0x100 + nn) == Ok(VariableOnVariable(V(x), DelayTimer, Set))
    ensures nn == 0x15 ==> Decode(0xF000 + x * 0x100 + nn) == Ok(VariableOnVariable(DelayTimer, V(x), Set))
    ensures nn == 0x18 ==> Decode(0xF000 + x * 0x100 + nn) == Ok(VariableOnVariable(SoundTimer, V(x), Set))
    ensures nn == 0x1E && x == 0xF ==> Decode(0xF000 + x * 0x100 + nn) == Err(VfNotAllowed(0xFF1E))
    ensures nn == 0x1E && x != 0xF ==> Decode(0xF000 + x * 0x100 + nn) == Ok(IOnVariable(V(x), IncrementNoCarry))
    ensures nn == 0x29 ==> Decode(0xF000 + x * 0x100 + nn) == Ok(IOnVariable(V(x), SpriteMultiply))
    ensures nn == 0x33 ==> Decode(0xF000 + x * 0x100 + nn) == Ok(StoreVarAsDecimalInPositionI(V(x)))
    ensures nn == 0x55 ==> Decode(0xF000 + x * 0x100 + nn) == Ok(DumpVariablesUptoInPositionI(V(x)))
    ensures nn == 0x65 ==> Decode(0xF000 + x * 0x100 + nn) == Ok(LoadVariablesUptoFromPositionI(V(x)))
    ensures nn !in {0x07, 0x15, 0x18, 0x1E, 0x29, 0x33, 0x55, 0x65} ==>
              Decode(0xF000 + x * 0x100 + nn) == Err(SpecialFunctionNotImplemented(0xF000 + x * 0x100 + nn))
  {
    ComposeFields(0xF, x, nn / 0x10, nn % 0x10);
  }
}
