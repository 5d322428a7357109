/** The memory image of `src/cartridge.rs`: 0xF00 bytes holding the font table
    at address 0 and the program from address 0x200, with `fin`, the address
    just past the last program byte. Reading the font and ROM files is left to
    the caller, who hands over the bytes those reads delivered. */
module Cartridges {
  import opened Words

  const MEMORY_SIZE: nat := 0xF00
  const CARTRIDGE_START: nat := 0x200

  /** `get_opcode_from` returns `Err` past `fin`; indexing past the array is
      a panic. */
  datatype FetchError = EndOfFile | IndexOutOfBounds

  datatype Fetched = Opcode(op: Word) | Failed(error: FetchError)

  /** The image the constructor builds: zeroes, overwritten by the font bytes
      from address 0, then by the program bytes from address 0x200. */
  function LoadImage(fonts: seq<Byte>, program: seq<Byte>): (mem: seq<Byte>)
    requires |fonts| <= MEMORY_SIZE && |program| <= MEMORY_SIZE - CARTRIDGE_START
    ensures |mem| == MEMORY_SIZE
    ensures mem[CARTRIDGE_START..CARTRIDGE_START + |program|] == program
    ensures forall a :: 0 <= a < MEMORY_SIZE && !(CARTRIDGE_START <= a < CARTRIDGE_START + |program|) ==>
              mem[a] == (if a < |fonts| then fonts[a] else 0)
  {
    seq(MEMORY_SIZE, a requires 0 <= a < MEMORY_SIZE =>
      if CARTRIDGE_START <= a < CARTRIDGE_START + |program| then program[a - CARTRIDGE_START]
      else if a < |fonts| then fonts[a]
      else 0)
  }

  class Cartridge {
    var memory: array<Byte>
    var fin: Word

    ghost predicate Valid()
      reads this
    {
      memory.Length == MEMORY_SIZE && CARTRIDGE_START <= fin <= MEMORY_SIZE
    }

    /** `Cartridge::new`, given the bytes the two file reads delivered: at most
        the whole array for the fonts, at most the 0xD00 bytes from 0x200 on
        for the program. */
    constructor (fonts: seq<Byte>, program: seq<Byte>)
      requires |fonts| <= MEMORY_SIZE && |program| <= MEMORY_SIZE - CARTRIDGE_START
      ensures Valid() && fresh(memory)
      ensures memory[..] == LoadImage(fonts, program)
      ensures fin == CARTRIDGE_START + |program|
    {
      var m := new Byte[MEMORY_SIZE](_ => 0);
      forall a | 0 <= a < |fonts| {
        m[a] := fonts[a];
      }
      forall a | CARTRIDGE_START <= a < CARTRIDGE_START + |program| {
        m[a] := program[a - CARTRIDGE_START];
      }
      memory := m;
      fin := CARTRIDGE_START + |program|;
    }

    /** `start`: where programs are loaded. */
    function Start(): (r: Word)
      reads this
      requires Valid()
      ensures r == CARTRIDGE_START && r <= Len()
    {
      CARTRIDGE_START
    }

    /** `len`: the recorded end of the program. */
    function Len(): (r: Word)
      reads this
      requires Valid()
      ensures CARTRIDGE_START <= r <= MEMORY_SIZE
    {
      fin
    }

    /** `set_memory`; an address past the array panics (`ok == false`). */
    method SetMemory(address: Word, val: Byte) returns (ok: bool)
      requires Valid()
      modifies memory
      ensures Valid()
      ensures ok <==> address < MEMORY_SIZE
      ensures ok ==> memory[..] == old(memory[..])[address := val]
      ensures !ok ==> memory[..] == old(memory[..])
    {
      if address >= MEMORY_SIZE {
        return false;
      }
      memory[address] := val;
      ok := true;
    }

    /** `get_memory`; an address past the array panics (`None`). */
    function GetMemory(address: Word): (r: Option<Byte>)
      reads this, memory
      requires Valid()
      ensures r.Some? <==> address < MEMORY_SIZE
      ensures r.Some? ==> r.value == memory[address]
    {
      if address < MEMORY_SIZE then Some(memory[address]) else None
    }

    /** `get_opcode_from`: `Err` exactly past `fin` (so `fin` itself is
        accepted); otherwise the big-endian word of the two bytes at the
        address, which panics when the second byte lies past the array. */
    function GetOpcodeFrom(address: Word): (r: Fetched)
      reads this, memory
      requires Valid()
      ensures r == Failed(EndOfFile) <==> address > fin
      ensures r == Failed(IndexOutOfBounds) <==> address <= fin && address + 1 >= MEMORY_SIZE
      ensures r.Opcode? ==> r.op / 0x100 == memory[address] && r.op % 0x100 == memory[address + 1]
    {
      if address > fin then Failed(EndOfFile)
      else if address + 1 >= MEMORY_SIZE then Failed(IndexOutOfBounds)
      else Opcode(FromBeBytes(memory[address], memory[address + 1]))
    }
  }
}
