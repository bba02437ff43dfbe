/** The sound memory that the processor and the sample engine share. */
module Aram {
  import opened Bits

  /** The memory proper, and the eight bytes that lie behind the array: the streaming BRR
      decoder's index is an int, which does not wrap with the 16-bit address it starts from. */
  const ARAM_SIZE := 0x1_0000
  const SPILL := 8

  ghost predicate IsMemory(mem: seq<u8>) { |mem| == ARAM_SIZE + SPILL }

  /** A little-endian word, the address of its high byte wrapping. */
  function Word(mem: seq<u8>, a: u16): u16
    requires IsMemory(mem)
  {
    (mem[Wrap16(a + 1)] as int) * 0x100 + mem[a]
  }

  function WithWord(mem: seq<u8>, a: u16, val: u16): (r: seq<u8>)
    requires IsMemory(mem)
    ensures IsMemory(r)
  {
    mem[Wrap16(a + 1) := val / 0x100][a := val % 0x100]
  }

  /** The low byte of a word is the one it is addressed by, the high byte the next, with $0000
      after $ffff; a word stored is read back, and every other byte stays. */
  lemma WordsAreLittleEndian(mem: seq<u8>, a: u16, val: u16, x: nat)
    requires IsMemory(mem) && x < |mem| && x != a && x != (a + 1) % 0x1_0000
    ensures Word(mem, a) % 0x100 == mem[a] && Word(mem, a) / 0x100 == mem[(a + 1) % 0x1_0000]
    ensures Word(WithWord(mem, a, val), a) == val && WithWord(mem, a, val)[x] == mem[x]
  {
  }
}
