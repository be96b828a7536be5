/** The bus the ARM core drives, idealised as plain word-organised little-endian memory. */
module ArmMemory {
  import opened Words

  /** Aligned words by address / 4; words never written read as zero. */
  type Memory = map<nat, uint32>

  function Word(m: Memory, addr: uint32): uint32 {
    if addr / 4 in m then m[addr / 4] else 0
  }

  function Lane(k: nat): (weight: nat)
    requires k < 4
    ensures weight > 0
  {
    if k == 0 then 1 else if k == 1 then 0x100 else if k == 2 then 0x1_0000 else 0x100_0000
  }

  /** `word` with the `size`-valued lane of weight `weight` replaced. */
  function WithLane(word: uint32, weight: nat, size: nat, value: nat): uint32
    requires weight == 1 || weight == 0x100 || weight == 0x1_0000 || weight == 0x100_0000
    requires size == 0x100 || (size == 0x1_0000 && (weight == 1 || weight == 0x1_0000))
    requires value < size
  {
    word - word / weight % size * weight + value * weight
  }

  function ByteAt(m: Memory, addr: uint32): uint8 {
    Word(m, addr) / Lane(addr % 4) % 0x100
  }

  function HalfAt(m: Memory, addr: uint32): uint16 {
    Word(m, addr) / Lane(addr % 4 / 2 * 2) % 0x1_0000
  }

  function WithByte(m: Memory, addr: uint32, value: uint8): Memory {
    m[addr / 4 := WithLane(Word(m, addr), Lane(addr % 4), 0x100, value)]
  }

  function WithHalf(m: Memory, addr: uint32, value: uint16): Memory {
    m[addr / 4 := WithLane(Word(m, addr), Lane(addr % 4 / 2 * 2), 0x1_0000, value)]
  }

  class Bus {
    var memory: Memory

    /** `read32(addr & !3)`. */
    method Read32(addr: uint32) returns (value: uint32)
      ensures value == Word(memory, addr)
    {
      value := Word(memory, addr);
    }

    /** `write32(addr & !3, value)`. */
    method Write32(addr: uint32, value: uint32)
      modifies this
      ensures memory == old(memory)[addr / 4 := value]
    {
      memory := memory[addr / 4 := value];
    }

    method Read8(addr: uint32) returns (value: uint8)
      ensures value == ByteAt(memory, addr)
    {
      value := Word(memory, addr) / Lane(addr % 4) % 0x100;
    }

    method Write8(addr: uint32, value: uint8)
      modifies this
      ensures memory == WithByte(old(memory), addr, value)
    {
      memory := memory[addr / 4 := WithLane(Word(memory, addr), Lane(addr % 4), 0x100, value)];
    }

    /** `read16(addr & !1)`. */
    method Read16(addr: uint32) returns (value: uint16)
      ensures value == HalfAt(memory, addr)
    {
      value := Word(memory, addr) / Lane(addr % 4 / 2 * 2) % 0x1_0000;
    }

    /** `write16(addr & !1, value)`. */
    method Write16(addr: uint32, value: uint16)
      modifies this
      ensures memory == WithHalf(old(memory), addr, value)
    {
      memory := memory[addr / 4 := WithLane(Word(memory, addr), Lane(addr % 4 / 2 * 2), 0x1_0000, value)];
    }
  }
}
