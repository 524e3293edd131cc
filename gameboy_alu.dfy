/**
 * `ArithmeticLogicUnit` (gameboy/include/gameboy/ArithmeticLogicUnit.h):
 * executes an instruction on the registers its references name. The
 * register file is a class with one field per 8-bit register; the
 * instructions name registers, and executing one writes the named field.
 */
module GameboyAlu {
  import opened GameboyInstruction

  /** The seven 8-bit registers instructions can name. */
  class Registers {
    var a: uint8
    var b: uint8
    var c: uint8
    var d: uint8
    var e: uint8
    var h: uint8
    var l: uint8

    constructor ()
      ensures forall r :: Get(r) == 0
    {
      a, b, c, d, e, h, l := 0, 0, 0, 0, 0, 0, 0;
    }

    /** The value of the register a reference names. */
    function Get(r: Reg8): uint8
      reads this
    {
      match r
      case A => a
      case B => b
      case C => c
      case D => d
      case E => e
      case H => h
      case L => l
    }

    /** Assignment through a register reference: that register changes and no other. */
    method Set(r: Reg8, value: uint8)
      modifies this
      ensures Get(r) == value
      ensures forall other :: other != r ==> Get(other) == old(Get(other))
    {
      match r
      case A => a := value;
      case B => b := value;
      case C => c := value;
      case D => d := value;
      case E => e := value;
      case H => h := value;
      case L => l := value;
    }
  }

  /**
   * The alternatives the header gives an `Execute` overload: NOP, the
   * three loads, and 8-bit ADD, SUB, ADC and SBC. Only these can be visited.
   */
  predicate HasOverload(i: AnyInstruction)
  {
    i.NoOperation? || i.LoadReg8Reg8? || i.LoadReg8Immediate? || i.LoadMemoryReg8?
    || i.AddReg8Reg8? || i.SubtractReg8Reg8? || i.AddWithCarryReg8Reg8? || i.SubtractWithCarryReg8Reg8?
  }

  /** `Execute(LoadReg8Reg8&)`: the destination takes the source's value. */
  method ExecuteLoad(registers: Registers, dst: Reg8, src: Reg8)
    modifies registers
    ensures registers.Get(dst) == old(registers.Get(src))
    ensures forall r :: r != dst ==> registers.Get(r) == old(registers.Get(r))
  {
    registers.Set(dst, registers.Get(src));
  }

  /**
   * `Execute(AnyInstruction&)`: dispatch on the active alternative. Only
   * the register-to-register load has a body; the immediate and memory
   * loads and ADD, SUB, ADC and SBC have their bodies commented out and
   * change nothing, like NOP.
   */
  method Execute(registers: Registers, instruction: AnyInstruction)
    requires HasOverload(instruction)
    modifies registers
    ensures instruction.LoadReg8Reg8? ==>
      registers.Get(instruction.dst) == old(registers.Get(instruction.src))
      && forall r :: r != instruction.dst ==> registers.Get(r) == old(registers.Get(r))
    ensures !instruction.LoadReg8Reg8? ==> forall r :: registers.Get(r) == old(registers.Get(r))
  {
    match instruction
    case LoadReg8Reg8(dst, src) => ExecuteLoad(registers, dst, src);
    case _ =>
  }

  /** `LD B,A` then `LD C,B` copies A into B and C and leaves A unchanged. */
  method CopyAccumulator(registers: Registers)
    modifies registers
    ensures registers.Get(B) == old(registers.Get(A)) && registers.Get(C) == old(registers.Get(A))
    ensures registers.Get(A) == old(registers.Get(A))
  {
    Execute(registers, LoadReg8Reg8(B, A));
    Execute(registers, LoadReg8Reg8(C, B));
  }
}
