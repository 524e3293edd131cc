/**
 * The Game Boy instruction values (gameboy/include/gameboy/Instruction.h).
 * Each instruction struct fixes its mnemonic in its constructor; the
 * register references it holds are modelled by the register's name, which
 * the arithmetic logic unit resolves against a register file.
 */
module GameboyInstruction {

  newtype uint8 = x: int | 0 <= x < 256

  datatype Mnemonic = NOP | STOP | HALT | EI | DI | INC | DEC | LD | ADD | ADC | SUB | SBC | AND | OR | XOR | CP

  /** The 8-bit registers an instruction can name. */
  datatype Reg8 = B | C | D | E | H | L | A

  /** The 16-bit register pairs and the stack pointer. */
  datatype Reg16 = BC | DE | HL | SP

  /** `AnyInstruction`, the variant of the 21 instruction structs, in declaration order. */
  datatype AnyInstruction =
    | NoOperation
    | Stop
    | Halt
    | EnableInterrupt
    | DisableInterrupt
    | LoadReg8Reg8(dst: Reg8, src: Reg8)
    | LoadReg8Immediate(reg: Reg8, immediate: uint8)
    | LoadMemoryReg8(reg: Reg8)
    | AddReg8Reg8(dst: Reg8, src: Reg8)
    | AddWithCarryReg8Reg8(dst: Reg8, src: Reg8)
    | SubtractReg8Reg8(dst: Reg8, src: Reg8)
    | SubtractWithCarryReg8Reg8(dst: Reg8, src: Reg8)
    | AndReg8Reg8(dst: Reg8, src: Reg8)
    | OrReg8Reg8(dst: Reg8, src: Reg8)
    | XorReg8Reg8(dst: Reg8, src: Reg8)
    | CompareReg8Reg8(dst: Reg8, src: Reg8)
    | IncrementReg8(reg: Reg8)
    | DecrementReg8(reg: Reg8)
    | IncrementReg16(reg16: Reg16)
    | DecrementReg16(reg16: Reg16)
    | AddReg16Reg16(dst16: Reg16, src16: Reg16)

  /**
   * The mnemonic each struct's constructor passes to `Instruction`. It
   * depends only on the kind of instruction: the control instructions have
   * their own, every load form is LD, both register widths of ADD, INC and
   * DEC share theirs, and each 8-bit arithmetic or logic struct has its own.
   */
  function MnemonicOf(i: AnyInstruction): (m: Mnemonic)
    ensures m == LD <==> i.LoadReg8Reg8? || i.LoadReg8Immediate? || i.LoadMemoryReg8?
    ensures m == ADD <==> i.AddReg8Reg8? || i.AddReg16Reg16?
    ensures m == INC <==> i.IncrementReg8? || i.IncrementReg16?
    ensures m == DEC <==> i.DecrementReg8? || i.DecrementReg16?
    ensures m == NOP <==> i.NoOperation?
    ensures m == STOP <==> i.Stop?
    ensures m == HALT <==> i.Halt?
    ensures m == EI <==> i.EnableInterrupt?
    ensures m == DI <==> i.DisableInterrupt?
    ensures m == ADC <==> i.AddWithCarryReg8Reg8?
    ensures m == SUB <==> i.SubtractReg8Reg8?
    ensures m == SBC <==> i.SubtractWithCarryReg8Reg8?
    ensures m == AND <==> i.AndReg8Reg8?
    ensures m == OR <==> i.OrReg8Reg8?
    ensures m == XOR <==> i.XorReg8Reg8?
    ensures m == CP <==> i.CompareReg8Reg8?
  {
    match i
    case NoOperation => NOP
    case Stop => STOP
    case Halt => HALT
    case EnableInterrupt => EI
    case DisableInterrupt => DI
    case LoadReg8Reg8(_, _) => LD
    case LoadReg8Immediate(_, _) => LD
    case LoadMemoryReg8(_) => LD
    case AddReg8Reg8(_, _) => ADD
    case AddWithCarryReg8Reg8(_, _) => ADC
    case SubtractReg8Reg8(_, _) => SUB
    case SubtractWithCarryReg8Reg8(_, _) => SBC
    case AndReg8Reg8(_, _) => AND
    case OrReg8Reg8(_, _) => OR
    case XorReg8Reg8(_, _) => XOR
    case CompareReg8Reg8(_, _) => CP
    case IncrementReg8(_) => INC
    case DecrementReg8(_) => DEC
    case IncrementReg16(_) => INC
    case DecrementReg16(_) => DEC
    case AddReg16Reg16(_, _) => ADD
  }

  /** `AnyInstruction::index()`: the position of the active alternative. */
  function Index(i: AnyInstruction): (n: nat)
    ensures n < 21
  {
    match i
    case NoOperation => 0
    case Stop => 1
    case Halt => 2
    case EnableInterrupt => 3
    case DisableInterrupt => 4
    case LoadReg8Reg8(_, _) => 5
    case LoadReg8Immediate(_, _) => 6
    case LoadMemoryReg8(_) => 7
    case AddReg8Reg8(_, _) => 8
    case AddWithCarryReg8Reg8(_, _) => 9
    case SubtractReg8Reg8(_, _) => 10
    case SubtractWithCarryReg8Reg8(_, _) => 11
    case AndReg8Reg8(_, _) => 12
    case OrReg8Reg8(_, _) => 13
    case XorReg8Reg8(_, _) => 14
    case CompareReg8Reg8(_, _) => 15
    case IncrementReg8(_) => 16
    case DecrementReg8(_) => 17
    case IncrementReg16(_) => 18
    case DecrementReg16(_) => 19
    case AddReg16Reg16(_, _) => 20
  }

  /** An instruction of each alternative. */
  function Representative(n: nat): (i: AnyInstruction)
    requires n < 21
    ensures Index(i) == n
  {
    if n == 0 then NoOperation
    else if n == 1 then Stop
    else if n == 2 then Halt
    else if n == 3 then EnableInterrupt
    else if n == 4 then DisableInterrupt
    else if n == 5 then LoadReg8Reg8(A, A)
    else if n == 6 then LoadReg8Immediate(A, 0)
    else if n == 7 then LoadMemoryReg8(A)
    else if n == 8 then AddReg8Reg8(A, A)
    else if n == 9 then AddWithCarryReg8Reg8(A, A)
    else if n == 10 then SubtractReg8Reg8(A, A)
    else if n == 11 then SubtractWithCarryReg8Reg8(A, A)
    else if n == 12 then AndReg8Reg8(A, A)
    else if n == 13 then OrReg8Reg8(A, A)
    else if n == 14 then XorReg8Reg8(A, A)
    else if n == 15 then CompareReg8Reg8(A, A)
    else if n == 16 then IncrementReg8(A)
    else if n == 17 then DecrementReg8(A)
    else if n == 18 then IncrementReg16(BC)
    else if n == 19 then DecrementReg16(BC)
    else AddReg16Reg16(HL, BC)
  }

  /**
   * The variant is a closed sum of exactly 21 alternatives: every index
   * below 21 is taken, and instructions with the same index carry the
   * same mnemonic.
   */
  lemma TwentyOneAlternatives(x: AnyInstruction, y: AnyInstruction)
    ensures forall n :: 0 <= n < 21 ==> Index(Representative(n)) == n
    ensures Index(x) == Index(y) ==> MnemonicOf(x) == MnemonicOf(y)
  {
  }
}
