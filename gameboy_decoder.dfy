/**
 * `InstructionDecoder::decode` (gameboy/include/gameboy/InstructionDecoder.h):
 * one opcode byte to an instruction. The switch's cases follow the opcode
 * map's bit fields, which `Decode` reads directly: bits 5..3 select the
 * destination register (or, for 0x80 to 0xBF, the operation) and bits 2..0
 * the source register. A byte the switch does not list reaches
 * `assert(false)`; it decodes to `None` here. The register file argument
 * is only used to bind references and is not an input of the model.
 */
module GameboyDecoder {
  import opened Wrappers
  import opened GameboyInstruction

  /** The register field encoding B, C, D, E, H, L, (HL), A; 6 names memory and is not decoded. */
  function RegisterAt(k: int): (r: Option<Reg8>)
    requires 0 <= k < 8
    ensures r.None? <==> k == 6
  {
    if k == 0 then Some(B)
    else if k == 1 then Some(C)
    else if k == 2 then Some(D)
    else if k == 3 then Some(E)
    else if k == 4 then Some(H)
    else if k == 5 then Some(L)
    else if k == 6 then None
    else Some(A)
  }

  /** The field value of a register: the inverse of `RegisterAt`. */
  function Code(r: Reg8): (k: int)
    ensures 0 <= k < 8 && k != 6 && RegisterAt(k) == Some(r)
  {
    match r
    case B => 0
    case C => 1
    case D => 2
    case E => 3
    case H => 4
    case L => 5
    case A => 7
  }

  /** The 8-bit accumulator operations of rows 0x80 to 0xBF, selected by bits 5..3. */
  function AluOperation(op: int, src: Reg8): (i: AnyInstruction)
    requires 0 <= op < 8
  {
    if op == 0 then AddReg8Reg8(A, src)
    else if op == 1 then AddWithCarryReg8Reg8(A, src)
    else if op == 2 then SubtractReg8Reg8(A, src)
    else if op == 3 then SubtractWithCarryReg8Reg8(A, src)
    else if op == 4 then AndReg8Reg8(A, src)
    else if op == 5 then XorReg8Reg8(A, src)
    else if op == 6 then OrReg8Reg8(A, src)
    else CompareReg8Reg8(A, src)
  }

  /** `decode(byte, registers)`; `None` for the bytes that reach `assert(false)`. */
  function Decode(byte: uint8): Option<AnyInstruction>
  {
    var b := byte as int;
    if b == 0x00 then Some(NoOperation)
    else if b < 0x40 then
      var reg := RegisterAt(b / 8);
      if reg.None? then None
      else if b % 8 == 4 then Some(IncrementReg8(reg.value))
      else if b % 8 == 5 then Some(DecrementReg8(reg.value))
      else if b % 8 == 6 then Some(LoadReg8Immediate(reg.value, 0xff))
      else None
    else if b < 0x80 then
      var dst, src := RegisterAt(b / 8 - 8), RegisterAt(b % 8);
      if dst.None? || src.None? then None
      else Some(LoadReg8Reg8(dst.value, src.value))
    else if b < 0xC0 then
      var src := RegisterAt(b % 8);
      if src.None? then None
      else Some(AluOperation(b / 8 - 16, src.value))
    else None
  }

  /**
   * The opcode an instruction is encoded as, for the instructions the
   * decoder produces: the 8-bit register forms with A as the arithmetic
   * destination and the placeholder immediate 0xff.
   */
  function Encode(i: AnyInstruction): Option<uint8>
  {
    match i
    case NoOperation => Some(0x00)
    case IncrementReg8(r) => Some((0x04 + 8 * Code(r)) as uint8)
    case DecrementReg8(r) => Some((0x05 + 8 * Code(r)) as uint8)
    case LoadReg8Immediate(r, n) => if n == 0xff then Some((0x06 + 8 * Code(r)) as uint8) else None
    case LoadReg8Reg8(d, s) => Some((0x40 + 8 * Code(d) + Code(s)) as uint8)
    case AddReg8Reg8(d, s) => if d == A then Some((0x80 + Code(s)) as uint8) else None
    case AddWithCarryReg8Reg8(d, s) => if d == A then Some((0x88 + Code(s)) as uint8) else None
    case SubtractReg8Reg8(d, s) => if d == A then Some((0x90 + Code(s)) as uint8) else None
    case SubtractWithCarryReg8Reg8(d, s) => if d == A then Some((0x98 + Code(s)) as uint8) else None
    case AndReg8Reg8(d, s) => if d == A then Some((0xA0 + Code(s)) as uint8) else None
    case XorReg8Reg8(d, s) => if d == A then Some((0xA8 + Code(s)) as uint8) else None
    case OrReg8Reg8(d, s) => if d == A then Some((0xB0 + Code(s)) as uint8) else None
    case CompareReg8Reg8(d, s) => if d == A then Some((0xB8 + Code(s)) as uint8) else None
    case _ => None
  }

  lemma DivMod8(q: int, s: int)
    requires 0 <= s < 8
    ensures (8 * q + s) / 8 == q && (8 * q + s) % 8 == s
  {
  }

  lemma CodeOfRegisterAt(k: int)
    requires 0 <= k < 8 && k != 6
    ensures Code(RegisterAt(k).value) == k
  {
  }

  /** Encoding inverts decoding on rows 0x00 to 0x3F. */
  lemma {:induction false} EncodeDecodedLow(byte: uint8)
    requires byte < 0x40 && Decode(byte).Some?
    ensures Encode(Decode(byte).value) == Some(byte)
  {
    var b := byte as int;
    if b > 0 {
      DivMod8(b / 8, b % 8);
      CodeOfRegisterAt(b / 8);
    }
  }

  /** Encoding inverts decoding on rows 0x40 to 0x7F. */
  lemma {:induction false} EncodeDecodedLoad(byte: uint8)
    requires 0x40 <= byte < 0x80 && Decode(byte).Some?
    ensures Encode(Decode(byte).value) == Some(byte)
  {
    var b := byte as int;
    CodeOfRegisterAt(b / 8 - 8);
    CodeOfRegisterAt(b % 8);
  }

  /** Encoding inverts decoding on rows 0x80 to 0xBF. */
  lemma {:induction false} EncodeDecodedAlu(byte: uint8)
    requires 0x80 <= byte < 0xC0 && Decode(byte).Some?
    ensures Encode(Decode(byte).value) == Some(byte)
  {
    var b := byte as int;
    CodeOfRegisterAt(b % 8);
    var op := b / 8 - 16;
    assert b == 0x80 + 8 * op + b % 8;
  }

  /** Encoding inverts decoding: every byte the switch decodes is the opcode of its instruction. */
  lemma {:induction false} EncodeDecoded(byte: uint8)
    ensures Decode(byte).Some? ==> Encode(Decode(byte).value) == Some(byte)
  {
    if Decode(byte).Some? {
      if byte < 0x40 {
        EncodeDecodedLow(byte);
      } else if byte < 0x80 {
        EncodeDecodedLoad(byte);
      } else {
        EncodeDecodedAlu(byte);
      }
    }
  }

  /** The 8-bit arithmetic and logic forms decode back from their opcode. */
  lemma {:induction false} DecodeEncodedAlu(i: AnyInstruction)
    requires Encode(i).Some? && (i.AddReg8Reg8? || i.AddWithCarryReg8Reg8? || i.SubtractReg8Reg8? || i.SubtractWithCarryReg8Reg8?
      || i.AndReg8Reg8? || i.XorReg8Reg8? || i.OrReg8Reg8? || i.CompareReg8Reg8?)
    ensures Decode(Encode(i).value) == Some(i)
  {
    var op := Index(i) - 8;
    var op' := if op == 5 then 6 else if op == 6 then 5 else op;
    assert Encode(i).value as int == 0x80 + 8 * op' + Code(i.src);
    DivMod8(16 + op', Code(i.src));
  }

  /** Decoding inverts encoding: every encodable instruction decodes back from its opcode. */
  lemma {:induction false} DecodeEncoded(i: AnyInstruction)
    ensures Encode(i).Some? ==> Decode(Encode(i).value) == Some(i)
  {
    if Encode(i).Some? {
      match i
      case NoOperation =>
      case IncrementReg8(r) => DivMod8(Code(r), 4);
      case DecrementReg8(r) => DivMod8(Code(r), 5);
      case LoadReg8Immediate(r, _) => DivMod8(Code(r), 6);
      case LoadReg8Reg8(d, s) => DivMod8(8 + Code(d), Code(s));
      case _ => DecodeEncodedAlu(i);
    }
  }

  /** The opcode map in the decoder's header: `#` marks a byte the switch decodes. */
  const OpcodeMap: seq<string> := [
    "#   ###     ### ",
    "    ###     ### ",
    "    ###     ### ",
    "            ### ",
    "###### ####### #",
    "###### ####### #",
    "###### ####### #",
    "        ###### #",
    "###### ####### #",
    "###### ####### #",
    "###### ####### #",
    "###### ####### #",
    "                ",
    "                ",
    "                ",
    "                "
  ]

  predicate Marked(byte: uint8)
  {
    |OpcodeMap| == 16 && |OpcodeMap[byte as int / 16]| == 16 && OpcodeMap[byte as int / 16][byte as int % 16] == '#'
  }

  lemma Sixteen(c: int)
    requires 0 <= c < 16
    ensures c == 0 || c == 1 || c == 2 || c == 3 || c == 4 || c == 5 || c == 6 || c == 7
         || c == 8 || c == 9 || c == 10 || c == 11 || c == 12 || c == 13 || c == 14 || c == 15
  {
  }

  /** Rows 0x0x to 0x3x of the map agree with the decoder. */
  lemma {:induction false} LowRowsAgree(byte: uint8)
    requires byte < 0x40
    ensures Decode(byte).Some? <==> Marked(byte)
  {
    Sixteen(byte as int % 16);
    Sixteen(byte as int / 16);
  }

  /** Rows 0x4x to 0x7x of the map agree with the decoder. */
  lemma {:induction false} LoadRowsAgree(byte: uint8)
    requires 0x40 <= byte < 0x80
    ensures Decode(byte).Some? <==> Marked(byte)
  {
    Sixteen(byte as int % 16);
    Sixteen(byte as int / 16);
  }

  /** Rows 0x8x to 0xBx of the map agree with the decoder. */
  lemma {:induction false} AluRowsAgree(byte: uint8)
    requires 0x80 <= byte < 0xC0
    ensures Decode(byte).Some? <==> Marked(byte)
  {
    Sixteen(byte as int % 16);
    Sixteen(byte as int / 16);
  }

  /** Rows 0xCx to 0xFx of the map agree with the decoder. */
  lemma {:induction false} HighRowsAgree(byte: uint8)
    requires 0xC0 <= byte
    ensures Decode(byte).Some? <==> Marked(byte)
  {
    Sixteen(byte as int % 16);
    Sixteen(byte as int / 16);
  }

  /** The decoded opcodes are exactly the marked cells of the opcode map. */
  lemma {:induction false} DecodesExactlyTheMap(byte: uint8)
    ensures Decode(byte).Some? <==> Marked(byte)
  {
    if byte < 0x40 {
      LowRowsAgree(byte);
    } else if byte < 0x80 {
      LoadRowsAgree(byte);
    } else if byte < 0xC0 {
      AluRowsAgree(byte);
    } else {
      HighRowsAgree(byte);
    }
  }

  /**
   * Rows 0x40 to 0x7F load register bits 5..3 from register bits 2..0;
   * rows 0x80 to 0xBF apply the operation in bits 5..3 to A and register
   * bits 2..0; in both the field value 6 (memory through HL) is not decoded.
   */
  lemma RegisterFields(byte: uint8)
    ensures 0x40 <= byte < 0x80 ==>
      (Decode(byte).Some? <==> byte as int / 8 % 8 != 6 && byte as int % 8 != 6)
      && (Decode(byte).Some? ==>
            Decode(byte).value.LoadReg8Reg8?
            && Code(Decode(byte).value.dst) == byte as int / 8 % 8 && Code(Decode(byte).value.src) == byte as int % 8)
    ensures 0x80 <= byte < 0xC0 ==>
      (Decode(byte).Some? <==> byte as int % 8 != 6)
      && (Decode(byte).Some? ==> Decode(byte).value.dst == A && Code(Decode(byte).value.src) == byte as int % 8)
  {
  }

  /** The ALU rows choose ADD, ADC, SUB, SBC, AND, XOR, OR, CP in that order of bits 5..3. */
  lemma AluOrder(byte: uint8)
    requires 0x80 <= byte < 0xC0 && byte as int % 8 != 6
    ensures var m := MnemonicOf(Decode(byte).value);
      m == [ADD, ADC, SUB, SBC, AND, XOR, OR, CP][byte as int / 8 % 8]
  {
    var op, src := byte as int / 8 - 16, RegisterAt(byte as int % 8).value;
    assert Decode(byte) == Some(AluOperation(op, src));
    AluMnemonics(op, src);
  }

  lemma AluMnemonics(op: int, src: Reg8)
    requires 0 <= op < 8
    ensures MnemonicOf(AluOperation(op, src)) == [ADD, ADC, SUB, SBC, AND, XOR, OR, CP][op]
  {
  }

  /** The seven immediate loads carry the placeholder 0xff; INC and DEC sit at 0x04 + 8k and 0x05 + 8k. */
  lemma LowRows(k: int)
    requires 0 <= k < 8 && k != 6
    ensures Decode((0x06 + 8 * k) as uint8) == Some(LoadReg8Immediate(RegisterAt(k).value, 0xff))
    ensures Decode((0x04 + 8 * k) as uint8) == Some(IncrementReg8(RegisterAt(k).value))
    ensures Decode((0x05 + 8 * k) as uint8) == Some(DecrementReg8(RegisterAt(k).value))
  {
  }

  /** 0x00 is NOP; 0x70 to 0x77 and every byte from 0xC0 are not decoded. */
  lemma NotDecoded(byte: uint8)
    ensures byte == 0x00 ==> Decode(byte) == Some(NoOperation)
    ensures 0x70 <= byte < 0x78 || 0xC0 <= byte ==> Decode(byte).None?
  {
  }
}
