/** The A64 encodings field by field, as sections C4.1 and C6.2 of the Arm Architecture Reference
    Manual lay them out, and what the decoder makes of them. */
module Arm64Encoding {
  import opened Words
  import opened Arm64
  import opened Arm64Machine

  /** The fields of an instruction word, from its highest bit down. */
  datatype Layout =
    | ImmediateBranch(op: int, imm26: int)
    | ConditionalBranch(imm19: int, cond: int)
    | ComparingBranch(sf: int, op: int, imm19: int, rt: int)
    | TestingBranch(b5: int, op: int, b40: int, imm14: int, rt: int)
    | PcAddress(op: int, immlo: int, immhi: int, rd: int)
    | PcLoad(opc: int, v: int, imm19: int, rt: int)
    | RegisterBranch(opc: int, rn: int)
    | WideMove(opc: int, hw: int, imm16: int, rd: int)
    | OffsetLoad(size: int, opc: int, rn: int, rt: int)
    | HintSpace(number: int)

  /** The ranges that the widths of the fields leave. */
  predicate Fields(l: Layout) {
    match l
    case ImmediateBranch(op, imm26) => 0 <= op < 2 && 0 <= imm26 < 0x400_0000
    case ConditionalBranch(imm19, cond) => 0 <= imm19 < 0x8_0000 && 0 <= cond < 16
    case ComparingBranch(sf, op, imm19, rt) => 0 <= sf < 2 && 0 <= op < 2 && 0 <= imm19 < 0x8_0000 && 0 <= rt < 32
    case TestingBranch(b5, op, b40, imm14, rt) =>
      0 <= b5 < 2 && 0 <= op < 2 && 0 <= b40 < 32 && 0 <= imm14 < 0x4000 && 0 <= rt < 32
    case PcAddress(op, immlo, immhi, rd) =>
      0 <= op < 2 && 0 <= immlo < 4 && 0 <= immhi < 0x8_0000 && 0 <= rd < 32
    case PcLoad(opc, v, imm19, rt) => 0 <= opc < 4 && 0 <= v < 2 && 0 <= imm19 < 0x8_0000 && 0 <= rt < 32
    case RegisterBranch(opc, rn) => 0 <= opc < 3 && 0 <= rn < 32
    case WideMove(opc, hw, imm16, rd) => opc in {2, 3} && 0 <= hw < 4 && 0 <= imm16 < 0x1_0000 && 0 <= rd < 32
    case OffsetLoad(size, opc, rn, rt) =>
      (size, opc) in {(2, 1), (3, 1), (2, 2)} && 0 <= rn < 31 && 0 <= rt < 32
    case HintSpace(number) => number in {0, 34}
  }

  /** The word: each field at its lowest bit, between the fixed bits of its class. */
  function Bits(l: Layout): (w: Word)
    requires Fields(l)
  {
    match l
    // op 00101 imm26
    case ImmediateBranch(op, imm26) => op * 0x8000_0000 + 0x1400_0000 + imm26
    // 01010100 imm19 0 cond
    case ConditionalBranch(imm19, cond) => 0x5400_0000 + imm19 * 32 + cond
    // sf 011010 op imm19 Rt
    case ComparingBranch(sf, op, imm19, rt) => sf * 0x8000_0000 + 0x3400_0000 + op * 0x100_0000 + imm19 * 32 + rt
    // b5 011011 op b40 imm14 Rt
    case TestingBranch(b5, op, b40, imm14, rt) =>
      b5 * 0x8000_0000 + 0x3600_0000 + op * 0x100_0000 + b40 * 0x8_0000 + imm14 * 32 + rt
    // op immlo 10000 immhi Rd
    case PcAddress(op, immlo, immhi, rd) => op * 0x8000_0000 + immlo * 0x2000_0000 + 0x1000_0000 + immhi * 32 + rd
    // opc 011 V 00 imm19 Rt
    case PcLoad(opc, v, imm19, rt) => opc * 0x4000_0000 + 0x1800_0000 + v * 0x400_0000 + imm19 * 32 + rt
    // 110101100 opc 11111 000000 Rn 00000
    case RegisterBranch(opc, rn) => 0xd61f_0000 + opc * 0x20_0000 + rn * 32
    // 1 opc 100101 hw imm16 Rd
    case WideMove(opc, hw, imm16, rd) =>
      0x8000_0000 + opc * 0x2000_0000 + 0x1280_0000 + hw * 0x20_0000 + imm16 * 32 + rd
    // size 111001 opc 000000000000 Rn Rt
    case OffsetLoad(size, opc, rn, rt) => size * 0x4000_0000 + 0x3900_0000 + opc * 0x40_0000 + rn * 32 + rt
    // 11010101000000110010 CRm op2 11111
    case HintSpace(number) => 0xd503_201f + number * 32
  }

  /** A field of `span` values as a two's complement number. */
  function Extend(value: int, span: int): int {
    if 2 * value >= span then value - span else value
  }

  /** What the manual says the fields mean. Offsets count bytes. */
  function Meaning(l: Layout): Instruction
    requires Fields(l)
  {
    match l
    case ImmediateBranch(op, imm26) => Branch(op == 1, 4 * Extend(imm26, 0x400_0000))
    case ConditionalBranch(imm19, cond) => BranchIf(cond, 4 * Extend(imm19, 0x8_0000))
    case ComparingBranch(sf, op, imm19, rt) => CompareBranch(op == 1, sf == 1, rt, 4 * Extend(imm19, 0x8_0000))
    case TestingBranch(b5, op, b40, imm14, rt) => TestBranch(op == 1, b5 * 32 + b40, rt, 4 * Extend(imm14, 0x4000))
    case PcAddress(op, immlo, immhi, rd) => FormAddress(op == 1, rd, Extend(immhi * 4 + immlo, 0x20_0000))
    case PcLoad(opc, v, imm19, rt) => LoadLiteral(opc, v == 1, rt, 4 * Extend(imm19, 0x8_0000))
    case RegisterBranch(opc, rn) => if opc == 1 then CallRegister(rn) else JumpRegister(rn)
    case WideMove(opc, hw, imm16, rd) => MoveHalf(opc == 3, rd, hw, imm16)
    case OffsetLoad(size, opc, rn, rt) => LoadBase(if opc == 2 then 2 else size - 2, rt, rn)
    case HintSpace(_) => Hint
  }

  // The decoder agrees on every layout

  /** Every word of these classes is decoded to what its fields mean. */
  lemma DecodesLayout(l: Layout)
    requires Fields(l)
    ensures Decode(Bits(l)) == Meaning(l)
  {
    hide Decode, Bits, Meaning;
    match l {
      case ImmediateBranch(_, _) => DecodesImmediate(l);
      case ConditionalBranch(_, _) => DecodesConditional(l);
      case ComparingBranch(_, _, _, _) => DecodesComparing(l);
      case TestingBranch(_, _, _, _, _) => DecodesTesting(l);
      case PcAddress(_, _, _, _) => DecodesAddress(l);
      case PcLoad(_, _, _, _) => DecodesLoad(l);
      case RegisterBranch(_, _) => DecodesRegister(l);
      case WideMove(_, _, _, _) => DecodesMove(l);
      case OffsetLoad(_, _, _, _) => DecodesOffset(l);
      case HintSpace(_) => DecodesHint(l);
    }
  }
  lemma DecodesImmediate(l: Layout)
    requires Fields(l) && l.ImmediateBranch?
    ensures Decode(Bits(l)) == Meaning(l)
  {
    var w := Bits(l);
    Divides(w, 0x400_0000, l.op * 32 + 5, l.imm26);
    Divides(w, 0x100_0000, l.op * 128 + 0x14 + l.imm26 / 0x100_0000, l.imm26 % 0x100_0000);
    assert Top(w) / 4 % 32 == 5 && IsBranch(w) && Imm26(w) == l.imm26 && IsLink(w) == (l.op == 1);
  }
  lemma DecodesConditional(l: Layout)
    requires Fields(l) && l.ConditionalBranch?
    ensures Decode(Bits(l)) == Meaning(l)
  {
    JoinIf(l.imm19, l.cond);
    hide Top, Imm19, Cond, Decode;
    DecodeIf(Bits(l));
  }
  lemma DecodesComparing(l: Layout)
    requires Fields(l) && l.ComparingBranch?
    ensures Decode(Bits(l)) == Meaning(l)
  {
    hide Top, Imm19, Rd, Decode;
    var t := l.sf * 128 + 0x34 + l.op;
    Join19(t, l.imm19, l.rt);
    assert Bits(l) == t * 0x100_0000 + l.imm19 * 32 + l.rt;
    DecodeCompare(Bits(l));
  }
  lemma DecodesTesting(l: Layout)
    requires Fields(l) && l.TestingBranch?
    ensures Decode(Bits(l)) == Meaning(l)
  {
    hide Top, Imm14, Bit40, Rd, Decode;
    var t := l.b5 * 128 + 0x36 + l.op;
    Join14(t, l.b40, l.imm14, l.rt);
    assert Bits(l) == t * 0x100_0000 + l.b40 * 0x8_0000 + l.imm14 * 32 + l.rt;
    DecodeTest(Bits(l));
  }
  lemma DecodesAddress(l: Layout)
    requires Fields(l) && l.PcAddress?
    ensures Decode(Bits(l)) == Meaning(l)
  {
    hide Top, Imm19, Imm21, Rd, Decode;
    AddressParts(l.op * 4 + l.immlo, l.immhi, l.rd);
    Divides(l.op * 4 + l.immlo, 4, l.op, l.immlo);
    DecodeAddress(Bits(l));
  }
  lemma AddressParts(high: int, immhi: int, rd: int)
    requires 0 <= high < 8 && 0 <= immhi < 0x8_0000 && 0 <= rd < 32
    ensures var w: Word := high * 0x2000_0000 + 0x1000_0000 + immhi * 32 + rd;
            Top(w) == high * 32 + 16 && Imm21(w) == immhi * 4 + high % 4 && Rd(w) == rd
  {
    var w := high * 0x2000_0000 + 0x1000_0000 + immhi * 32 + rd;
    Join19(high * 32 + 16, immhi, rd);
    Divides(w, 0x2000_0000, high, 0x1000_0000 + immhi * 32 + rd);
  }
  lemma DecodeAddress(w: Word)
    requires IsAddress(w)
    ensures Decode(w) == FormAddress(IsLink(w), Rd(w), Signed(Imm21(w), S21))
  {
    hide Imm21, Signed, Rd;
    assert Top(w) in {0x10, 0x30, 0x50, 0x70, 0x90, 0xb0, 0xd0, 0xf0};
    hide Top;
  }
  lemma DecodesLoad(l: Layout)
    requires Fields(l) && l.PcLoad?
    ensures Decode(Bits(l)) == Meaning(l)
  {
    hide Top, Imm19, Rd, Decode;
    var t := l.opc * 64 + 0x18 + l.v * 4;
    Join19(t, l.imm19, l.rt);
    assert Bits(l) == t * 0x100_0000 + l.imm19 * 32 + l.rt;
    DecodeLoadLiteral(Bits(l));
  }
  lemma DecodesRegister(l: Layout)
    requires Fields(l) && l.RegisterBranch?
    ensures Decode(Bits(l)) == Meaning(l)
  {
    var w := Bits(l);
    Divides(w, 0x100_0000, 0xd6, 0x1f_0000 + l.opc * 0x20_0000 + l.rn * 32);
    Divides(w, 1024, 0x3587c0 + l.opc * 0x800, l.rn * 32);
    Divides(w, 32, 0x6b0_f800 + l.opc * 0x1_0000 + l.rn, 0);
    Divides(0x6b0_f800 + l.opc * 0x1_0000 + l.rn, 32, 0x3587c0 + l.opc * 0x800, l.rn);
    hide Imm19, Imm14, Imm21, Imm26, Bit40, Cond, Signed;
  }
  lemma DecodesMove(l: Layout)
    requires Fields(l) && l.WideMove?
    ensures Decode(Bits(l)) == Meaning(l)
  {
    var w, low := Bits(l), l.hw * 0x20_0000 + l.imm16 * 32 + l.rd;
    var high := if l.opc == 2 then 0x1a5 else 0x1e5;
    assert w == high * 0x80_0000 + low && 0 <= low < 0x80_0000;
    Divides(w, 0x80_0000, high, low);
    Divides(w, 0x100_0000, high / 2, 0x80_0000 + low);
    Divides(w, 0x20_0000, high * 4 + l.hw, l.imm16 * 32 + l.rd);
    Divides(high * 4 + l.hw, 4, high, l.hw);
    Divides(w, 32, high * 0x4_0000 + l.hw * 0x1_0000 + l.imm16, l.rd);
    Divides(high * 0x4_0000 + l.hw * 0x1_0000 + l.imm16, 0x1_0000, high * 4 + l.hw, l.imm16);
    hide Imm19, Imm14, Imm21, Imm26, Bit40, Cond, Signed;
    assert Top(NOP) == 0xd5 && Top(BTI) == 0xd5;
  }
  lemma DecodesOffset(l: Layout)
    requires Fields(l) && l.OffsetLoad?
    ensures Decode(Bits(l)) == Meaning(l)
  {
    hide Top, Rn, Rd, Decode;
    var high := l.size * 256 + 0xe4 + l.opc;
    OffsetParts(high, l.rn, l.rt);
    assert Bits(l) == high * 0x40_0000 + l.rn * 32 + l.rt;
    DecodeOffset(Bits(l), high);
  }
  lemma OffsetParts(high: int, rn: int, rt: int)
    requires 0 <= high < 1024 && 0 <= rn < 32 && 0 <= rt < 32
    ensures var w: Word := high * 0x40_0000 + rn * 32 + rt;
            && Top(w) == high / 4 && Rn(w) == rn && Rd(w) == rt
            && w / 0x40_0000 == high && w / 0x80_0000 == high / 2 && w / 1024 % 4096 == 0
  {
    var w, low := high * 0x40_0000 + rn * 32 + rt, rn * 32 + rt;
    Divides(w, 0x40_0000, high, low);
    Divides(w, 0x80_0000, high / 2, high % 2 * 0x40_0000 + low);
    Divides(w, 0x100_0000, high / 4, high % 4 * 0x40_0000 + low);
    Divides(w, 32, high * 0x2_0000 + rn, rt);
    Divides(high * 0x2_0000 + rn, 32, high * 0x1000, rn);
    Divides(w, 1024, high * 0x1000, low);
    Divides(high * 0x1000, 4096, high, 0);
  }
  lemma DecodeOffset(w: Word, high: int)
    requires high in {0x2e5, 0x3e5, 0x2e6} && w / 0x40_0000 == high && w / 0x80_0000 == high / 2
    requires Top(w) == high / 4 && w / 1024 % 4096 == 0 && Rn(w) != 31
    ensures Decode(w) == LoadBase(if high == 0x2e5 then 0 else if high == 0x3e5 then 1 else 2, Rd(w), Rn(w))
  {
    assert Top(NOP) == 0xd5 && Top(BTI) == 0xd5;
    hide Top, Rn, Rd, Imm19, Imm14, Imm21, Imm26, Bit40, Cond, Signed;
  }
  lemma DecodesHint(l: Layout)
    requires Fields(l) && l.HintSpace?
    ensures Decode(Bits(l)) == Meaning(l)
  {
    var w := Bits(l);
    assert w == 0xd503_201f || w == 0xd503_245f;
    assert Top(0xd503_201f) == 0xd5 && Top(0xd503_245f) == 0xd5;
  }

  // Nothing else is decoded to these classes

  predicate Named(x: Instruction) {
    !x.Plain? && !x.Undefined? && !x.ReturnAuthenticated?
  }
  /** Conversely, every word that is given one of these meanings has such a layout. */
  lemma LayoutOf(w: Word) returns (l: Layout)
    requires Named(Decode(w))
    ensures Fields(l) && Bits(l) == w && Meaning(l) == Decode(w)
  {
    ClassOf(w);
    hide Decode, Bits, Meaning, Fields;
    match Decode(w) {
      case Branch(_, _) => l := ImmediateFields(w);
      case BranchIf(_, _) => l := ConditionalFields(w);
      case CompareBranch(_, _, _, _) => l := ComparingFields(w);
      case TestBranch(_, _, _, _) => l := TestingFields(w);
      case FormAddress(_, _, _) => l := AddressFields(w);
      case LoadLiteral(_, _, _, _) => l := LoadFields(w);
      case CallRegister(_) => l := RegisterFields(w);
      case JumpRegister(_) => l := RegisterFields(w);
      case MoveHalf(_, _, _, _) => l := MoveFields(w);
      case LoadBase(_, _, _) => l := OffsetFields(w);
      case Hint => l := HintFields(w);
    }
    DecodesLayout(l);
  }
  lemma ClassOf(w: Word)
    ensures Decode(w).Branch? ==> IsBranch(w)
    ensures Decode(w).BranchIf? ==> IsConditional(w)
    ensures Decode(w).CompareBranch? ==> IsCompare(w)
    ensures Decode(w).TestBranch? ==> IsTest(w)
    ensures Decode(w).FormAddress? ==> IsAddress(w)
    ensures Decode(w).LoadLiteral? ==> IsLiteral(w)
    ensures Decode(w).CallRegister? ==> IsCallRegister(w)
    ensures Decode(w).JumpRegister? ==> IsJumpRegister(w)
    ensures Decode(w).MoveHalf? ==> IsMoveHalf(w)
    ensures Decode(w).LoadBase? ==> IsLoadBase(w)
    ensures Decode(w).Hint? ==> w == NOP || w == BTI
  {
    hide IsBranch, IsConditional, IsCompare, IsTest, IsAddress, IsLiteral, IsCallRegister, IsJumpRegister, IsMoveHalf,
         IsLoadBase, IsRegisterFamily, Imm19, Imm14, Imm21, Imm26, Signed;
  }
  lemma ImmediateFields(w: Word) returns (l: Layout)
    requires IsBranch(w)
    ensures Fields(l) && Bits(l) == w
  {
    l := ImmediateBranch(w / 0x8000_0000, w % 0x400_0000);
  }
  lemma ConditionalFields(w: Word) returns (l: Layout)
    requires IsConditional(w)
    ensures Fields(l) && Bits(l) == w
  {
    FieldsIf(w);
    Fields19(w);
    l := ConditionalBranch(Imm19(w), Cond(w));
  }
  lemma ComparingFields(w: Word) returns (l: Layout)
    requires IsCompare(w)
    ensures Fields(l) && Bits(l) == w
  {
    hide Top, Imm19, Rd;
    Fields19(w);
    l := ComparingBranch(Top(w) / 128, Top(w) % 2, Imm19(w), Rd(w));
  }
  lemma TestingFields(w: Word) returns (l: Layout)
    requires IsTest(w)
    ensures Fields(l) && Bits(l) == w
  {
    hide Top, Imm14, Bit40, Rd;
    Fields14(w);
    l := TestingBranch(Top(w) / 128, Top(w) % 2, Bit40(w), Imm14(w), Rd(w));
  }
  lemma AddressFields(w: Word) returns (l: Layout)
    requires IsAddress(w)
    ensures Fields(l) && Bits(l) == w
  {
    hide Top, Imm19, Rd;
    Fields19(w);
    l := PcAddress(Top(w) / 128, Top(w) / 32 % 4, Imm19(w), Rd(w));
  }
  lemma LoadFields(w: Word) returns (l: Layout)
    requires IsLiteral(w)
    ensures Fields(l) && Bits(l) == w
  {
    hide Top, Imm19, Rd;
    Fields19(w);
    l := PcLoad(Top(w) / 64, Top(w) / 4 % 2, Imm19(w), Rd(w));
  }
  lemma RegisterFields(w: Word) returns (l: Layout)
    requires IsCallRegister(w) || IsJumpRegister(w)
    ensures Fields(l) && Bits(l) == w
  {
    var high := w / 1024;
    assert w == high * 1024 + w / 32 % 32 * 32;
    l := RegisterBranch(if high == 0x3587c0 then 0 else if high == 0x358fc0 then 1 else 2, w / 32 % 32);
  }
  lemma MoveFields(w: Word) returns (l: Layout)
    requires IsMoveHalf(w)
    ensures Fields(l) && Bits(l) == w
  {
    var high, low := w / 0x80_0000, w % 0x80_0000;
    Divides(w, 0x20_0000, 4 * high + low / 0x20_0000, low % 0x20_0000);
    Divides(4 * high + low / 0x20_0000, 4, high, low / 0x20_0000);
    Divides(w, 32, 0x4_0000 * high + low / 32, low % 32);
    Divides(0x4_0000 * high + low / 32, 0x1_0000, 4 * high + low / 32 / 0x1_0000, low / 32 % 0x1_0000);
    l := WideMove(if high == 0x1a5 then 2 else 3, w / 0x20_0000 % 4, w / 32 % 65536, w % 32);
  }
  lemma OffsetFields(w: Word) returns (l: Layout)
    requires IsLoadBase(w)
    ensures Fields(l) && Bits(l) == w
  {
    var high := w / 0x40_0000;
    assert w == high * 0x40_0000 + w / 32 % 32 * 32 + w % 32;
    l := if high == 0x2e5 then OffsetLoad(2, 1, w / 32 % 32, w % 32)
         else if high == 0x3e5 then OffsetLoad(3, 1, w / 32 % 32, w % 32)
         else OffsetLoad(2, 2, w / 32 % 32, w % 32);
  }
  lemma HintFields(w: Word) returns (l: Layout)
    requires w == NOP || w == BTI
    ensures Fields(l) && Bits(l) == w
  {
    l := HintSpace(if w == NOP then 0 else 34);
  }

  // Words that end a function, and words that no instruction has

  /** B, the whole family of branches to a register, and BRK, by the values of their words. */
  predicate EndsFunction(w: Word) {
    || 0x1400_0000 <= w < 0x1800_0000
    || 0xd600_0000 <= w < 0xd800_0000
    || (0xd420_0000 <= w < 0xd440_0000 && w % 32 == 0)
  }
  lemma TerminalIs(w: Word)
    ensures Terminal(w) <==> EndsFunction(w)
  {
  }
  /** The major opcode groups 0000, 0001 and 0011 in bits 28 to 25 are unallocated, and so is the word of ones. */
  predicate Unallocated(w: Word) {
    var low := w % 0x2000_0000;
    low < 0x400_0000 || 0x600_0000 <= low < 0x800_0000 || w == 0xffff_ffff
  }
  lemma ValidIs(w: Word)
    ensures Valid(w) <==> !Unallocated(w)
  {
    var high, group := w / 0x2000_0000, w / 0x200_0000 % 16;
    assert w % 0x2000_0000 / 0x200_0000 == group && Top(w) / 2 % 16 == group;
  }
  /** Of the branches to a register outside those layouts only RETAA and RETAB are known; the others are refused. */
  lemma OtherRegisterBranch(w: Word)
    ensures Decode(w) == ReturnAuthenticated(w) <==> w in {0xd65f_0bff, 0xd65f_0fff}
    ensures Decode(w).Undefined? ==> 0xd600_0000 <= w < 0xd800_0000
    ensures 0xd600_0000 <= w < 0xd800_0000 ==> !Decode(w).Plain? && !Decode(w).Hint?
  {
    hide IsCallRegister, IsJumpRegister, IsMoveHalf, IsLoadBase, Imm19, Imm14, Imm21, Imm26, Bit40, Cond, Signed;
    if w in {0xd65f_0bff, 0xd65f_0fff} {
      Divides(w, 0x100_0000, 0xd6, w - 0xd600_0000);
      Divides(w, 32, if w == 0xd65f_0bff then 0x6b2_f85f else 0x6b2_f87f, 31);
      NotPlainReturn(w);
    }
  }
  lemma NotPlainReturn(w: Word)
    requires w % 32 == 31
    ensures !IsCallRegister(w) && !IsJumpRegister(w)
  {
  }
}
