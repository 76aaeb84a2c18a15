/** The x86-64 encodings part by part, as section 2.1 of the Intel Software Developer's Manual, volume 2A, and its
    opcode maps (appendix A of volume 2D) lay them out, and what the decoder makes of them. */
module X86Encoding {
  import opened Words
  import opened X86Decode

  // Opcode maps

  /** What follows an opcode, in the notation of the maps: `Iz` has the operand size up to four bytes, `Iv` all of it,
      `Ob` the address size; `E` is a ModRM byte and what that byte asks for. */
  datatype Tail = Nothing | Ib | Iw | Iz | Iv | Ob | Jb | Jz | E | EIb | EIz

  /** The one-byte opcodes that are accepted. */
  function FirstMap(b: Byte): Option<Tail> {
    if 0x50 <= b < 0x60 || 0x90 <= b < 0x9a
       || b in {0x9c, 0x9d, 0xc3, 0xc9, 0xcb, 0xcc, 0xcf, 0xf1, 0xf4, 0xfc, 0xfd} then Some(Nothing)
    else if b in {0x04, 0x0c, 0x14, 0x1c, 0x24, 0x2c, 0x34, 0x3c, 0x6a, 0xa8, 0xcd} || 0xb0 <= b < 0xb8 then Some(Ib)
    else if b in {0xc2, 0xca} then Some(Iw)
    else if b in {0x05, 0x0d, 0x15, 0x1d, 0x25, 0x2d, 0x35, 0x3d, 0x68, 0xa9} then Some(Iz)
    else if 0xb8 <= b < 0xc0 then Some(Iv)
    else if 0xa0 <= b < 0xa4 then Some(Ob)
    else if 0x70 <= b < 0x80 || 0xe0 <= b < 0xe4 || b == 0xeb then Some(Jb)
    else if b in {0xe8, 0xe9} then Some(Jz)
    else if || 0x00 <= b < 0x04 || 0x08 <= b < 0x0c || 0x10 <= b < 0x14 || 0x18 <= b < 0x1c
            || 0x20 <= b < 0x24 || 0x28 <= b < 0x2c || 0x30 <= b < 0x34 || 0x38 <= b < 0x3c
            || 0x84 <= b < 0x8c || 0xd0 <= b < 0xd4 || b in {0x63, 0x8d, 0x8f, 0xf6, 0xf7, 0xfe, 0xff} then Some(E)
    else if b in {0x6b, 0x80, 0x83, 0xc0, 0xc1, 0xc6} then Some(EIb)
    else if b in {0x69, 0x81, 0xc7} then Some(EIz)
    else None
  }
  /** The opcodes behind the escape byte 0x0f that are accepted. */
  function SecondMap(b: Byte): Option<Tail> {
    if b == 0x0b || 0xc8 <= b < 0xd0 then Some(Nothing)
    else if 0x80 <= b < 0x90 then Some(Jz)
    else if || 0x10 <= b < 0x18 || 0x28 <= b < 0x30 || 0x40 <= b < 0x50 || 0x54 <= b < 0x5a || 0x90 <= b < 0xa0
            || b in {0x1f, 0x6e, 0x6f, 0x7e, 0x7f, 0xaf, 0xb6, 0xb7, 0xbe, 0xbf, 0xef} then Some(E)
    else None
  }

  // Layouts

  /** ModRM, SIB and displacement. */
  datatype Addressing = Addressing(mode: int, register: int, rm: int, sib: seq<Byte>, displacement: seq<Byte>)
  /** The parts of an instruction in their order. `second` follows the escape byte 0x0f. */
  datatype Layout = Layout(prefixes: seq<Byte>, opcode: Byte, second: seq<Byte>, operand: Option<Addressing>,
                           immediate: seq<Byte>)

  /** The legacy prefixes of groups 1 to 4, and REX. */
  predicate Prefix(b: Byte) {
    b in {0xf0, 0xf2, 0xf3} || b in {0x2e, 0x36, 0x3e, 0x26, 0x64, 0x65} || b == 0x66 || b == 0x67
    || 0x40 <= b < 0x50
  }
  /** REX counts only directly before the opcode; its bit 3 selects an operand of 64 bits. */
  predicate RexW(p: seq<Byte>) {
    |p| > 0 && 0x48 <= p[|p| - 1] < 0x50
  }
  predicate Operand16(p: seq<Byte>) {
    0x66 in p && !RexW(p)
  }
  predicate Address32(p: seq<Byte>) {
    0x67 in p
  }
  predicate Locked(p: seq<Byte>) {
    0xf0 in p
  }

  /** Tables 2-2 and 2-3: a SIB byte, and a displacement of zero, one or four bytes. */
  predicate AddressingLegal(a: Addressing) {
    && 0 <= a.mode < 4 && 0 <= a.register < 8 && 0 <= a.rm < 8
    && |a.sib| == (if a.mode < 3 && a.rm == 4 then 1 else 0)
    && |a.displacement| == match a.mode
       case 0 => if a.rm == 5 || (a.rm == 4 && a.sib[0] % 8 == 5) then 4 else 0
       case 1 => 1
       case 2 => 4
       case _ => 0
  }
  function AddressingBytes(a: Addressing): seq<Byte>
    requires AddressingLegal(a)
  {
    [a.mode * 64 + a.register * 8 + a.rm] + a.sib + a.displacement
  }

  function TailOf(l: Layout): Option<Tail> {
    if |l.second| == 1 && l.opcode == 0x0f then SecondMap(l.second[0])
    else if |l.second| == 0 && l.opcode != 0x0f then FirstMap(l.opcode)
    else None
  }
  predicate HasAddressing(t: Tail) {
    t.E? || t.EIb? || t.EIz?
  }
  /** Whether the opcode, with its extension in the register field of ModRM, is accepted. */
  predicate Extension(l: Layout, register: int) {
    if |l.second| == 1 then l.second == [0x1f] ==> register == 0
    else
      match l.opcode
      case 0x8f => register == 0
      case 0xc6 => register == 0
      case 0xc7 => register == 0
      case 0xf6 => register != 1
      case 0xf7 => register != 1
      case 0xfe => register in {0, 1}
      case 0xff => register in {0, 1, 2, 4, 6}
      case _ => true
  }
  function Sized(p: seq<Byte>): nat {
    if Operand16(p) then 2 else 4
  }
  function ImmediateLength(l: Layout, t: Tail): nat {
    match t
    case Nothing => 0
    case Ib => 1
    case Iw => 2
    case Iz => Sized(l.prefixes)
    case Iv => if RexW(l.prefixes) then 8 else Sized(l.prefixes)
    case Ob => if Address32(l.prefixes) then 4 else 8
    case Jb => 1
    case Jz => 4
    case E =>
      // TEST is the one member of its group with an immediate.
      if |l.second| == 0 && l.opcode in {0xf6, 0xf7} && l.operand.Some? && l.operand.value.register == 0
      then if l.opcode == 0xf6 then 1 else Sized(l.prefixes) else 0
    case EIb => 1
    case EIz => Sized(l.prefixes)
  }
  /** ADD, OR, ADC, SBB, AND, SUB, XOR, XCHG, NOT, NEG, INC and DEC, when they write memory. */
  predicate LockLegal(l: Layout) {
    && |l.second| == 0 && l.operand.Some? && l.operand.value.mode < 3
    && var register := l.operand.value.register;
    || l.opcode in {0x00, 0x01, 0x08, 0x09, 0x10, 0x11, 0x18, 0x19, 0x20, 0x21, 0x28, 0x29, 0x30, 0x31, 0x86, 0x87}
    || (l.opcode in {0x80, 0x81, 0x83} && register < 7)
    || (l.opcode in {0xf6, 0xf7} && register in {2, 3})
    || (l.opcode in {0xfe, 0xff} && register in {0, 1})
  }

  function Bytes(l: Layout): seq<Byte>
    requires l.operand.Some? ==> AddressingLegal(l.operand.value)
  {
    l.prefixes + [l.opcode] + l.second + (if l.operand.Some? then AddressingBytes(l.operand.value) else [])
    + l.immediate
  }
  ghost predicate Legal(l: Layout) {
    && (forall b | b in l.prefixes :: Prefix(b))
    && TailOf(l).Some?
    && (l.operand.Some? <==> HasAddressing(TailOf(l).value))
    && (l.operand.Some? ==> AddressingLegal(l.operand.value) && Extension(l, l.operand.value.register))
    && |l.immediate| == ImmediateLength(l, TailOf(l).value)
    && (Locked(l.prefixes) ==> LockLegal(l))
    && |Bytes(l)| <= 15
  }

  // What a layout means

  function After(l: Layout): nat {
    |l.prefixes| + 1 + |l.second|
  }
  /** RET, IRET, INT3, INT, INT1, HLT, UD2 and JMP: control does not come back. */
  predicate EndsFunction(l: Layout) {
    if |l.second| == 1 then l.second == [0x0b]
    else
      || l.opcode in {0xc2, 0xc3, 0xca, 0xcb, 0xcc, 0xcd, 0xcf, 0xe9, 0xeb, 0xf1, 0xf4}
      || (l.opcode == 0xff && l.operand.Some? && l.operand.value.register == 4)
  }
  /** Mode 00 with base 101 is relative to the next instruction. */
  predicate RipRelative(l: Layout) {
    l.operand.Some? && l.operand.value.mode == 0 && l.operand.value.rm == 5
  }
  predicate CallsIndirectly(l: Layout) {
    |l.second| == 0 && l.opcode == 0xff && l.operand.Some? && l.operand.value.register == 2
  }
  function BranchOf(l: Layout): Option<Branch> {
    if |l.second| == 1 then
      if 0x80 <= l.second[0] < 0x90 then Some(Branch(After(l), 4, Some(l.second[0] - 0x80))) else None
    else if 0x70 <= l.opcode < 0x80 then Some(Branch(After(l), 1, Some(l.opcode - 0x70)))
    else if l.opcode == 0xeb then Some(Branch(After(l), 1, None))
    else if l.opcode == 0xe9 then Some(Branch(After(l), 4, None))
    else None
  }
  function Meaning(l: Layout): Instruction
    requires l.operand.Some? ==> AddressingLegal(l.operand.value)
  {
    Instruction(
      |Bytes(l)|,
      EndsFunction(l),
      if RipRelative(l) then Some(After(l) + 1) else None,
      // Interrupts and loops; calls whose target may depend on RSP; an address of 32 bits relative to RIP.
      || (|l.second| == 0 && l.opcode in {0xcd, 0xe0, 0xe1, 0xe2, 0xe3})
      || (CallsIndirectly(l) && l.operand.value.rm == 4)
      || (Address32(l.prefixes) && RipRelative(l)),
      BranchOf(l),
      if |l.second| == 0 && l.opcode == 0xe8 then Some(Direct(After(l)))
      else if CallsIndirectly(l) then Some(Indirect(After(l))) else None)
  }

  // The decoder's opcode tables agree with the maps

  /** What the prefix loop knows after the prefixes `p`. */
  function ScanOf(p: seq<Byte>): Scan {
    Scan(|p|, 0x66 in p, if |p| > 0 && 0x40 <= p[|p| - 1] < 0x50 then p[|p| - 1] else 0, 0x67 in p, 0xf0 in p)
  }
  function HeadOf(l: Layout): Head {
    Head(ScanOf(l.prefixes), l.opcode, if |l.second| == 1 then l.second[0] else -1, After(l))
  }
  lemma WideIs(p: seq<Byte>)
    ensures ScanOf(p).rex / 8 % 2 == 1 <==> RexW(p)
  {
  }
  /** The form that the decoder must find for an accepted opcode. */
  function FormFor(l: Layout, t: Tail): Form {
    match t
    case E => WithOperand(0)
    case EIb => WithOperand(1)
    case EIz => WithOperand(Sized(l.prefixes))
    case _ =>
      if BranchOf(l).Some? then Jump(BranchOf(l).value.width, BranchOf(l).value.condition)
      else if |l.second| == 0 && l.opcode == 0xe8 then CallNear
      else Bare(ImmediateLength(l, t), EndsFunction(l), |l.second| == 0 && l.opcode in {0xcd, 0xe0, 0xe1, 0xe2, 0xe3})
  }
  predicate Escaped(l: Layout) {
    |l.second| == if l.opcode == 0x0f then 1 else 0
  }
  lemma SecondIs(l: Layout)
    requires |l.second| == 1 && l.opcode == 0x0f
    requires HeadOf(l).scan.rex / 8 % 2 == 1 <==> RexW(l.prefixes)
    ensures FormOf(HeadOf(l)) == if TailOf(l).Some? then FormFor(l, TailOf(l).value) else Rejected
  {
    hide RexW;
  }
  lemma FirstArithmetic(l: Layout)
    requires |l.second| == 0 && l.opcode != 0x0f && l.opcode < 0x20
    requires HeadOf(l).scan.rex / 8 % 2 == 1 <==> RexW(l.prefixes)
    ensures FormOf(HeadOf(l)) == if TailOf(l).Some? then FormFor(l, TailOf(l).value) else Rejected
  {
    hide RexW;
  }
  lemma SecondArithmetic(l: Layout)
    requires |l.second| == 0 && 0x20 <= l.opcode < 0x60
    requires HeadOf(l).scan.rex / 8 % 2 == 1 <==> RexW(l.prefixes)
    ensures FormOf(HeadOf(l)) == if TailOf(l).Some? then FormFor(l, TailOf(l).value) else Rejected
  {
    hide RexW;
  }
  lemma FirstMiddle(l: Layout)
    requires |l.second| == 0 && 0x60 <= l.opcode < 0x84
    requires HeadOf(l).scan.rex / 8 % 2 == 1 <==> RexW(l.prefixes)
    ensures FormOf(HeadOf(l)) == if TailOf(l).Some? then FormFor(l, TailOf(l).value) else Rejected
  {
    hide RexW;
  }
  lemma SecondMiddle(l: Layout)
    requires |l.second| == 0 && 0x84 <= l.opcode < 0xb0
    requires HeadOf(l).scan.rex / 8 % 2 == 1 <==> RexW(l.prefixes)
    ensures FormOf(HeadOf(l)) == if TailOf(l).Some? then FormFor(l, TailOf(l).value) else Rejected
  {
    hide RexW;
  }
  lemma FirstHigh(l: Layout)
    requires |l.second| == 0 && l.opcode >= 0xb0
    requires HeadOf(l).scan.rex / 8 % 2 == 1 <==> RexW(l.prefixes)
    ensures FormOf(HeadOf(l)) == if TailOf(l).Some? then FormFor(l, TailOf(l).value) else Rejected
  {
    hide RexW;
  }
  lemma FormIs(l: Layout)
    requires Escaped(l)
    ensures FormOf(HeadOf(l)) == if TailOf(l).Some? then FormFor(l, TailOf(l).value) else Rejected
  {
    WideIs(l.prefixes);
    hide RexW, ScanOf;
    if |l.second| == 1 {
      SecondIs(l);
    } else if l.opcode < 0x20 {
      FirstArithmetic(l);
    } else if l.opcode < 0x60 {
      SecondArithmetic(l);
    } else if l.opcode < 0x84 {
      FirstMiddle(l);
    } else if l.opcode < 0xb0 {
      SecondMiddle(l);
    } else {
      FirstHigh(l);
    }
  }
  lemma OperandRules(l: Layout)
    requires Escaped(l) && TailOf(l).Some? && HasAddressing(TailOf(l).value)
    requires l.operand.Some? && 0 <= l.operand.value.register < 8
    ensures var h, t, register := HeadOf(l), TailOf(l).value, l.operand.value.register;
            && FormFor(l, t).imm + GroupImmediate(h, register) == ImmediateLength(l, t)
            && (GroupAccepts(h, register) <==> Extension(l, register))
            && (Lockable(h, register) && l.operand.value.mode < 3 <==> LockLegal(l))
  {
    WideIs(l.prefixes);
    hide RexW;
  }

  // Reading a layout

  lemma {:induction false} ReadsPrefixes(bytes: seq<Byte>, k: nat, n: nat)
    requires k <= n < |bytes| && n < LIMIT && (forall b | b in bytes[..n] :: Prefix(b)) && !Prefix(bytes[n])
    ensures Prefixes(bytes, ScanOf(bytes[..k])) == Some(ScanOf(bytes[..n]))
    decreases n - k
  {
    hide Prefix, IsPrefix, ScanOf;
    PrefixIs(bytes[k]);
    ScanLength(bytes[..k]);
    if k < n {
      assert bytes[k] == bytes[..n][k] && bytes[k] in bytes[..n];
      assert bytes[..k + 1] == bytes[..k] + [bytes[k]];
      ScanMore(bytes[..k], bytes[k]);
      ReadsPrefixes(bytes, k + 1, n);
    }
  }
  lemma PrefixIs(b: Byte)
    ensures Prefix(b) <==> IsPrefix(b)
  {
  }
  lemma ScanMore(p: seq<Byte>, b: Byte)
    requires IsPrefix(b)
    ensures Prefixed(ScanOf(p), b) == ScanOf(p + [b])
  {
  }
  lemma OpcodeIsNoPrefix(l: Layout)
    requires TailOf(l).Some?
    ensures !Prefix(l.opcode)
  {
  }
  lemma ReadsHead(l: Layout, bytes: seq<Byte>)
    requires Legal(l) && Bytes(l) <= bytes
    ensures ReadHead(bytes) == Some(HeadOf(l))
  {
    hide TailOf, LockLegal, ImmediateLength, Extension, AddressingBytes, Prefix, ScanOf;
    var n := |l.prefixes|;
    assert Escaped(l) by {
      TailShape(l);
    }
    OpcodeIsNoPrefix(l);
    assert bytes[..n] == Bytes(l)[..n] == l.prefixes;
    assert bytes[n] == Bytes(l)[n] == l.opcode;
    assert |l.second| == 1 ==> bytes[n + 1] == Bytes(l)[n + 1] == l.second[0];
    ReadsPrefixes(bytes, 0, n);
    assert ScanOf(bytes[..0]) == START by {
      StartIs();
    }
    ScanLength(l.prefixes);
  }
  lemma StartIs()
    ensures ScanOf([]) == START
  {
  }
  lemma ScanLength(p: seq<Byte>)
    ensures ScanOf(p).at == |p|
  {
  }
  lemma TailShape(l: Layout)
    requires TailOf(l).Some?
    ensures Escaped(l)
  {
  }
  lemma ReadsAddressing(a: Addressing, bytes: seq<Byte>, at: nat)
    requires AddressingLegal(a) && at + |AddressingBytes(a)| <= |bytes| && at + |AddressingBytes(a)| <= LIMIT
    requires bytes[at..at + |AddressingBytes(a)|] == AddressingBytes(a)
    ensures ReadOperand(bytes, at)
            == Some(Operand(at + |AddressingBytes(a)|, a.register,
                            if a.mode == 0 && a.rm == 5 then Some(at + 1) else None, a.mode < 3))
    ensures bytes[at] % 8 == a.rm
  {
    var part := bytes[at..at + |AddressingBytes(a)|];
    assert bytes[at] == part[0] == a.mode * 64 + a.register * 8 + a.rm;
    if |a.sib| == 1 {
      assert bytes[at + 1] == part[1] == a.sib[0];
    }
  }

  /** Every legal layout is decoded to what it means, whatever follows it. */
  lemma DecodesLayout(l: Layout, rest: seq<Byte>)
    requires Legal(l)
    ensures Decode(Bytes(l) + rest) == Some(Meaning(l))
  {
    var bytes := Bytes(l) + rest;
    hide Prefix, TailOf, FormFor, FormOf, ReadHead, HeadOf, Extension, LockLegal, ImmediateLength, DecodeOperand;
    assert Bytes(l) <= bytes;
    ReadsHead(l, bytes);
    TailShape(l);
    FormIs(l);
    if l.operand.Some? {
      DecodesOperand(l, bytes);
    } else {
      DecodesBare(l, bytes);
    }
  }
  lemma DecodesBare(l: Layout, bytes: seq<Byte>)
    requires Legal(l) && l.operand.None? && Bytes(l) <= bytes && Escaped(l)
    requires ReadHead(bytes) == Some(HeadOf(l)) && FormOf(HeadOf(l)) == FormFor(l, TailOf(l).value)
    ensures Decode(bytes) == Some(Meaning(l))
  {
    hide Prefix, FormOf, ReadHead, Extension, DecodeOperand;
  }
  lemma DecodesOperand(l: Layout, bytes: seq<Byte>)
    requires Legal(l) && l.operand.Some? && Bytes(l) <= bytes && Escaped(l)
    requires ReadHead(bytes) == Some(HeadOf(l)) && FormOf(HeadOf(l)) == FormFor(l, TailOf(l).value)
    ensures Decode(bytes) == Some(Meaning(l))
  {
    hide Prefix, TailOf, FormOf, ReadHead, Extension, LockLegal, ImmediateLength, GroupAccepts, GroupImmediate,
         Lockable, ReadOperand, BranchOf, EndsFunction, Bytes, AddressingBytes, ScanOf, AddressingLegal;
    OperandPart(l, bytes);
    RegisterField(l.operand.value);
    OperandRules(l);
    OperandPlain(l);
    ScanFlags(l.prefixes);
  }
  lemma RegisterField(a: Addressing)
    requires AddressingLegal(a)
    ensures 0 <= a.register < 8
  {
  }
  lemma ScanFlags(p: seq<Byte>)
    ensures ScanOf(p).address32 == Address32(p) && ScanOf(p).locked == Locked(p)
  {
  }
  lemma OperandPart(l: Layout, bytes: seq<Byte>)
    requires Legal(l) && l.operand.Some? && Bytes(l) <= bytes
    ensures var a := l.operand.value;
            var end := After(l) + |AddressingBytes(a)|;
            && end + |l.immediate| == |Bytes(l)| <= |bytes|
            && ReadOperand(bytes, After(l))
               == Some(Operand(end, a.register, if RipRelative(l) then Some(After(l) + 1) else None, a.mode < 3))
            && After(l) < |bytes| && bytes[After(l)] % 8 == a.rm
  {
    hide Prefix, TailOf, Extension, LockLegal, ImmediateLength, ReadOperand, AddressingLegal;
    var a := l.operand.value;
    var at, end := After(l), After(l) + |AddressingBytes(a)|;
    assert bytes[at..end] == Bytes(l)[at..end] == AddressingBytes(a);
    ReadsAddressing(a, bytes, at);
  }
  lemma OperandPlain(l: Layout)
    requires TailOf(l).Some? && HasAddressing(TailOf(l).value) && l.operand.Some?
    ensures BranchOf(l).None? && (|l.second| == 0 ==> l.opcode !in {0xcd, 0xe0, 0xe1, 0xe2, 0xe3, 0xe8})
    ensures EndsFunction(l) <==> l.opcode == 0xff && l.operand.value.register == 4
  {
  }

  // Nothing else is decoded

  ghost predicate AllPrefixes(p: seq<Byte>) {
    forall b | b in p :: Prefix(b)
  }
  lemma {:induction false} FindsPrefixes(bytes: seq<Byte>, k: nat) returns (n: nat)
    requires k <= |bytes| && AllPrefixes(bytes[..k]) && Prefixes(bytes, ScanOf(bytes[..k])).Some?
    ensures n < |bytes| && n < LIMIT && AllPrefixes(bytes[..n])
    ensures Prefixes(bytes, ScanOf(bytes[..k])) == Some(ScanOf(bytes[..n]))
    decreases |bytes| - k
  {
    hide Prefix, IsPrefix, ScanOf;
    ScanLength(bytes[..k]);
    n := k;
    PrefixIs(bytes[k]);
    if IsPrefix(bytes[k]) {
      assert bytes[..k + 1] == bytes[..k] + [bytes[k]];
      ScanMore(bytes[..k], bytes[k]);
      n := FindsPrefixes(bytes, k + 1);
    }
  }
  function WithParts(l: Layout, operand: Option<Addressing>, immediate: seq<Byte>): Layout {
    Layout(l.prefixes, l.opcode, l.second, operand, immediate)
  }
  /** Prefixes and opcode of what the decoder has read. */
  lemma FindsHead(bytes: seq<Byte>) returns (l: Layout)
    requires ReadHead(bytes).Some?
    ensures ReadHead(bytes) == Some(HeadOf(l)) && Escaped(l) && AllPrefixes(l.prefixes)
    ensures After(l) <= |bytes| && l.prefixes + [l.opcode] + l.second == bytes[..After(l)]
  {
    hide Prefix, ScanOf, Prefixes;
    StartIs();
    assert bytes[..0] == [];
    var n := FindsPrefixes(bytes, 0);
    ScanLength(bytes[..n]);
    l := Layout(bytes[..n], bytes[n], if bytes[n] == 0x0f then [bytes[n + 1]] else [], None, []);
  }
  lemma FindsAddressing(bytes: seq<Byte>, at: nat) returns (a: Addressing)
    requires ReadOperand(bytes, at).Some?
    ensures var o := ReadOperand(bytes, at).value;
            && AddressingLegal(a) && a.register == o.register && (a.mode < 3 <==> o.memory)
            && at <= o.at <= |bytes| && AddressingBytes(a) == bytes[at..o.at]
  {
    var o, b := ReadOperand(bytes, at).value, bytes[at];
    var field := at + FormLength(b);
    a := Addressing(b / 64, b / 8 % 8, b % 8, bytes[at + 1..field], bytes[field..o.at]);
  }
  /** Conversely, whatever decodes begins with a legal layout. */
  lemma LayoutOf(bytes: seq<Byte>) returns (l: Layout)
    requires Decode(bytes).Some?
    ensures Legal(l) && Bytes(l) <= bytes && Decode(bytes) == Some(Meaning(l))
  {
    hide Prefix, TailOf, FormFor, FormOf, ReadHead, HeadOf, Extension, LockLegal, ImmediateLength, DecodeOperand,
         Meaning;
    l := FindsHead(bytes);
    FormIs(l);
    if HasAddressing(TailOf(l).value) {
      l := FindsOperand(l, bytes);
    } else {
      l := FindsBare(l, bytes);
    }
    assert bytes == Bytes(l) + bytes[|Bytes(l)|..];
    DecodesLayout(l, bytes[|Bytes(l)|..]);
  }
  ghost predicate Headed(l: Layout, bytes: seq<Byte>) {
    && ReadHead(bytes) == Some(HeadOf(l)) && Escaped(l) && AllPrefixes(l.prefixes)
    && After(l) <= |bytes| && l.prefixes + [l.opcode] + l.second == bytes[..After(l)]
    && TailOf(l).Some? && FormOf(HeadOf(l)) == FormFor(l, TailOf(l).value)
  }
  lemma FindsBare(head: Layout, bytes: seq<Byte>) returns (l: Layout)
    requires Decode(bytes).Some? && Headed(head, bytes) && !HasAddressing(TailOf(head).value)
    ensures Legal(l) && Bytes(l) <= bytes
  {
    hide Prefix, FormOf, ReadHead, Extension, LockLegal, DecodeOperand;
    var size := Decode(bytes).value.size;
    l := WithParts(head, None, bytes[After(head)..size]);
    assert Bytes(l) == bytes[..size];
  }
  lemma FindsOperand(head: Layout, bytes: seq<Byte>) returns (l: Layout)
    requires Decode(bytes).Some? && Headed(head, bytes) && HasAddressing(TailOf(head).value)
    ensures Legal(l) && Bytes(l) <= bytes
  {
    hide Prefix, FormOf, ReadHead, Extension, LockLegal, ImmediateLength, GroupAccepts, GroupImmediate, Lockable,
         ReadOperand, AddressingLegal, AddressingBytes;
    var at := After(head);
    var a := FindsAddressing(bytes, at);
    var o, size := ReadOperand(bytes, at).value, Decode(bytes).value.size;
    l := WithParts(head, Some(a), bytes[o.at..size]);
    RegisterField(a);
    assert TailOf(l) == TailOf(head) && HeadOf(l) == HeadOf(head)
           && FormFor(l, TailOf(l).value) == FormFor(head, TailOf(l).value);
    OperandRules(l);
    ScanFlags(l.prefixes);
    assert Bytes(l) == bytes[..size];
  }
}
