/** Lengths and fields of the x86-64 instructions that the relocator accepts
    (section 2.1 of the Intel Software Developer's Manual, volume 2A). */
module X86Decode {
  import opened Words

  const LIMIT: nat := 15

  datatype Call = Direct(displacement: nat) | Indirect(modrm: nat)
  datatype Branch = Branch(displacement: nat, width: nat, condition: Option<int>)
  datatype Instruction = Instruction(
    size: nat,
    terminal: bool,
    relativeMemory: Option<nat>,
    cannotMove: bool,
    branch: Option<Branch>,
    call: Option<Call>)

  // Prefixes and opcode

  /** Prefix state, and the offset after the last byte read. */
  datatype Scan = Scan(at: nat, word: bool, rex: int, address32: bool, locked: bool)

  predicate IsPrefix(b: Byte) {
    b in {0xf0, 0x66, 0x67, 0x26, 0x2e, 0x36, 0x3e, 0x64, 0x65, 0xf2, 0xf3} || 0x40 <= b <= 0x4f
  }
  function Prefixed(s: Scan, b: Byte): Scan
    requires IsPrefix(b)
  {
    Scan(s.at + 1,
         s.word || b == 0x66,
         if 0x40 <= b <= 0x4f then b else 0,
         s.address32 || b == 0x67,
         s.locked || b == 0xf0)
  }
  const START := Scan(0, false, 0, false, false)

  predicate Readable(bytes: seq<Byte>, end: nat) {
    end <= |bytes| && end <= LIMIT
  }

  /** Skips prefixes; the result stands at the opcode. */
  function Prefixes(bytes: seq<Byte>, s: Scan): Option<Scan>
    decreases LIMIT - s.at
  {
    if !Readable(bytes, s.at + 1) then None
    else if IsPrefix(bytes[s.at]) then Prefixes(bytes, Prefixed(s, bytes[s.at]))
    else Some(s)
  }

  /** The opcode, its second byte or -1, and the offset after both. */
  datatype Head = Head(scan: Scan, opcode: Byte, second: int, at: nat)

  function ReadHead(bytes: seq<Byte>): (h: Option<Head>) {
    var s := Prefixes(bytes, START);
    if s.None? || !Readable(bytes, s.value.at + 1) then None
    else
      var opcode := bytes[s.value.at];
      if opcode != 0x0f then Some(Head(s.value, opcode, -1, s.value.at + 1))
      else if Readable(bytes, s.value.at + 2) then
        Some(Head(s.value, opcode, bytes[s.value.at + 1], s.value.at + 2))
      else None
  }

  // The operand

  datatype Operand = Operand(at: nat, register: int, relative: Option<nat>, memory: bool)

  /** Bytes that the addressing form inspects: ModRM, and SIB when there is one. */
  function FormLength(modrm: Byte): nat {
    if modrm / 64 != 3 && modrm % 8 == 4 then 2 else 1
  }
  function DisplacementLength(modrm: Byte, base: int): nat {
    if modrm / 64 == 0 && base == 5 then 4
    else if modrm / 64 == 1 then 1
    else if modrm / 64 == 2 then 4
    else 0
  }
  function ReadOperand(bytes: seq<Byte>, at: nat): Option<Operand> {
    if !Readable(bytes, at + 1) then None
    else
      var modrm := bytes[at];
      if modrm / 64 == 3 then Some(Operand(at + 1, modrm / 8 % 8, None, false))
      else
        var field := at + FormLength(modrm);
        if !Readable(bytes, field) then None
        else
          var base := if modrm % 8 == 4 then bytes[at + 1] % 8 else modrm % 8;
          var end := field + DisplacementLength(modrm, base);
          if !Readable(bytes, end) then None
          else Some(Operand(end, modrm / 8 % 8,
                            if modrm / 64 == 0 && modrm % 8 == 5 then Some(field) else None, true))
  }

  // The opcode map

  /** What follows an opcode: an operand, and `imm` further bytes. */
  datatype Form =
    | Rejected
    | Bare(imm: nat, terminal: bool, fixed: bool)
    | Jump(width: nat, condition: Option<int>)
    | CallNear
    | WithOperand(imm: nat)

  function Immediate(h: Head): nat {
    if h.scan.word && h.scan.rex / 8 % 2 == 0 then 2 else 4
  }
  function Wide(h: Head): bool {
    h.scan.rex / 8 % 2 == 1
  }
  function SecondForm(b: int): Form {
    if b == 0x0b then Bare(0, true, false)
    else if b == 0x1f then WithOperand(0)
    else if || 0x10 <= b <= 0x17 || 0x28 <= b <= 0x2f || 0x40 <= b <= 0x4f || 0x54 <= b <= 0x59
            || b in {0x6e, 0x6f, 0x7e, 0x7f, 0xaf, 0xb6, 0xb7, 0xbe, 0xbf, 0xef} || 0x90 <= b <= 0x9f
    then WithOperand(0)
    else if 0x80 <= b <= 0x8f then Jump(4, Some(b % 16))
    else if 0xc8 <= b <= 0xcf then Bare(0, false, false)
    else Rejected
  }
  function ArithmeticForm(h: Head): Form {
    if h.opcode % 8 <= 3 then WithOperand(0)
    else if h.opcode % 8 == 4 then Bare(1, false, false)
    else if h.opcode % 8 == 5 then Bare(Immediate(h), false, false)
    else Rejected
  }
  function FirstForm(h: Head): Form {
    var b := h.opcode;
    if b <= 0x3d then ArithmeticForm(h)
    else if b in {0x90, 0x91, 0x92, 0x93, 0x94, 0x95, 0x96, 0x97, 0x98, 0x99, 0x9c, 0x9d, 0xc9, 0xfc, 0xfd}
            || 0x50 <= b <= 0x5f then Bare(0, false, false)
    else if b in {0xc3, 0xcb, 0xcc, 0xcf, 0xf1, 0xf4} then Bare(0, true, false)
    else if b in {0xc2, 0xca} then Bare(2, true, false)
    else if b == 0xcd then Bare(1, true, true)
    else if b == 0xe9 then Jump(4, None)
    else if b == 0xeb then Jump(1, None)
    else if b == 0xe8 then CallNear
    else if 0x70 <= b <= 0x7f then Jump(1, Some(b % 16))
    else if 0xe0 <= b <= 0xe3 then Bare(1, false, true)
    else if b in {0x6a, 0xa8} || 0xb0 <= b <= 0xb7 then Bare(1, false, false)
    else if b in {0x68, 0xa9} then Bare(Immediate(h), false, false)
    else if 0xb8 <= b <= 0xbf then Bare(if Wide(h) then 8 else Immediate(h), false, false)
    else if 0xa0 <= b <= 0xa3 then Bare(if h.scan.address32 then 4 else 8, false, false)
    else if b in {0x63, 0x8d, 0x8f, 0xf6, 0xf7, 0xfe, 0xff} || 0x84 <= b <= 0x8b || 0xd0 <= b <= 0xd3
    then WithOperand(0)
    else if b in {0x69, 0x81, 0xc7} then WithOperand(Immediate(h))
    else if b in {0x6b, 0x80, 0x83, 0xc0, 0xc1, 0xc6} then WithOperand(1)
    else Rejected
  }
  function FormOf(h: Head): Form {
    if h.opcode == 0x0f then SecondForm(h.second) else FirstForm(h)
  }

  // Rules that depend on the register field of ModRM

  predicate GroupAccepts(h: Head, register: int) {
    if h.opcode == 0x0f then h.second == 0x1f ==> register == 0
    else if h.opcode in {0x8f, 0xc6, 0xc7} then register == 0
    else if h.opcode in {0xf6, 0xf7} then register != 1
    else if h.opcode == 0xfe then register <= 1
    else if h.opcode == 0xff then register !in {3, 5, 7}
    else true
  }
  function GroupImmediate(h: Head, register: int): nat {
    if register != 0 then 0
    else if h.opcode == 0xf6 then 1
    else if h.opcode == 0xf7 then Immediate(h)
    else 0
  }
  predicate Lockable(h: Head, register: int) {
    if h.opcode <= 0x37 && h.opcode != 0x0f then h.opcode % 8 <= 1
    else if h.opcode in {0x86, 0x87} then true
    else if h.opcode in {0x80, 0x81, 0x83} then register != 7
    else if h.opcode in {0xf6, 0xf7} then register in {2, 3}
    else if h.opcode in {0xfe, 0xff} then register <= 1
    else false
  }

  /** An instruction whose opcode takes an operand. */
  function DecodeOperand(bytes: seq<Byte>, h: Head, imm: nat): Option<Instruction> {
    var o := ReadOperand(bytes, h.at);
    if o.None? || !GroupAccepts(h, o.value.register) then None
    else
      var Operand(at, register, relative, memory) := o.value;
      var size := at + imm + GroupImmediate(h, register);
      var call := h.opcode == 0xff && register == 2;
      if !Readable(bytes, size) || (h.scan.locked && !(Lockable(h, register) && memory)) then None
      else Some(Instruction(
                  size,
                  h.opcode == 0xff && register == 4,
                  relative,
                  || (call && bytes[h.at] % 8 == 4)
                  || (h.scan.address32 && relative.Some?),
                  None,
                  if call then Some(Indirect(h.at)) else None))
  }

  /** The instruction at the start of `bytes`, if it is a known form. */
  function Decode(bytes: seq<Byte>): Option<Instruction> {
    var head := ReadHead(bytes);
    if head.None? then None
    else
      var h := head.value;
      match FormOf(h)
      case Rejected => None
      case Bare(imm, terminal, fixed) =>
        if Readable(bytes, h.at + imm) && !h.scan.locked
        then Some(Instruction(h.at + imm, terminal, None, fixed, None, None)) else None
      case Jump(width, condition) =>
        if Readable(bytes, h.at + width) && !h.scan.locked
        then Some(Instruction(h.at + width, condition.None?, None, false,
                              Some(Branch(h.at, width, condition)), None)) else None
      case CallNear =>
        if Readable(bytes, h.at + 4) && !h.scan.locked
        then Some(Instruction(h.at + 4, false, None, false, None, Some(Direct(h.at)))) else None
      case WithOperand(imm) => DecodeOperand(bytes, h, imm)
  }

  // Locality: decoding inspects the head and the addressing form, and only measures the rest

  /** How many bytes decide the result. */
  function Inspected(bytes: seq<Byte>): nat
    requires Decode(bytes).Some?
  {
    var h := ReadHead(bytes).value;
    if FormOf(h).WithOperand? then h.at + FormLength(bytes[h.at]) else h.at
  }

  ghost predicate Agree(a: seq<Byte>, b: seq<Byte>, n: nat) {
    n <= |a| && n <= |b| && forall i | 0 <= i < n :: a[i] == b[i]
  }

  lemma {:induction false} PrefixesBounds(a: seq<Byte>, s: Scan)
    requires Prefixes(a, s).Some?
    ensures s.at <= Prefixes(a, s).value.at && Readable(a, Prefixes(a, s).value.at + 1)
    ensures !IsPrefix(a[Prefixes(a, s).value.at])
    decreases LIMIT - s.at
  {
    hide IsPrefix;
    if IsPrefix(a[s.at]) {
      PrefixesBounds(a, Prefixed(s, a[s.at]));
    }
  }
  lemma {:induction false} PrefixesLocal(a: seq<Byte>, b: seq<Byte>, s: Scan)
    requires Prefixes(a, s).Some? && Agree(a, b, Prefixes(a, s).value.at + 1)
    ensures Prefixes(b, s) == Prefixes(a, s)
    decreases LIMIT - s.at
  {
    hide IsPrefix;
    PrefixesBounds(a, s);
    if IsPrefix(a[s.at]) {
      PrefixesLocal(a, b, Prefixed(s, a[s.at]));
    }
  }

  lemma HeadBounds(a: seq<Byte>)
    requires ReadHead(a).Some?
    ensures 1 <= ReadHead(a).value.at && Readable(a, ReadHead(a).value.at)
  {
    hide Prefixes;
  }
  lemma HeadLocal(a: seq<Byte>, b: seq<Byte>)
    requires ReadHead(a).Some? && Agree(a, b, ReadHead(a).value.at)
    ensures ReadHead(b) == ReadHead(a)
  {
    hide IsPrefix, Prefixes;
    PrefixesLocal(a, b, START);
  }

  lemma OperandBounds(a: seq<Byte>, at: nat)
    requires ReadOperand(a, at).Some?
    ensures at + FormLength(a[at]) <= ReadOperand(a, at).value.at && Readable(a, ReadOperand(a, at).value.at)
    ensures var o := ReadOperand(a, at).value;
            o.relative.Some? ==> o.memory && at + FormLength(a[at]) == o.relative.value && o.at == o.relative.value + 4
  {
  }
  lemma OperandLocal(a: seq<Byte>, b: seq<Byte>, at: nat)
    requires ReadOperand(a, at).Some? && ReadOperand(a, at).value.at <= |b|
    requires Agree(a, b, at + FormLength(a[at]))
    ensures ReadOperand(b, at) == ReadOperand(a, at)
  {
  }

  /** An instruction has at least one and at most fifteen bytes, all of them present. */
  lemma DecodeBounds(a: seq<Byte>)
    requires Decode(a).Some?
    ensures 1 <= Inspected(a) <= Decode(a).value.size <= LIMIT && Decode(a).value.size <= |a|
  {
    hide ReadHead, FormOf, ReadOperand, GroupAccepts, GroupImmediate, Lockable;
    var h := ReadHead(a).value;
    HeadBounds(a);
    if FormOf(h).WithOperand? {
      OperandBounds(a, h.at);
    }
  }

  /** The result depends on the inspected bytes alone, provided the rest is present. */
  lemma DecodeLocal(a: seq<Byte>, b: seq<Byte>)
    requires Decode(a).Some? && Decode(a).value.size <= |b| && Agree(a, b, Inspected(a))
    ensures Decode(b) == Decode(a) && Inspected(b) == Inspected(a)
  {
    hide ReadHead, FormOf, ReadOperand, GroupAccepts, GroupImmediate, Lockable;
    var h := ReadHead(a).value;
    HeadBounds(a);
    HeadLocal(a, b);
    if FormOf(h).WithOperand? {
      OperandBounds(a, h.at);
      OperandLocal(a, b, h.at);
    }
  }

  /** All reported fields lie inside the instruction, behind the inspected bytes. */
  lemma FieldsInside(a: seq<Byte>)
    requires Decode(a).Some?
    ensures var x := Decode(a).value;
            && (x.relativeMemory.Some? ==>
                  Inspected(a) <= x.relativeMemory.value && x.relativeMemory.value + 4 <= x.size)
            && (x.branch.Some? ==> && x.branch.value.width in {1, 4}
                                   && x.branch.value.displacement == Inspected(a)
                                   && x.branch.value.displacement + x.branch.value.width == x.size)
            && (x.call.Some? && x.call.value.Direct? ==> && x.call.value.displacement == Inspected(a)
                                                         && x.call.value.displacement + 4 == x.size)
            && (x.call.Some? && x.call.value.Indirect? ==> x.call.value.modrm < Inspected(a))
            && (x.branch.Some? ==> x.relativeMemory.None? && x.call.None?)
            && (x.call.Some? && x.call.value.Direct? ==> x.relativeMemory.None?)
  {
    hide ReadHead, ReadOperand, GroupAccepts, GroupImmediate, Lockable;
    var h := ReadHead(a).value;
    HeadBounds(a);
    if FormOf(h).WithOperand? {
      OperandBounds(a, h.at);
    }
  }

  /** Every shorter truncation is refused. */
  lemma DecodeTruncated(a: seq<Byte>, n: nat)
    requires Decode(a).Some? && n < Decode(a).value.size && n <= |a|
    ensures Decode(a[..n]).None?
  {
    var b := a[..n];
    hide Decode, Inspected;
    if Decode(b).Some? {
      DecodeBounds(b);
      DecodeLocal(b, a);
    }
  }
}
