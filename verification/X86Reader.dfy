/** The decoder as it runs: a reader that consumes bytes. */
module X86Reader {
  import opened Words
  import opened X86Decode

  class Reader {
    const bytes: seq<Byte>
    var offset: nat
    var relativeMemory: Option<nat>
    var memory: bool

    constructor (bytes: seq<Byte>)
      ensures this.bytes == bytes && offset == 0 && relativeMemory == None && !memory
    {
      this.bytes := bytes;
      offset, relativeMemory, memory := 0, None, false;
    }

    method Skip(count: nat) returns (ok: bool)
      modifies this
      ensures relativeMemory == old(relativeMemory) && memory == old(memory)
      ensures ok == Readable(bytes, old(offset) + count)
      ensures offset == old(offset) + if ok then count else 0
    {
      var end := offset + count;
      if end > |bytes| || end > LIMIT {
        return false;
      }
      offset := end;
      ok := true;
    }

    method Byte() returns (r: Option<Byte>)
      modifies this
      ensures relativeMemory == old(relativeMemory) && memory == old(memory)
      ensures r == if Readable(bytes, old(offset) + 1) then Some(bytes[old(offset)]) else None
      ensures offset == old(offset) + if r.Some? then 1 else 0
    {
      var ok := Skip(1);
      r := if ok then Some(bytes[offset - 1]) else None;
    }

    method ModRm() returns (r: Option<int>)
      requires relativeMemory == None
      modifies this
      ensures var o := ReadOperand(bytes, old(offset));
              && r.Some? == o.Some?
              && (o.Some? ==> && r.value == o.value.register && offset == o.value.at
                              && relativeMemory == o.value.relative && memory == o.value.memory)
    {
      ghost var start := offset;
      var modrm := Byte();
      if modrm.None? {
        return None;
      }
      var byte := modrm.value;
      var mode, register, base := byte / 64, byte / 8 % 8, byte % 8;
      memory := mode != 3;
      if mode != 3 {
        var sibBase := base;
        if base == 4 {
          var sib := Byte();
          if sib.None? {
            return None;
          }
          sibBase := sib.value % 8;
        }
        if mode == 0 && base == 5 {
          relativeMemory := Some(offset);
        }
        var displacement := if mode == 0 && sibBase == 5 then 4
                            else if mode == 1 then 1
                            else if mode == 2 then 4
                            else 0;
        var ok := Skip(displacement);
        if !ok {
          return None;
        }
      }
      r := Some(register);
    }

    /** The prefix loop: leaves the reader after the first byte that is not a prefix. */
    method Opcode() returns (r: Option<(Scan, Byte)>)
      requires offset == 0
      modifies this
      ensures relativeMemory == old(relativeMemory) && memory == old(memory)
      ensures var s := Prefixes(bytes, START);
              if s.Some? then && Readable(bytes, s.value.at + 1) && offset == s.value.at + 1
                              && r == Some((s.value, bytes[s.value.at]))
              else r == None
    {
      var word, rex, address32, locked := false, 0, false, false;
      while true
        invariant offset <= LIMIT && relativeMemory == old(relativeMemory) && memory == old(memory)
        invariant Prefixes(bytes, START) == Prefixes(bytes, Scan(offset, word, rex, address32, locked))
        decreases LIMIT - offset
      {
        var at := offset;
        var next := Byte();
        if next.None? {
          return None;
        }
        var byte := next.value;
        match byte {
          case 0xf0 => locked, rex := true, 0;
          case 0x66 => word, rex := true, 0;
          case 0x67 => address32, rex := true, 0;
          case _ =>
            if byte in {0x26, 0x2e, 0x36, 0x3e, 0x64, 0x65, 0xf2, 0xf3} {
              rex := 0;
            } else if 0x40 <= byte <= 0x4f {
              rex := byte;
            } else {
              return Some((Scan(at, word, rex, address32, locked), byte));
            }
        }
      }
    }
  }

  /** What the opcode said, before the lock check. */
  datatype Fields = Fields(terminal: bool, cannotMove: bool, branch: Option<Branch>, call: Option<Call>, lockable: bool)
  const PLAIN := Fields(false, false, None, None, false)

  /** The outcome the reference decoder expects for an opcode, seen from the reader. */
  ghost predicate Refines(bytes: seq<Byte>, h: Head, r: Option<Fields>, offset: nat, relative: Option<nat>,
                          memory: bool) {
    var complete := r.Some? && (h.scan.locked ==> r.value.lockable && memory);
    var x := match FormOf(h)
      case Rejected => None
      case Bare(imm, terminal, fixed) =>
        if Readable(bytes, h.at + imm) && !h.scan.locked
        then Some(Instruction(h.at + imm, terminal, None, fixed, None, None)) else None
      case Jump(width, condition) =>
        if Readable(bytes, h.at + width) && !h.scan.locked
        then Some(Instruction(h.at + width, condition.None?, None, false,
                              Some(Branch(h.at, width, condition)), None)) else None
      case CallNear =>
        if Readable(bytes, h.at + 4) && !h.scan.locked
        then Some(Instruction(h.at + 4, false, None, false, None, Some(Direct(h.at)))) else None
      case WithOperand(imm) => DecodeOperand(bytes, h, imm);
    && x.Some? == complete
    && (complete ==> x.value == Instruction(offset, r.value.terminal, relative,
                                            r.value.cannotMove || (h.scan.address32 && relative.Some?),
                                            r.value.branch, r.value.call))
  }

  /** Opcodes after the 0x0f escape. */
  method TwoByte(reader: Reader, h: Head) returns (r: Option<Fields>)
    requires h.opcode == 0x0f && 0 <= h.second < 256 && reader.offset == h.at && Readable(reader.bytes, h.at)
    requires reader.relativeMemory == None && !reader.memory
    modifies reader
    ensures Refines(reader.bytes, h, r, reader.offset, reader.relativeMemory, reader.memory)
  {
    var b := h.second;
    if b == 0x0b {
      return Some(PLAIN.(terminal := true));
    } else if b == 0x1f {
      var group := reader.ModRm();
      if group.None? || group.value != 0 {
        return None;
      }
    } else if || 0x10 <= b <= 0x17 || 0x28 <= b <= 0x2f || 0x40 <= b <= 0x4f || 0x54 <= b <= 0x59
              || b in {0x6e, 0x6f, 0x7e, 0x7f, 0xaf, 0xb6, 0xb7, 0xbe, 0xbf, 0xef} || 0x90 <= b <= 0x9f {
      var group := reader.ModRm();
      if group.None? {
        return None;
      }
    } else if 0x80 <= b <= 0x8f {
      var at := reader.offset;
      var ok := reader.Skip(4);
      return if ok then Some(PLAIN.(branch := Some(Branch(at, 4, Some(b % 16))))) else None;
    } else if 0xc8 <= b <= 0xcf {
    } else {
      return None;
    }
    r := Some(PLAIN);
  }

  predicate TakesOperand(b: Byte) {
    || (b <= 0x3d && b % 8 <= 3) || 0x84 <= b <= 0x8b || 0xd0 <= b <= 0xd3
    || b in {0x63, 0x69, 0x6b, 0x80, 0x81, 0x83, 0x8d, 0x8f, 0xc0, 0xc1, 0xc6, 0xc7, 0xf6, 0xf7, 0xfe, 0xff}
  }

  predicate IsTransfer(b: Byte) {
    || 0x70 <= b <= 0x7f || 0xe0 <= b <= 0xe3
    || b in {0xc2, 0xc3, 0xca, 0xcb, 0xcc, 0xcd, 0xcf, 0xe8, 0xe9, 0xeb, 0xf1, 0xf4}
  }

  /** Returns, traps, direct jumps and direct calls. */
  method Transfer(reader: Reader, h: Head) returns (r: Option<Fields>)
    requires IsTransfer(h.opcode) && reader.offset == h.at
    requires reader.relativeMemory == None && !reader.memory
    modifies reader
    ensures Refines(reader.bytes, h, r, reader.offset, reader.relativeMemory, reader.memory)
  {
    hide DecodeOperand;
    var b, at := h.opcode, reader.offset;
    var fields, count := PLAIN, 0;
    if b in {0xc3, 0xcb, 0xcc, 0xcf, 0xf1, 0xf4} {
      fields := fields.(terminal := true);
    } else if b in {0xc2, 0xca} {
      fields, count := fields.(terminal := true), 2;
    } else if b == 0xcd {
      fields, count := fields.(terminal := true, cannotMove := true), 1;
    } else if b in {0xe9, 0xeb} {
      count := if b == 0xe9 then 4 else 1;
      fields := fields.(branch := Some(Branch(at, count, None)), terminal := true);
    } else if b == 0xe8 {
      fields, count := fields.(call := Some(Direct(at))), 4;
    } else if 0x70 <= b <= 0x7f {
      fields, count := fields.(branch := Some(Branch(at, 1, Some(b % 16)))), 1;
    } else {
      fields, count := fields.(cannotMove := true), 1;
    }
    var ok := reader.Skip(count);
    r := if ok then Some(fields) else None;
  }

  /** Other one-byte opcodes without an operand. */
  method WithoutOperand(reader: Reader, h: Head) returns (r: Option<Fields>)
    requires h.opcode != 0x0f && !TakesOperand(h.opcode) && !IsTransfer(h.opcode) && reader.offset == h.at
    requires reader.relativeMemory == None && !reader.memory
    modifies reader
    ensures Refines(reader.bytes, h, r, reader.offset, reader.relativeMemory, reader.memory)
  {
    hide DecodeOperand;
    var b := h.opcode;
    var immediate := if h.scan.word && h.scan.rex / 8 % 2 == 0 then 2 else 4;
    var count := 0;
    if 0x50 <= b <= 0x5f || 0x90 <= b <= 0x99 || b in {0x9c, 0x9d, 0xc9, 0xfc, 0xfd} {
    } else if b == 0x6a || 0xb0 <= b <= 0xb7 || b == 0xa8 {
      count := 1;
    } else if b == 0x68 || b == 0xa9 {
      count := immediate;
    } else if 0xb8 <= b <= 0xbf {
      count := if h.scan.rex / 8 % 2 == 1 then 8 else immediate;
    } else if 0xa0 <= b <= 0xa3 {
      count := if h.scan.address32 then 4 else 8;
    } else if b <= 0x3d && b % 8 == 4 {
      count := 1;
    } else if b <= 0x3d && b % 8 == 5 {
      count := immediate;
    } else {
      return None;
    }
    var ok := reader.Skip(count);
    r := if ok then Some(PLAIN) else None;
  }

  lemma OperandForm(h: Head)
    requires h.opcode != 0x0f && TakesOperand(h.opcode)
    ensures FormOf(h) == X86Decode.WithOperand(
                           if h.opcode in {0x69, 0x81, 0xc7} then Immediate(h)
                           else if h.opcode in {0x6b, 0x80, 0x83, 0xc0, 0xc1, 0xc6} then 1 else 0)
  {
  }

  /** The 0xfe and 0xff groups: increments, indirect calls and jumps, pushes. */
  method LastGroups(reader: Reader, h: Head) returns (r: Option<Fields>)
    requires h.opcode in {0xfe, 0xff} && reader.offset == h.at
    requires reader.relativeMemory == None && !reader.memory
    modifies reader
    ensures Refines(reader.bytes, h, r, reader.offset, reader.relativeMemory, reader.memory)
  {
    OperandForm(h);
    hide ReadOperand, FormOf, TakesOperand;
    var modrm := reader.offset;
    var read := reader.ModRm();
    if read.None? {
      return None;
    }
    var group := read.value;
    if (h.opcode == 0xfe && group > 1) || group in {3, 5, 7} {
      return None;
    }
    OperandPresent(reader.bytes, h.at);
    var fields := PLAIN.(lockable := group <= 1, terminal := h.opcode == 0xff && group == 4);
    if h.opcode == 0xff && group == 2 {
      // A pushed return address would change a target that depends on the stack pointer.
      fields := fields.(cannotMove := reader.bytes[modrm] % 8 == 4, call := Some(Indirect(modrm)));
    }
    r := Some(fields);
  }

  /** Other one-byte opcodes with an operand. */
  method WithOperand(reader: Reader, h: Head) returns (r: Option<Fields>)
    requires h.opcode !in {0x0f, 0xfe, 0xff} && TakesOperand(h.opcode) && reader.offset == h.at
    requires reader.relativeMemory == None && !reader.memory
    modifies reader
    ensures Refines(reader.bytes, h, r, reader.offset, reader.relativeMemory, reader.memory)
  {
    OperandForm(h);
    hide ReadOperand, FormOf, TakesOperand;
    var b := h.opcode;
    var immediate := if h.scan.word && h.scan.rex / 8 % 2 == 0 then 2 else 4;
    var fields, count := PLAIN, 0;
    var read := reader.ModRm();
    if read.None? {
      return None;
    }
    var group := read.value;
    if b <= 0x3d {
      fields := fields.(lockable := b < 0x38 && b % 8 <= 1);
    } else if b in {0x63, 0x8d} || 0x84 <= b <= 0x8b || 0xd0 <= b <= 0xd3 {
      fields := fields.(lockable := b in {0x86, 0x87});
    } else if b in {0x69, 0x6b, 0x80, 0x81, 0x83, 0xc0, 0xc1} {
      fields := fields.(lockable := b in {0x80, 0x81, 0x83} && group != 7);
      count := if b in {0x69, 0x81} then immediate else 1;
    } else if b in {0x8f, 0xc6, 0xc7} {
      if group != 0 {
        return None;
      }
      count := if b == 0xc6 then 1 else if b == 0xc7 then immediate else 0;
    } else {
      fields := fields.(lockable := group in {2, 3});
      if group == 1 {
        return None;
      }
      if group == 0 {
        count := if b == 0xf6 then 1 else immediate;
      }
    }
    var ok := reader.Skip(count);
    r := if ok then Some(fields) else None;
  }
  lemma OperandPresent(bytes: seq<Byte>, at: nat)
    requires ReadOperand(bytes, at).Some?
    ensures at < |bytes| && Readable(bytes, ReadOperand(bytes, at).value.at)
  {
  }

  /** The decoder refines the opcode map; every refusal is the same error. */
  method DecodeInstruction(bytes: seq<Byte>) returns (r: Result<Instruction>)
    ensures r == if Decode(bytes).Some? then Ok(Decode(bytes).value) else Err(InvalidInstruction)
  {
    hide FormOf, Prefixes, DecodeOperand, TakesOperand, IsTransfer;
    var reader := new Reader(bytes);
    var read := reader.Opcode();
    if read.None? {
      return Err(InvalidInstruction);
    }
    var (scan, opcode) := read.value;
    var fields: Option<Fields>;
    ghost var h: Head;
    if opcode == 0x0f {
      var second := reader.Byte();
      if second.None? {
        return Err(InvalidInstruction);
      }
      var head := Head(scan, opcode, second.value, reader.offset);
      h := head;
      fields := TwoByte(reader, head);
    } else {
      var head := Head(scan, opcode, -1, reader.offset);
      h := head;
      if opcode in {0xfe, 0xff} {
        fields := LastGroups(reader, head);
      } else if IsTransfer(opcode) {
        fields := Transfer(reader, head);
      } else if TakesOperand(opcode) {
        fields := WithOperand(reader, head);
      } else {
        fields := WithoutOperand(reader, head);
      }
    }
    assert ReadHead(bytes) == Some(h);
    if fields.None? || (scan.locked && !(fields.value.lockable && reader.memory)) {
      return Err(InvalidInstruction);
    }
    var f := fields.value;
    r := Ok(Instruction(reader.offset, f.terminal, reader.relativeMemory,
                        f.cannotMove || (scan.address32 && reader.relativeMemory.Some?), f.branch, f.call));
  }
}
