/** Relocation of a displaced x86-64 prefix. */
module X86Relocate {
  import opened Words
  import opened Bytes
  import opened X86Decode
  import opened X86Reader

  const ENDBR64: seq<Byte> := [0xf3, 0x0f, 0x1e, 0xfa]

  function Signed8(b: Byte): int {
    if b < 128 then b else b - 256
  }
  function Signed32(w: Word): int {
    if w < 0x8000_0000 then w else w - W32
  }
  /** The displacement field that reaches `target` from `next`. */
  function Displacement(next: int, target: int): (r: Result<seq<Byte>>)
    ensures r.Ok? ==> |r.value| == 4
  {
    var delta := target - next;
    if -0x8000_0000 <= delta < 0x8000_0000 then Ok(Le32(if delta < 0 then delta + W32 else delta))
    else Err(InvalidRange)
  }

  /** One original instruction in its place. */
  ghost predicate InstructionAt(original: seq<Byte>, offset: nat, x: Instruction) {
    offset <= |original| && Decode(original[offset..]) == Some(x)
  }

  // Drafts

  /** Emitted bytes, and the displacement field still to be resolved with its original target. */
  datatype Draft = Draft(bytes: seq<Byte>, slot: Option<(nat, int)>)

  /** Bytes before the opcode of a branch. */
  function BranchPrefix(b: Branch): int {
    b.displacement - if b.width == 4 && b.condition.Some? then 2 else 1
  }
  function BranchOpcode(condition: Option<int>): seq<Byte>
    requires condition.Some? ==> 0 <= condition.value < 16
  {
    if condition.Some? then [0x0f, 0x80 + condition.value] else [0xe9]
  }
  ghost predicate BranchFits(original: seq<Byte>, offset: nat, b: Branch) {
    && b.width in {1, 4} && offset + b.displacement + b.width <= |original|
    && BranchPrefix(b) >= 0
    && (b.condition.Some? ==> 0 <= b.condition.value < 16)
  }
  function FieldValue(original: seq<Byte>, field: nat, width: nat): int
    requires width in {1, 4} && field + width <= |original|
  {
    if width == 1 then Signed8(original[field]) else Signed32(Word32(original, field))
  }

  function CopyBranch(source: Address, original: seq<Byte>, offset: nat, size: nat, b: Branch): Draft
    requires BranchFits(original, offset, b)
  {
    var prefix := original[offset..offset + BranchPrefix(b)];
    var opcode := BranchOpcode(b.condition);
    Draft(prefix + opcode + [0, 0, 0, 0],
          Some((|prefix| + |opcode|, source + offset + size + FieldValue(original, offset + b.displacement, b.width))))
  }
  function JumpInstead(modrm: Byte): Byte {
    modrm - modrm / 8 % 8 * 8 + 32
  }
  /** The instruction as it is copied, before its RIP-relative field is re-aimed. */
  function Copied(source: Address, original: seq<Byte>, offset: nat, x: Instruction): Draft
    requires Fits(original, offset, x)
  {
    if x.branch.Some? then CopyBranch(source, original, offset, x.size, x.branch.value)
    else
      match x.call
      case Some(Direct(displacement)) =>
        Draft([0xe9, 0, 0, 0, 0],
              Some((1, source + offset + x.size + FieldValue(original, offset + displacement, 4))))
      case Some(Indirect(modrm)) =>
        var copy := original[offset..offset + x.size];
        Draft(copy[modrm := JumpInstead(copy[modrm])], None)
      case None => Draft(original[offset..offset + x.size], None)
  }

  /** What the decoder guarantees about fields. */
  ghost predicate Fits(original: seq<Byte>, offset: nat, x: Instruction) {
    && 1 <= x.size <= LIMIT && offset + x.size <= |original|
    && (x.branch.Some? ==> && BranchFits(original, offset, x.branch.value) && x.call.None? && x.relativeMemory.None?
                           && x.branch.value.displacement + x.branch.value.width == x.size)
    && (x.call.Some? ==> if x.call.value.Direct? then x.call.value.displacement + 4 <= x.size && x.relativeMemory.None?
                         else x.call.value.modrm < x.size)
    && (x.relativeMemory.Some? ==> x.relativeMemory.value + 4 <= x.size)
  }

  function Patch(bytes: seq<Byte>, field: nat, value: seq<Byte>): (r: seq<Byte>)
    requires field + |value| <= |bytes|
    ensures |r| == |bytes|
  {
    bytes[..field] + value + bytes[field + |value|..]
  }

  /** Re-aims the RIP-relative field of a copy placed at `start`. */
  function Aim(source: Address, start: int, original: seq<Byte>, offset: nat, x: Instruction, copy: seq<Byte>)
    : (r: Result<seq<Byte>>)
    requires Fits(original, offset, x) && (x.relativeMemory.Some? ==> |copy| == x.size)
    ensures r.Ok? ==> |r.value| == |copy|
  {
    if x.relativeMemory.None? then Ok(copy)
    else
      var displacement := x.relativeMemory.value;
      var target :- Sum(source + offset + x.size, FieldValue(original, offset + displacement, 4));
      var next :- Sum(start, |copy|);
      var field :- Displacement(next, target);
      Ok(Patch(copy, displacement, field))
  }

  /** The draft for the instruction at `offset`, emitted after `at` output bytes. A final call
      becomes a push of the original return address, a jump, and that address as data. */
  function Expand(source: Address, destination: Address, original: seq<Byte>, offset: nat, x: Instruction, at: nat)
    : (r: Result<Draft>)
    requires Fits(original, offset, x) && source + |original| < W64
    ensures r.Ok? ==> 1 <= |r.value.bytes| <= 33
    ensures r.Ok? && r.value.slot.Some? ==> r.value.slot.value.0 + 4 <= |r.value.bytes|
  {
    if x.cannotMove then Err(InvalidInstruction)
    else if x.call.Some? && offset + x.size != |original| then Err(InvalidInstruction)
    else
      var copy := Copied(source, original, offset, x);
      if x.call.None? then
        var moved :- Aim(source, destination + at, original, offset, x, copy.bytes);
        Ok(Draft(moved, copy.slot))
      else
        var moved :- Aim(source, destination + at + 6, original, offset, x, copy.bytes);
        Ok(Draft([0xff, 0x35] + Le32(|moved|) + moved + Le64(source + |original|),
                 if copy.slot.Some? then Some((6 + copy.slot.value.0, copy.slot.value.1)) else None))
  }

  // Two passes

  datatype Pass = Pass(output: seq<Byte>, positions: seq<(nat, nat)>, branches: seq<(nat, int)>)

  function Append(p: Pass, offset: nat, d: Draft): Pass {
    Pass(p.output + d.bytes,
         p.positions + [(offset, |p.output|)],
         p.branches + if d.slot.Some? then [(|p.output| + d.slot.value.0, d.slot.value.1)] else [])
  }

  lemma DecodeFits(original: seq<Byte>, offset: nat, x: Instruction)
    requires InstructionAt(original, offset, x)
    ensures Fits(original, offset, x)
  {
    hide Decode, Inspected;
    var a := original[offset..];
    DecodeBounds(a);
    FieldsInside(a);
    if x.branch.Some? {
      ConditionRange(a);
    }
  }
  lemma ConditionRange(a: seq<Byte>)
    requires Decode(a).Some? && Decode(a).value.branch.Some?
    ensures var b := Decode(a).value.branch.value;
            && BranchPrefix(b) >= 0
            && (b.condition.Some? ==> 0 <= b.condition.value < 16)
  {
    hide Prefixes, ReadOperand;
  }

  /** First pass, from the instruction at `offset` to the end. */
  function Emit(source: Address, destination: Address, original: seq<Byte>, offset: nat, p: Pass): Result<Pass>
    requires offset <= |original| && source + |original| < W64
    decreases |original| - offset
  {
    if offset == |original| then Ok(p)
    else
      var x := Decode(original[offset..]);
      if x.None? then Err(InvalidInstruction)
      else
        DecodeFits(original, offset, x.value);
        var d :- Expand(source, destination, original, offset, x.value, |p.output|);
        Emit(source, destination, original, offset + x.value.size, Append(p, offset, d))
  }

  function Lookup(positions: seq<(nat, nat)>, offset: int): Option<nat> {
    if positions == [] then None
    else if positions[0].0 == offset then Some(positions[0].1)
    else Lookup(positions[1..], offset)
  }

  /** Where a branch of the relocated code must go. */
  function Mapped(source: Address, destination: Address, n: nat, positions: seq<(nat, nat)>,
                  target: int): Result<Address> {
    if !(0 <= target < W64) then Err(InvalidRange)
    else if source <= target < source + n then
      var position := Lookup(positions, target - source);
      if position.None? then Err(InvalidInstruction) else Sum(destination, position.value)
    else Ok(target)
  }
  function Resolve(source: Address, destination: Address, n: nat, positions: seq<(nat, nat)>, branch: (nat, int))
    : (r: Result<seq<Byte>>)
    ensures r.Ok? ==> |r.value| == 4
  {
    var goal :- Mapped(source, destination, n, positions, branch.1);
    var next :- Sum(destination, branch.0 + 4);
    Displacement(next, goal)
  }

  /** Second pass, from branch `k` to the last. */
  function Fix(source: Address, destination: Address, n: nat, p: Pass, k: nat, out: seq<Byte>): (r: Result<seq<Byte>>)
    requires k <= |p.branches| && |out| == |p.output|
    requires forall j | 0 <= j < |p.branches| :: p.branches[j].0 + 4 <= |p.output|
    ensures r.Ok? ==> |r.value| == |out|
    decreases |p.branches| - k
  {
    if k == |p.branches| then Ok(out)
    else
      var field :- Resolve(source, destination, n, p.positions, p.branches[k]);
      Fix(source, destination, n, p, k + 1, Patch(out, p.branches[k].0, field))
  }

  ghost predicate SlotsFit(p: Pass) {
    forall j | 0 <= j < |p.branches| :: p.branches[j].0 + 4 <= |p.output|
  }

  lemma {:induction false} EmitSlotsFit(source: Address, destination: Address, original: seq<Byte>, offset: nat,
                                        p: Pass)
    requires offset <= |original| && source + |original| < W64 && SlotsFit(p)
    requires Emit(source, destination, original, offset, p).Ok?
    ensures SlotsFit(Emit(source, destination, original, offset, p).value)
    decreases |original| - offset
  {
    hide Decode, Expand;
    if offset < |original| {
      var x := Decode(original[offset..]).value;
      DecodeFits(original, offset, x);
      var d := Expand(source, destination, original, offset, x, |p.output|).value;
      EmitSlotsFit(source, destination, original, offset + x.size, Append(p, offset, d));
    }
  }

  const EMPTY := Pass(ENDBR64, [], [])

  /** The relocated prefix, up to and including the jump back to the continuation. */
  function Relocated(source: Address, destination: Address, original: seq<Byte>): Result<seq<Byte>> {
    if source == 0 || destination == 0 then Err(InvalidAddress)
    else
      var continuation :- Sum(source, |original|);
      var p :- Emit(source, destination, original, 0, EMPTY);
      EmitSlotsFit(source, destination, original, 0, EMPTY);
      var out :- Fix(source, destination, |original|, p, 0, p.output);
      var next :- Sum(destination, |out| + 5);
      var back :- Displacement(next, continuation);
      Ok(out + [0xe9] + back)
  }
}
