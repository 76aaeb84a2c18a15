/** A64 encodings and the relocation of a displaced A64 prefix.
    A mask comparison on an instruction word is written as a test of the bit
    fields that the mask selects. */
module Arm64 {
  import opened Words

  const NOP: Word := 0xd503201f
  const BTI: Word := 0xd503245f
  const B: Word := 0x14000000
  /** Spans of the 14, 19, 21 and 26 bit immediates. */
  const S14: int := 0x4000
  const S19: int := 0x8_0000
  const S21: int := 0x20_0000
  const S26: int := 0x400_0000

  // Fields and classes of instruction words

  function Top(w: Word): int {
    w / 0x100_0000
  }
  predicate Valid(w: Word) {
    Top(w) / 2 % 16 !in {0, 1, 3} && w != 0xffff_ffff
  }
  predicate IsBranch(w: Word) {
    Top(w) / 4 % 32 == 5
  }
  predicate IsLink(w: Word) {
    Top(w) >= 0x80
  }
  predicate IsConditional(w: Word) {
    Top(w) == 0x54 && w / 16 % 2 == 0
  }
  predicate IsCompare(w: Word) {
    Top(w) % 128 in {0x34, 0x35}
  }
  predicate IsTest(w: Word) {
    Top(w) % 128 in {0x36, 0x37}
  }
  predicate IsAddress(w: Word) {
    Top(w) % 32 == 0x10
  }
  predicate IsLiteral(w: Word) {
    Top(w) % 64 in {0x18, 0x1c}
  }
  predicate IsCallRegister(w: Word) {
    w / 1024 == 0x358fc0 && w % 32 == 0
  }
  predicate IsJumpRegister(w: Word) {
    (w / 1024 == 0x3587c0 || w / 1024 == 0x3597c0) && w % 32 == 0
  }
  predicate IsAuthenticatedReturn(w: Word) {
    w == 0xd65f0bff || w == 0xd65f0fff
  }
  predicate IsRegisterFamily(w: Word) {
    Top(w) == 0xd6 || Top(w) == 0xd7
  }
  predicate Terminal(w: Word) {
    Top(w) / 4 == 5 || IsRegisterFamily(w) || (w / 0x20_0000 == 0x6a1 && w % 32 == 0)
  }
  function Rd(w: Word): int {
    w % 32
  }
  function Rn(w: Word): int {
    w / 32 % 32
  }
  function Bit40(w: Word): int {
    w / 0x8_0000 % 32
  }
  function Cond(w: Word): int {
    w % 16
  }
  function Imm26(w: Word): int {
    w % S26
  }
  function Imm19(w: Word): int {
    w / 32 % S19
  }
  function Imm14(w: Word): int {
    w / 32 % S14
  }
  function Imm21(w: Word): int {
    w / 32 % S19 * 4 + w / 0x2000_0000 % 4
  }
  function Flip(w: Word, bit: int): int
    requires bit > 0
  {
    if w / bit % 2 == 0 then w + bit else w - bit
  }

  /** Two's complement value of an immediate whose width has the given span. */
  function Signed(value: int, span: int): int {
    if value < span / 2 then value else value - span
  }

  /** Encodes a word offset, or refuses a misaligned or distant target. */
  function Relative(source: int, target: int, span: int): Result<int> {
    var delta := target - source;
    var value := delta / 4;
    if delta % 4 != 0 || value < -(span / 2) || value >= span / 2 then Err(InvalidRange)
    else Ok(if value < 0 then value + span else value)
  }

  function Aligned(address: Address): Result<()> {
    if address == 0 then Err(InvalidAddress)
    else if address % 4 != 0 then Err(InvalidRange)
    else Ok(())
  }

  // Emitted words

  function MoveWide(keep: bool, register: int, half: int, imm: int): (w: int) {
    (if keep then 0xf280_0000 else 0xd280_0000) + half * 0x20_0000 + imm * 32 + register
  }
  function Half(value: Address, half: int): (h: int)
    ensures 0 <= h < 65536
  {
    if half == 0 then value % 65536
    else if half == 1 then value / 0x1_0000 % 65536
    else if half == 2 then value / 0x1_0000_0000 % 65536
    else value / 0x1_0000_0000_0000 % 65536
  }
  function ConstantWord(register: int, value: Address, half: int): Word
    requires 0 <= register < 32 && 0 <= half < 4
  {
    MoveWide(half != 0, register, half, Half(value, half))
  }
  function Constant(register: int, value: Address): (ws: seq<Word>)
    requires 0 <= register < 32
    ensures |ws| == 4
  {
    [ConstantWord(register, value, 0), ConstantWord(register, value, 1),
     ConstantWord(register, value, 2), ConstantWord(register, value, 3)]
  }
  function LoadOpcode(op: int): int
    requires 0 <= op < 3
  {
    if op == 0 then 0xb940_0000 else if op == 1 then 0xf940_0000 else 0xb980_0000
  }

  /** The shortest jump: one branch, or a literal load through x16. */
  function Jump(source: Address, target: Address): Result<seq<Word>> {
    var _ :- Aligned(source);
    var _ :- Aligned(target);
    var delta := Relative(source, target, S26);
    if delta.Ok? then Ok([B + delta.value])
    else Ok([0x58000050, 0xd61f0200, target % W32, target / W32])
  }

  // Relocation

  /** The words for one instruction, and the branch slot to resolve later. */
  datatype Draft = Draft(words: seq<Word>, slot: Option<(nat, Address)>)

  /** A conditional branch becomes its negation over an unconditional one. */
  function ExpandConditional(pc: Address, w: Word): Result<Draft>
    requires IsConditional(w) || IsCompare(w) || IsTest(w)
  {
    var span := if IsTest(w) then S14 else S19;
    var imm := w / 32 % span;
    var target :- Sum(pc, 4 * Signed(imm, span));
    var bare: Word := w - imm * 32;
    if IsConditional(w) && Cond(w) >= 14 then
      Ok(Draft([B], Some((0, target))))
    else if IsConditional(w) then
      Ok(Draft([Flip(bare, 1) + 64, B], Some((1, target))))
    else
      Ok(Draft([Flip(bare, 0x100_0000) + 64, B], Some((1, target))))
  }

  function ExpandBranch(source: Address, n: nat, i: nat, w: Word): Result<Draft>
    requires i < n && source + 4 * n < W64 && IsBranch(w)
  {
    var target :- Sum(source + 4 * i, 4 * Signed(Imm26(w), S26));
    if !IsLink(w) then Ok(Draft([B], Some((0, target))))
    else if i + 1 != n then Err(InvalidInstruction)
    else Ok(Draft(Constant(30, source + 4 * n) + [B], Some((4, target))))
  }

  function AddressTarget(pc: Address, w: Word): Result<Address> {
    if IsLink(w) then Sum(pc / 4096 * 4096, 4096 * Signed(Imm21(w), S21))
    else Sum(pc, Signed(Imm21(w), S21))
  }

  /** A literal load is re-aimed when near, and otherwise loads through its own register. */
  function ExpandLiteral(pc: Address, next: int, w: Word): Result<Draft>
    requires IsLiteral(w)
  {
    var target :- Sum(pc, 4 * Signed(Imm19(w), S19));
    var here :- Sum(next, 0);
    var delta := Relative(here, target, S19);
    var register := Rd(w);
    var op := Top(w) / 64;
    if delta.Ok? then Ok(Draft([w - Imm19(w) * 32 + delta.value * 32], None))
    else if Top(w) / 4 % 2 != 0 || register == 31 then Err(InvalidRange)
    else if op == 3 then Ok(Draft([NOP], None))
    else Ok(Draft(Constant(register, target) + [LoadOpcode(op) + register * 32 + register], None))
  }

  /** The draft for instruction `i` of `n`, emitted after `at` output words. */
  function Expand(source: Address, destination: Address, n: nat, i: nat, w: Word, at: nat)
    : (r: Result<Draft>)
    requires i < n && source + 4 * n < W64
    ensures r.Ok? ==> 1 <= |r.value.words| <= 5
    ensures r.Ok? && r.value.slot.Some? ==>
              r.value.slot.value.0 == |r.value.words| - 1
              && r.value.words[|r.value.words| - 1] == B
  {
    var pc := source + 4 * i;
    if !Valid(w) then Err(InvalidInstruction)
    else if IsBranch(w) then ExpandBranch(source, n, i, w)
    else if IsConditional(w) || IsCompare(w) || IsTest(w) then ExpandConditional(pc, w)
    else if IsAddress(w) then
      var target :- AddressTarget(pc, w);
      Ok(Draft(Constant(Rd(w), target), None))
    else if IsLiteral(w) then ExpandLiteral(pc, destination + 4 * at, w)
    else if IsCallRegister(w) then
      if i + 1 != n || Rn(w) == 30 then Err(InvalidInstruction)
      else Ok(Draft(Constant(30, source + 4 * n) + [w - 0x20_0000], None))
    else if Top(w) == 0x54 then Err(InvalidInstruction)
    else if IsRegisterFamily(w) && !IsJumpRegister(w) && !IsAuthenticatedReturn(w) then
      Err(InvalidInstruction)
    else Ok(Draft([w], None))
  }

  /** First pass: the output so far, where each instruction starts, and the
      branch words still to be resolved with their original targets. */
  datatype Pass = Pass(output: seq<Word>, positions: seq<nat>, branches: seq<(nat, Address)>)

  function Append(p: Pass, d: Draft): Pass {
    Pass(p.output + d.words,
         p.positions + [|p.output|],
         p.branches + if d.slot.Some? then [(|p.output| + d.slot.value.0, d.slot.value.1)] else [])
  }

  function FirstPass(source: Address, destination: Address, ws: seq<Word>, i: nat): (r: Result<Pass>)
    requires i <= |ws| && source + 4 * |ws| < W64
    ensures r.Ok? ==> |r.value.positions| == i
    ensures r.Ok? ==> forall k | 0 <= k < |r.value.branches| ::
                        r.value.branches[k].0 < |r.value.output|
  {
    if i == 0 then Ok(Pass([BTI], [], []))
    else
      var p :- FirstPass(source, destination, ws, i - 1);
      var d :- Expand(source, destination, |ws|, i - 1, ws[i - 1], |p.output|);
      Ok(Append(p, d))
  }

  /** Where a branch of the relocated code must go. */
  function Mapped(source: Address, destination: Address, n: nat, positions: seq<nat>, target: Address)
    : Result<Address>
    requires |positions| == n
  {
    if source <= target < source + 4 * n then
      if (target - source) % 4 != 0 then Err(InvalidInstruction)
      else Sum(destination, 4 * positions[(target - source) / 4])
    else Ok(target)
  }

  function Resolve(source: Address, destination: Address, n: nat, positions: seq<nat>, branch: (nat, Address))
    : Result<Word>
    requires |positions| == n
  {
    var target :- Mapped(source, destination, n, positions, branch.1);
    var pc :- Sum(destination, 4 * branch.0);
    var delta :- Relative(pc, target, S26);
    Ok(B + delta)
  }

  /** Second pass: the first `k` branches are resolved in place. */
  function SecondPass(source: Address, destination: Address, p: Pass, k: nat): (r: Result<seq<Word>>)
    requires k <= |p.branches|
    requires forall j | 0 <= j < |p.branches| :: p.branches[j].0 < |p.output|
    ensures r.Ok? ==> |r.value| == |p.output|
  {
    if k == 0 then Ok(p.output)
    else
      var out :- SecondPass(source, destination, p, k - 1);
      var w :- Resolve(source, destination, |p.positions|, p.positions, p.branches[k - 1]);
      Ok(out[p.branches[k - 1].0 := w])
  }

  /** The relocated prefix, up to and including the jump back to the continuation. */
  function Relocated(source: Address, destination: Address, ws: seq<Word>): Result<seq<Word>> {
    var _ :- Aligned(source);
    var _ :- Aligned(destination);
    if |ws| == 0 then Err(InvalidRange)
    else
      var continuation :- Sum(source, 4 * |ws|);
      var p :- FirstPass(source, destination, ws, |ws|);
      var out :- SecondPass(source, destination, p, |p.branches|);
      var next :- Sum(destination, 4 * |out|);
      var back :- Jump(next, continuation);
      Ok(out + back)
  }

  method EmitConstant(output: seq<Word>, register: int, value: Address) returns (extended: seq<Word>)
    requires 0 <= register < 32
    ensures extended == output + Constant(register, value)
  {
    extended := output;
    for half := 0 to 4
      invariant extended == output + Constant(register, value)[..half]
    {
      extended := extended + [ConstantWord(register, value, half)];
    }
  }

  /** Looks up the output position of the instruction at a byte offset. */
  method Find(positions: seq<nat>, offset: int) returns (position: Option<nat>)
    ensures position == if 0 <= offset < 4 * |positions| && offset % 4 == 0
                        then Some(positions[offset / 4]) else None
  {
    for k := 0 to |positions|
      invariant 0 <= offset && offset % 4 == 0 ==> k <= offset / 4
    {
      if 4 * k == offset {
        return Some(positions[k]);
      }
    }
    position := None;
  }

  /** The emitting loop of the relocator. */
  method EmitDrafts(source: Address, destination: Address, original: seq<Word>)
    returns (r: Result<Pass>)
    requires source + 4 * |original| < W64
    ensures r == FirstPass(source, destination, original, |original|)
  {
    hide Expand;
    var output: seq<Word>, positions: seq<nat>, branches: seq<(nat, Address)> := [BTI], [], [];
    for i := 0 to |original|
      invariant FirstPass(source, destination, original, i) == Ok(Pass(output, positions, branches))
    {
      FirstPassFails(source, destination, original, i + 1, |original|);
      var d := Expand(source, destination, |original|, i, original[i], |output|);
      if d.Err? {
        return Err(d.error);
      }
      ghost var before := Pass(output, positions, branches);
      positions := positions + [|output|];
      if d.value.slot.Some? {
        branches := branches + [(|output| + d.value.slot.value.0, d.value.slot.value.1)];
      }
      output := output + d.value.words;
      assert Pass(output, positions, branches) == Append(before, d.value);
    }
    r := Ok(Pass(output, positions, branches));
  }

  /** The loop that resolves branch words in place. */
  method PatchBranches(source: Address, destination: Address, p: Pass) returns (r: Result<seq<Word>>)
    requires forall k | 0 <= k < |p.branches| :: p.branches[k].0 < |p.output|
    requires source + 4 * |p.positions| < W64
    ensures r == SecondPass(source, destination, p, |p.branches|)
  {
    var output := p.output;
    for k := 0 to |p.branches|
      invariant SecondPass(source, destination, p, k) == Ok(output)
    {
      SecondPassFails(source, destination, p, k + 1, |p.branches|);
      var (field, target) := p.branches[k];
      var goal := target;
      if source <= target < source + 4 * |p.positions| {
        var position := Find(p.positions, target - source);
        if position.None? {
          return Err(InvalidInstruction);
        }
        var mapped := Sum(destination, 4 * position.value);
        if mapped.Err? {
          return Err(mapped.error);
        }
        goal := mapped.value;
      }
      var pc := Sum(destination, 4 * field);
      if pc.Err? {
        return Err(pc.error);
      }
      var delta := Relative(pc.value, goal, S26);
      if delta.Err? {
        return Err(delta.error);
      }
      output := output[field := B + delta.value];
    }
    r := Ok(output);
  }

  /** The relocator. */
  method Trampoline(source: Address, destination: Address, original: seq<Word>)
    returns (r: Result<seq<Word>>)
    ensures r == Relocated(source, destination, original)
  {
    var _ :- Aligned(source);
    var _ :- Aligned(destination);
    if |original| == 0 {
      return Err(InvalidRange);
    }
    var continuation :- Sum(source, 4 * |original|);
    var pass :- EmitDrafts(source, destination, original);
    var output :- PatchBranches(source, destination, pass);
    var next :- Sum(destination, 4 * |output|);
    var back :- Jump(next, continuation);
    r := Ok(output + back);
  }

  /** A failure of the first pass is final. */
  lemma {:induction false} FirstPassFails(source: Address, destination: Address, ws: seq<Word>, i: nat, j: nat)
    requires i <= j <= |ws| && source + 4 * |ws| < W64
    ensures FirstPass(source, destination, ws, i).Err? ==>
              FirstPass(source, destination, ws, j) == FirstPass(source, destination, ws, i)
    decreases j
  {
    if i < j {
      FirstPassFails(source, destination, ws, i, j - 1);
    }
  }

  lemma {:induction false} SecondPassFails(source: Address, destination: Address, p: Pass, k: nat, j: nat)
    requires k <= j <= |p.branches|
    requires forall i | 0 <= i < |p.branches| :: p.branches[i].0 < |p.output|
    ensures SecondPass(source, destination, p, k).Err? ==>
              SecondPass(source, destination, p, j) == SecondPass(source, destination, p, k)
    decreases j
  {
    if k < j {
      SecondPassFails(source, destination, p, k, j - 1);
    }
  }
}
