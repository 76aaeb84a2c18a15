/** The relocated x86-64 prefix behaves like the original one. */
module X86Simulation {
  import opened Words
  import opened Bytes
  import opened X86Decode
  import opened X86Relocate
  import opened X86Layout
  import opened X86Machine

  /** A displacement exists exactly for targets in the signed 32 bit range, and decodes to its target. */
  lemma DisplacementRoundTrip(next: int, target: int, bytes: seq<Byte>, field: nat)
    ensures Displacement(next, target).Ok? <==> -0x8000_0000 <= target - next < 0x8000_0000
    ensures Displacement(next, target).Ok? && field + 4 <= |bytes|
            && bytes[field..field + 4] == Displacement(next, target).value ==>
              next + FieldValue(bytes, field, 4) == target
  {
    hide Word32, Le32;
    var delta := target - next;
    if Displacement(next, target).Ok? && field + 4 <= |bytes|
       && bytes[field..field + 4] == Displacement(next, target).value {
      Word32Slice(bytes, field, if delta < 0 then delta + W32 else delta);
    }
  }

  // Copied instructions

  /** What two windows must share for an instruction to mean the same at both places. */
  ghost predicate SameInstruction(a: seq<Byte>, b: seq<Byte>, x: Instruction) {
    && Decode(a) == Some(x) && Decode(b) == Some(x)
    && Fits(a, 0, x) && Fits(b, 0, x)
    && Blank(a, x) == Blank(b, x) && Group(a) == Group(b)
  }

  lemma BlankSame(a: seq<Byte>, b: seq<Byte>, x: Instruction)
    requires Fits(a, 0, x) && Fits(b, 0, x)
    requires forall i | 0 <= i < x.size ::
               (x.relativeMemory.Some? && x.relativeMemory.value <= i < x.relativeMemory.value + 4) || a[i] == b[i]
    ensures Blank(a, x) == Blank(b, x)
  {
    if x.relativeMemory.Some? {
      var f := x.relativeMemory.value;
      PatchReads(a[..x.size], f, [0, 0, 0, 0]);
      PatchReads(b[..x.size], f, [0, 0, 0, 0]);
      PatchIs(Blank(a, x), b[..x.size], f, [0, 0, 0, 0]);
    } else {
      assert a[..x.size] == b[..x.size];
    }
  }

  /** Bytes may differ only in the RIP-relative field. */
  lemma SameExceptField(a: seq<Byte>, b: seq<Byte>, x: Instruction)
    requires Decode(a) == Some(x) && x.size <= |b|
    requires forall i | 0 <= i < x.size && i < |a| ::
               (x.relativeMemory.Some? && x.relativeMemory.value <= i < x.relativeMemory.value + 4) || a[i] == b[i]
    ensures SameInstruction(a, b, x)
  {
    hide Inspected, Blank, Fits;
    DecodeBounds(a);
    FieldsInside(a);
    DecodeLocal(a, b);
    assert a == a[0..] && b == b[0..];
    DecodeFits(a, 0, x);
    DecodeFits(b, 0, x);
    BlankSame(a, b, x);
    GroupSame(a, b, x);
  }
  lemma GroupSame(a: seq<Byte>, b: seq<Byte>, x: Instruction)
    requires Decode(a) == Some(x) && Decode(b) == Some(x) && Agree(a, b, Inspected(a))
    ensures Group(a) == Group(b)
  {
    hide ReadHead, ReadOperand, GroupAccepts, GroupImmediate, Lockable;
    DecodeBounds(a);
    HeadBounds(a);
    HeadLocal(a, b);
  }

  /** A re-aimed copy differs in its field only, which forms the original address. */
  lemma Aimed(source: Address, start: int, original: seq<Byte>, offset: nat, x: Instruction, copy: seq<Byte>,
              b: seq<Byte>)
    requires Fits(original, offset, x) && |copy| == x.size && source + |original| < W64
    requires Aim(source, start, original, offset, x, copy).Ok?
             && Aim(source, start, original, offset, x, copy).value <= b
    ensures forall i | 0 <= i < x.size ::
              (x.relativeMemory.Some? && x.relativeMemory.value <= i < x.relativeMemory.value + 4) || b[i] == copy[i]
    ensures x.relativeMemory.Some? ==>
              var f := x.relativeMemory.value;
              var address := source + offset + x.size + FieldValue(original, offset + f, 4);
              0 <= address < W64 && start + x.size + FieldValue(b, f, 4) == address
  {
    hide FieldValue, Patch;
    var c := Aim(source, start, original, offset, x, copy).value;
    if x.relativeMemory.Some? {
      var f := x.relativeMemory.value;
      var target := source + offset + x.size + FieldValue(original, offset + f, 4);
      PatchReads(copy, f, Displacement(start + x.size, target).value);
      assert b[f..f + 4] == c[f..f + 4];
      DisplacementRoundTrip(start + x.size, target, b, f);
    }
  }

  /** The same move, seen from a copy at another address. */
  function Shifted<S>(move: Move<S>, next: Address): Move<S> {
    if move.Go? then Go(next, move.st) else move
  }

  lemma FieldOf(original: seq<Byte>, offset: nat, x: Instruction, field: nat, width: nat)
    requires offset + field + width <= |original| && width in {1, 4}
    ensures FieldValue(original[offset..], field, width) == FieldValue(original, offset + field, width)
  {
    hide Join;
  }

  lemma StepExecutes<S>(m: Machine<S>, window: seq<Byte>, x: Instruction, pc: Address, st: S)
    requires Decode(window) == Some(x) && Fits(window, 0, x) && x.branch.None?
    requires x.call.None? || x.call.value.Indirect?
    ensures Step(m, window, pc, st) == Execute(m, window, x, pc, st)
  {
    hide Execute, Decode, FieldValue;
    if ENDBR64 <= window {
      LandingPadRejected(window);
    }
  }
  lemma GroupOfCall(window: seq<Byte>, x: Instruction)
    requires Decode(window) == Some(x)
    ensures x.call.Some? && x.call.value.Indirect? ==> Group(window) == Some((x.call.value.modrm, 2))
    ensures Group(window).Some? && Group(window).value.1 == 2 ==> x.call.Some? && x.call.value.Indirect?
  {
    hide ReadHead, GroupAccepts, GroupImmediate, Lockable;
  }

  /** Executing the same instruction elsewhere: same effect, shifted fall-through. */
  lemma ExecuteElsewhere<S>(m: Machine<S>, a: seq<Byte>, b: seq<Byte>, x: Instruction, pc: Address, here: Address,
                            st: S)
    requires SameInstruction(a, b, x) && Effective(a, x, pc) == Effective(b, x, here)
    requires x.call.None? && pc + x.size < W64 && here + x.size < W64
    ensures Execute(m, b, x, here, st) == Shifted(Execute(m, a, x, pc, st), here + x.size)
    ensures Execute(m, a, x, pc, st).Go? ==> Execute(m, a, x, pc, st).pc == pc + x.size
    ensures !Execute(m, a, x, pc, st).Fault?
  {
    hide Decode, Blank, Effective, Fits, Group;
    GroupOfCall(a, x);
  }

  lemma AnswerCopied<S>(m: Machine<S>, source: Address, original: seq<Byte>, offset: nat, x: Instruction,
                        here: Address, b: seq<Byte>, st: S)
    requires source + |original| < W64 && InstructionAt(original, offset, x) && Fits(original, offset, x)
    requires x.branch.None? && x.call.None? && here + x.size < W64
    requires var r := Aim(source, here, original, offset, x, original[offset..offset + x.size]);
             r.Ok? && r.value <= b
    ensures var move := Step(m, original[offset..], source + offset, st);
            && Step(m, b, here, st) == Shifted(move, here + x.size)
            && (move.Go? ==> move.pc == source + offset + x.size) && !move.Fault?
  {
    hide Decode, FieldValue, Execute, Step, Blank, Group;
    var a := original[offset..];
    var copy := original[offset..offset + x.size];
    Aimed(source, here, original, offset, x, copy, b);
    assert forall i | 0 <= i < x.size :: a[i] == copy[i];
    SameExceptField(a, b, x);
    if x.relativeMemory.Some? {
      FieldOf(original, offset, x, x.relativeMemory.value, 4);
    }
    assert Effective(a, x, source + offset) == Effective(b, x, here);
    StepExecutes(m, a, x, source + offset, st);
    StepExecutes(m, b, x, here, st);
    ExecuteElsewhere(m, a, b, x, source + offset, here, st);
  }

  // Code that goes on

  /** What follows an instruction does not change it. */
  lemma StepLonger<S>(m: Machine<S>, a: seq<Byte>, more: seq<Byte>, pc: Address, st: S)
    requires !Step(m, a, pc, st).Fault?
    ensures Step(m, a + more, pc, st) == Step(m, a, pc, st)
  {
    hide Decode, Execute, FieldValue, Fits, Blank, Group, Inspected;
    var b := a + more;
    if ENDBR64 <= a {
      assert forall i | 0 <= i < 4 :: b[i] == a[i] == ENDBR64[i];
    } else {
      var x := Decode(a).value;
      DecodeBounds(a);
      FieldsInside(a);
      SameExceptField(a, b, x);
      if ENDBR64 <= b {
        LandingPadRejected(b);
      }
      if x.relativeMemory.Some? {
        FieldSame(a, more, x.relativeMemory.value, 4);
      }
      if x.branch.Some? {
        FieldSame(a, more, x.branch.value.displacement, x.branch.value.width);
      } else if x.call.Some? && x.call.value.Direct? {
        FieldSame(a, more, x.call.value.displacement, 4);
      } else {
        ExecuteSame(m, a, b, x, pc, st);
      }
    }
  }
  lemma FieldSame(a: seq<Byte>, more: seq<Byte>, field: nat, width: int)
    requires width in {1, 4} && field + width <= |a|
    ensures FieldValue(a + more, field, width) == FieldValue(a, field, width)
  {
  }
  lemma ExecuteSame<S>(m: Machine<S>, a: seq<Byte>, b: seq<Byte>, x: Instruction, pc: Address, st: S)
    requires SameInstruction(a, b, x)
    requires x.relativeMemory.Some? ==>
               FieldValue(a, x.relativeMemory.value, 4) == FieldValue(b, x.relativeMemory.value, 4)
    ensures Execute(m, a, x, pc, st) == Execute(m, b, x, pc, st)
  {
    hide Decode, Blank, Fits, Group, FieldValue;
  }
  lemma MoveLonger<S>(m: Machine<S>, base: Address, code: seq<Byte>, more: seq<Byte>, pc: Address, st: S)
    requires Inside(base, code, pc) && !MoveAt(m, base, code, pc, st).Fault?
    ensures MoveAt(m, base, code + more, pc, st) == MoveAt(m, base, code, pc, st)
  {
    hide Step;
    assert (code + more)[pc - base..] == code[pc - base..] + more;
    StepLonger(m, code[pc - base..], more, pc, st);
  }
  lemma {:induction false} ReachLonger<S>(m: Machine<S>, base: Address, code: seq<Byte>, more: seq<Byte>, k: nat,
                                          pc: Address, st: S, pc': Address, st': S)
    requires Reach(m, base, code, k, pc, st, pc', st')
    ensures Reach(m, base, code + more, k, pc, st, pc', st')
  {
    hide MoveAt;
    if k > 0 {
      MoveLonger(m, base, code, more, pc, st);
      var move := MoveAt(m, base, code, pc, st);
      ReachLonger(m, base, code, more, k - 1, move.pc, move.st, pc', st');
    }
  }

  // Branches

  lemma {:induction false} PrefixesReplaced(a: seq<Byte>, c: seq<Byte>, s: Scan)
    requires Prefixes(a, s).Some? && Agree(a, c, Prefixes(a, s).value.at) && Prefixes(a, s).value.at < |c|
    requires !IsPrefix(c[Prefixes(a, s).value.at])
    ensures Prefixes(c, s) == Prefixes(a, s)
    decreases LIMIT - s.at
  {
    hide IsPrefix;
    PrefixesBounds(a, s);
    if IsPrefix(a[s.at]) {
      PrefixesBounds(a, Prefixed(s, a[s.at]));
      PrefixesReplaced(a, c, Prefixed(s, a[s.at]));
    }
  }

  lemma BranchHead(a: seq<Byte>, x: Instruction)
    requires Decode(a) == Some(x) && x.branch.Some?
    ensures Prefixes(a, START).Some? && !Prefixes(a, START).value.locked
    ensures Prefixes(a, START).value.at == BranchPrefix(x.branch.value)
    ensures x.branch.value.condition.Some? ==> 0 <= x.branch.value.condition.value < 16
    ensures x.branch.value.displacement + x.branch.value.width == x.size <= LIMIT
  {
    hide Prefixes, ReadOperand;
  }

  /** Size of the relocated form of a branch: its prefixes, a long opcode and a 32 bit displacement. */
  function LongSize(b: Branch): int {
    BranchPrefix(b) + (if b.condition.Some? then 2 else 1) + 4
  }

  lemma LongHead(c: seq<Byte>, s: Scan, condition: Option<int>)
    requires Prefixes(c, START) == Some(s) && (condition.Some? ==> 0 <= condition.value < 16) && !s.locked
    requires s.at + |BranchOpcode(condition)| + 4 <= |c|
    requires c[s.at..s.at + |BranchOpcode(condition)|] == BranchOpcode(condition)
    ensures var field := s.at + |BranchOpcode(condition)|;
            Decode(c) == if field + 4 <= LIMIT
                         then Some(Instruction(field + 4, condition.None?, None, false,
                                               Some(Branch(field, 4, condition)), None))
                         else None
  {
    hide Prefixes;
    PrefixesBounds(c, START);
    var field := s.at + |BranchOpcode(condition)|;
    assert c[s.at] == c[s.at..field][0];
    if condition.Some? {
      assert c[s.at + 1] == c[s.at..field][1];
      assert SecondForm(0x80 + condition.value) == X86Decode.Jump(4, condition);
    }
  }

  /** The relocated branch decodes to the same condition with a 32 bit field, as long as it
      is not longer than an instruction may be. */
  lemma DecodeLong(a: seq<Byte>, x: Instruction, c: seq<Byte>)
    requires Decode(a) == Some(x) && x.branch.Some?
    requires var b := x.branch.value;
             && LongSize(b) <= |c| && BranchPrefix(b) >= 0 && Agree(a, c, BranchPrefix(b))
             && (b.condition.Some? ==> 0 <= b.condition.value < 16)
             && c[BranchPrefix(b)..LongSize(b) - 4] == BranchOpcode(b.condition)
    ensures var b := x.branch.value;
            Decode(c) == if LongSize(b) <= LIMIT
                         then Some(Instruction(LongSize(b), b.condition.None?, None, false,
                                               Some(Branch(LongSize(b) - 4, 4, b.condition)), None))
                         else None
  {
    hide Prefixes, Decode;
    BranchHead(a, x);
    var b := x.branch.value;
    var s := Prefixes(a, START).value;
    assert c[s.at] == c[s.at..LongSize(b) - 4][0] == BranchOpcode(b.condition)[0];
    PrefixesReplaced(a, c, START);
    LongHead(c, s, b.condition);
  }

  lemma StepBranches<S>(m: Machine<S>, window: seq<Byte>, x: Instruction, pc: Address, st: S, target: Address)
    requires Decode(window) == Some(x) && Fits(window, 0, x) && x.branch.Some? && pc + x.size < W64
    requires pc + x.size + FieldValue(window, x.branch.value.displacement, x.branch.value.width) == target
    ensures var c := x.branch.value.condition;
            Step(m, window, pc, st) == Go(if c.Some? && !m.holds(c.value, st) then pc + x.size else target, st)
  {
    hide Execute, Decode, FieldValue;
    if ENDBR64 <= window {
      LandingPadRejected(window);
    }
  }

  /** The relocated form of a branch: prefixes, long opcode, and the displacement to `goal`. */
  ghost predicate LongForm(a: seq<Byte>, b: Branch, w: seq<Byte>, here: Address, goal: Address) {
    && 0 <= BranchPrefix(b) && LongSize(b) <= |w| && Agree(a, w, BranchPrefix(b))
    && (b.condition.Some? ==> 0 <= b.condition.value < 16)
    && w[BranchPrefix(b)..LongSize(b) - 4] == BranchOpcode(b.condition)
    && Displacement(here + LongSize(b), goal) == Ok(w[LongSize(b) - 4..LongSize(b)])
  }
  predicate Taken<S>(m: Machine<S>, b: Branch, st: S) {
    b.condition.Some? ==> m.holds(b.condition.value, st)
  }

  lemma LongIsNotLandingPad(a: seq<Byte>, x: Instruction, w: seq<Byte>)
    requires Decode(a) == Some(x) && x.branch.Some? && 2 <= BranchPrefix(x.branch.value) < |w|
    requires Agree(a, w, BranchPrefix(x.branch.value)) && w[BranchPrefix(x.branch.value)] in {0x0f, 0xe9}
    ensures !(ENDBR64 <= w)
  {
    BranchHead(a, x);
    hide Decode;
    PrefixesReplaced(a, w, START);
  }

  /** The original branch and its relocated form take the same decision. The relocated form works
      exactly when it is still short enough to be an instruction; otherwise the processor faults. */
  lemma AnswerBranch<S>(m: Machine<S>, a: seq<Byte>, x: Instruction, pc: Address, target: Address,
                        w: seq<Byte>, here: Address, goal: Address, st: S)
    requires Decode(a) == Some(x) && Fits(a, 0, x) && x.branch.Some? && pc + x.size < W64
    requires pc + x.size + FieldValue(a, x.branch.value.displacement, x.branch.value.width) == target
    requires LongForm(a, x.branch.value, w, here, goal) && here + LongSize(x.branch.value) < W64
    ensures Step(m, a, pc, st) == Go(if Taken(m, x.branch.value, st) then target else pc + x.size, st)
    ensures var size := LongSize(x.branch.value);
            Step(m, w, here, st) ==
            if size <= LIMIT then Go(if Taken(m, x.branch.value, st) then goal else here + size, st) else Fault
  {
    hide Decode, FieldValue, Step;
    var b := x.branch.value;
    var size := LongSize(b);
    StepBranches(m, a, x, pc, st, target);
    DecodeLong(a, x, w);
    if size <= LIMIT {
      var y := Decode(w).value;
      assert w == w[0..];
      DecodeFits(w, 0, y);
      DisplacementRoundTrip(here + size, goal, w, size - 4);
      StepBranches(m, w, y, here, st, goal);
    } else {
      BranchHead(a, x);
      assert w[BranchPrefix(b)] == w[BranchPrefix(b)..size - 4][0];
      LongIsNotLandingPad(a, x, w);
      StepFaults(m, w, here, st);
    }
  }

  lemma MappedInRange(source: Address, destination: Address, n: nat, positions: seq<(nat, nat)>, target: int)
    requires Mapped(source, destination, n, positions, target).Ok?
    ensures 0 <= target < W64
  {
  }
  lemma StepFaults<S>(m: Machine<S>, w: seq<Byte>, pc: Address, st: S)
    requires Decode(w).None? && !(ENDBR64 <= w)
    ensures Step(m, w, pc, st) == Fault
  {
    hide Decode;
  }
  lemma LongBytes(bytes: seq<Byte>, field: nat, value: seq<Byte>, w: seq<Byte>, prefix: seq<Byte>, opcode: seq<Byte>)
    requires bytes == prefix + opcode + [0, 0, 0, 0] && field == |prefix| + |opcode| && |value| == 4
    requires Patch(bytes, field, value) <= w
    ensures Agree(prefix, w, |prefix|) && w[|prefix|..field] == opcode && w[field..field + 4] == value
  {
    var c := Patch(bytes, field, value);
    assert c == prefix + opcode + value;
    assert w[|prefix|..field] == c[|prefix|..field];
    assert w[field..field + 4] == c[field..field + 4];
  }

  // Calls

  /** Operand of `push qword ptr [rip + disp32]`. */
  const LITERAL: seq<Byte> := [0xff, 0x05, 0, 0, 0, 0]

  /** In this state the published page answers loads of its own literals. */
  ghost predicate Sealed<S>(m: Machine<S>, base: Address, code: seq<Byte>, st: S) {
    forall q: nat | q + 8 <= |code| && base + q < W64 ::
      m.operand(LITERAL, Some(ByteAddress(base, q)), st) == Word64(code, q)
  }
  function ByteAddress(base: Address, q: nat): Address
    requires base + q < W64
  {
    base + q
  }

  const PUSH := Instruction(6, false, Some(2), false, None, None)

  lemma DecodePush(w: seq<Byte>)
    requires |w| >= 6 && w[0] == 0xff && w[1] == 0x35
    ensures Decode(w) == Some(PUSH) && Group(w) == Some((1, 6)) && !(ENDBR64 <= w)
  {
    assert Prefixes(w, START) == Some(START);
    assert ReadHead(w) == Some(Head(START, 0xff, -1, 1));
    assert ReadOperand(w, 1) == Some(Operand(6, 6, Some(2), true));
  }

  lemma PushKey(w: seq<Byte>)
    requires |w| >= 6 && w[0] == 0xff && w[1] == 0x35 && Fits(w, 0, PUSH)
    ensures OperandKey(w, PUSH, 1) == LITERAL
  {
    hide Fits;
    assert Blank(w, PUSH) == [0xff, 0x35, 0, 0, 0, 0];
  }
  lemma ExecutePush<S>(m: Machine<S>, w: seq<Byte>, here: Address, distance: nat, st: S)
    requires Decode(w) == Some(PUSH) && Fits(w, 0, PUSH) && Group(w) == Some((1, 6))
             && OperandKey(w, PUSH, 1) == LITERAL
    requires FieldValue(w, 2, 4) == distance && here + 6 + distance < W64
    ensures Execute(m, w, PUSH, here, st) == Go(here + 6, m.push(m.operand(LITERAL, Some(here + 6 + distance), st), st))
  {
    hide Decode, Fits, Group, OperandKey, FieldValue, Blank;
  }

  /** The push of a bridged call reads its literal. */
  lemma StepPush<S>(m: Machine<S>, w: seq<Byte>, here: Address, distance: nat, st: S)
    requires 14 <= |w| && w[..2] == [0xff, 0x35] && distance < 64 && w[2..6] == Le32(distance)
    requires here + 6 + distance < W64
    ensures Step(m, w, here, st) == Go(here + 6, m.push(m.operand(LITERAL, Some(here + 6 + distance), st), st))
  {
    hide Decode, Group, Word32, Le32, Step, Execute, OperandKey;
    assert w[0] == w[..2][0] && w[1] == w[..2][1];
    DecodePush(w);
    Word32Slice(w, 2, distance);
    assert w == w[0..];
    DecodeFits(w, 0, PUSH);
    StepExecutes(m, w, PUSH, here, st);
    PushKey(w);
    ExecutePush(m, w, here, distance, st);
  }

  lemma JumpInsteadFields(b: Byte)
    ensures JumpInstead(b) / 64 == b / 64 && JumpInstead(b) % 8 == b % 8 && JumpInstead(b) / 8 % 8 == 4
    ensures ClearGroup(JumpInstead(b)) == ClearGroup(b)
  {
    var mode, register, base := b / 64, b / 8 % 8, b % 8;
    assert b == mode * 64 + register * 8 + base;
  }

  lemma OperandInstead(a: seq<Byte>, w: seq<Byte>, at: nat)
    requires ReadOperand(a, at).Some? && ReadOperand(a, at).value.at <= |w| && at < |w|
    requires w[at] == JumpInstead(a[at]) && (FormLength(a[at]) == 2 ==> at + 1 < |w| && w[at + 1] == a[at + 1])
    ensures ReadOperand(w, at) == Some(ReadOperand(a, at).value.(register := 4))
  {
    JumpInsteadFields(a[at]);
    hide JumpInstead;
  }

  /** An indirect call whose ModRM names the jump group is a jump through the same operand. */
  lemma DecodeInstead(a: seq<Byte>, x: Instruction, w: seq<Byte>, modrm: nat)
    requires Decode(a) == Some(x) && x.call == Some(Indirect(modrm)) && !x.cannotMove && x.size <= |w|
    requires modrm < Inspected(a) <= |a| && Inspected(a) <= |w|
    requires Agree(a, w, modrm) && w[modrm] == JumpInstead(a[modrm])
    requires forall i | modrm < i < Inspected(a) :: w[i] == a[i]
    ensures Decode(w) == Some(x.(terminal := true, call := None))
    ensures Group(w) == Some((modrm, 4)) && Group(a) == Some((modrm, 2))
  {
    hide Prefixes, FormLength, JumpInstead, ReadOperand;
    var h := ReadHead(a).value;
    assert h.opcode == 0xff && h.at == modrm;
    HeadBounds(a);
    HeadLocal(a, w);
    OperandBounds(a, modrm);
    OperandInstead(a, w, modrm);
    OperandRegister(a, modrm);
    JumpInsteadFields(a[modrm]);
  }
  lemma OperandRegister(a: seq<Byte>, at: nat)
    requires ReadOperand(a, at).Some?
    ensures at < |a| && ReadOperand(a, at).value.register == a[at] / 8 % 8
  {
  }

  /** The near jump reaches its target and changes nothing else. */
  lemma StepJump<S>(m: Machine<S>, w: seq<Byte>, here: Address, goal: Address, st: S)
    requires |w| >= 5 && w[0] == 0xe9 && Displacement(here + 5, goal) == Ok(w[1..5]) && here + 5 < W64
    ensures Step(m, w, here, st) == Go(goal, st)
  {
    hide Step, Decode, FieldValue, Displacement;
    assert Prefixes(w, START) == Some(START);
    hide Prefixes;
    assert w[0..1] == BranchOpcode(None);
    LongHead(w, START, None);
    var y := Decode(w).value;
    assert w == w[0..];
    DecodeFits(w, 0, y);
    DisplacementRoundTrip(here + 5, goal, w, 1);
    StepBranches(m, w, y, here, st, goal);
  }

  /** A bridge at `at`: push of the literal behind `moved`, then `moved`, then the literal. */
  ghost predicate Bridge(code: seq<Byte>, at: nat, moved: seq<Byte>, literal: Address) {
    && |moved| < 64 && at + |moved| + 14 <= |code|
    && code[at..at + 6] == [0xff, 0x35] + Le32(|moved|)
    && code[at + 6..at + 6 + |moved|] == moved
    && code[at + 6 + |moved|..at + 14 + |moved|] == Le64(literal)
  }

  lemma BridgePushes<S>(m: Machine<S>, base: Address, code: seq<Byte>, at: nat, moved: seq<Byte>,
                        literal: Address, st: S)
    requires Bridge(code, at, moved, literal) && Sealed(m, base, code, st) && base + |code| <= W64
    ensures Reach(m, base, code, 1, base + at, st, base + at + 6, m.push(literal, st))
  {
    hide Step, Reach, Le32, Le64, Word64;
    var w := code[at..];
    assert w[..2] == code[at..at + 6][..2] && w[2..6] == code[at..at + 6][2..];
    StepPush(m, w, base + at, |moved|, st);
    var q := at + 6 + |moved|;
    Word64Slice(code, q, literal);
    assert m.operand(LITERAL, Some(ByteAddress(base, q)), st) == Word64(code, q);
    ReachOne(m, base, code, at, st, Go(base + at + 6, m.push(literal, st)));
  }

  lemma BridgeMoved(code: seq<Byte>, at: nat, moved: seq<Byte>, literal: Address)
    requires Bridge(code, at, moved, literal)
    ensures at + 14 + |moved| <= |code| && code[at + 6..][..|moved|] == moved
  {
    assert code[at + 6..][..|moved|] == code[at + 6..at + 6 + |moved|];
  }
  lemma StepCallsDirect<S>(m: Machine<S>, a: seq<Byte>, x: Instruction, pc: Address, target: Address, st: S)
    requires Decode(a) == Some(x) && Fits(a, 0, x) && x.call.Some? && x.call.value.Direct? && pc + x.size < W64
    requires pc + x.size + FieldValue(a, x.call.value.displacement, 4) == target
    ensures Step(m, a, pc, st) == Go(target, m.push(pc + x.size, st))
  {
    hide Decode, FieldValue, Execute;
    if ENDBR64 <= a {
      LandingPadRejected(a);
    }
  }

  /** A direct call: the original pushes its return address and goes to `target`; the bridge
      pushes the same address and goes to `goal`. */
  lemma AnswerDirect<S>(m: Machine<S>, base: Address, code: seq<Byte>, at: nat, moved: seq<Byte>,
                        a: seq<Byte>, x: Instruction, pc: Address, target: Address, goal: Address, st: S)
    requires Decode(a) == Some(x) && Fits(a, 0, x) && x.call.Some? && x.call.value.Direct? && pc + x.size < W64
    requires pc + x.size + FieldValue(a, x.call.value.displacement, 4) == target
    requires |moved| == 5 && Bridge(code, at, moved, pc + x.size) && Sealed(m, base, code, st) && base + |code| <= W64
    requires moved[0] == 0xe9 && Displacement(base + at + 11, goal) == Ok(moved[1..5])
    ensures Step(m, a, pc, st) == Go(target, m.push(pc + x.size, st))
    ensures Reach(m, base, code, 2, base + at, st, goal, m.push(pc + x.size, st))
  {
    hide Decode, FieldValue, Reach, Sealed, Displacement, Execute;
    hide Step, Bridge;
    var st1 := m.push(pc + x.size, st);
    StepCallsDirect(m, a, x, pc, target, st);
    BridgeMoved(code, at, moved, pc + x.size);
    BridgePushes(m, base, code, at, moved, pc + x.size, st);
    var w := code[at + 6..];
    assert w[1..5] == w[..5][1..5] == moved[1..5];
    StepJump(m, w, base + at + 6, goal, st1);
    ReachOne(m, base, code, at + 6, st1, Go(goal, st1));
    ReachJoin(m, base, code, 1, 1, base + at, st, base + at + 6, st1, goal, st1);
  }

  lemma KeyInstead(a: seq<Byte>, x: Instruction, w: seq<Byte>, y: Instruction, modrm: nat)
    requires Fits(a, 0, x) && Fits(w, 0, y) && y.size == x.size && y.relativeMemory == x.relativeMemory
    requires modrm < x.size && (x.relativeMemory.Some? ==> modrm < x.relativeMemory.value)
    requires w[modrm] == JumpInstead(a[modrm])
    requires forall i | 0 <= i < x.size && i != modrm ::
               (x.relativeMemory.Some? && x.relativeMemory.value <= i < x.relativeMemory.value + 4) || a[i] == w[i]
    ensures OperandKey(w, y, modrm) == OperandKey(a, x, modrm)
  {
    hide JumpInstead, ClearGroup;
    JumpInsteadFields(a[modrm]);
    var c := a[modrm := JumpInstead(a[modrm])];
    assert Fits(c, 0, x);
    BlankSame(c, w, x);
    assert Blank(w, x) == Blank(w, y);
    assert Blank(c, x) == Blank(a, x)[modrm := JumpInstead(a[modrm])];
    assert Blank(a, x)[modrm] == a[modrm];
  }

  /** The copied jump reads the operand of the original call. */
  lemma StepInstead<S>(m: Machine<S>, a: seq<Byte>, x: Instruction, pc: Address, w: seq<Byte>, here: Address,
                       modrm: nat, st: S)
    requires Decode(a) == Some(x) && Fits(a, 0, x) && x.call == Some(Indirect(modrm)) && !x.cannotMove && x.branch.None?
    requires x.size <= |w| && w[modrm] == JumpInstead(a[modrm])
    requires forall i | 0 <= i < x.size && i != modrm ::
               (x.relativeMemory.Some? && x.relativeMemory.value <= i < x.relativeMemory.value + 4) || a[i] == w[i]
    requires x.relativeMemory.Some? ==>
               here + x.size + FieldValue(w, x.relativeMemory.value, 4)
                 == pc + x.size + FieldValue(a, x.relativeMemory.value, 4)
    ensures Step(m, w, here, st) == Leave(m.operand(OperandKey(a, x, modrm), Effective(a, x, pc), st), st)
  {
    hide Decode, Step, FieldValue, Blank, OperandKey, Group, Inspected, JumpInstead;
    DecodeBounds(a);
    FieldsInside(a);
    DecodeInstead(a, x, w, modrm);
    var y := x.(terminal := true, call := None);
    assert w == w[0..];
    DecodeFits(w, 0, y);
    KeyInstead(a, x, w, y, modrm);
    StepExecutes(m, w, y, here, st);
    assert Effective(w, y, here) == Effective(a, x, pc);
    hide Effective, Fits;
  }

  lemma StepCallsIndirect<S>(m: Machine<S>, a: seq<Byte>, x: Instruction, pc: Address, modrm: nat, st: S)
    requires Decode(a) == Some(x) && Fits(a, 0, x) && x.call == Some(Indirect(modrm)) && x.branch.None?
             && pc + x.size < W64
    ensures Step(m, a, pc, st) ==
            Leave(m.operand(OperandKey(a, x, modrm), Effective(a, x, pc), st), m.push(pc + x.size, st))
  {
    hide Decode, Step, OperandKey, Effective, Group, Blank;
    GroupOfCall(a, x);
    StepExecutes(m, a, x, pc, st);
  }
}
