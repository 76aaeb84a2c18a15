/** Whole runs of a relocated x86-64 prefix. */
module X86Meaning {
  import opened Words
  import opened Bytes
  import opened X86Decode
  import opened X86Relocate
  import opened X86Layout
  import opened X86Machine
  import opened X86Simulation

  /** An accepted relocation, with its intermediate results. */
  ghost predicate Relocation(source: Address, destination: Address, original: seq<Byte>,
                             p: Pass, units: seq<Unit>, body: seq<Byte>, out: seq<Byte>)
  {
    && source + |original| < W64 && destination + |body| + 5 < W64
    && Laid(source, destination, original, |original|, p, units) && SlotsFit(p)
    && (forall a, b | 0 <= a < b < |p.branches| :: p.branches[a].0 + 4 <= p.branches[b].0)
    && Fix(source, destination, |original|, p, 0, p.output) == Ok(body)
    && var back := Displacement(destination + |body| + 5, source + |original|);
    && back.Ok? && out == body + [0xe9] + back.value
  }

  lemma EmptyLaid(source: Address, destination: Address, original: seq<Byte>)
    ensures Laid(source, destination, original, 0, EMPTY, []) && SlotsFit(EMPTY)
  {
  }
  lemma LaidOrdered(source: Address, destination: Address, original: seq<Byte>, p: Pass, units: seq<Unit>)
    requires Laid(source, destination, original, |original|, p, units)
    ensures forall a, b | 0 <= a < b < |p.branches| :: p.branches[a].0 + 4 <= p.branches[b].0
  {
    hide Chained, UnitsOk, Slots;
    SlotsOrdered(source, destination, original, p.output, units, |original|, |p.output|);
  }

  /** Where the first pass put the instructions. */
  function Positions(source: Address, destination: Address, original: seq<Byte>): seq<(nat, nat)> {
    if source + |original| < W64 && Emit(source, destination, original, 0, EMPTY).Ok? then
      Emit(source, destination, original, 0, EMPTY).value.positions
    else []
  }
  /** Every accepted prefix has such a decomposition. */
  lemma Decompose(source: Address, destination: Address, original: seq<Byte>, out: seq<Byte>)
    returns (p: Pass, units: seq<Unit>, body: seq<Byte>)
    requires Relocated(source, destination, original) == Ok(out)
    ensures Relocation(source, destination, original, p, units, body, out)
    ensures p.positions == Positions(source, destination, original)
  {
    hide Emit, Fix, Displacement, Laid, Slots;
    EmptyLaid(source, destination, original);
    p := Emit(source, destination, original, 0, EMPTY).value;
    EmitSlotsFit(source, destination, original, 0, EMPTY);
    units := EmitLaid(source, destination, original, 0, EMPTY, []);
    LaidOrdered(source, destination, original, p, units);
    body := Fix(source, destination, |original|, p, 0, p.output).value;
  }

  /** The finished bytes of unit `i`, in the output. */
  lemma BlockOf(source: Address, destination: Address, original: seq<Byte>, p: Pass, units: seq<Unit>,
                body: seq<Byte>, out: seq<Byte>, i: nat)
    requires Relocation(source, destination, original, p, units, body, out) && i < |units|
    ensures source + |original| < W64 && UnitOk(source, destination, original, p.output, units[i])
    ensures var u := units[i];
            && u.at + |u.d.bytes| <= |body| == |p.output| && |out| == |body| + 5 && destination + |out| <= W64
            && (u.d.slot.Some? ==> u.d.slot.value.0 + 4 <= |u.d.bytes|)
            && Final(source, destination, |original|, p.positions, u) == Ok(out[u.at..u.at + |u.d.bytes|])
  {
    hide Fix, Expand, Displacement, Chained, Final, Slots, InstructionAt, Fits;
    var u := units[i];
    assert UnitOk(source, destination, original, p.output, u);
    UnitFinal(source, destination, original, p, units, body, i);
    assert body[u.at..u.at + |u.d.bytes|] == out[u.at..u.at + |u.d.bytes|];
  }

  /** Every move of an original instruction is answered by its block: it lands on the mapped
      target, falls out of its end, departs likewise, or traps likewise. */
  ghost predicate Answers<S>(m: Machine<S>, source: Address, destination: Address, n: nat, positions: seq<(nat, nat)>,
                             code: seq<Byte>, u: Unit, st: S, move: Move<S>, k: nat, land: Address)
    requires destination + u.at < W64
  {
    var here := destination + u.at;
    match move
    case Go(pc, st') =>
      && k >= 1 && Reach(m, destination, code, k, here, st, land, st')
      && ((pc == source + u.offset + u.x.size && land == here + |u.d.bytes|)
          || Mapped(source, destination, n, positions, pc) == Ok(land))
    case Leave(pc, st') => k >= 1 && land == pc && Reach(m, destination, code, k, here, st, land, st')
    case Stop(st') =>
      && Reach(m, destination, code, k, here, st, land, st)
      && Inside(destination, code, land) && MoveAt(m, destination, code, land, st) == Stop(st')
    case Fault => false
  }

  /** A relocated branch must not be longer than an instruction may be. */
  predicate Encodable(x: Instruction) {
    x.branch.Some? ==> LongSize(x.branch.value) <= LIMIT
  }

  lemma UnitCopied<S>(m: Machine<S>, source: Address, destination: Address, original: seq<Byte>,
                      positions: seq<(nat, nat)>,
                      output: seq<Byte>, code: seq<Byte>, u: Unit, st: S) returns (k: nat, land: Address)
    requires UnitOk(source, destination, original, output, u) && u.at + |u.d.bytes| < |code|
             && destination + |code| <= W64
    requires u.x.branch.None? && u.x.call.None?
    requires Final(source, destination, |original|, positions, u) == Ok(code[u.at..u.at + |u.d.bytes|])
    ensures Answers(m, source, destination, |original|, positions, code, u, st,
                    Step(m, original[u.offset..], source + u.offset, st), k, land)
  {
    hide Decode, Step, Reach, Mapped, Aim;
    var here := destination + u.at;
    var w := code[u.at..];
    var moved := Aim(source, here, original, u.offset, u.x, original[u.offset..u.offset + u.x.size]).value;
    assert u.d == Draft(moved, None) && |moved| == u.x.size;
    assert moved == w[..|moved|];
    AnswerCopied(m, source, original, u.offset, u.x, here, w, st);
    var move := Step(m, original[u.offset..], source + u.offset, st);
    match move {
      case Go(pc, st') =>
        k, land := 1, here + u.x.size;
        ReachOne(m, destination, code, u.at, st, Go(land, st'));
      case Leave(pc, st') =>
        k, land := 1, pc;
        ReachOne(m, destination, code, u.at, st, move);
      case Stop(st') =>
        k, land := 0, here;
        NoSteps(m, destination, code, here, st);
    }
  }

  lemma BranchDraft(source: Address, destination: Address, original: seq<Byte>, offset: nat, x: Instruction, at: nat)
    requires Fits(original, offset, x) && source + |original| < W64 && x.branch.Some?
    requires Expand(source, destination, original, offset, x, at).Ok?
    ensures Expand(source, destination, original, offset, x, at)
            == Ok(CopyBranch(source, original, offset, x.size, x.branch.value))
  {
    hide CopyBranch;
  }

  /** The block of a branch unit is its long form, aimed at the mapped target. */
  lemma BranchBlock(source: Address, destination: Address, original: seq<Byte>, positions: seq<(nat, nat)>,
                    output: seq<Byte>, code: seq<Byte>, u: Unit) returns (target: Address, goal: Address)
    requires UnitOk(source, destination, original, output, u) && u.at + |u.d.bytes| < |code|
             && destination + |code| <= W64
    requires u.x.branch.Some?
    requires Final(source, destination, |original|, positions, u) == Ok(code[u.at..u.at + |u.d.bytes|])
    ensures var b := u.x.branch.value;
            && target == source + u.offset + u.x.size + FieldValue(original, u.offset + b.displacement, b.width)
            && Mapped(source, destination, |original|, positions, target) == Ok(goal)
            && |u.d.bytes| == LongSize(b)
            && LongForm(original[u.offset..], b, code[u.at..], destination + u.at, goal)
  {
    hide Decode, FieldValue, Mapped, Displacement, Patch, Expand;
    var b := u.x.branch.value;
    var d := CopyBranch(source, original, u.offset, u.x.size, b);
    BranchDraft(source, destination, original, u.offset, u.x, u.at);
    var field := d.slot.value.0;
    var value := Resolve(source, destination, |original|, positions, (u.at + field, d.slot.value.1)).value;
    MappedInRange(source, destination, |original|, positions, d.slot.value.1);
    target := d.slot.value.1;
    goal := Mapped(source, destination, |original|, positions, target).value;
    var w := code[u.at..];
    var a := original[u.offset..];
    var prefix := original[u.offset..u.offset + BranchPrefix(b)];
    assert w[..|d.bytes|] == code[u.at..u.at + |d.bytes|];
    LongBytes(d.bytes, field, value, w, prefix, BranchOpcode(b.condition));
    assert forall q | 0 <= q < |prefix| :: a[q] == prefix[q];
  }

  lemma UnitBranch<S>(m: Machine<S>, source: Address, destination: Address, original: seq<Byte>,
                      positions: seq<(nat, nat)>,
                      output: seq<Byte>, code: seq<Byte>, u: Unit, st: S) returns (k: nat, land: Address)
    requires UnitOk(source, destination, original, output, u) && u.at + |u.d.bytes| < |code|
             && destination + |code| <= W64
    requires u.x.branch.Some? && Encodable(u.x)
    requires Final(source, destination, |original|, positions, u) == Ok(code[u.at..u.at + |u.d.bytes|])
    ensures Answers(m, source, destination, |original|, positions, code, u, st,
                    Step(m, original[u.offset..], source + u.offset, st), k, land)
  {
    hide Decode, FieldValue, Mapped, Step, Reach, LongForm, Expand, Final;
    var b := u.x.branch.value;
    var a := original[u.offset..];
    var here := destination + u.at;
    var target, goal := BranchBlock(source, destination, original, positions, output, code, u);
    FieldOf(original, u.offset, u.x, b.displacement, b.width);
    assert a == a[0..] && InstructionAt(a, 0, u.x);
    DecodeFits(a, 0, u.x);
    AnswerBranch(m, a, u.x, source + u.offset, target, code[u.at..], here, goal, st);
    k, land := 1, if Taken(m, b, st) then goal else here + LongSize(b);
    ReachOne(m, destination, code, u.at, st, Go(land, st));
  }

  lemma SliceOfSlice(code: seq<Byte>, at: nat, n: nat, from: nat, to: nat)
    requires from <= to <= n && at + n <= |code|
    ensures code[at..at + n][from..to] == code[at + from..at + to]
  {
    var inner, outer := code[at..at + n][from..to], code[at + from..at + to];
    forall i | 0 <= i < to - from ensures inner[i] == outer[i] {
      assert inner[i] == code[at..at + n][from + i] == code[at + (from + i)];
      assert outer[i] == code[(at + from) + i];
    }
  }
  lemma BridgeParts(head: seq<Byte>, moved: seq<Byte>, tail: seq<Byte>, block: seq<Byte>)
    requires |head| == 6 && |tail| == 8 && block == head + moved + tail
    ensures |block| == 14 + |moved|
    ensures block[0..6] == head && block[6..6 + |moved|] == moved && block[6 + |moved|..14 + |moved|] == tail
  {
  }
  /** The bytes of a call unit form a bridge that keeps the original return address. */
  lemma BridgeLaid(code: seq<Byte>, at: nat, moved: seq<Byte>, literal: Address)
    requires |moved| < 64 && at + 14 + |moved| <= |code|
    requires code[at..at + 14 + |moved|] == [0xff, 0x35] + Le32(|moved|) + moved + Le64(literal)
    ensures Bridge(code, at, moved, literal)
  {
    hide Le32, Le64;
    var n := 14 + |moved|;
    BridgeParts([0xff, 0x35] + Le32(|moved|), moved, Le64(literal), code[at..at + n]);
    SliceOfSlice(code, at, n, 0, 6);
    SliceOfSlice(code, at, n, 6, 6 + |moved|);
    SliceOfSlice(code, at, n, 6 + |moved|, n);
  }

  lemma DirectBlock(source: Address, destination: Address, original: seq<Byte>, positions: seq<(nat, nat)>,
                    output: seq<Byte>, code: seq<Byte>, u: Unit)
    returns (target: Address, goal: Address, moved: seq<Byte>)
    requires UnitOk(source, destination, original, output, u) && u.at + |u.d.bytes| < |code|
             && destination + |code| <= W64
    requires u.x.branch.None? && u.x.call.Some? && u.x.call.value.Direct?
    requires Final(source, destination, |original|, positions, u) == Ok(code[u.at..u.at + |u.d.bytes|])
    ensures u.offset + u.x.size == |original|
    ensures target == source + u.offset + u.x.size + FieldValue(original, u.offset + u.x.call.value.displacement, 4)
    ensures Mapped(source, destination, |original|, positions, target) == Ok(goal)
    ensures |moved| == 5 && moved[0] == 0xe9 && Displacement(destination + u.at + 11, goal) == Ok(moved[1..5])
    ensures Bridge(code, u.at, moved, source + |original|)
  {
    hide Decode, FieldValue, Mapped, Displacement, Le32, Le64;
    var value := Resolve(source, destination, |original|, positions, (u.at + 7, u.d.slot.value.1)).value;
    MappedInRange(source, destination, |original|, positions, u.d.slot.value.1);
    target := u.d.slot.value.1;
    goal := Mapped(source, destination, |original|, positions, target).value;
    moved := [0xe9] + value;
    assert u.d.bytes == [0xff, 0x35] + Le32(5) + [0xe9, 0, 0, 0, 0] + Le64(source + |original|);
    assert u.d.slot.value.0 == 7;
    assert Patch(u.d.bytes, 7, value) == [0xff, 0x35] + Le32(5) + moved + Le64(source + |original|);
    BridgeLaid(code, u.at, moved, source + |original|);
    assert moved[1..5] == value;
  }

  lemma UnitDirect<S>(m: Machine<S>, source: Address, destination: Address, original: seq<Byte>,
                      positions: seq<(nat, nat)>, output: seq<Byte>, code: seq<Byte>, u: Unit, st: S)
    returns (land: Address)
    requires UnitOk(source, destination, original, output, u) && u.at + |u.d.bytes| < |code|
             && destination + |code| <= W64
    requires u.x.branch.None? && u.x.call.Some? && u.x.call.value.Direct? && Sealed(m, destination, code, st)
    requires Final(source, destination, |original|, positions, u) == Ok(code[u.at..u.at + |u.d.bytes|])
    ensures Answers(m, source, destination, |original|, positions, code, u, st,
                    Step(m, original[u.offset..], source + u.offset, st), 2, land)
  {
    hide Decode, FieldValue, Mapped, Step, Reach, Expand, Final, Sealed, Bridge, Displacement;
    var a := original[u.offset..];
    var target, goal, moved := DirectBlock(source, destination, original, positions, output, code, u);
    FieldOf(original, u.offset, u.x, u.x.call.value.displacement, 4);
    assert a == a[0..] && InstructionAt(a, 0, u.x);
    DecodeFits(a, 0, u.x);
    AnswerDirect(m, destination, code, u.at, moved, a, u.x, source + u.offset, target, goal, st);
    land := goal;
  }

  /** The bridge pushes the return address before the jump reads its operand. In this state the
      push does not disturb the operand of an indirect call. */
  ghost predicate Undisturbed<S>(m: Machine<S>, source: Address, original: seq<Byte>, offset: nat, x: Instruction,
                                 st: S)
    requires source + |original| < W64
  {
    offset <= |original| && x.call.Some? && x.call.value.Indirect? && Fits(original[offset..], 0, x) ==>
      var key := OperandKey(original[offset..], x, x.call.value.modrm);
      var address := Effective(original[offset..], x, source + offset);
      m.operand(key, address, m.push(source + |original|, st)) == m.operand(key, address, st)
  }

  lemma IndirectBlock(source: Address, destination: Address, original: seq<Byte>, positions: seq<(nat, nat)>,
                      output: seq<Byte>, code: seq<Byte>, u: Unit, modrm: nat)
    returns (copy: seq<Byte>, moved: seq<Byte>)
    requires UnitOk(source, destination, original, output, u) && u.at + |u.d.bytes| < |code|
             && destination + |code| <= W64
    requires u.x.branch.None? && u.x.call == Some(Indirect(modrm))
    requires Final(source, destination, |original|, positions, u) == Ok(code[u.at..u.at + |u.d.bytes|])
    ensures u.offset + u.x.size == |original| && !u.x.cannotMove
    ensures |copy| == u.x.size && copy[modrm] == JumpInstead(original[u.offset + modrm])
    ensures forall i | 0 <= i < |copy| && i != modrm :: copy[i] == original[u.offset + i]
    ensures Aim(source, destination + u.at + 6, original, u.offset, u.x, copy) == Ok(moved)
    ensures Bridge(code, u.at, moved, source + |original|)
  {
    hide Decode, FieldValue, Aim, Le32, Le64;
    copy := Copied(source, original, u.offset, u.x).bytes;
    moved := Aim(source, destination + u.at + 6, original, u.offset, u.x, copy).value;
    assert u.d.bytes == [0xff, 0x35] + Le32(|moved|) + moved + Le64(source + |original|);
    BridgeLaid(code, u.at, moved, source + |original|);
  }

  lemma UnitIndirect<S>(m: Machine<S>, source: Address, destination: Address, original: seq<Byte>,
                        positions: seq<(nat, nat)>, output: seq<Byte>, code: seq<Byte>, u: Unit, st: S)
    returns (land: Address)
    requires UnitOk(source, destination, original, output, u) && u.at + |u.d.bytes| < |code|
             && destination + |code| <= W64
    requires u.x.branch.None? && u.x.call.Some? && u.x.call.value.Indirect? && Sealed(m, destination, code, st)
    requires source + |original| < W64 && Undisturbed(m, source, original, u.offset, u.x, st)
    requires Final(source, destination, |original|, positions, u) == Ok(code[u.at..u.at + |u.d.bytes|])
    ensures Answers(m, source, destination, |original|, positions, code, u, st,
                    Step(m, original[u.offset..], source + u.offset, st), 2, land)
  {
    hide Decode, FieldValue, Step, Reach, Expand, Final, Sealed, Bridge, OperandKey, Aim, JumpInstead, Blank;
    var x, modrm := u.x, u.x.call.value.modrm;
    var a, pc, here := original[u.offset..], source + u.offset, destination + u.at;
    var copy, moved := IndirectBlock(source, destination, original, positions, output, code, u, modrm);
    assert a == a[0..] && InstructionAt(a, 0, x);
    DecodeFits(a, 0, x);
    StepCallsIndirect(m, a, x, pc, modrm, st);
    var st1 := m.push(source + |original|, st);
    BridgePushes(m, destination, code, u.at, moved, source + |original|, st);
    BridgeMoved(code, u.at, moved, source + |original|);
    var w := code[u.at + 6..];
    assert moved == w[..|moved|];
    Aimed(source, here + 6, original, u.offset, x, copy, w);
    IndirectWindow(original, u.offset, x, copy, w, modrm);
    if x.relativeMemory.Some? {
      FieldOf(original, u.offset, x, x.relativeMemory.value, 4);
    }
    StepInstead(m, a, x, pc, w, here + 6, modrm, st1);
    land := m.operand(OperandKey(a, x, modrm), Effective(a, x, pc), st);
    hide Effective;
    ReachOne(m, destination, code, u.at + 6, st1, Leave(land, st1));
    ReachJoin(m, destination, code, 1, 1, here, st, here + 6, st1, land, st1);
  }
  lemma IndirectWindow(original: seq<Byte>, offset: nat, x: Instruction, copy: seq<Byte>, w: seq<Byte>, modrm: nat)
    requires InstructionAt(original, offset, x) && Fits(original, offset, x) && x.call == Some(Indirect(modrm))
    requires |copy| == x.size <= |w| && copy[modrm] == JumpInstead(original[offset + modrm])
    requires forall i | 0 <= i < |copy| && i != modrm :: copy[i] == original[offset + i]
    requires forall i | 0 <= i < x.size ::
               (x.relativeMemory.Some? && x.relativeMemory.value <= i < x.relativeMemory.value + 4) || w[i] == copy[i]
    ensures w[modrm] == JumpInstead(original[offset..][modrm])
    ensures forall i | 0 <= i < x.size && i != modrm ::
              (x.relativeMemory.Some? && x.relativeMemory.value <= i < x.relativeMemory.value + 4)
              || original[offset..][i] == w[i]
  {
    hide Decode, Inspected, JumpInstead;
    FieldsInside(original[offset..]);
  }

  /** What an instruction needs of the state it runs in: a bridged call reads its literal, and an
      indirect one then its own operand. */
  ghost predicate Serves<S>(m: Machine<S>, source: Address, destination: Address, original: seq<Byte>, out: seq<Byte>,
                            offset: nat, x: Instruction, st: S)
    requires source + |original| < W64
  {
    (x.call.Some? ==> Sealed(m, destination, out, st)) && Undisturbed(m, source, original, offset, x, st)
  }

  /** The block of any unit answers its instruction. */
  lemma UnitAnswers<S>(m: Machine<S>, source: Address, destination: Address, original: seq<Byte>, p: Pass,
                       units: seq<Unit>, body: seq<Byte>, out: seq<Byte>, i: nat, st: S)
    returns (k: nat, land: Address)
    requires Relocation(source, destination, original, p, units, body, out) && i < |units|
    requires Encodable(units[i].x) && Serves(m, source, destination, original, out, units[i].offset, units[i].x, st)
    requires destination + units[i].at < W64
    ensures Answers(m, source, destination, |original|, p.positions, out, units[i], st,
                    Step(m, original[units[i].offset..], source + units[i].offset, st), k, land)
  {
    hide Answers, Step, Sealed, Undisturbed, Final, Relocation, UnitOk, Encodable;
    BlockOf(source, destination, original, p, units, body, out, i);
    var u := units[i];
    if u.x.branch.Some? {
      k, land := UnitBranch(m, source, destination, original, p.positions, p.output, out, u, st);
    } else if u.x.call.None? {
      k, land := UnitCopied(m, source, destination, original, p.positions, p.output, out, u, st);
    } else if u.x.call.value.Direct? {
      land := UnitDirect(m, source, destination, original, p.positions, p.output, out, u, st);
      k := 2;
    } else {
      land := UnitIndirect(m, source, destination, original, p.positions, p.output, out, u, st);
      k := 2;
    }
  }

  // Moves

  /** Address that stands for unit `i` in the relocated code. */
  ghost function Place(destination: Address, units: seq<Unit>, i: nat): nat
    requires i < |units|
  {
    destination + units[i].at
  }
  /** Where the original stands: at unit `i`, or outside the prefix. */
  ghost predicate AtUnit(source: Address, units: seq<Unit>, pc: int, i: nat) {
    i < |units| && pc == source + units[i].offset
  }

  lemma {:induction false} LookupUnit(positions: seq<(nat, nat)>, offset: int) returns (k: nat)
    requires Lookup(positions, offset).Some?
    ensures k < |positions| && positions[k] == (offset, Lookup(positions, offset).value)
  {
    if positions[0].0 == offset {
      k := 0;
    } else {
      k := LookupUnit(positions[1..], offset);
      k := k + 1;
    }
  }
  lemma {:induction false} LookupFinds(positions: seq<(nat, nat)>, j: nat)
    requires j < |positions|
    ensures Lookup(positions, positions[j].0).Some?
  {
    if positions[0].0 != positions[j].0 {
      LookupFinds(positions[1..], j - 1);
    }
  }

  /** The relocated code follows one move of the original from `here` on. It arrives at the image of
      the original's next address, which is that address itself outside the prefix, always with the
      same state; a trap happens in the same state. */
  ghost predicate Mirrors<S>(m: Machine<S>, source: Address, destination: Address, original: seq<Byte>,
                             positions: seq<(nat, nat)>, out: seq<Byte>, here: Address, st: S, move: Move<S>,
                             k: nat, land: Address)
  {
    match move
    case Go(pc, st') =>
      && k >= 1 && Reach(m, destination, out, k, here, st, land, st')
      && Mapped(source, destination, |original|, positions, pc) == Ok(land)
    case Leave(pc, st') => k >= 1 && land == pc && Reach(m, destination, out, k, here, st, land, st')
    case Stop(st') =>
      && Reach(m, destination, out, k, here, st, land, st)
      && Inside(destination, out, land) && MoveAt(m, destination, out, land, st) == Stop(st')
    case Fault => false
  }

  lemma ReturnReaches<S>(m: Machine<S>, source: Address, destination: Address, original: seq<Byte>, body: seq<Byte>,
                         out: seq<Byte>, st: S)
    requires source + |original| < W64 && destination + |body| + 5 < W64
    requires var back := Displacement(destination + |body| + 5, source + |original|);
             back.Ok? && out == body + [0xe9] + back.value
    ensures Reach(m, destination, out, 1, destination + |body|, st, source + |original|, st)
  {
    hide Step, Reach, Displacement;
    var w := out[|body|..];
    var back := Displacement(destination + |body| + 5, source + |original|).value;
    assert w == [0xe9] + back && w[1..5] == back;
    StepJump(m, w, destination + |body|, source + |original|, st);
    ReachOne(m, destination, out, |body|, st, Go(source + |original|, st));
  }

  /** What follows unit `i` in the original and in the output. */
  lemma NextUnit(source: Address, destination: Address, original: seq<Byte>, p: Pass, units: seq<Unit>,
                 body: seq<Byte>, out: seq<Byte>, i: nat)
    requires Relocation(source, destination, original, p, units, body, out) && i < |units|
    ensures source + |original| < W64 && destination + |out| <= W64 && units[i].at < |out| && |units[i].d.bytes| >= 1
    ensures units[i].offset < units[i].offset + units[i].x.size <= |original|
    ensures Decode(original[units[i].offset..]) == Some(units[i].x)
    ensures i + 1 < |units| ==> && units[i + 1].offset == units[i].offset + units[i].x.size
                                && units[i + 1].at == units[i].at + |units[i].d.bytes|
                                && units[i + 1].offset < |original|
    ensures i + 1 == |units| ==> && units[i].offset + units[i].x.size == |original|
                                 && units[i].at + |units[i].d.bytes| == |body|
  {
    hide Fix, Expand, Displacement, Slots, Decode;
    assert UnitOk(source, destination, original, p.output, units[i]);
    if i + 1 < |units| {
      assert UnitOk(source, destination, original, p.output, units[i + 1]);
    }
  }
  lemma UnitsDistinct(source: Address, destination: Address, original: seq<Byte>, p: Pass, units: seq<Unit>,
                      body: seq<Byte>, out: seq<Byte>, a: nat, b: nat)
    requires Relocation(source, destination, original, p, units, body, out)
    requires a < |units| && b < |units| && units[a].offset == units[b].offset
    ensures a == b
  {
    hide Fix, Displacement, Expand, Slots, InstructionAt;
    assert UnitOk(source, destination, original, p.output, units[a]);
    assert UnitOk(source, destination, original, p.output, units[b]);
    if a < b {
      UnitsOrdered(units, |original|, |p.output|, a, b);
    } else if b < a {
      UnitsOrdered(units, |original|, |p.output|, b, a);
    }
  }
  lemma PositionsPlaced(source: Address, destination: Address, original: seq<Byte>, p: Pass, units: seq<Unit>,
                        body: seq<Byte>, out: seq<Byte>, j: nat)
    requires Relocation(source, destination, original, p, units, body, out) && (j < |p.positions| || j < |units|)
    ensures |units| == |p.positions| && p.positions[j] == (units[j].offset, units[j].at)
  {
    hide Fix, UnitsOk, Chained, Slots, Displacement;
  }
  /** The image of a unit's address is the place of the unit. */
  lemma UnitImage(source: Address, destination: Address, original: seq<Byte>, p: Pass, units: seq<Unit>,
                  body: seq<Byte>, out: seq<Byte>, j: nat)
    requires Relocation(source, destination, original, p, units, body, out) && j < |units|
    ensures Place(destination, units, j) < W64
    ensures Mapped(source, destination, |original|, p.positions, source + units[j].offset)
              == Ok(Place(destination, units, j))
  {
    hide Relocation, Lookup, Decode;
    NextUnit(source, destination, original, p, units, body, out, j);
    PositionsPlaced(source, destination, original, p, units, body, out, j);
    LookupFinds(p.positions, j);
    var k := LookupUnit(p.positions, units[j].offset);
    PositionsPlaced(source, destination, original, p, units, body, out, k);
    UnitsDistinct(source, destination, original, p, units, body, out, j, k);
  }
  /** Conversely, an address inside the prefix that has an image is that of a unit. */
  lemma ImageUnit(source: Address, destination: Address, original: seq<Byte>, p: Pass, units: seq<Unit>,
                  body: seq<Byte>, out: seq<Byte>, pc: Address, land: Address) returns (j: nat)
    requires Relocation(source, destination, original, p, units, body, out) && Inside(source, original, pc)
    requires Mapped(source, destination, |original|, p.positions, pc) == Ok(land)
    ensures AtUnit(source, units, pc, j) && land == Place(destination, units, j)
  {
    hide Relocation, Lookup;
    j := LookupUnit(p.positions, pc - source);
    PositionsPlaced(source, destination, original, p, units, body, out, j);
  }

  /** One original move is mirrored. */
  lemma StepMirrored<S>(m: Machine<S>, source: Address, destination: Address, original: seq<Byte>, p: Pass,
                        units: seq<Unit>, body: seq<Byte>, out: seq<Byte>, i: nat, st: S)
    returns (k: nat, land: Address)
    requires Relocation(source, destination, original, p, units, body, out) && i < |units|
    requires Encodable(units[i].x) && Serves(m, source, destination, original, out, units[i].offset, units[i].x, st)
    requires source + units[i].offset < W64 && Place(destination, units, i) < W64
    ensures Mirrors(m, source, destination, original, p.positions, out, Place(destination, units, i), st,
                    Step(m, original[units[i].offset..], source + units[i].offset, st), k, land)
  {
    hide Step, Serves, Reach, Encodable, Relocation, MoveAt, Decode, Mapped;
    NextUnit(source, destination, original, p, units, body, out, i);
    k, land := UnitAnswers(m, source, destination, original, p, units, body, out, i, st);
    var u := units[i];
    var here := destination + u.at;
    var move := Step(m, original[u.offset..], source + u.offset, st);
    if move.Go? && Mapped(source, destination, |original|, p.positions, move.pc) != Ok(land) {
      if i + 1 < |units| {
        UnitImage(source, destination, original, p, units, body, out, i + 1);
      } else {
        ReturnFrom(m, source, destination, original, p, units, body, out, move.st);
        ReachJoin(m, destination, out, k, 1, here, st, land, move.st, move.pc, move.st);
        k, land := k + 1, move.pc;
      }
    }
  }
  lemma ReturnFrom<S>(m: Machine<S>, source: Address, destination: Address, original: seq<Byte>, p: Pass,
                      units: seq<Unit>, body: seq<Byte>, out: seq<Byte>, st: S)
    requires Relocation(source, destination, original, p, units, body, out)
    ensures destination + |body| < W64 && source + |original| < W64
    ensures Mapped(source, destination, |original|, p.positions, source + |original|) == Ok(source + |original|)
    ensures Reach(m, destination, out, 1, destination + |body|, st, source + |original|, st)
  {
    hide Fix, Laid, Displacement, Reach;
    ReturnReaches(m, source, destination, original, body, out, st);
  }

  /** A branch whose relocated form is too long faults, whatever the original does. */
  lemma LongBranchFaults<S>(m: Machine<S>, source: Address, destination: Address, original: seq<Byte>, p: Pass,
                            units: seq<Unit>, body: seq<Byte>, out: seq<Byte>, i: nat, st: S)
    requires Relocation(source, destination, original, p, units, body, out) && i < |units|
    requires !Encodable(units[i].x) && source + units[i].offset < W64 && Place(destination, units, i) < W64
    ensures Inside(destination, out, Place(destination, units, i))
    ensures MoveAt(m, destination, out, Place(destination, units, i), st) == Fault
    ensures Step(m, original[units[i].offset..], source + units[i].offset, st).Go?
  {
    hide Step, Relocation, Decode, FieldValue, Mapped, LongForm, Expand, Final;
    var u := units[i];
    var b := u.x.branch.value;
    NextUnit(source, destination, original, p, units, body, out, i);
    BlockOf(source, destination, original, p, units, body, out, i);
    var target, goal := BranchBlock(source, destination, original, p.positions, p.output, out, u);
    FieldOf(original, u.offset, u.x, b.displacement, b.width);
    var a := original[u.offset..];
    assert a == a[0..] && InstructionAt(a, 0, u.x);
    DecodeFits(a, 0, u.x);
    AnswerBranch(m, a, u.x, source + u.offset, target, out[u.at..], destination + u.at, goal, st);
  }

  /** Exactly when relocation preserves the meaning of an accepted instruction: its long form,
      if it is a branch, must still be an instruction. */
  lemma MirroredIff<S>(m: Machine<S>, source: Address, destination: Address, original: seq<Byte>, p: Pass,
                       units: seq<Unit>, body: seq<Byte>, out: seq<Byte>, i: nat, st: S)
    requires Relocation(source, destination, original, p, units, body, out) && i < |units|
    requires Serves(m, source, destination, original, out, units[i].offset, units[i].x, st)
    requires source + units[i].offset < W64 && Place(destination, units, i) < W64
    ensures var move := Step(m, original[units[i].offset..], source + units[i].offset, st);
            Encodable(units[i].x) <==>
            exists k: nat, land: Address ::
              Mirrors(m, source, destination, original, p.positions, out, Place(destination, units, i), st, move, k,
                      land)
  {
    hide Step, Serves, Encodable, Relocation;
    NextUnit(source, destination, original, p, units, body, out, i);
    if Encodable(units[i].x) {
      var k, land := StepMirrored(m, source, destination, original, p, units, body, out, i, st);
    } else {
      LongBranchFaults(m, source, destination, original, p, units, body, out, i, st);
    }
  }

  // Runs

  /** `n` direct moves of the original from one address to another that never leave the prefix. */
  ghost predicate Stays<S>(m: Machine<S>, source: Address, original: seq<Byte>, n: nat, pc: Address, st: S,
                           pc': Address, st': S)
    decreases n
  {
    if n == 0 then pc == pc' && st == st'
    else
      && Inside(source, original, pc)
      && var move := MoveAt(m, source, original, pc, st);
      && move.Go? && Inside(source, original, move.pc)
      && Stays(m, source, original, n - 1, move.pc, move.st, pc', st')
  }
  /** The instruction at an address has a long form, and in this state its literal can be read. */
  ghost predicate Ready<S>(m: Machine<S>, source: Address, destination: Address, original: seq<Byte>, out: seq<Byte>,
                           pc: Address, st: S)
    requires Inside(source, original, pc)
  {
    var x := Decode(original[pc - source..]);
    x.Some? ==> Encodable(x.value) && (x.value.call.Some? ==> Sealed(m, destination, out, st))
  }
  /** So it is wherever the first `n` moves of a run begin. */
  ghost predicate Smooth<S(!new)>(m: Machine<S>, source: Address, destination: Address, original: seq<Byte>,
                                  out: seq<Byte>, n: nat, pc: Address, st: S)
  {
    forall k: nat, at: Address, s: S | k < n && Inside(source, original, at)
    && Stays(m, source, original, k, pc, st, at, s) ::
      Ready(m, source, destination, original, out, at, s)
  }

  /** An indirect call is never a direct move. */
  lemma DirectMove<S>(m: Machine<S>, source: Address, destination: Address, original: seq<Byte>, p: Pass,
                      units: seq<Unit>, body: seq<Byte>, out: seq<Byte>, i: nat, st: S)
    requires Relocation(source, destination, original, p, units, body, out) && i < |units|
    requires source + units[i].offset < W64
    requires Step(m, original[units[i].offset..], source + units[i].offset, st).Go?
    ensures source + |original| < W64 && Undisturbed(m, source, original, units[i].offset, units[i].x, st)
  {
    hide Relocation, Decode, Step, OperandKey, Effective;
    NextUnit(source, destination, original, p, units, body, out, i);
    var a, x := original[units[i].offset..], units[i].x;
    assert a == a[0..] && InstructionAt(a, 0, x);
    DecodeFits(a, 0, x);
    FieldsInside(a);
    if x.call.Some? && x.call.value.Indirect? {
      StepCallsIndirect(m, a, x, source + units[i].offset, x.call.value.modrm, st);
    }
  }

  /** Runs inside the prefix, loops included, are mirrored move by move. */
  lemma {:induction false} RunMirrored<S(!new)>(m: Machine<S>, source: Address, destination: Address,
                                                original: seq<Byte>,
                                                p: Pass, units: seq<Unit>, body: seq<Byte>, out: seq<Byte>,
                                                n: nat, i: nat, st: S, pc: Address, st': S)
    returns (k: nat, j: nat)
    requires Relocation(source, destination, original, p, units, body, out) && i < |units|
    requires source + units[i].offset < W64 && Place(destination, units, i) < W64
    requires Stays(m, source, original, n, source + units[i].offset, st, pc, st')
    requires Smooth(m, source, destination, original, out, n, source + units[i].offset, st)
    ensures AtUnit(source, units, pc, j) && Place(destination, units, j) < W64
    ensures k >= n && Reach(m, destination, out, k, Place(destination, units, i), st, Place(destination, units, j), st')
    decreases n
  {
    hide Step, Ready, Encodable, Relocation, Reach, Decode, Sealed, Undisturbed, Mapped;
    if n == 0 {
      k, j := 0, i;
      NoSteps(m, destination, out, Place(destination, units, i), st);
    } else {
      var here := source + units[i].offset;
      NextUnit(source, destination, original, p, units, body, out, i);
      var move := Step(m, original[units[i].offset..], here, st);
      assert original[here - source..] == original[units[i].offset..];
      DirectMove(m, source, destination, original, p, units, body, out, i, st);
      ReadyUnit(m, source, destination, original, out, units[i].offset, units[i].x, n, st);
      var l, land := StepMirrored(m, source, destination, original, p, units, body, out, i, st);
      var i' := ImageUnit(source, destination, original, p, units, body, out, move.pc, land);
      SmoothOn(m, source, destination, original, out, n, here, st, move);
      k, j := RunMirrored(m, source, destination, original, p, units, body, out, n - 1, i', move.st, pc, st');
      ReachJoin(m, destination, out, l, k, Place(destination, units, i), st, land, move.st,
                Place(destination, units, j), st');
      k := l + k;
    }
  }
  lemma ReadyUnit<S(!new)>(m: Machine<S>, source: Address, destination: Address, original: seq<Byte>, out: seq<Byte>,
                           offset: nat, x: Instruction, n: nat, st: S)
    requires offset < |original| && source + |original| < W64 && Decode(original[offset..]) == Some(x) && 0 < n
    requires Smooth(m, source, destination, original, out, n, source + offset, st)
    ensures Encodable(x) && (x.call.Some? ==> Sealed(m, destination, out, st))
  {
    hide Decode, Step, Encodable, Sealed;
    var pc := source + offset;
    assert Stays(m, source, original, 0, pc, st, pc, st);
    assert Ready(m, source, destination, original, out, pc, st);
    assert original[pc - source..] == original[offset..];
  }
  lemma SmoothOn<S(!new)>(m: Machine<S>, source: Address, destination: Address, original: seq<Byte>, out: seq<Byte>,
                          n: nat, pc: Address, st: S, move: Move<S>)
    requires Smooth(m, source, destination, original, out, n, pc, st) && 0 < n
    requires Inside(source, original, pc) && move == MoveAt(m, source, original, pc, st)
    requires move.Go? && Inside(source, original, move.pc)
    ensures Smooth(m, source, destination, original, out, n - 1, move.pc, move.st)
  {
    hide Step, Ready, MoveAt;
    forall k: nat, at: Address, s: S | k < n - 1 && Inside(source, original, at)
    && Stays(m, source, original, k, move.pc, move.st, at, s)
      ensures Ready(m, source, destination, original, out, at, s)
    {
      assert Stays(m, source, original, k + 1, pc, st, at, s);
    }
  }

  /** The landing pad leads to the first unit, or straight back when the prefix is empty. */
  lemma EntryReaches<S>(m: Machine<S>, source: Address, destination: Address, original: seq<Byte>, p: Pass,
                        units: seq<Unit>, body: seq<Byte>, out: seq<Byte>, st: S)
    requires Relocation(source, destination, original, p, units, body, out) && 0 < |units|
    ensures units[0].offset == 0 && Place(destination, units, 0) == destination + 4 < W64
    ensures Reach(m, destination, out, 1, destination, st, destination + 4, st)
  {
    hide Reach, Decode, Expand, Displacement, Execute;
    NextUnit(source, destination, original, p, units, body, out, 0);
    StartKept(source, destination, original, p, units, body);
    assert ENDBR64 <= out[0..];
    assert Step(m, out[0..], destination, st) == Go(destination + 4, st);
    hide Step;
    ReachOne(m, destination, out, 0, st, Go(destination + 4, st));
  }
  lemma StartKept(source: Address, destination: Address, original: seq<Byte>, p: Pass, units: seq<Unit>,
                  body: seq<Byte>)
    requires Laid(source, destination, original, |original|, p, units) && SlotsFit(p) && 0 < |units|
    requires forall a, b | 0 <= a < b < |p.branches| :: p.branches[a].0 + 4 <= p.branches[b].0
    requires Fix(source, destination, |original|, p, 0, p.output) == Ok(body)
    ensures ENDBR64 <= body
  {
    hide Fix, Expand, InstructionAt, Fits, Slots, Resolve;
    Fixed(source, destination, |original|, p, 0, p.output);
    forall q | 0 <= q < 4 ensures body[q] == ENDBR64[q] {
      forall j | 0 <= j < |p.branches| ensures !InSlot(p, j, q) {
        var o := SlotOwner(units, j);
        if o > 0 {
          UnitsOrdered(units, |original|, |p.output|, 0, o);
        }
      }
      assert p.output[q] == p.output[..4][q];
    }
  }

  /** Meaning is preserved. Take any run of the original prefix from its entry: `n` moves inside it, loops
      included, then one more move from `pc`. The relocated code, run from the page address, mirrors it to
      the image of the same address with the same state. The branches that the run meets must still be
      instructions, and the calls it meets must find their literal; only a last, indirect call must in
      addition find its operand undisturbed. */
  lemma MeaningPreserved<S(!new)>(m: Machine<S>, source: Address, destination: Address, original: seq<Byte>,
                                  out: seq<Byte>,
                                  n: nat, st: S, pc: Address, st': S)
    returns (k: nat, place: Address, l: nat, land: Address)
    requires Relocated(source, destination, original) == Ok(out) && Inside(source, original, pc)
    requires Stays(m, source, original, n, source, st, pc, st')
    requires Smooth(m, source, destination, original, out, n, source, st)
    requires Ready(m, source, destination, original, out, pc, st')
    requires source + |original| < W64 && (forall x | Decode(original[pc - source..]) == Some(x) ::
                                             Undisturbed(m, source, original, pc - source, x, st'))
    ensures Mapped(source, destination, |original|, Positions(source, destination, original), pc) == Ok(place)
    ensures k >= n && Reach(m, destination, out, k, destination, st, place, st')
    ensures Mirrors(m, source, destination, original, Positions(source, destination, original), out, place, st',
                    MoveAt(m, source, original, pc, st'), l, land)
  {
    hide Step, Relocated, Relocation, Reach, Mirrors, Stays, Sealed, Encodable, Decode, Undisturbed, Smooth, Mapped;
    var p, units, body := Decompose(source, destination, original, out);
    SomeUnit(source, destination, original, p, units, body, out);
    EntryReaches(m, source, destination, original, p, units, body, out, st);
    var j;
    k, j := RunMirrored(m, source, destination, original, p, units, body, out, n, 0, st, pc, st');
    place := Place(destination, units, j);
    NextUnit(source, destination, original, p, units, body, out, j);
    UnitImage(source, destination, original, p, units, body, out, j);
    ReachJoin(m, destination, out, 1, k, destination, st, destination + 4, st, place, st');
    k := k + 1;
    assert original[pc - source..] == original[units[j].offset..];
    l, land := StepMirrored(m, source, destination, original, p, units, body, out, j, st');
  }
  lemma SomeUnit(source: Address, destination: Address, original: seq<Byte>, p: Pass, units: seq<Unit>,
                 body: seq<Byte>, out: seq<Byte>)
    requires Relocation(source, destination, original, p, units, body, out) && original != []
    ensures 0 < |units|
  {
    hide Fix, Slots, Displacement, UnitsOk;
  }
}
