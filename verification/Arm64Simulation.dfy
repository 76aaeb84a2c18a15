/** The relocated A64 prefix behaves like the original one. */
module Arm64Simulation {
  import opened Words
  import opened Arm64
  import opened Arm64Machine

  // Encodings round-trip

  /** A target can be encoded exactly when it is an aligned word within the span,
      and decoding the immediate gives the target back. */
  lemma RelativeRoundTrip(source: int, target: int, span: int)
    requires span in {S14, S19, S26}
    ensures Relative(source, target, span).Ok? <==>
            (target - source) % 4 == 0 && -2 * span <= target - source < 2 * span
    ensures Relative(source, target, span).Ok? ==>
              var imm := Relative(source, target, span).value;
              0 <= imm < span && source + 4 * Signed(imm, span) == target
  {
  }

  lemma HalvesRebuild(v: Address)
    ensures v == Half(v, 0) + Half(v, 1) * 0x1_0000 + Half(v, 2) * 0x1_0000_0000 + Half(v, 3) * 0x1_0000_0000_0000
  {
    var a := v / 0x1_0000;
    var b := a / 0x1_0000;
    assert b == v / 0x1_0000_0000;
    assert b / 0x1_0000 == v / 0x1_0000_0000_0000;
  }

  /** Writing the next half of a value whose higher halves are clear. */
  lemma WriteNext(low: int, half: int, imm: int, unit: int)
    requires 0 <= imm < 65536 && 0 <= low < unit
    requires (half, unit) in {(0, 1), (1, 0x1_0000), (2, 0x1_0000_0000), (3, 0x1_0000_0000_0000)}
    ensures low + imm * unit < 65536 * unit && WriteHalf(low, half, imm) == low + imm * unit
  {
    Divides(low, unit, 0, low);
    assert Half(low, half) == 0;
    hide Half;
    Divides(low + imm * unit, W64, 0, low + imm * unit);
  }

  /** Writing the four halves in order builds any value from any register. */
  lemma HalvesWrite(v: Address)
    ensures var a := WriteHalf(0, 0, Half(v, 0));
            var b := WriteHalf(a, 1, Half(v, 1));
            var c := WriteHalf(b, 2, Half(v, 2));
            WriteHalf(c, 3, Half(v, 3)) == v
  {
    hide Half, WriteHalf;
    HalvesRebuild(v);
    var h0, h1, h2, h3 := Half(v, 0), Half(v, 1), Half(v, 2), Half(v, 3);
    WriteNext(0, 0, h0, 1);
    WriteNext(h0, 1, h1, 0x1_0000);
    WriteNext(h0 + h1 * 0x1_0000, 2, h2, 0x1_0000_0000);
    WriteNext(h0 + h1 * 0x1_0000 + h2 * 0x1_0000_0000, 3, h3, 0x1_0000_0000_0000);
  }

  // Running emitted words

  lemma ReachOne<R>(m: Machine<R>, base: Address, code: seq<Word>, q: nat, st: State<R>, move: Move<R>)
    requires q < |code| && base + 4 * q < W64 && !move.Stop?
    requires Step(m, code[q], base + 4 * q, st) == move
    ensures Reach(m, base, code, 1, base + 4 * q, st, move.pc, move.st)
  {
    hide Step;
    assert (base + 4 * q - base) / 4 == q;
    assert Reach(m, base, code, 0, move.pc, move.st, move.pc, move.st);
  }

  lemma ReachHalf<R>(m: Machine<R>, base: Address, code: seq<Word>, q: nat, register: int, v: Address,
                     half: int, st: State<R>)
    requires 0 <= register < 32 && 0 <= half < 4
    requires q < |code| && base + 4 * q + 4 < W64 && code[q] == ConstantWord(register, v, half)
    ensures Reach(m, base, code, 1, base + 4 * q, st, base + 4 * q + 4,
                  st.Set(register, WriteHalf(if half == 0 then 0 else st.Get(register), half, Half(v, half))))
  {
    DecodeMoveWide(register, v, half);
    hide Decode, ConstantWord, Half, WriteHalf;
    ReachOne(m, base, code, q, st, Step(m, code[q], base + 4 * q, st));
  }

  /** The four-word constant loads its value into any real register. */
  lemma ReachConstant<R>(m: Machine<R>, base: Address, code: seq<Word>, q: nat, register: int, v: Address, st: State<R>)
    requires 0 <= register < 32
    requires q + 4 <= |code| && base + 4 * q + 16 < W64
    requires forall h | 0 <= h < 4 :: code[q + h] == ConstantWord(register, v, h)
    ensures Reach(m, base, code, 4, base + 4 * q, st, base + 4 * q + 16, st.Set(register, v))
  {
    hide Reach, ConstantWord, Half, WriteHalf;
    var pc := base + 4 * q;
    var s1 := st.Set(register, WriteHalf(0, 0, Half(v, 0)));
    var s2 := s1.Set(register, WriteHalf(s1.Get(register), 1, Half(v, 1)));
    var s3 := s2.Set(register, WriteHalf(s2.Get(register), 2, Half(v, 2)));
    var s4 := s3.Set(register, WriteHalf(s3.Get(register), 3, Half(v, 3)));
    assert code[q + 0] == ConstantWord(register, v, 0);
    ReachHalf(m, base, code, q, register, v, 0, st);
    ReachHalf(m, base, code, q + 1, register, v, 1, s1);
    ReachHalf(m, base, code, q + 2, register, v, 2, s2);
    ReachHalf(m, base, code, q + 3, register, v, 3, s3);
    ReachJoin(m, base, code, 1, 1, pc, st, pc + 4, s1, pc + 8, s2);
    ReachJoin(m, base, code, 2, 1, pc, st, pc + 8, s2, pc + 12, s3);
    ReachJoin(m, base, code, 3, 1, pc, st, pc + 12, s3, pc + 16, s4);
    HalvesWrite(v);
    assert s4 == st.Set(register, v);
  }

  // One instruction and its block

  /** The words of a draft, with its branch resolved, at word `at` of the output. */
  ghost predicate Laid(source: Address, destination: Address, n: nat, positions: seq<nat>,
                       d: Draft, at: nat, code: seq<Word>)
    requires |positions| == n
  {
    && at + |d.words| < |code|
    && (forall q | 0 <= q < |d.words| && !(d.slot.Some? && d.slot.value.0 == q) :: code[at + q] == d.words[q])
    && (d.slot.Some? && d.slot.value.0 < |d.words| ==>
          Resolve(source, destination, n, positions, (at + d.slot.value.0, d.slot.value.1))
          == Ok(code[at + d.slot.value.0]))
  }

  /** Running the block answers one move of the original instruction at `pc`: it lands
      on the mapped target, falls out of its end, departs likewise, or traps likewise. */
  ghost predicate Answers<R>(m: Machine<R>, source: Address, destination: Address, n: nat, positions: seq<nat>,
                             code: seq<Word>, at: nat, size: nat, pc: Address, st: State<R>,
                             move: Move<R>, k: nat, land: Address)
    requires |positions| == n && destination + 4 * at < W64
  {
    var here := destination + 4 * at;
    match move
    case Go(pc', st') =>
      && k >= 1
      && Reach(m, destination, code, k, here, st, land, st')
      && ((pc' == pc + 4 && land == destination + 4 * (at + size))
          || Mapped(source, destination, n, positions, pc') == Ok(land))
    case Leave(pc', st') =>
      && k >= 1 && land == pc' && Reach(m, destination, code, k, here, st, land, st')
    case Stop(st') =>
      && Reach(m, destination, code, k, here, st, land, st)
      && Inside(destination, code, land)
      && MoveAt(m, destination, code, land, st) == Stop(st')
  }

  /** A resolved branch word goes to the mapped target. */
  lemma ReachResolved<R>(m: Machine<R>, source: Address, destination: Address, n: nat, positions: seq<nat>,
                         code: seq<Word>, q: nat, target: Address, st: State<R>) returns (land: Address)
    requires |positions| == n && q < |code| && destination + 4 * q < W64
    requires Resolve(source, destination, n, positions, (q, target)) == Ok(code[q])
    ensures Mapped(source, destination, n, positions, target) == Ok(land)
    ensures Reach(m, destination, code, 1, destination + 4 * q, st, land, st)
  {
    land := Mapped(source, destination, n, positions, target).value;
    hide Mapped, Relative, Step, Reach;
    var pc := destination + 4 * q;
    RelativeRoundTrip(pc, land, S26);
    StepTo(m, pc, land, st);
    ReachOne(m, destination, code, q, st, Go(land, st));
  }
  /** An encoded branch goes to its target and changes nothing else. */
  lemma StepTo<R>(m: Machine<R>, pc: Address, target: Address, st: State<R>)
    requires Relative(pc, target, S26).Ok? && 0 <= Relative(pc, target, S26).value < S26
    ensures Step(m, B + Relative(pc, target, S26).value, pc, st) == Go(target, st)
  {
    RelativeRoundTrip(pc, target, S26);
    hide Relative, Signed, Decode;
    DecodeBranch(Relative(pc, target, S26).value);
  }

  lemma ConstantLaid(code: seq<Word>, at: nat, words: seq<Word>, register: int, v: Address)
    requires 0 <= register < 32 && |words| >= 4 && words[..4] == Constant(register, v)
    requires at + 4 <= |code| && forall q | 0 <= q < 4 :: code[at + q] == words[q]
    ensures forall h | 0 <= h < 4 :: code[at + h] == ConstantWord(register, v, h)
  {
    hide ConstantWord;
    assert code[at + 0] == words[0] && code[at + 1] == words[1] && code[at + 2] == words[2] && code[at + 3] == words[3];
  }

  lemma AnswerBranch<R>(m: Machine<R>, source: Address, destination: Address, n: nat, positions: seq<nat>,
                        code: seq<Word>, i: nat, w: Word, at: nat, st: State<R>)
    returns (k: nat, land: Address)
    requires i < n == |positions| && source + 4 * n < W64 && destination + 4 * |code| <= W64
    requires IsBranch(w) && ExpandBranch(source, n, i, w).Ok?
    requires Laid(source, destination, n, positions, ExpandBranch(source, n, i, w).value, at, code)
    ensures Answers(m, source, destination, n, positions, code, at, |ExpandBranch(source, n, i, w).value.words|,
                    source + 4 * i, st, Step(m, w, source + 4 * i, st), k, land)
  {
    hide Resolve, Mapped, Signed, Reach, ConstantWord;
    var d := ExpandBranch(source, n, i, w).value;
    var target := d.slot.value.1;
    var here := destination + 4 * at;
    if IsLink(w) {
      ConstantLaid(code, at, d.words, 30, source + 4 * n);
      ReachConstant(m, destination, code, at, 30, source + 4 * n, st);
      var st1 := st.Set(30, source + 4 * n);
      land := ReachResolved(m, source, destination, n, positions, code, at + 4, target, st1);
      ReachJoin(m, destination, code, 4, 1, here, st, here + 16, st1, land, st1);
      k := 5;
    } else {
      land := ReachResolved(m, source, destination, n, positions, code, at, target, st);
      k := 1;
    }
  }

  /** The negated branch either skips the resolved one or falls into it. */
  lemma AnswerNegated<R>(m: Machine<R>, source: Address, destination: Address, n: nat, positions: seq<nat>,
                         code: seq<Word>, pc: Address, w: Word, at: nat, st: State<R>,
                         target: Address, taken: bool)
    returns (k: nat, land: Address)
    requires |positions| == n && destination + 4 * |code| <= W64 && at + 2 < |code| && pc + 4 < W64
    requires Step(m, w, pc, st) == Go(if taken then target else pc + 4, st)
    requires Step(m, code[at], destination + 4 * at, st)
             == Go(destination + 4 * at + if taken then 4 else 8, st)
    requires Resolve(source, destination, n, positions, (at + 1, target)) == Ok(code[at + 1])
    ensures Answers(m, source, destination, n, positions, code, at, 2, pc, st, Step(m, w, pc, st), k, land)
  {
    hide Resolve, Mapped, Reach, Step;
    var here := destination + 4 * at;
    ReachOne(m, destination, code, at, st, Step(m, code[at], here, st));
    if taken {
      land := ReachResolved(m, source, destination, n, positions, code, at + 1, target, st);
      ReachJoin(m, destination, code, 1, 1, here, st, here + 4, st, land, st);
      k := 2;
    } else {
      k, land := 1, here + 8;
    }
  }

  function Offset(w: Word): int {
    4 * if IsTest(w) then Signed(Imm14(w), S14) else Signed(Imm19(w), S19)
  }

  /** The negated copy skips eight bytes exactly when the original falls through. */
  ghost predicate Negates<R>(m: Machine<R>, w: Word, pc: Address, here: Address, st: State<R>, taken: bool)
    requires IsConditional(w) || IsCompare(w) || IsTest(w)
  {
    && Step(m, w, pc, st) == Go(Wrap(if taken then pc + Offset(w) else pc + 4), st)
    && Step(m, Skip(w), here, st) == Go(Wrap(here + if taken then 4 else 8), st)
  }

  lemma NegatedIf<R>(m: Machine<R>, w: Word, pc: Address, here: Address, st: State<R>) returns (taken: bool)
    requires IsConditional(w) && Cond(w) < 14
    ensures Negates(m, w, pc, here, st, taken)
  {
    hide Wrap, Imm19, Imm14, Signed, Top, Decode, Skip, Cond;
    SkipIf(w);
    DecodeIf(w);
    Fields19(w);
    FieldsIf(w);
    assert !IsTest(w);
    taken := Holds(m, Cond(w), st.rest);
  }
  lemma NegatedCompare<R>(m: Machine<R>, w: Word, pc: Address, here: Address, st: State<R>) returns (taken: bool)
    requires IsCompare(w)
    ensures Negates(m, w, pc, here, st, taken)
  {
    hide Wrap, Imm19, Imm14, Signed, Top, Decode, Skip, IsZero, Rd;
    SkipCompare(w);
    DecodeCompare(w);
    assert !IsTest(w);
    taken := IsZero(st.Get(Rd(w)), IsLink(w)) != (Top(w) % 2 == 1);
  }
  lemma NegatedTest<R>(m: Machine<R>, w: Word, pc: Address, here: Address, st: State<R>) returns (taken: bool)
    requires IsTest(w)
    ensures Negates(m, w, pc, here, st, taken)
  {
    hide Wrap, Imm19, Imm14, Signed, Top, Decode, Skip, BitSet, Rd, Bit40;
    SkipTest(w);
    DecodeTest(w);
    taken := BitSet(st.Get(Rd(w)), Top(w) / 128 * 32 + Bit40(w)) == (Top(w) % 2 == 1);
  }

  /** What the relocator emits for a conditional branch. */
  lemma DraftConditional(pc: Address, w: Word)
    requires (IsConditional(w) || IsCompare(w) || IsTest(w)) && ExpandConditional(pc, w).Ok?
    ensures 0 <= pc + Offset(w) < W64
    ensures ExpandConditional(pc, w).value ==
            if IsConditional(w) && Cond(w) >= 14 then Draft([B], Some((0, pc + Offset(w))))
            else Draft([Skip(w), B], Some((1, pc + Offset(w))))
  {
    hide Signed, Flip;
    assert !(IsConditional(w) && IsTest(w)) && !(IsCompare(w) && IsTest(w)) && !(IsConditional(w) && IsCompare(w));
    hide Top;
  }

  lemma AnswerAlways<R>(m: Machine<R>, source: Address, destination: Address, n: nat, positions: seq<nat>,
                        code: seq<Word>, pc: Address, w: Word, at: nat, st: State<R>)
    returns (land: Address)
    requires |positions| == n && destination + 4 * |code| <= W64 && at < |code|
    requires IsConditional(w) && Cond(w) >= 14 && 0 <= pc + Offset(w) < W64
    requires Resolve(source, destination, n, positions, (at, pc + Offset(w))) == Ok(code[at])
    ensures Answers(m, source, destination, n, positions, code, at, 1, pc, st, Step(m, w, pc, st), 1, land)
  {
    hide Resolve, Mapped, Reach, Signed;
    assert !IsBranch(w) && !IsTest(w);
    assert Step(m, w, pc, st) == Go(pc + Offset(w), st);
    hide Step;
    land := ReachResolved(m, source, destination, n, positions, code, at, pc + Offset(w), st);
  }

  lemma AnswerConditional<R>(m: Machine<R>, source: Address, destination: Address, n: nat, positions: seq<nat>,
                             code: seq<Word>, pc: Address, w: Word, at: nat, st: State<R>)
    returns (k: nat, land: Address)
    requires |positions| == n && destination + 4 * |code| <= W64 && pc + 4 < W64
    requires (IsConditional(w) || IsCompare(w) || IsTest(w)) && ExpandConditional(pc, w).Ok?
    requires Laid(source, destination, n, positions, ExpandConditional(pc, w).value, at, code)
    ensures Answers(m, source, destination, n, positions, code, at, |ExpandConditional(pc, w).value.words|,
                    pc, st, Step(m, w, pc, st), k, land)
  {
    hide Resolve, Mapped, Reach, Skip, Offset, Step, ExpandConditional, IsConditional, IsCompare, IsTest;
    DraftConditional(pc, w);
    var here := destination + 4 * at;
    var target := pc + Offset(w);
    if IsConditional(w) && Cond(w) >= 14 {
      land := AnswerAlways(m, source, destination, n, positions, code, pc, w, at, st);
      k := 1;
    } else {
      var taken: bool;
      if IsConditional(w) {
        taken := NegatedIf(m, w, pc, here, st);
      } else if IsCompare(w) {
        taken := NegatedCompare(m, w, pc, here, st);
      } else {
        taken := NegatedTest(m, w, pc, here, st);
      }
      assert ExpandConditional(pc, w).value.words == [Skip(w), B];
      assert code[at + 0] == ExpandConditional(pc, w).value.words[0];
      k, land := AnswerNegated(m, source, destination, n, positions, code, pc, w, at, st, target, taken);
    }
  }

  lemma StepAddress<R>(m: Machine<R>, pc: Address, w: Word, st: State<R>)
    requires IsAddress(w) && !IsBranch(w) && AddressTarget(pc, w).Ok? && pc + 4 < W64
    ensures Step(m, w, pc, st) == Go(pc + 4, st.Set(Rd(w), AddressTarget(pc, w).value))
  {
    hide Signed, Imm21, Rd;
    assert Top(w) % 32 == 0x10;
    assert !IsConditional(w) && !IsCompare(w) && !IsTest(w);
    hide Top;
  }

  lemma AnswerAddress<R>(m: Machine<R>, source: Address, destination: Address, n: nat, positions: seq<nat>,
                         code: seq<Word>, pc: Address, w: Word, at: nat, st: State<R>)
    requires |positions| == n && destination + 4 * |code| <= W64 && pc + 4 < W64
    requires IsAddress(w) && !IsBranch(w) && AddressTarget(pc, w).Ok?
    requires Laid(source, destination, n, positions, Draft(Constant(Rd(w), AddressTarget(pc, w).value), None), at, code)
    ensures Answers(m, source, destination, n, positions, code, at, 4, pc, st, Step(m, w, pc, st),
                    4, destination + 4 * (at + 4))
  {
    hide Reach, ConstantWord, Step, AddressTarget, IsBranch, IsAddress, Mapped, Resolve;
    var target := AddressTarget(pc, w).value;
    StepAddress(m, pc, w, st);
    ConstantLaid(code, at, Constant(Rd(w), target), Rd(w), target);
    ReachConstant(m, destination, code, at, Rd(w), target, st);
  }

  /** The literal's effect on the state, given the address it reads. */
  function Loaded<R>(m: Machine<R>, w: Word, address: Address, st: State<R>): State<R> {
    if Top(w) / 4 % 2 == 1 then State(st.x, m.vector(Top(w) / 64, Rd(w), address, st.rest))
    else if Top(w) / 64 == 3 then st
    else st.Set(Rd(w), m.load(Top(w) / 64, address, st.rest))
  }

  lemma StepLiteral<R>(m: Machine<R>, pc: Address, w: Word, st: State<R>)
    requires IsLiteral(w) && 0 <= pc + 4 * Signed(Imm19(w), S19) < W64 && pc + 4 < W64
    ensures Step(m, w, pc, st) == Go(pc + 4, Loaded(m, w, pc + 4 * Signed(Imm19(w), S19), st))
  {
    hide Signed, Imm19, Rd, Top, Decode, IsLiteral;
    DecodeLoadLiteral(w);
  }

  lemma ReachReaimed<R>(m: Machine<R>, base: Address, code: seq<Word>, q: nat, w: Word, delta: int, st: State<R>)
    requires IsLiteral(w) && 0 <= delta < S19
    requires q < |code| && base + 4 * q + 4 < W64 && 0 <= base + 4 * q + 4 * Signed(delta, S19) < W64
    requires code[q] == w - Imm19(w) * 32 + delta * 32
    ensures Reach(m, base, code, 1, base + 4 * q, st, base + 4 * q + 4,
                  Loaded(m, w, base + 4 * q + 4 * Signed(delta, S19), st))
  {
    hide Signed, Imm19, Rd, Top, Decode, IsLiteral, Reach;
    var here := base + 4 * q;
    DecodeReaimed(w, delta);
    DecodeLoadLiteral(w);
    ReachOne(m, base, code, q, st, Go(here + 4, Loaded(m, w, here + 4 * Signed(delta, S19), st)));
  }

  lemma ReachThroughRegister<R>(m: Machine<R>, base: Address, code: seq<Word>, q: nat, op: int, register: int,
                                address: Address, st: State<R>)
    requires 0 <= op < 3 && 0 <= register < 31
    requires q + 5 < |code| && base + 4 * |code| <= W64
    requires forall h | 0 <= h < 4 :: code[q + h] == ConstantWord(register, address, h)
    requires code[q + 4] == LoadOpcode(op) + register * 32 + register
    ensures Reach(m, base, code, 5, base + 4 * q, st, base + 4 * q + 20,
                  st.Set(register, m.load(op, address, st.rest)))
  {
    hide Reach, ConstantWord, Decode, LoadOpcode;
    var here := base + 4 * q;
    var st1 := st.Set(register, address);
    var st2 := st1.Set(register, m.load(op, address, st1.rest));
    ReachConstant(m, base, code, q, register, address, st);
    DecodeLoadBase(op, register);
    ReachOne(m, base, code, q + 4, st1, Go(here + 20, st2));
    ReachJoin(m, base, code, 4, 1, here, st, here + 16, st1, here + 20, st2);
    assert st2 == st.Set(register, m.load(op, address, st.rest));
  }

  /** What the relocator emits for a literal load. */
  lemma DraftLiteral(pc: Address, here: Address, w: Word)
    requires IsLiteral(w) && ExpandLiteral(pc, here, w).Ok?
    ensures var target := pc + 4 * Signed(Imm19(w), S19);
            var delta := Relative(here, target, S19);
            && 0 <= target < W64 && 0 <= Top(w) / 64 < 4 && 0 <= Rd(w) < 32
            && (delta.Ok? || (Top(w) / 4 % 2 == 0 && Rd(w) < 31))
            && ExpandLiteral(pc, here, w).value.slot.None?
            && ExpandLiteral(pc, here, w).value.words ==
               if delta.Ok? then [w - Imm19(w) * 32 + delta.value * 32]
               else if Top(w) / 64 == 3 then [NOP]
               else Constant(Rd(w), target) + [LoadOpcode(Top(w) / 64) + Rd(w) * 32 + Rd(w)]
  {
    hide Signed, Imm19, Constant, LoadOpcode;
  }

  lemma AnswerLiteral<R>(m: Machine<R>, source: Address, destination: Address, n: nat, positions: seq<nat>,
                         code: seq<Word>, pc: Address, w: Word, at: nat, st: State<R>)
    returns (k: nat)
    requires |positions| == n && destination + 4 * |code| <= W64 && pc + 4 < W64 && at < |code|
    requires IsLiteral(w) && ExpandLiteral(pc, destination + 4 * at, w).Ok?
    requires Laid(source, destination, n, positions, ExpandLiteral(pc, destination + 4 * at, w).value, at, code)
    ensures var size := |ExpandLiteral(pc, destination + 4 * at, w).value.words|;
            Answers(m, source, destination, n, positions, code, at, size, pc, st, Step(m, w, pc, st),
                    k, destination + 4 * (at + size))
  {
    hide Mapped, Resolve, Reach, Imm19, Signed, Top, Rd, LoadOpcode, ConstantWord, Step, IsLiteral,
         ExpandLiteral, Relative, Decode;
    var here := destination + 4 * at;
    var d := ExpandLiteral(pc, here, w).value;
    var target := pc + 4 * Signed(Imm19(w), S19);
    DraftLiteral(pc, here, w);
    StepLiteral(m, pc, w, st);
    assert code[at + 0] == d.words[0];
    if Relative(here, target, S19).Ok? {
      RelativeRoundTrip(here, target, S19);
      ReachReaimed(m, destination, code, at, w, Relative(here, target, S19).value, st);
      k := 1;
    } else if Top(w) / 64 == 3 {
      StepHint(m, here, st);
      ReachOne(m, destination, code, at, st, Go(here + 4, st));
      k := 1;
    } else {
      ConstantLaid(code, at, d.words, Rd(w), target);
      assert code[at + 4] == d.words[4];
      ReachThroughRegister(m, destination, code, at, Top(w) / 64, Rd(w), target, st);
      k := 5;
    }
  }

  lemma StepHint<R>(m: Machine<R>, pc: Address, st: State<R>)
    requires pc + 4 < W64
    ensures Step(m, NOP, pc, st) == Step(m, BTI, pc, st) == Go(pc + 4, st)
  {
    assert Decode(NOP) == Decode(BTI) == Hint;
    hide Decode;
  }

  lemma AnswerCallRegister<R>(m: Machine<R>, source: Address, destination: Address, n: nat, positions: seq<nat>,
                              code: seq<Word>, pc: Address, w: Word, at: nat, st: State<R>)
    returns (land: Address)
    requires |positions| == n && destination + 4 * |code| <= W64 && pc + 4 < W64
    requires IsCallRegister(w) && Rn(w) != 30
    requires Laid(source, destination, n, positions, Draft(Constant(30, pc + 4) + [w - 0x20_0000], None), at, code)
    ensures Answers(m, source, destination, n, positions, code, at, 5, pc, st, Step(m, w, pc, st), 5, land)
  {
    hide Reach, ConstantWord, Mapped, Resolve, Rn;
    var d := Draft(Constant(30, pc + 4) + [w - 0x20_0000], None);
    var here := destination + 4 * at;
    var st1 := st.Set(30, pc + 4);
    land := st.Get(Rn(w));
    assert Decode(w) == CallRegister(Rn(w)) by {
      assert Top(w) == 0xd6;
    }
    DecodeJumpRegister(w);
    hide Decode;
    ConstantLaid(code, at, d.words, 30, pc + 4);
    ReachConstant(m, destination, code, at, 30, pc + 4, st);
    assert code[at + 4] == d.words[4];
    ReachOne(m, destination, code, at + 4, st1, Leave(land, st1));
    ReachJoin(m, destination, code, 4, 1, here, st, here + 16, st1, land, st1);
  }

  /** Instructions that are copied unchanged. */
  predicate IsCopied(w: Word) {
    && !IsBranch(w) && !IsConditional(w) && !IsCompare(w) && !IsTest(w)
    && !IsAddress(w) && !IsLiteral(w) && !IsCallRegister(w)
    && (IsRegisterFamily(w) ==> IsJumpRegister(w) || IsAuthenticatedReturn(w))
  }
  lemma CopiedKinds(w: Word)
    requires IsCopied(w)
    ensures var d := Decode(w);
            d.JumpRegister? || d.ReturnAuthenticated? || d.MoveHalf? || d.LoadBase? || d.Hint? || d.Plain?
  {
    hide IsBranch, IsConditional, IsCompare, IsTest, IsAddress, IsLiteral, IsCallRegister, IsRegisterFamily,
         IsJumpRegister, IsAuthenticatedReturn, IsMoveHalf, IsLoadBase;
  }
  /** They do not read the program counter. */
  lemma StepElsewhere<R>(m: Machine<R>, w: Word, pc: Address, here: Address, st: State<R>)
    requires IsCopied(w) && pc + 4 < W64 && here + 4 < W64
    ensures var move := Step(m, w, pc, st);
            && Step(m, w, here, st) == (if move.Go? then Go(here + 4, move.st) else move)
            && (move.Go? ==> move.pc == pc + 4)
  {
    hide IsCopied, Decode, WriteHalf;
    CopiedKinds(w);
  }

  lemma AnswerCopied<R>(m: Machine<R>, source: Address, destination: Address, n: nat, positions: seq<nat>,
                        code: seq<Word>, pc: Address, w: Word, at: nat, st: State<R>)
    returns (k: nat, land: Address)
    requires |positions| == n && destination + 4 * |code| <= W64 && pc + 4 < W64
    requires IsCopied(w)
    requires Laid(source, destination, n, positions, Draft([w], None), at, code)
    ensures Answers(m, source, destination, n, positions, code, at, 1, pc, st, Step(m, w, pc, st), k, land)
  {
    hide Reach, Mapped, Resolve, Step, IsCopied;
    var here := destination + 4 * at;
    assert code[at + 0] == Draft([w], None).words[0];
    StepElsewhere(m, w, pc, here, st);
    match Step(m, w, pc, st) {
      case Go(pc', st') =>
        ReachOne(m, destination, code, at, st, Go(here + 4, st'));
        k, land := 1, here + 4;
      case Leave(pc', st') =>
        ReachOne(m, destination, code, at, st, Leave(pc', st'));
        k, land := 1, pc';
      case Stop(st') =>
        assert (here - destination) / 4 == at;
        NoSteps(m, destination, code, here, st);
        k, land := 0, here;
    }
  }
  lemma NoSteps<R>(m: Machine<R>, base: Address, code: seq<Word>, pc: Address, st: State<R>)
    ensures Reach(m, base, code, 0, pc, st, pc, st)
  {
  }
}
