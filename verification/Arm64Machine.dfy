/** The part of the A64 instruction set that relocation has to understand
    (sections C4.1 and C6.2 of the Arm Architecture Reference Manual).
    Everything else is an arbitrary step that does not read the program counter. */
module Arm64Machine {
  import opened Words
  import opened Arm64

  datatype Instruction =
    | Branch(link: bool, offset: int)
    | BranchIf(condition: int, offset: int)
    | CompareBranch(nonzero: bool, wide: bool, register: int, offset: int)
    | TestBranch(nonzero: bool, bit: int, register: int, offset: int)
    | FormAddress(page: bool, register: int, imm: int)
    | LoadLiteral(op: int, simd: bool, register: int, offset: int)
    | CallRegister(register: int)
    | JumpRegister(register: int)
    | ReturnAuthenticated(word: Word)
    | MoveHalf(keep: bool, register: int, half: int, imm: int)
    | LoadBase(op: int, register: int, base: int)
    | Hint
    | Plain(word: Word)
    | Undefined

  predicate IsMoveHalf(w: Word) {
    w / 0x80_0000 == 0x1a5 || w / 0x80_0000 == 0x1e5
  }
  /** A load from a general register with a zero offset. */
  predicate IsLoadBase(w: Word) {
    w / 0x40_0000 in {0x2e5, 0x3e5, 0x2e6} && w / 1024 % 4096 == 0 && Rn(w) != 31
  }

  function Decode(w: Word): Instruction {
    if IsBranch(w) then Branch(IsLink(w), 4 * Signed(Imm26(w), S26))
    else if IsConditional(w) then BranchIf(Cond(w), 4 * Signed(Imm19(w), S19))
    else if IsCompare(w) then
      CompareBranch(Top(w) % 2 == 1, IsLink(w), Rd(w), 4 * Signed(Imm19(w), S19))
    else if IsTest(w) then
      TestBranch(Top(w) % 2 == 1, Top(w) / 128 * 32 + Bit40(w), Rd(w),
                 4 * Signed(Imm14(w), S14))
    else if IsAddress(w) then FormAddress(IsLink(w), Rd(w), Signed(Imm21(w), S21))
    else if IsLiteral(w) then
      LoadLiteral(Top(w) / 64, Top(w) / 4 % 2 == 1, Rd(w), 4 * Signed(Imm19(w), S19))
    else if IsRegisterFamily(w) then
      if IsCallRegister(w) then CallRegister(Rn(w))
      else if IsJumpRegister(w) then JumpRegister(Rn(w))
      else if IsAuthenticatedReturn(w) then ReturnAuthenticated(w)
      else Undefined
    else if w == NOP || w == BTI then Hint
    else if IsMoveHalf(w) then
      MoveHalf(w / 0x80_0000 == 0x1e5, Rd(w), w / 0x20_0000 % 4, w / 32 % 65536)
    else if IsLoadBase(w) then
      LoadBase(if w / 0x40_0000 == 0x2e5 then 0 else if w / 0x40_0000 == 0x3e5 then 1 else 2,
               Rd(w), Rn(w))
    else Plain(w)
  }

  // State and steps

  type Registers = s: seq<Address> | |s| == 31 witness seq(31, i => 0)

  /** General registers, and everything else: flags, stack pointer, vectors, data memory. */
  datatype State<R> = State(x: Registers, rest: R) {
    function Get(register: int): Address {
      if 0 <= register < 31 then x[register] else 0
    }
    function Set(register: int, value: Address): State<R> {
      if 0 <= register < 31 then State(x[register := value], rest) else this
    }
  }

  datatype Effect<R> = Next(st: State<R>) | Halt(st: State<R>)

  /** What the model leaves open about the processor and the data memory. */
  datatype Machine<!R> = Machine(
    plain: (Word, State<R>) -> Effect<R>,
    flag: (int, R) -> bool,
    load: (int, Address, R) -> Address,
    vector: (int, int, Address, R) -> R,
    authenticate: (Word, State<R>) -> (Address, State<R>))

  /** A direct move, an indirect departure, or a trap. */
  datatype Move<R> = Go(pc: Address, st: State<R>) | Leave(pc: Address, st: State<R>) | Stop(st: State<R>)

  predicate Holds<R>(m: Machine<R>, condition: int, rest: R) {
    if condition >= 14 then true
    else if condition % 2 == 1 then !m.flag(condition / 2, rest)
    else m.flag(condition / 2, rest)
  }

  function Power(bit: nat): (p: nat)
    ensures p >= 1
  {
    if bit == 0 then 1 else 2 * Power(bit - 1)
  }
  predicate BitSet(value: Address, bit: int) {
    bit >= 0 && value / Power(bit) % 2 == 1
  }
  predicate IsZero(value: Address, wide: bool) {
    if wide then value == 0 else value % W32 == 0
  }

  function WriteHalf(value: Address, half: int, imm: int): Address {
    var bare := value -
                if half == 0 then Half(value, 0)
                else if half == 1 then Half(value, 1) * 0x1_0000
                else if half == 2 then Half(value, 2) * 0x1_0000_0000
                else Half(value, 3) * 0x1_0000_0000_0000;
    Wrap(bare +
         if half == 0 then imm
         else if half == 1 then imm * 0x1_0000
         else if half == 2 then imm * 0x1_0000_0000
         else imm * 0x1_0000_0000_0000)
  }

  function Step<R>(m: Machine<R>, w: Word, pc: Address, st: State<R>): Move<R> {
    var next := Wrap(pc + 4);
    match Decode(w)
    case Branch(link, offset) =>
      Go(Wrap(pc + offset), if link then st.Set(30, next) else st)
    case BranchIf(condition, offset) =>
      Go(if Holds(m, condition, st.rest) then Wrap(pc + offset) else next, st)
    case CompareBranch(nonzero, wide, register, offset) =>
      Go(if IsZero(st.Get(register), wide) != nonzero then Wrap(pc + offset) else next, st)
    case TestBranch(nonzero, bit, register, offset) =>
      Go(if BitSet(st.Get(register), bit) == nonzero then Wrap(pc + offset) else next, st)
    case FormAddress(page, register, imm) =>
      Go(next, st.Set(register, if page then Wrap(pc / 4096 * 4096 + 4096 * imm) else Wrap(pc + imm)))
    case LoadLiteral(op, simd, register, offset) =>
      if simd then Go(next, State(st.x, m.vector(op, register, Wrap(pc + offset), st.rest)))
      else if op == 3 then Go(next, st)
      else Go(next, st.Set(register, m.load(op, Wrap(pc + offset), st.rest)))
    case CallRegister(register) => Leave(st.Get(register), st.Set(30, next))
    case JumpRegister(register) => Leave(st.Get(register), st)
    case ReturnAuthenticated(word) =>
      var (target, after) := m.authenticate(word, st);
      Leave(target, after)
    case MoveHalf(keep, register, half, imm) =>
      Go(next, st.Set(register, WriteHalf(if keep then st.Get(register) else 0, half, imm)))
    case LoadBase(op, register, base) =>
      Go(next, st.Set(register, m.load(op, st.Get(base), st.rest)))
    case Hint => Go(next, st)
    case Plain(word) =>
      (match m.plain(word, st)
       case Next(after) => Go(next, after)
       case Halt(after) => Stop(after))
    case Undefined => Stop(st)
  }

  /** The address of a word of `code` placed at `base`. */
  predicate Inside(base: Address, code: seq<Word>, pc: int) {
    base <= pc < base + 4 * |code| && (pc - base) % 4 == 0
  }

  function MoveAt<R>(m: Machine<R>, base: Address, code: seq<Word>, pc: Address, st: State<R>): Move<R>
    requires Inside(base, code, pc)
  {
    Step(m, code[(pc - base) / 4], pc, st)
  }

  /** `k` steps inside `code` lead from one address and state to another. */
  ghost predicate Reach<R>(m: Machine<R>, base: Address, code: seq<Word>, k: nat,
                           pc: Address, st: State<R>, pc': Address, st': State<R>)
  {
    if k == 0 then pc == pc' && st == st'
    else
      && Inside(base, code, pc)
      && var move := MoveAt(m, base, code, pc, st);
      && !move.Stop?
      && Reach(m, base, code, k - 1, move.pc, move.st, pc', st')
  }

  /** What follows the code does not change a run inside it. */
  lemma {:induction false} ReachLonger<R>(m: Machine<R>, base: Address, code: seq<Word>, more: seq<Word>, k: nat,
                                          pc: Address, st: State<R>, pc': Address, st': State<R>)
    requires Reach(m, base, code, k, pc, st, pc', st')
    ensures Reach(m, base, code + more, k, pc, st, pc', st')
  {
    hide Step;
    if k > 0 {
      var move := MoveAt(m, base, code, pc, st);
      assert MoveAt(m, base, code + more, pc, st) == move;
      ReachLonger(m, base, code, more, k - 1, move.pc, move.st, pc', st');
    }
  }
  lemma {:induction false} ReachJoin<R>(m: Machine<R>, base: Address, code: seq<Word>, k: nat, l: nat,
                                        pc: Address, st: State<R>, pc1: Address, st1: State<R>,
                                        pc2: Address, st2: State<R>)
    requires Reach(m, base, code, k, pc, st, pc1, st1)
    requires Reach(m, base, code, l, pc1, st1, pc2, st2)
    ensures Reach(m, base, code, k + l, pc, st, pc2, st2)
  {
    hide MoveAt;
    if k > 0 {
      var move := MoveAt(m, base, code, pc, st);
      ReachJoin(m, base, code, k - 1, l, move.pc, move.st, pc1, st1, pc2, st2);
    }
  }

  // Decoding of emitted words

  lemma DecodeBranch(delta: int)
    requires 0 <= delta < S26
    ensures Decode(B + delta) == Branch(false, 4 * Signed(delta, S26))
  {
  }

  lemma DecodeMoveWide(register: int, value: Address, half: int)
    requires 0 <= register < 32 && 0 <= half < 4
    ensures Decode(ConstantWord(register, value, half)) == MoveHalf(half != 0, register, half, Half(value, half))
  {
    hide Half;
    var imm := Half(value, half);
    var low := half * 0x20_0000 + imm * 32 + register;
    assert 0 <= low < 0x80_0000;
    var w: Word := ConstantWord(register, value, half);
    assert w == (if half == 0 then 0x1a5 else 0x1e5) * 0x80_0000 + low;
    assert w / 0x80_0000 == if half == 0 then 0x1a5 else 0x1e5;
    assert Top(w) == if half == 0 then 0xd2 else 0xf2;
    assert w % 32 == register && w / 32 % 65536 == imm && w / 0x20_0000 % 4 == half;
  }

  lemma FieldsLoadBase(op: int, register: int)
    requires 0 <= op < 3 && 0 <= register < 31
    ensures var w: Word := LoadOpcode(op) + register * 32 + register;
            && Top(w) == (if op == 1 then 0xf9 else 0xb9)
            && w / 0x40_0000 == (if op == 0 then 0x2e5 else if op == 1 then 0x3e5 else 0x2e6)
            && w / 0x80_0000 == (if op == 1 then 0x1f2 else if op == 0 then 0x172 else 0x173)
            && w / 1024 % 4096 == 0 && Rn(w) == register && Rd(w) == register
  {
    var w := LoadOpcode(op) + register * 32 + register;
    var high := if op == 0 then 0x2e5 else if op == 1 then 0x3e5 else 0x2e6;
    Divides(w, 0x40_0000, high, register * 33);
    Divides(w, 0x80_0000, high / 2, high % 2 * 0x40_0000 + register * 33);
    Divides(w, 0x100_0000, high / 4, high % 4 * 0x40_0000 + register * 33);
    Divides(w, 32, high * 0x2_0000 + register, register);
    Divides(high * 0x2_0000 + register, 32, high * 0x1000, register);
    Divides(w, 1024, high * 0x1000, register * 33);
    Divides(high * 0x1000, 4096, high, 0);
  }
  lemma DecodeLoadBase(op: int, register: int)
    requires 0 <= op < 3 && 0 <= register < 31
    ensures Decode(LoadOpcode(op) + register * 32 + register) == LoadBase(op, register, register)
  {
    assert Top(NOP) == 0xd5 && Top(BTI) == 0xd5;
    hide Top, LoadOpcode, Rn, Rd;
    FieldsLoadBase(op, register);
  }

  lemma DecodeJumpRegister(w: Word)
    requires IsCallRegister(w)
    ensures Decode(w - 0x20_0000) == JumpRegister(Rn(w))
  {
    var v: Word := w - 0x20_0000;
    assert Top(v) == 0xd6;
  }

  /** Words taken apart into fields, and put together again. */
  lemma Fields19(w: Word)
    ensures w == Top(w) * 0x100_0000 + Imm19(w) * 32 + Rd(w)
    ensures 0 <= Top(w) < 256 && 0 <= Imm19(w) < S19 && 0 <= Rd(w) < 32
  {
  }
  lemma Join19(t: int, imm: int, r: int)
    requires 0 <= t < 256 && 0 <= imm < S19 && 0 <= r < 32
    ensures var v: Word := t * 0x100_0000 + imm * 32 + r;
            Top(v) == t && Imm19(v) == imm && Rd(v) == r
  {
  }
  lemma Fields14(w: Word)
    ensures w == Top(w) * 0x100_0000 + Bit40(w) * 0x8_0000 + Imm14(w) * 32 + Rd(w)
    ensures 0 <= Top(w) < 256 && 0 <= Imm14(w) < S14 && 0 <= Bit40(w) < 32 && 0 <= Rd(w) < 32
  {
  }
  lemma Join14(t: int, b: int, imm: int, r: int)
    requires 0 <= t < 256 && 0 <= b < 32 && 0 <= imm < S14 && 0 <= r < 32
    ensures var v: Word := t * 0x100_0000 + b * 0x8_0000 + imm * 32 + r;
            Top(v) == t && Bit40(v) == b && Imm14(v) == imm && Rd(v) == r
  {
    var v := t * 0x100_0000 + b * 0x8_0000 + imm * 32 + r;
    Divides(v, 32, t * 0x8_0000 + b * 0x4000 + imm, r);
    Divides(v / 32, 0x4000, t * 32 + b, imm);
    Divides(v, 0x8_0000, t * 32 + b, imm * 32 + r);
    Divides(t * 32 + b, 32, t, b);
    Divides(v, 0x100_0000, t, b * 0x8_0000 + imm * 32 + r);
  }
  lemma FieldsIf(w: Word)
    requires IsConditional(w)
    ensures w == 0x5400_0000 + Imm19(w) * 32 + Cond(w) && 0 <= Cond(w) < 16
  {
  }
  lemma JoinIf(imm: int, c: int)
    requires 0 <= imm < S19 && 0 <= c < 16
    ensures var v: Word := 0x5400_0000 + imm * 32 + c;
            IsConditional(v) && Imm19(v) == imm && Cond(v) == c
  {
    var v := 0x5400_0000 + imm * 32 + c;
    Divides(v, 16, 0x540_0000 + imm * 2, c);
    Divides(v, 32, 0x2a0_0000 + imm, c);
    Divides(v / 32, 0x8_0000, 0x54, imm);
    Divides(v, 0x100_0000, 0x54, imm * 32 + c);
  }

  /** A number with its lowest bit inverted. */
  function Negated(t: int): int {
    if t % 2 == 0 then t + 1 else t - 1
  }
  lemma FlipTop(w: Word)
    ensures Flip(w, 0x100_0000) == w + (Negated(Top(w)) - Top(w)) * 0x100_0000
  {
  }
  lemma FlipCond(w: Word)
    ensures Flip(w, 1) == w + Negated(Cond(w)) - Cond(w)
  {
  }

  lemma DecodeIf(w: Word)
    requires IsConditional(w)
    ensures Decode(w) == BranchIf(Cond(w), 4 * Signed(Imm19(w), S19))
  {
    hide Imm19, Signed, Cond, Top;
  }
  lemma DecodeCompare(w: Word)
    requires IsCompare(w)
    ensures Decode(w) == CompareBranch(Top(w) % 2 == 1, IsLink(w), Rd(w), 4 * Signed(Imm19(w), S19))
  {
    hide Imm19, Signed, Rd;
    assert Top(w) in {0x34, 0x35, 0xb4, 0xb5};
    hide Top;
  }
  lemma DecodeTest(w: Word)
    requires IsTest(w)
    ensures Decode(w) == TestBranch(Top(w) % 2 == 1, Top(w) / 128 * 32 + Bit40(w), Rd(w),
                                    4 * Signed(Imm14(w), S14))
  {
    hide Imm14, Signed, Rd, Bit40;
    assert Top(w) in {0x36, 0x37, 0xb6, 0xb7};
    hide Top;
  }
  lemma DecodeLoadLiteral(w: Word)
    requires IsLiteral(w)
    ensures Decode(w) == LoadLiteral(Top(w) / 64, Top(w) / 4 % 2 == 1, Rd(w), 4 * Signed(Imm19(w), S19))
  {
    hide Imm19, Signed, Rd;
    assert Top(w) in {0x18, 0x58, 0x98, 0xd8, 0x1c, 0x5c, 0x9c, 0xdc};
    hide Top;
  }

  /** The negated copy of a conditional branch, aimed eight bytes ahead. */
  function Skip(w: Word): Word
    requires IsConditional(w) || IsCompare(w) || IsTest(w)
  {
    if IsConditional(w) then Flip(w - Imm19(w) * 32, 1) + 64
    else if IsCompare(w) then Flip(w - Imm19(w) * 32, 0x100_0000) + 64
    else Flip(w - Imm14(w) * 32, 0x100_0000) + 64
  }

  lemma SkipIf(w: Word)
    requires IsConditional(w)
    ensures Decode(Skip(w)) == BranchIf(Negated(Cond(w)), 8)
  {
    hide Top, Imm19, Cond, Flip, Decode;
    FieldsIf(w);
    Fields19(w);
    var c := Cond(w);
    JoinIf(0, c);
    FlipCond(w - Imm19(w) * 32);
    JoinIf(2, Negated(c));
    DecodeIf(0x5400_0000 + 64 + Negated(c));
  }
  lemma SkipCompare(w: Word)
    requires IsCompare(w)
    ensures Decode(Skip(w)) == CompareBranch(Top(w) % 2 == 0, IsLink(w), Rd(w), 8)
  {
    hide Top, Imm19, Rd, Flip, Decode;
    Fields19(w);
    var t, r := Top(w), Rd(w);
    assert t in {0x34, 0x35, 0xb4, 0xb5};
    Join19(t, 0, r);
    FlipTop(w - Imm19(w) * 32);
    Join19(Negated(t), 2, r);
    DecodeCompare(Negated(t) * 0x100_0000 + 64 + r);
  }
  lemma SkipTest(w: Word)
    requires IsTest(w)
    ensures Decode(Skip(w)) == TestBranch(Top(w) % 2 == 0, Top(w) / 128 * 32 + Bit40(w), Rd(w), 8)
  {
    hide Top, Imm14, Bit40, Rd, Flip, Decode;
    Fields14(w);
    var t, b, r := Top(w), Bit40(w), Rd(w);
    assert t in {0x36, 0x37, 0xb6, 0xb7};
    Join14(t, b, 0, r);
    FlipTop(w - Imm14(w) * 32);
    Join14(Negated(t), b, 2, r);
    DecodeTest(Negated(t) * 0x100_0000 + b * 0x8_0000 + 64 + r);
  }

  /** Re-aiming a literal load changes only its offset. */
  lemma DecodeReaimed(w: Word, delta: int)
    requires IsLiteral(w) && 0 <= delta < S19
    ensures Decode(w).LoadLiteral?
    ensures var v: Word := w - Imm19(w) * 32 + delta * 32;
            Decode(v) == Decode(w).(offset := 4 * Signed(delta, S19))
  {
    hide Top, Imm19, Rd, Decode;
    Fields19(w);
    Join19(Top(w), delta, Rd(w));
    DecodeLoadLiteral(w);
    DecodeLoadLiteral(w - Imm19(w) * 32 + delta * 32);
  }
}
