/** Which A64 prefixes the relocator accepts, said without its passes. */
module Arm64Acceptance {
  import opened Words
  import opened Arm64
  import opened Arm64Machine
  import opened Arm64Encoding
  import opened Arm64Simulation

  predicate Inside64(a: int) {
    0 <= a < W64
  }
  /** A branch field of `span` words reaches a target. */
  predicate Reaches(from: int, target: int, span: int) {
    (target - from) % 4 == 0 && -2 * span <= target - from < 2 * span
  }
  predicate HasTarget(x: Instruction) {
    x.Branch? || x.BranchIf? || x.CompareBranch? || x.TestBranch?
  }

  /** An instruction can be moved: `pc` is its address, `here` where it goes, `last` whether it ends the prefix. */
  predicate Moves(w: Word, pc: Address, here: int, last: bool) {
    var x := Decode(w);
    && !Unallocated(w) && (w / 0x100_0000 == 0x54 ==> x.BranchIf?)
    && match x
       case Branch(link, offset) => Inside64(pc + offset) && (link ==> last)
       case BranchIf(_, offset) => Inside64(pc + offset)
       case CompareBranch(_, _, _, offset) => Inside64(pc + offset)
       case TestBranch(_, _, _, offset) => Inside64(pc + offset)
       case FormAddress(page, _, imm) => Inside64(if page then pc / 4096 * 4096 + 4096 * imm else pc + imm)
       case LoadLiteral(_, simd, register, offset) =>
         && Inside64(pc + offset) && Inside64(here)
         && (Reaches(here, pc + offset, S19) || (!simd && register != 31))
       case CallRegister(register) => last && register != 30
       case Undefined => false
       case _ => true
  }
  /** How many words it becomes. */
  function Length(w: Word, pc: Address, here: int): nat {
    match Decode(w)
    case Branch(link, _) => if link then 5 else 1
    case BranchIf(condition, _) => if condition >= 14 then 1 else 2
    case CompareBranch(_, _, _, _) => 2
    case TestBranch(_, _, _, _) => 2
    case FormAddress(_, _, _) => 4
    case LoadLiteral(op, _, _, offset) => if Reaches(here, pc + offset, S19) || op == 3 then 1 else 5
    case CallRegister(_) => 5
    case _ => 1
  }
  /** The output words before instruction `i`: a landing pad and the earlier instructions. */
  function Before(source: Address, destination: Address, ws: seq<Word>, i: nat): nat
    requires i <= |ws| && source + 4 * |ws| < W64
  {
    if i == 0 then 1
    else
      var at := Before(source, destination, ws, i - 1);
      at + Length(ws[i - 1], source + 4 * (i - 1), destination + 4 * at)
  }
  predicate MovesAt(source: Address, destination: Address, ws: seq<Word>, i: nat)
    requires i < |ws| && source + 4 * |ws| < W64
  {
    Moves(ws[i], source + 4 * i, destination + 4 * Before(source, destination, ws, i), i + 1 == |ws|)
  }
  /** The branch that instruction `i` ends in reaches its target, or the place of that target in the output. */
  predicate Lands(source: Address, destination: Address, ws: seq<Word>, i: nat)
    requires i < |ws| && source + 4 * |ws| < W64
  {
    HasTarget(Decode(ws[i])) ==>
      var target := source + 4 * i + Decode(ws[i]).offset;
      var goal := if source <= target < source + 4 * |ws|
                  then destination + 4 * Before(source, destination, ws, (target - source) / 4)
                  else target;
      var from := destination + 4 * (Before(source, destination, ws, i + 1) - 1);
      Inside64(goal) && Inside64(from) && Reaches(from, goal, S26)
  }
  ghost predicate Acceptable(source: Address, destination: Address, ws: seq<Word>) {
    && source > 0 && source % 4 == 0 && destination > 0 && destination % 4 == 0
    && 0 < |ws| && source + 4 * |ws| < W64
    && (forall i | 0 <= i < |ws| :: MovesAt(source, destination, ws, i))
    && (forall i | 0 <= i < |ws| :: Lands(source, destination, ws, i))
    && destination + 4 * Before(source, destination, ws, |ws|) < W64
  }

  // One instruction

  ghost predicate DraftMatches(w: Word, pc: Address, here: int, last: bool, r: Result<Draft>) {
    && (r.Ok? <==> Moves(w, pc, here, last))
    && (r.Ok? ==> |r.value.words| == Length(w, pc, here))
    && (r.Ok? && HasTarget(Decode(w)) ==>
          r.value.slot == Some((Length(w, pc, here) - 1, pc + Decode(w).offset)))
    && (r.Ok? && !HasTarget(Decode(w)) ==> r.value.slot.None?)
  }
  lemma Allocated(w: Word)
    requires IsBranch(w) || IsConditional(w) || IsCompare(w) || IsTest(w) || IsAddress(w) || IsLiteral(w)
    ensures Valid(w)
  {
    var t := Top(w);
    assert Top(0xffff_ffff) == 255 && 0 <= t < 256;
    LowTop(t);
    hide Top;
  }
  lemma LowTop(t: int)
    ensures t / 2 % 16 == t % 32 / 2
    ensures t % 32 == t % 64 % 32 == t % 128 % 32 && t / 4 % 32 % 8 == t % 32 / 4
  {
    var q, r := t / 32, t % 32;
    Divides(t, 2, 16 * q + r / 2, r % 2);
    Divides(16 * q + r / 2, 16, q, r / 2);
    Divides(t, 32, 2 * (t / 64) + t % 64 / 32, t % 64 % 32);
    Divides(t, 32, 4 * (t / 128) + t % 128 / 32, t % 128 % 32);
    Divides(t, 4, 8 * q + r / 4, r % 4);
    var v := 8 * q + r / 4;
    Divides(v, 8, q, r / 4);
    Divides(v, 8, 4 * (v / 32) + v % 32 / 8, v % 32 % 8);
  }
  lemma BranchMatches(source: Address, n: nat, i: nat, w: Word, here: int)
    requires i < n && source + 4 * n < W64 && IsBranch(w)
    ensures DraftMatches(w, source + 4 * i, here, i + 1 == n, ExpandBranch(source, n, i, w))
  {
    Allocated(w);
    ValidIs(w);
    assert Top(w) != 0x54;
    hide Imm26, Signed, Unallocated, Valid, Constant;
  }
  lemma ConditionalMatches(pc: Address, w: Word, here: int, last: bool)
    requires IsConditional(w) || IsCompare(w) || IsTest(w)
    ensures DraftMatches(w, pc, here, last, ExpandConditional(pc, w))
  {
    Allocated(w);
    ValidIs(w);
    hide Signed, Unallocated, Valid, Flip, Decode;
    if IsConditional(w) {
      DecodeIf(w);
    } else if IsCompare(w) {
      DecodeCompare(w);
    } else {
      DecodeTest(w);
    }
  }
  lemma AddressMatches(pc: Address, w: Word, here: int, last: bool)
    requires IsAddress(w)
    ensures var target := AddressTarget(pc, w);
            DraftMatches(w, pc, here, last,
                         if target.Ok? then Ok(Draft(Constant(Rd(w), target.value), None)) else Err(InvalidRange))
  {
    Allocated(w);
    ValidIs(w);
    DecodeAddress(w);
    hide Imm21, Signed, Unallocated, Valid, Constant, Decode;
  }
  lemma LiteralMatches(pc: Address, w: Word, here: int, last: bool)
    requires IsLiteral(w)
    ensures DraftMatches(w, pc, here, last, ExpandLiteral(pc, here, w))
  {
    Allocated(w);
    ValidIs(w);
    DecodeLoadLiteral(w);
    RelativeRoundTrip(here, pc + 4 * Signed(Imm19(w), S19), S19);
    hide Imm19, Signed, Unallocated, Valid, Constant, Decode, Relative, Rd, LoadOpcode;
  }
  lemma OtherMatches(source: Address, destination: Address, n: nat, i: nat, w: Word, at: nat)
    requires i < n && source + 4 * n < W64
    requires !IsBranch(w) && !IsConditional(w) && !IsCompare(w) && !IsTest(w) && !IsAddress(w) && !IsLiteral(w)
    ensures DraftMatches(w, source + 4 * i, destination + 4 * at, i + 1 == n, Expand(source, destination, n, i, w, at))
  {
    ValidIs(w);
    if IsCallRegister(w) || IsJumpRegister(w) || IsAuthenticatedReturn(w) {
      assert Top(w) == 0xd6 && Valid(w);
    }
    hide IsBranch, IsConditional, IsCompare, IsTest, IsAddress, IsLiteral, IsCallRegister, IsJumpRegister, IsMoveHalf,
         IsLoadBase, IsAuthenticatedReturn, Unallocated, Valid, Constant, ExpandBranch, ExpandConditional,
         ExpandLiteral, AddressTarget, Imm19, Imm14, Imm21, Imm26, Bit40, Cond, Signed;
  }
  /** The relocator's draft of an instruction exists exactly when the instruction moves. */
  lemma ExpandMatches(source: Address, destination: Address, n: nat, i: nat, w: Word, at: nat)
    requires i < n && source + 4 * n < W64
    ensures DraftMatches(w, source + 4 * i, destination + 4 * at, i + 1 == n, Expand(source, destination, n, i, w, at))
  {
    hide Moves, Length, HasTarget, Decode, IsBranch, IsConditional, IsCompare, IsTest, IsAddress, IsLiteral,
         IsCallRegister, IsJumpRegister, IsAuthenticatedReturn, IsRegisterFamily, ExpandBranch, ExpandConditional,
         ExpandLiteral, AddressTarget, Valid, Constant, Top;
    var pc, here := source + 4 * i, destination + 4 * at;
    if IsBranch(w) {
      Allocated(w);
      BranchMatches(source, n, i, w, here);
    } else if IsConditional(w) || IsCompare(w) || IsTest(w) {
      Allocated(w);
      ConditionalMatches(pc, w, here, i + 1 == n);
    } else if IsAddress(w) {
      Allocated(w);
      AddressMatches(pc, w, here, i + 1 == n);
    } else if IsLiteral(w) {
      Allocated(w);
      LiteralMatches(pc, w, here, i + 1 == n);
    } else {
      OtherMatches(source, destination, n, i, w, at);
    }
  }

  // Both passes

  /** The branches to resolve, as slots with their original targets. */
  function Slots(source: Address, destination: Address, ws: seq<Word>, i: nat): seq<(int, int)>
    requires i <= |ws| && source + 4 * |ws| < W64
  {
    if i == 0 then []
    else
      Slots(source, destination, ws, i - 1)
      + if HasTarget(Decode(ws[i - 1]))
        then [(Before(source, destination, ws, i) - 1, source + 4 * (i - 1) + Decode(ws[i - 1]).offset)] else []
  }
  ghost predicate AllMove(source: Address, destination: Address, ws: seq<Word>, i: nat)
    requires i <= |ws| && source + 4 * |ws| < W64
  {
    forall k | 0 <= k < i :: MovesAt(source, destination, ws, k)
  }
  /** What the first pass has made of the first `i` instructions. */
  ghost predicate Emitted(source: Address, destination: Address, ws: seq<Word>, i: nat, p: Pass)
    requires i <= |ws| && source + 4 * |ws| < W64
  {
    && |p.output| == Before(source, destination, ws, i)
    && |p.positions| == i && (forall k | 0 <= k < i :: p.positions[k] == Before(source, destination, ws, k))
    && p.branches == Slots(source, destination, ws, i)
  }
  lemma EmittedNone(source: Address, destination: Address, ws: seq<Word>)
    requires source + 4 * |ws| < W64
    ensures Emitted(source, destination, ws, 0, Pass([BTI], [], []))
  {
  }
  lemma EmittedMore(source: Address, destination: Address, ws: seq<Word>, i: nat, p: Pass, d: Draft)
    requires i < |ws| && source + 4 * |ws| < W64 && Emitted(source, destination, ws, i, p)
    requires DraftMatches(ws[i], source + 4 * i, destination + 4 * |p.output|, i + 1 == |ws|, Ok(d))
    ensures Emitted(source, destination, ws, i + 1, Append(p, d))
  {
    hide Moves, Length, HasTarget, Decode;
  }
  lemma {:induction false} PassMatches(source: Address, destination: Address, ws: seq<Word>, i: nat)
    requires i <= |ws| && source + 4 * |ws| < W64
    ensures FirstPass(source, destination, ws, i).Ok? <==> AllMove(source, destination, ws, i)
    ensures FirstPass(source, destination, ws, i).Ok? ==>
              Emitted(source, destination, ws, i, FirstPass(source, destination, ws, i).value)
  {
    hide Expand, Moves, Length, HasTarget, Decode, Slots, Append;
    if i == 0 {
      EmittedNone(source, destination, ws);
    } else {
      PassMatches(source, destination, ws, i - 1);
      var p := FirstPass(source, destination, ws, i - 1);
      if p.Ok? {
        var at := |p.value.output|;
        ExpandMatches(source, destination, |ws|, i - 1, ws[i - 1], at);
        var d := Expand(source, destination, |ws|, i - 1, ws[i - 1], at);
        assert MovesAt(source, destination, ws, i - 1) == d.Ok?;
        if d.Ok? {
          EmittedMore(source, destination, ws, i - 1, p.value, d.value);
        }
      }
    }
  }

  lemma {:induction false} ResolvesAll(source: Address, destination: Address, p: Pass, k: nat)
    requires k <= |p.branches| && forall j | 0 <= j < |p.branches| :: p.branches[j].0 < |p.output|
    ensures SecondPass(source, destination, p, k).Ok? <==>
            forall j | 0 <= j < k :: Resolve(source, destination, |p.positions|, p.positions, p.branches[j]).Ok?
  {
    hide Resolve;
    if k > 0 {
      ResolvesAll(source, destination, p, k - 1);
    }
  }
  lemma OffsetAligned(w: Word) returns (q: int)
    requires HasTarget(Decode(w))
    ensures Decode(w).offset == 4 * q
  {
    hide Signed, Imm19, Imm14, Imm26, Top, Bit40, IsBranch, IsConditional, IsCompare, IsTest, IsAddress, IsLiteral;
    q := if IsBranch(w) then Signed(Imm26(w), S26) else if IsConditional(w) || IsCompare(w) then Signed(Imm19(w), S19)
         else Signed(Imm14(w), S14);
  }
  lemma MappedIs(source: Address, destination: Address, n: nat, positions: seq<nat>, j: int)
    requires |positions| == n && 0 <= source + 4 * j < W64
    ensures Mapped(source, destination, n, positions, source + 4 * j)
            == if 0 <= j < n then Sum(destination, 4 * positions[j]) else Ok(source + 4 * j)
  {
    Divides(4 * j, 4, j, 0);
  }
  lemma ResolveIs(source: Address, destination: Address, n: nat, positions: seq<nat>, at: nat, j: int)
    requires |positions| == n && 0 <= source + 4 * j < W64
    ensures var goal := if 0 <= j < n then destination + 4 * positions[j] else source + 4 * j;
            Resolve(source, destination, n, positions, (at, source + 4 * j)).Ok? <==>
            Inside64(goal) && Inside64(destination + 4 * at) && Reaches(destination + 4 * at, goal, S26)
  {
    hide Relative, Mapped;
    MappedIs(source, destination, n, positions, j);
    var goal := Mapped(source, destination, n, positions, source + 4 * j);
    if goal.Ok? && Inside64(destination + 4 * at) {
      RelativeRoundTrip(destination + 4 * at, goal.value, S26);
    }
  }
  lemma ResolvesOne(source: Address, destination: Address, ws: seq<Word>, p: Pass, i: nat, target: Address)
    requires i < |ws| && source + 4 * |ws| < W64 && Emitted(source, destination, ws, |ws|, p)
    requires HasTarget(Decode(ws[i])) && target == source + 4 * i + Decode(ws[i]).offset
    requires Before(source, destination, ws, i + 1) >= 1
    ensures Resolve(source, destination, |ws|, p.positions, (Before(source, destination, ws, i + 1) - 1, target)).Ok?
            <==> Lands(source, destination, ws, i)
  {
    hide Decode, HasTarget, Before, Slots, Resolve, Reaches;
    var q := OffsetAligned(ws[i]);
    var j := i + q;
    Divides(target - source, 4, j, 0);
    ResolveIs(source, destination, |ws|, p.positions, Before(source, destination, ws, i + 1) - 1, j);
  }
  ghost predicate SlotResolves(source: Address, destination: Address, p: Pass, slot: (int, int)) {
    slot.0 >= 0 && Inside64(slot.1) && Resolve(source, destination, |p.positions|, p.positions, slot).Ok?
  }
  ghost predicate AllResolve(source: Address, destination: Address, p: Pass, slots: seq<(int, int)>) {
    forall j | 0 <= j < |slots| :: SlotResolves(source, destination, p, slots[j])
  }
  ghost predicate AllLand(source: Address, destination: Address, ws: seq<Word>, i: nat)
    requires i <= |ws| && source + 4 * |ws| < W64
  {
    forall k | 0 <= k < i :: Lands(source, destination, ws, k)
  }
  lemma ResolveLast(source: Address, destination: Address, p: Pass, slots: seq<(int, int)>, last: (int, int))
    ensures AllResolve(source, destination, p, slots + [last])
            <==> AllResolve(source, destination, p, slots) && SlotResolves(source, destination, p, last)
  {
    hide SlotResolves;
    var more := slots + [last];
    assert more[|slots|] == last && forall j | 0 <= j < |slots| :: more[j] == slots[j];
  }
  lemma LandLast(source: Address, destination: Address, ws: seq<Word>, i: nat)
    requires i < |ws| && source + 4 * |ws| < W64
    ensures AllLand(source, destination, ws, i + 1)
            <==> AllLand(source, destination, ws, i) && Lands(source, destination, ws, i)
  {
    hide Lands;
  }
  lemma {:induction false} SlotsLand(source: Address, destination: Address, ws: seq<Word>, p: Pass, i: nat)
    requires i <= |ws| && source + 4 * |ws| < W64 && Emitted(source, destination, ws, |ws|, p)
    requires AllMove(source, destination, ws, |ws|)
    ensures AllResolve(source, destination, p, Slots(source, destination, ws, i))
            <==> AllLand(source, destination, ws, i)
  {
    hide Lands, SlotResolves, Moves, Decode, Emitted, Length, AllMove, Before, AllResolve, AllLand;
    if i == 0 {
      NoneLand(source, destination, ws, p);
    } else {
      SlotsLand(source, destination, ws, p, i - 1);
      LastLands(source, destination, ws, p, i - 1);
      LandLast(source, destination, ws, i - 1);
      var before, slots := Slots(source, destination, ws, i - 1), Slots(source, destination, ws, i);
      if HasTarget(Decode(ws[i - 1])) {
        var last := (Before(source, destination, ws, i) - 1, source + 4 * (i - 1) + Decode(ws[i - 1]).offset);
        assert slots == before + [last];
        ResolveLast(source, destination, p, before, last);
      } else {
        assert slots == before;
      }
    }
  }
  lemma NoneLand(source: Address, destination: Address, ws: seq<Word>, p: Pass)
    requires source + 4 * |ws| < W64
    ensures AllResolve(source, destination, p, []) && AllLand(source, destination, ws, 0)
  {
  }
  lemma LastLands(source: Address, destination: Address, ws: seq<Word>, p: Pass, i: nat)
    requires i < |ws| && source + 4 * |ws| < W64 && Emitted(source, destination, ws, |ws|, p)
    requires AllMove(source, destination, ws, |ws|)
    ensures !HasTarget(Decode(ws[i])) ==> Lands(source, destination, ws, i)
    ensures HasTarget(Decode(ws[i])) ==>
              (SlotResolves(source, destination, p,
                            (Before(source, destination, ws, i + 1) - 1, source + 4 * i + Decode(ws[i]).offset))
               <==> Lands(source, destination, ws, i))
  {
    hide Resolve, Decode, Slots, Length;
    if HasTarget(Decode(ws[i])) {
      assert MovesAt(source, destination, ws, i);
      SomeWords(source, destination, ws, i);
      ResolvesOne(source, destination, ws, p, i, source + 4 * i + Decode(ws[i]).offset);
    }
  }
  lemma {:induction false} SomeWords(source: Address, destination: Address, ws: seq<Word>, i: nat)
    requires i < |ws| && source + 4 * |ws| < W64
    ensures Before(source, destination, ws, i + 1) >= 1
  {
  }

  lemma AcceptedPass(source: Address, destination: Address, ws: seq<Word>, p: Pass)
    requires source + 4 * |ws| < W64 && FirstPass(source, destination, ws, |ws|) == Ok(p)
    ensures SecondPass(source, destination, p, |p.branches|).Ok? <==>
            forall i | 0 <= i < |ws| :: Lands(source, destination, ws, i)
    ensures |p.output| == Before(source, destination, ws, |ws|)
  {
    hide FirstPass, SecondPass, Lands, MovesAt, Before;
    PassMatches(source, destination, ws, |ws|);
    SlotsLand(source, destination, ws, p, |ws|);
    ResolvesAll(source, destination, p, |p.branches|);
    var slots := Slots(source, destination, ws, |ws|);
    forall j | 0 <= j < |slots|
      ensures SlotResolves(source, destination, p, slots[j])
              <==> Resolve(source, destination, |p.positions|, p.positions, p.branches[j]).Ok?
    {
      assert slots[j] == p.branches[j];
    }
  }

  lemma JumpsBack(from: Address, n: nat, at: Address, m: nat)
    requires from % 4 == at % 4 == 0 && from > 0 && at > 0 && from + 4 * n < W64 && at + 4 * m < W64
    ensures Jump(from + 4 * n, at + 4 * m).Ok?
  {
  }

  /** A prefix is accepted exactly when each of its instructions can be moved and every branch reaches. */
  lemma AcceptedExactly(source: Address, destination: Address, ws: seq<Word>)
    ensures Relocated(source, destination, ws).Ok? <==> Acceptable(source, destination, ws)
  {
    hide FirstPass, SecondPass, MovesAt, Lands, Before, Jump, Emitted;
    if 0 < |ws| && source + 4 * |ws| < W64 {
      PassMatches(source, destination, ws, |ws|);
      var p := FirstPass(source, destination, ws, |ws|);
      if p.Ok? {
        AcceptedPass(source, destination, ws, p.value);
        var n := |p.value.output|;
        if source > 0 && source % 4 == 0 && destination > 0 && destination % 4 == 0 && destination + 4 * n < W64 {
          JumpsBack(destination, n, source, |ws|);
        }
      }
    }
  }
}
