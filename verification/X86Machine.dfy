/** The part of x86-64 behaviour that relocation has to understand. An instruction that is
    merely copied is an arbitrary step that sees the instruction pointer only through its
    RIP-relative address (section 2.2.1.6 of the Intel Software Developer's Manual, volume 2A). */
module X86Machine {
  import opened Words
  import opened X86Decode
  import opened X86Relocate

  datatype Effect<S> = Next(st: S) | Jump(pc: Address, st: S) | Halt(st: S)

  /** What the model leaves open. Instructions are identified by their bytes with the
      RIP-relative field blanked; the address that field forms is passed beside them. */
  datatype Machine<!S> = Machine(
    plain: (seq<Byte>, Option<Address>, S) -> Effect<S>,
    holds: (int, S) -> bool,
    operand: (seq<Byte>, Option<Address>, S) -> Address,
    push: (Address, S) -> S)

  /** A direct move, an indirect departure, a trap, or an undecodable instruction. */
  datatype Move<S> = Go(pc: Address, st: S) | Leave(pc: Address, st: S) | Stop(st: S) | Fault

  /** The bytes of an instruction, without the field that depends on its address. */
  function Blank(window: seq<Byte>, x: Instruction): seq<Byte>
    requires Fits(window, 0, x)
  {
    var bytes := window[..x.size];
    if x.relativeMemory.Some? then Patch(bytes, x.relativeMemory.value, [0, 0, 0, 0]) else bytes
  }
  /** The address that the RIP-relative field forms. */
  function Effective(window: seq<Byte>, x: Instruction, pc: Address): Option<Address>
    requires Fits(window, 0, x)
  {
    if x.relativeMemory.Some? then Some(Wrap(pc + x.size + FieldValue(window, x.relativeMemory.value, 4))) else None
  }

  /** The 0xff group: position of ModRM and its register field. */
  function Group(window: seq<Byte>): Option<(nat, int)>
    requires Decode(window).Some?
  {
    var h := ReadHead(window).value;
    if h.opcode == 0xff && h.at < |window| then Some((h.at, window[h.at] / 8 % 8)) else None
  }
  function ClearGroup(b: Byte): Byte {
    b - b / 8 % 8 * 8
  }
  /** Identity of the operand of a 0xff instruction, the same for call, jump and push. */
  function OperandKey(window: seq<Byte>, x: Instruction, modrm: nat): seq<Byte>
    requires Fits(window, 0, x)
  {
    var key := Blank(window, x);
    if modrm < |key| then key[modrm := ClearGroup(key[modrm])] else key
  }

  /** What an instruction without a direct target does. */
  function Execute<S>(m: Machine<S>, window: seq<Byte>, x: Instruction, pc: Address, st: S): Move<S>
    requires Decode(window) == Some(x) && Fits(window, 0, x)
  {
    var next := Wrap(pc + x.size);
    var address := Effective(window, x, pc);
    var group := Group(window);
    if group.Some? && group.value.1 == 2 then
      Leave(m.operand(OperandKey(window, x, group.value.0), address, st), m.push(next, st))
    else if group.Some? && group.value.1 == 4 then
      Leave(m.operand(OperandKey(window, x, group.value.0), address, st), st)
    else if group == Some((1, 6)) then
      Go(next, m.push(m.operand(OperandKey(window, x, 1), address, st), st))
    else
      match m.plain(Blank(window, x), address, st)
      case Next(after) => Go(next, after)
      case Jump(target, after) => Leave(target, after)
      case Halt(after) => Stop(after)
  }

  /** One step with the code bytes from `pc` on in `window`. */
  function Step<S>(m: Machine<S>, window: seq<Byte>, pc: Address, st: S): Move<S> {
    if ENDBR64 <= window then Go(Wrap(pc + 4), st)
    else if Decode(window).None? then Fault
    else
      var x := Decode(window).value;
      assert InstructionAt(window, 0, x) by {
        assert window[0..] == window;
      }
      DecodeFits(window, 0, x);
      var next := pc + x.size;
      if x.branch.Some? then
        var b := x.branch.value;
        var target := Wrap(next + FieldValue(window, b.displacement, b.width));
        Go(if b.condition.Some? && !m.holds(b.condition.value, st) then Wrap(next) else target, st)
      else if x.call.Some? && x.call.value.Direct? then
        Go(Wrap(next + FieldValue(window, x.call.value.displacement, 4)), m.push(Wrap(next), st))
      else Execute(m, window, x, pc, st)
  }

  predicate Inside(base: Address, code: seq<Byte>, pc: int) {
    base <= pc < base + |code|
  }
  function MoveAt<S>(m: Machine<S>, base: Address, code: seq<Byte>, pc: Address, st: S): Move<S>
    requires Inside(base, code, pc)
  {
    Step(m, code[pc - base..], pc, st)
  }

  /** `k` steps inside `code` lead from one address and state to another. */
  ghost predicate Reach<S>(m: Machine<S>, base: Address, code: seq<Byte>, k: nat, pc: Address, st: S, pc': Address,
                           st': S) {
    if k == 0 then pc == pc' && st == st'
    else
      && Inside(base, code, pc)
      && var move := MoveAt(m, base, code, pc, st);
      && (move.Go? || move.Leave?)
      && Reach(m, base, code, k - 1, move.pc, move.st, pc', st')
  }
  lemma {:induction false} ReachJoin<S>(m: Machine<S>, base: Address, code: seq<Byte>, k: nat, l: nat,
                                        pc: Address, st: S, pc1: Address, st1: S, pc2: Address, st2: S)
    requires Reach(m, base, code, k, pc, st, pc1, st1) && Reach(m, base, code, l, pc1, st1, pc2, st2)
    ensures Reach(m, base, code, k + l, pc, st, pc2, st2)
  {
    hide MoveAt;
    if k > 0 {
      var move := MoveAt(m, base, code, pc, st);
      ReachJoin(m, base, code, k - 1, l, move.pc, move.st, pc1, st1, pc2, st2);
    }
  }
  lemma ReachOne<S>(m: Machine<S>, base: Address, code: seq<Byte>, q: nat, st: S, move: Move<S>)
    requires q < |code| && base + q < W64 && (move.Go? || move.Leave?)
    requires Step(m, code[q..], base + q, st) == move
    ensures Reach(m, base, code, 1, base + q, st, move.pc, move.st)
  {
    hide Step;
    assert Reach(m, base, code, 0, move.pc, move.st, move.pc, move.st);
  }
  lemma NoSteps<S>(m: Machine<S>, base: Address, code: seq<Byte>, pc: Address, st: S)
    ensures Reach(m, base, code, 0, pc, st, pc, st)
  {
  }

  // Locality of a step

  /** An accepted instruction never starts with the landing pad. */
  lemma LandingPadRejected(window: seq<Byte>)
    requires ENDBR64 <= window
    ensures Decode(window).None?
  {
    assert window[0] == 0xf3 && window[1] == 0x0f && window[2] == 0x1e;
    var s := Prefixed(START, 0xf3);
    assert Prefixes(window, START) == Prefixes(window, s) == Some(s);
  }
}
