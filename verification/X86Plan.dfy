/** Choice of the x86-64 prefix to displace, the jump that replaces it, and their sizes. */
module X86Plan {
  import opened Words
  import opened Bytes
  import opened X86Decode
  import opened X86Reader
  import opened X86Relocate
  import opened X86Layout
  import opened X86Machine
  import opened X86Simulation
  import opened X86Meaning
  import E = X86Encoding
  import Executable

  // Tiling: the same instructions, however the bytes are sliced

  /** `bytes[from..to]` is a row of whole instructions. */
  ghost predicate Tiled(bytes: seq<Byte>, from: nat, to: nat)
    decreases if from <= to then to - from else 0
  {
    && from <= to <= |bytes|
    && (from == to ||
        (var x := Decode(bytes[from..]);
         && x.Some? && 1 <= x.value.size && from + x.value.size <= to
         && Tiled(bytes, from + x.value.size, to)))
  }

  /** Cutting the bytes behind the last whole instruction changes no instruction. */
  lemma {:induction false} TilesCut(bytes: seq<Byte>, from: nat, to: nat)
    requires Tiled(bytes, from, to)
    ensures Tiled(bytes[..to], from, to)
    ensures from < to ==> Decode(bytes[..to][from..]) == Decode(bytes[from..])
    decreases if from <= to then to - from else 0
  {
    hide Decode, Inspected;
    if from < to {
      var a, b := bytes[from..], bytes[..to][from..];
      var x := Decode(a).value;
      DecodeBounds(a);
      DecodeLocal(a, b);
      TilesCut(bytes, from + x.size, to);
    }
  }

  /** Whether a row of instructions holds a call. */
  ghost predicate HasCall(bytes: seq<Byte>, from: nat)
    decreases |bytes| - from
  {
    from < |bytes| &&
    var x := Decode(bytes[from..]);
    x.Some? && (x.value.call.Some? || (x.value.size >= 1 && HasCall(bytes, from + x.value.size)))
  }

  /** On a displaced prefix this never fails, and reports calls exactly. */
  method NeedsCallBridge(original: seq<Byte>) returns (r: Result<bool>)
    ensures Tiled(original, 0, |original|) ==> r == Ok(HasCall(original, 0))
    ensures r == Ok(true) ==> HasCall(original, 0)
  {
    hide Decode, Inspected;
    var offset := 0;
    while offset < |original|
      invariant offset <= |original|
      invariant Tiled(original, 0, |original|) ==> Tiled(original, offset, |original|)
      invariant HasCall(original, 0) == HasCall(original, offset)
      decreases |original| - offset
    {
      var x :- DecodeInstruction(original[offset..]);
      DecodeBounds(original[offset..]);
      if x.call.Some? {
        return Ok(true);
      }
      offset := offset + x.size;
    }
    r := Ok(false);
  }

  // The jump

  function JumpBytes(source: Address, target: Address): (r: Result<seq<Byte>>)
    ensures r.Ok? ==> |r.value| in {5, 14}
  {
    var next :- Sum(source, 5);
    var near := Displacement(next, target);
    if near.Ok? then Ok([0xe9] + near.value)
    else Ok([0xff, 0x25, 0, 0, 0, 0] + Le64(target))
  }

  const FAR := Instruction(6, true, Some(2), false, None, None)

  lemma DecodeFar(w: seq<Byte>)
    requires |w| >= 6 && w[0] == 0xff && w[1] == 0x25
    ensures Decode(w) == Some(FAR) && Group(w) == Some((1, 4)) && !(ENDBR64 <= w)
  {
    assert Prefixes(w, START) == Some(START);
    assert ReadHead(w) == Some(Head(START, 0xff, -1, 1));
    assert ReadOperand(w, 1) == Some(Operand(6, 4, Some(2), true));
  }
  lemma FarKey(w: seq<Byte>)
    requires |w| >= 6 && w[..6] == [0xff, 0x25, 0, 0, 0, 0] && Fits(w, 0, FAR)
    ensures OperandKey(w, FAR, 1) == LITERAL && FieldValue(w, 2, 4) == 0
  {
    hide Fits;
    assert w[0] == w[..6][0] && w[1] == w[..6][1] && w[2] == w[..6][2] && w[3] == w[..6][3]
           && w[4] == w[..6][4] && w[5] == w[..6][5];
    assert Blank(w, FAR) == [0xff, 0x25, 0, 0, 0, 0];
  }
  lemma ExecuteFar<S>(m: Machine<S>, w: seq<Byte>, here: Address, st: S)
    requires Decode(w) == Some(FAR) && Fits(w, 0, FAR) && Group(w) == Some((1, 4)) && OperandKey(w, FAR, 1) == LITERAL
    requires FieldValue(w, 2, 4) == 0 && here + 6 < W64
    ensures Execute(m, w, FAR, here, st) == Leave(m.operand(LITERAL, Some(here + 6), st), st)
  {
    hide Decode, Fits, Group, OperandKey, FieldValue, Blank;
  }

  /** Either form reaches its target in one step and keeps the whole state, whatever follows it. */
  lemma JumpReaches<S>(m: Machine<S>, source: Address, target: Address, padding: seq<Byte>, st: S)
    requires JumpBytes(source, target).Ok?
    requires var code := JumpBytes(source, target).value + padding;
             source + |code| <= W64 && (|JumpBytes(source, target).value| == 14 ==> Sealed(m, source, code, st))
    ensures Reach(m, source, JumpBytes(source, target).value + padding, 1, source, st, target, st)
  {
    hide Step, Reach, Decode, Displacement, Le64, Word64, Group, OperandKey, Execute, FieldValue;
    var code := JumpBytes(source, target).value + padding;
    var near := Displacement(source + 5, target);
    assert code[0..] == code;
    if near.Ok? {
      assert code[1..5] == near.value;
      StepJump(m, code, source, target, st);
      ReachOne(m, source, code, 0, st, Go(target, st));
    } else {
      assert code[..6] == [0xff, 0x25, 0, 0, 0, 0] && code[6..14] == Le64(target);
      assert code[0] == code[..6][0] && code[1] == code[..6][1];
      DecodeFar(code);
      DecodeFits(code, 0, FAR);
      FarKey(code);
      StepExecutes(m, code, FAR, source, st);
      ExecuteFar(m, code, source, st);
      Word64Slice(code, 6, target);
      assert m.operand(LITERAL, Some(ByteAddress(source, 6)), st) == Word64(code, 6);
      ReachOne(m, source, code, 0, st, Leave(target, st));
    }
  }

  // The plan

  /** Length of the shortest row of instructions from `from` on that makes room for `need` bytes. */
  function Cut(prefix: seq<Byte>, need: nat, from: nat): (r: Result<nat>)
    requires from <= |prefix|
    decreases |prefix| - from
  {
    if need <= from then Ok(from)
    else if from == |prefix| then Err(InsufficientSpace)
    else
      var x := Decode(prefix[from..]);
      if x.None? then Err(InvalidInstruction)
      else
        DecodeBounds(prefix[from..]);
        // Stop at a return, tail jump, or trap to avoid the next function.
        if x.value.terminal && from + x.value.size < need then Err(InsufficientSpace)
        else Cut(prefix, need, from + x.value.size)
  }

  /** The jump, filled up with NOPs. */
  function Fill(jump: seq<Byte>, length: nat): (r: seq<Byte>)
    requires |jump| <= length
    ensures |r| == length && jump <= r
  {
    jump + seq(length - |jump|, i => 0x90)
  }
  /** The plan for a function with `prefix` behind its landing pad of `offset` bytes. */
  function PlanBehind(source: Address, target: Address, offset: nat, prefix: seq<Byte>): Result<Plan> {
    if source == 0 || target == 0 then Err(InvalidAddress)
    else if source == target then Err(SameAddress)
    else
      var address :- Sum(source, offset);
      var jump :- JumpBytes(address, target);
      var length :- Cut(prefix, |jump|, 0);
      CutBounds(prefix, |jump|, 0);
      Ok(Plan(offset, prefix[..length], Fill(jump, length)))
  }
  function PlanFor(source: Address, target: Address, bytes: seq<Byte>): Result<Plan> {
    var offset := if ENDBR64 <= bytes then 4 else 0;
    PlanBehind(source, target, offset, bytes[offset..])
  }

  lemma {:induction false} CutBounds(prefix: seq<Byte>, need: nat, from: nat)
    requires from <= |prefix| && Cut(prefix, need, from).Ok?
    ensures need <= Cut(prefix, need, from).value <= |prefix| && from <= Cut(prefix, need, from).value
    ensures Tiled(prefix, from, Cut(prefix, need, from).value)
    ensures from < need + LIMIT ==> Cut(prefix, need, from).value < need + LIMIT
    decreases |prefix| - from
  {
    hide Decode, Inspected;
    if from < need {
      DecodeBounds(prefix[from..]);
      CutBounds(prefix, need, from + Decode(prefix[from..]).value.size);
    }
  }

  // The same plan, by instruction layouts

  ghost predicate AllLegal(rows: seq<E.Layout>) {
    forall i | 0 <= i < |rows| :: E.Legal(rows[i])
  }
  ghost function Packed(rows: seq<E.Layout>): seq<Byte>
    requires AllLegal(rows)
  {
    if rows == [] then [] else E.Bytes(rows[0]) + Packed(rows[1..])
  }
  /** Whole instructions that make room for `need` bytes, none of them to spare. Nothing but the last of them may be a
      return, a tail jump or a trap, because what follows those belongs to another function. */
  ghost predicate Displaces(rows: seq<E.Layout>, need: int) {
    && AllLegal(rows) && |rows| > 0
    && |Packed(rows)| - |E.Bytes(rows[|rows| - 1])| < need <= |Packed(rows)|
    && forall i | 0 <= i < |rows| - 1 :: !E.EndsFunction(rows[i])
  }
  ghost predicate Displaceable(original: seq<Byte>, need: int) {
    exists rows :: Displaces(rows, need) && Packed(rows) == original
  }
  ghost predicate Room(prefix: seq<Byte>, need: int) {
    exists rows :: Displaces(rows, need) && Packed(rows) <= prefix
  }

  lemma {:induction false} PackedEnd(rows: seq<E.Layout>)
    requires AllLegal(rows) && |rows| > 0
    ensures |E.Bytes(rows[|rows| - 1])| <= |Packed(rows)|
    decreases |rows|
  {
    hide E.Legal, E.Bytes;
    if |rows| > 1 {
      PackedEnd(rows[1..]);
    }
  }
  /** The first instruction of a row decodes, and the others follow it. */
  lemma RowStarts(window: seq<Byte>, rows: seq<E.Layout>)
    requires AllLegal(rows) && |rows| > 0 && Packed(rows) <= window
    ensures var size := |E.Bytes(rows[0])|;
            && 1 <= size <= |window| && Packed(rows[1..]) <= window[size..]
            && Decode(window).Some? && Decode(window).value.size == size
            && Decode(window).value.terminal == E.EndsFunction(rows[0])
            && |Packed(rows)| == size + |Packed(rows[1..])|
  {
    hide E.Bytes, E.TailOf, E.LockLegal, E.ImmediateLength, E.AddressingLegal, E.Extension, E.EndsFunction, Decode,
         Inspected;
    var l := rows[0];
    var size := |E.Bytes(l)|;
    assert window == E.Bytes(l) + window[size..];
    E.DecodesLayout(l, window[size..]);
    DecodeBounds(window);
    assert Packed(rows)[size..] == Packed(rows[1..]);
  }
  lemma {:induction false} CutFinds(prefix: seq<Byte>, need: nat, from: nat, rows: seq<E.Layout>)
    requires from < need && from <= |prefix| && Displaces(rows, need - from) && Packed(rows) <= prefix[from..]
    ensures Cut(prefix, need, from) == Ok(from + |Packed(rows)|)
    decreases |rows|
  {
    hide E.Bytes, E.TailOf, E.LockLegal, E.ImmediateLength, E.AddressingLegal, E.Extension, E.EndsFunction, Decode;
    var size, rest := |E.Bytes(rows[0])|, rows[1..];
    RowStarts(prefix[from..], rows);
    if |rows| == 1 {
      assert Packed(rest) == [];
    } else {
      PackedEnd(rest);
      assert prefix[from..][size..] == prefix[from + size..];
      CutFinds(prefix, need, from + size, rest);
    }
  }
  lemma {:induction false} CutRows(prefix: seq<Byte>, need: nat, from: nat) returns (rows: seq<E.Layout>)
    requires from < need && from <= |prefix| && Cut(prefix, need, from).Ok?
    ensures Displaces(rows, need - from) && from + |Packed(rows)| == Cut(prefix, need, from).value
    ensures Packed(rows) <= prefix[from..]
    decreases |prefix| - from
  {
    hide E.Bytes, E.TailOf, E.LockLegal, E.ImmediateLength, E.AddressingLegal, E.Extension, E.EndsFunction, Decode;
    var window := prefix[from..];
    var l := E.LayoutOf(window);
    DecodeBounds(window);
    var size := |E.Bytes(l)|;
    if from + size < need {
      var rest := CutRows(prefix, need, from + size);
      rows := [l] + rest;
      assert rows[1..] == rest;
      assert window == E.Bytes(l) + window[size..] && prefix[from + size..] == window[size..];
    } else {
      rows := [l];
      assert Packed(rows[1..]) == [];
    }
  }

  /** The jump to a target takes five bytes within the reach of a signed 32-bit displacement, else fourteen. */
  function JumpLength(address: int, target: int): nat {
    if -0x8000_0000 <= target - (address + 5) < 0x8000_0000 then 5 else 14
  }
  /** What the bytes at `source` must hold: behind a landing pad that stays, instructions to displace. */
  ghost predicate Plannable(source: Address, target: Address, bytes: seq<Byte>) {
    && source != 0 && target != 0 && source != target
    && var offset := if ENDBR64 <= bytes then 4 else 0;
    && source + offset + 5 < W64
    && Room(bytes[offset..], JumpLength(source + offset, target))
  }
  lemma JumpSize(address: Address, target: Address)
    ensures JumpBytes(address, target).Ok? <==> address + 5 < W64
    ensures JumpBytes(address, target).Ok? ==> |JumpBytes(address, target).value| == JumpLength(address, target)
  {
  }
  lemma CutExactly(prefix: seq<Byte>, need: nat)
    requires need > 0
    ensures Cut(prefix, need, 0).Ok? <==> Room(prefix, need)
    ensures Cut(prefix, need, 0).Ok? ==> Cut(prefix, need, 0).value <= |prefix|
    ensures Cut(prefix, need, 0).Ok? ==> Displaceable(prefix[..Cut(prefix, need, 0).value], need)
  {
    hide Decode, Cut, AllLegal, Packed;
    assert prefix[0..] == prefix;
    if Room(prefix, need) {
      var rows :| Displaces(rows, need) && Packed(rows) <= prefix;
      CutFinds(prefix, need, 0, rows);
    }
    if Cut(prefix, need, 0).Ok? {
      var rows := CutRows(prefix, need, 0);
      assert Packed(rows) == prefix[..|Packed(rows)|];
    }
  }
  /** A plan exists exactly for such bytes, and displaces exactly such a row. */
  lemma PlanExactly(source: Address, target: Address, bytes: seq<Byte>)
    ensures PlanFor(source, target, bytes).Ok? <==> Plannable(source, target, bytes)
    ensures PlanFor(source, target, bytes).Ok? ==>
              var p := PlanFor(source, target, bytes).value;
              p.offset == (if ENDBR64 <= bytes then 4 else 0) &&
              Displaceable(p.original, JumpLength(source + p.offset, target))
    ensures source == 0 || target == 0 ==> PlanFor(source, target, bytes) == Err(InvalidAddress)
    ensures source == target != 0 ==> PlanFor(source, target, bytes) == Err(SameAddress)
  {
    hide JumpBytes, Cut, Displaceable, Room;
    var offset := if ENDBR64 <= bytes then 4 else 0;
    if source + offset < W64 {
      JumpSize(source + offset, target);
    }
    CutExactly(bytes[offset..], JumpLength(source + offset, target));
  }

  /** The loop over the instructions to displace. */
  method Measure(prefix: seq<Byte>, need: nat) returns (r: Result<nat>)
    ensures r == Cut(prefix, need, 0)
  {
    hide Decode;
    var length := 0;
    while length < need
      invariant length <= |prefix| && Cut(prefix, need, 0) == Cut(prefix, need, length)
      decreases |prefix| - length
    {
      if length == |prefix| {
        return Err(InsufficientSpace);
      }
      var x :- DecodeInstruction(prefix[length..]);
      DecodeBounds(prefix[length..]);
      length := length + x.size;
      if x.terminal && length < need {
        return Err(InsufficientSpace);
      }
    }
    r := Ok(length);
  }
  method MakePlan(source: Address, target: Address, bytes: seq<Byte>) returns (r: Result<Plan>)
    ensures r == PlanFor(source, target, bytes)
    ensures r.Ok? <==> Plannable(source, target, bytes)
    ensures r.Ok? ==> Displaceable(r.value.original, JumpLength(source + r.value.offset, target))
  {
    hide Cut, JumpBytes, Plannable, Displaceable, Fill, Tiled;
    PlanExactly(source, target, bytes);
    if source == 0 || target == 0 {
      return Err(InvalidAddress);
    }
    if source == target {
      return Err(SameAddress);
    }
    var offset := if ENDBR64 <= bytes then 4 else 0;
    var address :- Sum(source, offset);
    var jump :- JumpBytes(address, target);
    var prefix := bytes[offset..];
    var length :- Measure(prefix, |jump|);
    CutBounds(prefix, |jump|, 0);
    r := Ok(Plan(offset, prefix[..length], Fill(jump, length)));
  }

  predicate Padded(jump: seq<Byte>, replacement: seq<Byte>) {
    jump <= replacement && forall i | |jump| <= i < |replacement| :: replacement[i] == 0x90
  }
  /** A plan displaces whole instructions, enough of them for the jump and less than one more, and pads
      the jump with NOPs. Cut out, the displaced bytes are still the same row of instructions. */
  lemma PlanCovers(source: Address, target: Address, bytes: seq<Byte>)
    requires PlanFor(source, target, bytes).Ok?
    ensures var p := PlanFor(source, target, bytes).value;
            && source + p.offset < W64 && JumpBytes(source + p.offset, target).Ok?
            && var jump := JumpBytes(source + p.offset, target).value;
            && |jump| <= |p.original| == |p.replacement| < |jump| + LIMIT
            && Padded(jump, p.replacement)
            && p.offset + |p.original| <= |bytes|
            && p.original == bytes[p.offset..p.offset + |p.original|]
            && Tiled(p.original, 0, |p.original|)
  {
    hide Decode, JumpBytes, Cut;
    var offset := if ENDBR64 <= bytes then 4 else 0;
    var jump := JumpBytes(source + offset, target).value;
    var prefix := bytes[offset..];
    CutBounds(prefix, |jump|, 0);
    TilesCut(prefix, 0, Cut(prefix, |jump|, 0).value);
  }

  // How much code is looked at

  /** Fifteen bytes decide what an instruction is. */
  lemma DecodesWindow(bytes: seq<Byte>, n: nat)
    requires LIMIT <= n <= |bytes|
    ensures Decode(bytes[..n]) == Decode(bytes)
  {
    hide Decode, Inspected;
    var window := bytes[..n];
    if Decode(bytes).Some? {
      DecodeBounds(bytes);
      DecodeLocal(bytes, window);
    } else if Decode(window).Some? {
      DecodeBounds(window);
      DecodeLocal(window, bytes);
    }
  }
  lemma {:induction false} CutWindow(prefix: seq<Byte>, n: nat, need: nat, from: nat)
    requires from <= n <= |prefix| && need + LIMIT - 1 <= n
    ensures Cut(prefix[..n], need, from) == Cut(prefix, need, from)
    decreases |prefix| - from
  {
    hide Decode;
    if from < need {
      var a := prefix[from..];
      assert prefix[..n][from..] == a[..n - from];
      DecodesWindow(a, n - from);
      if Decode(a).Some? {
        DecodeBounds(a[..n - from]);
        CutWindow(prefix, n, need, from + Decode(a).value.size);
      }
    }
  }
  /** The first thirty-two bytes of a function decide its plan, whatever follows them. */
  lemma WindowSuffices(source: Address, target: Address, bytes: seq<Byte>)
    requires |bytes| >= 32
    ensures PlanFor(source, target, bytes[..32]) == PlanFor(source, target, bytes)
  {
    hide Cut, JumpBytes, Fill, Tiled;
    var offset := PadKept(bytes);
    var window, prefix := bytes[..32][offset..], bytes[offset..];
    assert window == prefix[..32 - offset];
    if source + offset < W64 && JumpBytes(source + offset, target).Ok? {
      var need := |JumpBytes(source + offset, target).value|;
      CutWindow(prefix, 32 - offset, need, 0);
      if Cut(window, need, 0).Ok? {
        CutBounds(window, need, 0);
        assert window[..Cut(window, need, 0).value] == prefix[..Cut(window, need, 0).value];
      }
    }
  }
  lemma PadKept(bytes: seq<Byte>) returns (offset: nat)
    requires |bytes| >= 32
    ensures offset in {0, 4}
    ensures offset == (if ENDBR64 <= bytes then 4 else 0) == if ENDBR64 <= bytes[..32] then 4 else 0
  {
    offset := if ENDBR64 <= bytes then 4 else 0;
    assert bytes[..32][..4] == bytes[..4];
  }

  // Size

  lemma DraftSize(source: Address, destination: Address, original: seq<Byte>, offset: nat, x: Instruction, at: nat)
    requires Fits(original, offset, x) && source + |original| < W64
    requires Expand(source, destination, original, offset, x, at).Ok?
    ensures |Expand(source, destination, original, offset, x, at).value.bytes| <= 3 * x.size + 14
    ensures offset + x.size < |original| ==>
              |Expand(source, destination, original, offset, x, at).value.bytes| <= 3 * x.size
  {
    hide Aim, FieldValue;
  }

  lemma {:induction false} UnitsSize(source: Address, destination: Address, original: seq<Byte>, output: seq<Byte>,
                                     units: seq<Unit>, length: nat, k: nat)
    requires Chained(units, |original|, length) && UnitsOk(source, destination, original, output, units) && k < |units|
    ensures units[k].at <= 4 + 3 * units[k].offset
  {
    hide Expand, InstructionAt;
    if k > 0 {
      UnitsSize(source, destination, original, output, units, length, k - 1);
      var u := units[k - 1];
      assert UnitOk(source, destination, original, output, u);
      assert UnitOk(source, destination, original, output, units[k]);
      DraftSize(source, destination, original, u.offset, u.x, u.at);
    }
  }

  /** The relocation of a planned prefix stays clear of the relay at byte 512. */
  lemma RelocationSize(source: Address, destination: Address, original: seq<Byte>, p: Pass, units: seq<Unit>,
                       body: seq<Byte>, out: seq<Byte>)
    requires Relocation(source, destination, original, p, units, body, out)
    ensures |out| <= 3 * |original| + 23
    ensures |original| < 14 + LIMIT ==> |out| < 512
  {
    hide Fix, Expand, Displacement, Slots, InstructionAt;
    assert |body| == |p.output|;
    if units != [] {
      var u := units[|units| - 1];
      UnitsSize(source, destination, original, p.output, units, |p.output|, |units| - 1);
      assert UnitOk(source, destination, original, p.output, u);
      DraftSize(source, destination, original, u.offset, u.x, u.at);
    }
  }

  /** On a page that the near search returns, the entry jump to the relay and the return jump
      both have a 32 bit displacement. */
  lemma NearJumpsAreShort(source: Address, page: Address, offset: int, prefix: nat, used: nat)
    requires offset in {0, 4} && prefix < 14 + LIMIT && used < 512
    requires Executable.Distance(page, source) <= Executable.X86_REACH
    ensures Displacement(source + offset + 5, page + 512).Ok?
    ensures Displacement(page + used + 5, source + offset + prefix).Ok?
  {
  }

  // A branch that relocation makes too long

  lemma {:induction false} PrefixRun(bytes: seq<Byte>, at: nat, n: nat)
    requires at <= n < |bytes| && n < LIMIT && !IsPrefix(bytes[n])
    requires forall i | at <= i < n :: bytes[i] == 0x2e
    ensures Prefixes(bytes, Scan(at, false, 0, false, false)) == Some(Scan(n, false, 0, false, false))
    decreases n - at
  {
    if at < n {
      PrefixRun(bytes, at + 1, n);
    }
  }

  /** Ten branch-hint prefixes on a conditional jump. */
  const LONG: seq<Byte> := seq(10, i => 0x2e) + [0x74, 0]
  const LONG_JUMP := Instruction(12, false, None, false, Some(Branch(11, 1, Some(4))), None)

  lemma DecodeLongJump()
    ensures Decode(LONG) == Some(LONG_JUMP) && !Encodable(LONG_JUMP)
  {
    PrefixRun(LONG, 0, 10);
    hide Prefixes;
    assert LONG[10] == 0x74;
  }

  /** Such a branch is accepted, so relocation does not preserve the meaning of every accepted prefix. */
  lemma LongJumpAccepted()
    ensures Relocated(0x1000, 0x2000, LONG).Ok?
    ensures InstructionAt(LONG, 0, LONG_JUMP) && !Encodable(LONG_JUMP)
  {
    DecodeLongJump();
    hide Decode, Encodable;
    assert LONG[0..] == LONG;
    DecodeFits(LONG, 0, LONG_JUMP);
    assert LONG[11] == 0;
    var x := Expand(0x1000, 0x2000, LONG, 0, LONG_JUMP, 4);
    assert x == Ok(Draft(LONG[0..10] + [0x0f, 0x84] + [0, 0, 0, 0], Some((12, 0x100c))));
    var d := x.value;
    hide Expand;
    var p := Append(EMPTY, 0, d);
    assert Emit(0x1000, 0x2000, LONG, 0, EMPTY) == Emit(0x1000, 0x2000, LONG, 12, p) == Ok(p);
    hide Emit;
    assert p.branches == [(16, 0x100c)];
    var field := Resolve(0x1000, 0x2000, 12, p.positions, p.branches[0]).value;
    assert Fix(0x1000, 0x2000, 12, p, 0, p.output) == Fix(0x1000, 0x2000, 12, p, 1, Patch(p.output, 16, field));
  }
}
