/** The relocation loops, and where they put each instruction. */
module X86Layout {
  import opened Words
  import opened X86Decode
  import opened X86Reader
  import opened X86Relocate

  // The loops

  method EmitAll(source: Address, destination: Address, original: seq<Byte>) returns (r: Result<Pass>)
    requires source + |original| < W64
    ensures r == Emit(source, destination, original, 0, EMPTY)
  {
    hide Decode, Expand;
    var output, offset := ENDBR64, 0;
    var positions: seq<(nat, nat)>, branches: seq<(nat, int)> := [], [];
    while offset < |original|
      invariant offset <= |original|
      invariant Emit(source, destination, original, 0, EMPTY)
                == Emit(source, destination, original, offset, Pass(output, positions, branches))
      decreases |original| - offset
    {
      var x :- DecodeInstruction(original[offset..]);
      DecodeFits(original, offset, x);
      ghost var before := Pass(output, positions, branches);
      var d :- Expand(source, destination, original, offset, x, |output|);
      positions := positions + [(offset, |output|)];
      if d.slot.Some? {
        branches := branches + [(|output| + d.slot.value.0, d.slot.value.1)];
      }
      output := output + d.bytes;
      assert Pass(output, positions, branches) == Append(before, offset, d);
      offset := offset + x.size;
    }
    r := Ok(Pass(output, positions, branches));
  }

  method FixAll(source: Address, destination: Address, n: nat, p: Pass) returns (r: Result<seq<Byte>>)
    requires SlotsFit(p)
    ensures r == Fix(source, destination, n, p, 0, p.output)
  {
    var output := p.output;
    for k := 0 to |p.branches|
      invariant |output| == |p.output|
      invariant Fix(source, destination, n, p, 0, p.output) == Fix(source, destination, n, p, k, output)
    {
      var (field, target) := p.branches[k];
      if !(0 <= target < W64) {
        return Err(InvalidRange);
      }
      var goal: Address := target;
      if source <= target < source + n {
        var mapped := Find(p.positions, target - source);
        if mapped.None? {
          return Err(InvalidInstruction);
        }
        goal :- Sum(destination, mapped.value);
      }
      var next :- Sum(destination, field + 4);
      var relative :- Displacement(next, goal);
      output := Patch(output, field, relative);
    }
    r := Ok(output);
  }

  method Find(positions: seq<(nat, nat)>, offset: int) returns (position: Option<nat>)
    ensures position == Lookup(positions, offset)
  {
    for k := 0 to |positions|
      invariant Lookup(positions, offset) == Lookup(positions[k..], offset)
    {
      if positions[k].0 == offset {
        return Some(positions[k].1);
      }
      assert positions[k..][1..] == positions[k + 1..];
    }
    position := None;
  }

  /** The relocator. */
  method Trampoline(source: Address, destination: Address, original: seq<Byte>) returns (r: Result<seq<Byte>>)
    ensures r == Relocated(source, destination, original)
  {
    hide Emit, Fix;
    if source == 0 || destination == 0 {
      return Err(InvalidAddress);
    }
    var continuation :- Sum(source, |original|);
    var pass :- EmitAll(source, destination, original);
    EmitSlotsFit(source, destination, original, 0, EMPTY);
    var output :- FixAll(source, destination, |original|, pass);
    var next :- Sum(destination, |output| + 5);
    var back :- Displacement(next, continuation);
    r := Ok(output + [0xe9] + back);
  }

  // Units: one per original instruction

  datatype Unit = Unit(offset: nat, x: Instruction, at: nat, d: Draft)

  ghost predicate UnitOk(source: Address, destination: Address, original: seq<Byte>, output: seq<Byte>, u: Unit) {
    && source + |original| < W64
    && InstructionAt(original, u.offset, u.x) && Fits(original, u.offset, u.x)
    && Expand(source, destination, original, u.offset, u.x, u.at) == Ok(u.d)
    && u.at + |u.d.bytes| <= |output|
    && output[u.at..u.at + |u.d.bytes|] == u.d.bytes
  }

  function Slots(units: seq<Unit>): seq<(nat, int)> {
    if units == [] then []
    else
      var u := units[|units| - 1];
      Slots(units[..|units| - 1]) + if u.d.slot.Some? then [(u.at + u.d.slot.value.0, u.d.slot.value.1)] else []
  }

  /** Units follow each other without gaps, in the original and in the output. */
  ghost predicate Chained(units: seq<Unit>, offset: nat, length: nat) {
    if units == [] then offset == 0 && length == 4
    else
      && units[0].offset == 0 && units[0].at == 4
      && (forall k | 0 <= k < |units| - 1 ::
            units[k + 1].offset == units[k].offset + units[k].x.size
            && units[k + 1].at == units[k].at + |units[k].d.bytes|)
      && var u := units[|units| - 1];
      && offset == u.offset + u.x.size && length == u.at + |u.d.bytes|
  }

  ghost predicate Placed(positions: seq<(nat, nat)>, units: seq<Unit>) {
    && |units| == |positions|
    && forall k | 0 <= k < |units| :: positions[k] == (units[k].offset, units[k].at)
  }
  ghost predicate UnitsOk(source: Address, destination: Address, original: seq<Byte>, output: seq<Byte>,
                          units: seq<Unit>) {
    forall k | 0 <= k < |units| :: UnitOk(source, destination, original, output, units[k])
  }

  /** The first pass up to `offset`, unit by unit. */
  ghost predicate Laid(source: Address, destination: Address, original: seq<Byte>, offset: nat, p: Pass,
                       units: seq<Unit>) {
    && Placed(p.positions, units)
    && UnitsOk(source, destination, original, p.output, units)
    && Chained(units, offset, |p.output|)
    && p.branches == Slots(units)
    && 4 <= |p.output| && p.output[..4] == ENDBR64
  }

  lemma UnitKept(source: Address, destination: Address, original: seq<Byte>, output: seq<Byte>, more: seq<Byte>,
                 u: Unit)
    requires UnitOk(source, destination, original, output, u)
    ensures UnitOk(source, destination, original, output + more, u)
  {
    hide Expand, InstructionAt, Fits;
    assert (output + more)[u.at..u.at + |u.d.bytes|] == output[u.at..u.at + |u.d.bytes|];
  }
  lemma UnitFresh(source: Address, destination: Address, original: seq<Byte>, output: seq<Byte>, u: Unit)
    requires source + |original| < W64 && InstructionAt(original, u.offset, u.x) && Fits(original, u.offset, u.x)
    requires Expand(source, destination, original, u.offset, u.x, u.at) == Ok(u.d) && u.at == |output|
    ensures UnitOk(source, destination, original, output + u.d.bytes, u)
  {
    hide Expand, InstructionAt, Fits;
    assert (output + u.d.bytes)[u.at..u.at + |u.d.bytes|] == u.d.bytes;
  }
  lemma SlotsExtended(units: seq<Unit>, u: Unit)
    ensures Slots(units + [u]) == Slots(units)
              + if u.d.slot.Some? then [(u.at + u.d.slot.value.0, u.d.slot.value.1)] else []
  {
    assert (units + [u])[..|units|] == units;
  }
  lemma ChainExtended(units: seq<Unit>, offset: nat, length: nat, u: Unit)
    requires Chained(units, offset, length) && u.offset == offset && u.at == length
    ensures Chained(units + [u], offset + u.x.size, length + |u.d.bytes|)
  {
  }

  lemma UnitsExtended(source: Address, destination: Address, original: seq<Byte>, output: seq<Byte>, units: seq<Unit>,
                      u: Unit)
    requires UnitsOk(source, destination, original, output, units)
    requires UnitOk(source, destination, original, output + u.d.bytes, u)
    ensures UnitsOk(source, destination, original, output + u.d.bytes, units + [u])
  {
    hide UnitOk;
    forall k | 0 <= k < |units + [u]|
      ensures UnitOk(source, destination, original, output + u.d.bytes, (units + [u])[k])
    {
      if k < |units| {
        UnitKept(source, destination, original, output, u.d.bytes, units[k]);
      }
    }
  }

  lemma AppendLaid(source: Address, destination: Address, original: seq<Byte>, offset: nat, p: Pass, units: seq<Unit>,
                   u: Unit)
    requires Laid(source, destination, original, offset, p, units)
    requires u.offset == offset && u.at == |p.output|
    requires UnitOk(source, destination, original, p.output + u.d.bytes, u)
    ensures Laid(source, destination, original, offset + u.x.size, Append(p, offset, u.d), units + [u])
  {
    hide UnitOk, UnitsOk, Chained, Slots;
    var q := Append(p, offset, u.d);
    SlotsExtended(units, u);
    ChainExtended(units, offset, |p.output|, u);
    UnitsExtended(source, destination, original, p.output, units, u);
    assert q.output[..4] == p.output[..4];
  }

  lemma {:induction false} EmitLaid(source: Address, destination: Address, original: seq<Byte>, offset: nat,
                                    p: Pass, units: seq<Unit>) returns (all: seq<Unit>)
    requires offset <= |original| && source + |original| < W64
    requires Laid(source, destination, original, offset, p, units)
    requires Emit(source, destination, original, offset, p).Ok?
    ensures Laid(source, destination, original, |original|, Emit(source, destination, original, offset, p).value, all)
    decreases |original| - offset
  {
    hide Decode, Expand, Laid, UnitOk;
    if offset == |original| {
      all := units;
    } else {
      var x := Decode(original[offset..]).value;
      DecodeFits(original, offset, x);
      var d := Expand(source, destination, original, offset, x, |p.output|).value;
      var u := Unit(offset, x, |p.output|, d);
      UnitFresh(source, destination, original, p.output, u);
      AppendLaid(source, destination, original, offset, p, units, u);
      all := EmitLaid(source, destination, original, offset + x.size, Append(p, offset, d), units + [u]);
    }
  }

  // Order

  lemma {:induction false} UnitsOrdered(units: seq<Unit>, offset: nat, length: nat, a: nat, b: nat)
    requires Chained(units, offset, length) && a < b < |units|
    ensures units[a].offset + units[a].x.size <= units[b].offset
    ensures units[a].at + |units[a].d.bytes| <= units[b].at
    decreases b
  {
    if a + 1 < b {
      UnitsOrdered(units, offset, length, a, b - 1);
    }
  }

  /** Every slot belongs to a unit, and slots come in increasing order. */
  lemma {:induction false} SlotOwner(units: seq<Unit>, j: nat) returns (k: nat)
    requires j < |Slots(units)|
    ensures k < |units| && units[k].d.slot.Some?
    ensures Slots(units)[j] == (units[k].at + units[k].d.slot.value.0, units[k].d.slot.value.1)
  {
    var rest := Slots(units[..|units| - 1]);
    if j < |rest| {
      k := SlotOwner(units[..|units| - 1], j);
    } else {
      k := |units| - 1;
    }
  }
  lemma {:induction false} SlotOf(units: seq<Unit>, k: nat) returns (j: nat)
    requires k < |units| && units[k].d.slot.Some?
    ensures j < |Slots(units)|
    ensures Slots(units)[j] == (units[k].at + units[k].d.slot.value.0, units[k].d.slot.value.1)
  {
    if k == |units| - 1 {
      j := |Slots(units)| - 1;
    } else {
      j := SlotOf(units[..|units| - 1], k);
    }
  }

  // After the second pass

  ghost predicate InSlot(p: Pass, j: int, q: int)
    requires 0 <= j < |p.branches|
  {
    p.branches[j].0 <= q < p.branches[j].0 + 4
  }

  lemma PatchReads(bytes: seq<Byte>, field: nat, value: seq<Byte>)
    requires field + |value| <= |bytes|
    ensures Patch(bytes, field, value)[field..field + |value|] == value
    ensures forall q | 0 <= q < |bytes| && !(field <= q < field + |value|) :: Patch(bytes, field, value)[q] == bytes[q]
  {
  }

  /** The second pass writes every remaining slot and nothing else. */
  lemma {:induction false} Fixed(source: Address, destination: Address, n: nat, p: Pass, k: nat, out: seq<Byte>)
    requires SlotsFit(p) && k <= |p.branches| && |out| == |p.output|
    requires forall a, b | 0 <= a < b < |p.branches| :: p.branches[a].0 + 4 <= p.branches[b].0
    requires Fix(source, destination, n, p, k, out).Ok?
    ensures var r := Fix(source, destination, n, p, k, out).value;
            && (forall j | k <= j < |p.branches| ::
                  Resolve(source, destination, n, p.positions, p.branches[j])
                  == Ok(r[p.branches[j].0..p.branches[j].0 + 4]))
            && (forall q | 0 <= q < |out| && (forall j | k <= j < |p.branches| :: !InSlot(p, j, q)) :: r[q] == out[q])
    decreases |p.branches| - k
  {
    hide Resolve, Patch;
    if k < |p.branches| {
      var value := Resolve(source, destination, n, p.positions, p.branches[k]).value;
      var next := Patch(out, p.branches[k].0, value);
      Fixed(source, destination, n, p, k + 1, next);
      PatchReads(out, p.branches[k].0, value);
      var r := Fix(source, destination, n, p, k, out).value;
      var f := p.branches[k].0;
      forall q | f <= q < f + 4 ensures r[q] == next[q] {
        assert forall j | k + 1 <= j < |p.branches| :: !InSlot(p, j, q);
      }
      assert r[f..f + 4] == next[f..f + 4];
      forall q | 0 <= q < |out| && (forall j | k <= j < |p.branches| :: !InSlot(p, j, q)) ensures r[q] == out[q] {
        assert !InSlot(p, k, q);
      }
    }
  }

  /** The bytes that stand for a unit in the finished output. */
  ghost function Final(source: Address, destination: Address, n: nat, positions: seq<(nat, nat)>,
                       u: Unit): Result<seq<Byte>>
    requires u.d.slot.Some? ==> u.d.slot.value.0 + 4 <= |u.d.bytes|
  {
    if u.d.slot.None? then Ok(u.d.bytes)
    else
      var (field, target) := u.d.slot.value;
      var value :- Resolve(source, destination, n, positions, (u.at + field, target));
      Ok(Patch(u.d.bytes, field, value))
  }

  lemma {:induction false} SlotsOrdered(source: Address, destination: Address, original: seq<Byte>, output: seq<Byte>,
                                        units: seq<Unit>, offset: nat, length: nat)
    requires Chained(units, offset, length) && UnitsOk(source, destination, original, output, units)
    ensures forall a, b | 0 <= a < b < |Slots(units)| :: Slots(units)[a].0 + 4 <= Slots(units)[b].0
    ensures forall a | 0 <= a < |Slots(units)| :: Slots(units)[a].0 + 4 <= length
  {
    hide Expand, InstructionAt, Fits;
    if units != [] {
      var rest, u := units[..|units| - 1], units[|units| - 1];
      SlotsOrdered(source, destination, original, output, rest, u.offset, u.at);
      assert UnitOk(source, destination, original, output, u);
    }
  }

  /** No slot reaches into another unit, nor into the rest of its own. */
  lemma ForeignSlot(source: Address, destination: Address, original: seq<Byte>, p: Pass, units: seq<Unit>,
                    k: nat, j: nat, q: nat)
    requires Laid(source, destination, original, |original|, p, units) && k < |units| && j < |p.branches|
    requires q < |units[k].d.bytes|
    requires !(units[k].d.slot.Some? && units[k].d.slot.value.0 <= q < units[k].d.slot.value.0 + 4)
    ensures !InSlot(p, j, units[k].at + q)
  {
    hide Expand, InstructionAt, Fits, Slots;
    var o := SlotOwner(units, j);
    assert UnitOk(source, destination, original, p.output, units[o]);
    if o < k {
      UnitsOrdered(units, |original|, |p.output|, o, k);
    } else if k < o {
      UnitsOrdered(units, |original|, |p.output|, k, o);
    }
  }

  lemma UnitByte(source: Address, destination: Address, original: seq<Byte>, p: Pass, units: seq<Unit>,
                 out: seq<Byte>, k: nat, q: nat)
    requires Laid(source, destination, original, |original|, p, units) && SlotsFit(p) && k < |units|
    requires forall a, b | 0 <= a < b < |p.branches| :: p.branches[a].0 + 4 <= p.branches[b].0
    requires Fix(source, destination, |original|, p, 0, p.output) == Ok(out)
    requires q < |units[k].d.bytes| && units[k].at + q < |out|
    requires !(units[k].d.slot.Some? && units[k].d.slot.value.0 <= q < units[k].d.slot.value.0 + 4)
    ensures out[units[k].at + q] == units[k].d.bytes[q]
  {
    hide Resolve, Expand, InstructionAt, Fits, Patch, Fix, Chained, Slots;
    var u := units[k];
    var at := u.at + q;
    assert UnitOk(source, destination, original, p.output, u);
    Fixed(source, destination, |original|, p, 0, p.output);
    forall j | 0 <= j < |p.branches| ensures !InSlot(p, j, at) {
      ForeignSlot(source, destination, original, p, units, k, j, q);
    }
    assert p.output[u.at..u.at + |u.d.bytes|][q] == p.output[at];
  }

  /** A block that equals `bytes` outside a field, and `value` in it. */
  lemma PatchIs(block: seq<Byte>, bytes: seq<Byte>, field: nat, value: seq<Byte>)
    requires |block| == |bytes| && field + |value| <= |bytes| && block[field..field + |value|] == value
    requires forall q | 0 <= q < |bytes| && !(field <= q < field + |value|) :: block[q] == bytes[q]
    ensures block == Patch(bytes, field, value)
  {
    assert block == block[..field] + block[field..field + |value|] + block[field + |value|..];
    assert block[..field] == bytes[..field];
    assert block[field + |value|..] == bytes[field + |value|..];
  }

  /** The finished output holds every unit with its branch resolved. */
  lemma UnitFinal(source: Address, destination: Address, original: seq<Byte>, p: Pass, units: seq<Unit>,
                  out: seq<Byte>, k: nat)
    requires Laid(source, destination, original, |original|, p, units) && SlotsFit(p) && k < |units|
    requires forall a, b | 0 <= a < b < |p.branches| :: p.branches[a].0 + 4 <= p.branches[b].0
    requires Fix(source, destination, |original|, p, 0, p.output) == Ok(out)
    requires units[k].d.slot.Some? ==> units[k].d.slot.value.0 + 4 <= |units[k].d.bytes|
    requires units[k].at + |units[k].d.bytes| <= |out|
    ensures var u := units[k];
            Final(source, destination, |original|, p.positions, u) == Ok(out[u.at..u.at + |u.d.bytes|])
  {
    hide Resolve, UnitsOk, Patch, Fix, Chained, Slots;
    var u := units[k];
    var block := out[u.at..u.at + |u.d.bytes|];
    forall q | 0 <= q < |block| && !(u.d.slot.Some? && u.d.slot.value.0 <= q < u.d.slot.value.0 + 4)
      ensures block[q] == u.d.bytes[q]
    {
      UnitByte(source, destination, original, p, units, out, k, q);
    }
    if u.d.slot.Some? {
      var j := SlotOf(units, k);
      var f := u.d.slot.value.0;
      Fixed(source, destination, |original|, p, 0, p.output);
      assert p.branches[j] == (u.at + f, u.d.slot.value.1);
      assert block[f..f + 4] == out[u.at + f..u.at + f + 4];
      PatchIs(block, u.d.bytes, f, block[f..f + 4]);
    } else {
      assert block == u.d.bytes;
    }
  }
}
