/** Which x86-64 prefixes the relocator accepts, said without its passes. */
module X86Acceptance {
  import opened Words
  import Bytes
  import opened X86Decode
  import opened X86Relocate
  import opened X86Meaning

  /** An instruction of the prefix, and how many bytes of output come before it. */
  datatype Line = Line(offset: nat, x: Instruction, at: nat)

  predicate Inside64(a: int) {
    0 <= a < W64
  }
  predicate Reaches(next: int, goal: int) {
    Inside64(next) && Inside64(goal) && -0x8000_0000 <= goal - next < 0x8000_0000
  }
  predicate CallsDirectly(x: Instruction) {
    x.call.Some? && x.call.value.Direct?
  }
  predicate HasTarget(x: Instruction) {
    x.branch.Some? || CallsDirectly(x)
  }
  /** Short branches grow to their long form. A call becomes a push of six bytes, a jump and the return address. */
  function Length(x: Instruction): nat {
    if x.branch.Some? then
      if x.branch.value.width == 4 then x.size else if x.branch.value.condition.Some? then x.size + 4 else x.size + 3
    else if CallsDirectly(x) then 6 + 5 + 8
    else if x.call.Some? then 6 + x.size + 8
    else x.size
  }
  /** The instructions from an offset on, placed one behind the other. */
  function Lines(original: seq<Byte>, offset: nat, at: nat): Option<seq<Line>>
    requires offset <= |original|
    decreases |original| - offset
  {
    if offset == |original| then Some([])
    else
      var x := Decode(original[offset..]);
      if x.None? then None
      else
        DecodeFits(original, offset, x.value);
        var rest := Lines(original, offset + x.value.size, at + Length(x.value));
        if rest.None? then None else Some([Line(offset, x.value, at)] + rest.value)
  }
  ghost predicate Decodes(original: seq<Byte>, l: Line) {
    InstructionAt(original, l.offset, l.x) && Fits(original, l.offset, l.x)
  }
  /** It may be moved, calls come last, and what it addresses relative to itself stays in reach. */
  ghost predicate Moves(source: Address, destination: Address, original: seq<Byte>, l: Line)
    requires Decodes(original, l)
  {
    && !l.x.cannotMove && (l.x.call.Some? ==> l.offset + l.x.size == |original|)
    && (l.x.relativeMemory.Some? ==>
          Reaches(destination + l.at + (if l.x.call.Some? then 6 else 0) + l.x.size,
                  source + l.offset + l.x.size + FieldValue(original, l.offset + l.x.relativeMemory.value, 4)))
  }
  ghost function TargetOf(source: Address, original: seq<Byte>, l: Line): int
    requires Decodes(original, l) && HasTarget(l.x)
  {
    source + l.offset + l.x.size +
    if l.x.branch.Some? then FieldValue(original, l.offset + l.x.branch.value.displacement, l.x.branch.value.width)
    else FieldValue(original, l.offset + l.x.call.value.displacement, 4)
  }
  /** Where the jump of a moved branch or call ends. */
  function JumpEnd(l: Line): int {
    l.at + if l.x.branch.Some? then Length(l.x) else 6 + 5
  }
  /** It reaches its target, or the place of that target in the output. */
  ghost predicate Lands(source: Address, destination: Address, original: seq<Byte>, lines: seq<Line>, l: Line)
    requires Decodes(original, l)
  {
    HasTarget(l.x) ==>
      var target := TargetOf(source, original, l);
      if source <= target < source + |original| then
        exists k :: 0 <= k < |lines| && lines[k].offset == target - source
                    && Reaches(destination + JumpEnd(l), destination + lines[k].at)
      else Reaches(destination + JumpEnd(l), target)
  }
  function End(lines: seq<Line>): int {
    if lines == [] then 4 else lines[|lines| - 1].at + Length(lines[|lines| - 1].x)
  }
  ghost predicate Acceptable(source: Address, destination: Address, original: seq<Byte>) {
    && source > 0 && destination > 0 && source + |original| < W64
    && var lines := Lines(original, 0, 4);
    && lines.Some? && (forall k | 0 <= k < |lines.value| :: Decodes(original, lines.value[k]))
    && (forall k | 0 <= k < |lines.value| :: Moves(source, destination, original, lines.value[k]))
    && (forall k | 0 <= k < |lines.value| :: Lands(source, destination, original, lines.value, lines.value[k]))
    && Reaches(destination + End(lines.value) + 5, source + |original|)
  }

  /** A field is a little-endian number in two's complement. */
  lemma FieldIs(bytes: seq<Byte>, field: nat)
    requires field + 4 <= |bytes|
    ensures var v := FieldValue(bytes, field, 1);
            -128 <= v < 128 && (v - bytes[field] as int) % 256 == 0
    ensures var v := FieldValue(bytes, field, 4);
            && -0x8000_0000 <= v < 0x8000_0000
            && (v - (bytes[field] as int + 0x100 * bytes[field + 1] as int + 0x1_0000 * bytes[field + 2] as int
                     + 0x100_0000 * bytes[field + 3] as int)) % 0x1_0000_0000 == 0
  {
  }

  // One instruction

  ghost function SlotOf(source: Address, original: seq<Byte>, l: Line): Option<(int, int)>
    requires Decodes(original, l)
  {
    if HasTarget(l.x) then Some((JumpEnd(l) - 4, TargetOf(source, original, l))) else None
  }
  lemma AimIs(source: Address, start: int, original: seq<Byte>, offset: nat, x: Instruction, copy: seq<Byte>)
    requires Fits(original, offset, x) && (x.relativeMemory.Some? ==> |copy| == x.size) && 0 <= start
    ensures Aim(source, start, original, offset, x, copy).Ok? <==>
            (x.relativeMemory.Some? ==>
               Reaches(start + |copy|,
                       source + offset + x.size + FieldValue(original, offset + x.relativeMemory.value, 4)))
  {
    hide FieldValue, Bytes.Le32;
  }
  lemma ExpandIs(source: Address, destination: Address, original: seq<Byte>, l: Line)
    requires Decodes(original, l) && source + |original| < W64
    ensures var r := Expand(source, destination, original, l.offset, l.x, l.at);
            && (r.Ok? <==> Moves(source, destination, original, l))
            && (r.Ok? ==> |r.value.bytes| == Length(l.x))
            && (r.Ok? ==> SlotOf(source, original, l) ==
                          if r.value.slot.Some? then Some((l.at + r.value.slot.value.0, r.value.slot.value.1))
                          else None)
  {
    hide FieldValue, InstructionAt, Aim, Reaches, Bytes.Le32, Bytes.Le64;
    var x, copy := l.x, Copied(source, original, l.offset, l.x).bytes;
    AimIs(source, destination + l.at + (if x.call.Some? then 6 else 0), original, l.offset, x, copy);
  }

  // The first pass

  function PlacesOf(lines: seq<Line>): seq<(nat, nat)> {
    seq(|lines|, i requires 0 <= i < |lines| => (lines[i].offset, lines[i].at))
  }
  ghost function SlotsOf(source: Address, original: seq<Byte>, lines: seq<Line>): seq<(int, int)>
    requires forall k | 0 <= k < |lines| :: Decodes(original, lines[k])
  {
    if lines == [] then []
    else
      (if SlotOf(source, original, lines[0]).Some? then [SlotOf(source, original, lines[0]).value] else [])
      + SlotsOf(source, original, lines[1..])
  }
  /** Lines follow each other without gaps. */
  lemma {:induction false} LinesAre(original: seq<Byte>, offset: nat, at: nat)
    requires offset <= |original| && Lines(original, offset, at).Some?
    ensures var lines := Lines(original, offset, at).value;
            && (forall k | 0 <= k < |lines| :: Decodes(original, lines[k]) && offset <= lines[k].offset)
            && (forall j, k | 0 <= j < k < |lines| :: lines[j].offset < lines[k].offset)
    decreases |original| - offset
  {
    hide Decode, Length;
    if offset < |original| {
      var x := Decode(original[offset..]).value;
      DecodeFits(original, offset, x);
      LinesAre(original, offset + x.size, at + Length(x));
    }
  }
  ghost predicate Emitted(source: Address, destination: Address, original: seq<Byte>, lines: seq<Line>, p: Pass,
                          q: Pass)
    requires forall k | 0 <= k < |lines| :: Decodes(original, lines[k])
  {
    && |q.output| == (if lines == [] then |p.output| else lines[|lines| - 1].at + Length(lines[|lines| - 1].x))
    && q.positions == p.positions + PlacesOf(lines) && q.branches == p.branches + SlotsOf(source, original, lines)
  }
  ghost predicate AllMove(source: Address, destination: Address, original: seq<Byte>, lines: seq<Line>)
    requires forall k | 0 <= k < |lines| :: Decodes(original, lines[k])
  {
    forall k | 0 <= k < |lines| :: Moves(source, destination, original, lines[k])
  }
  lemma EmittedOne(source: Address, destination: Address, original: seq<Byte>, l: Line, rest: seq<Line>, p: Pass,
                   d: Draft, q: Pass)
    requires Decodes(original, l) && (forall k | 0 <= k < |rest| :: Decodes(original, rest[k])) && l.at == |p.output|
    requires |d.bytes| == Length(l.x)
    requires SlotOf(source, original, l) == if d.slot.Some? then Some((l.at + d.slot.value.0, d.slot.value.1)) else None
    requires Emitted(source, destination, original, rest, Append(p, l.offset, d), q)
    ensures Emitted(source, destination, original, [l] + rest, p, q)
  {
    hide Decodes, SlotOf, Length;
    var lines := [l] + rest;
    assert lines[1..] == rest;
    assert PlacesOf(lines) == [(l.offset, l.at)] + PlacesOf(rest);
    assert p.positions + PlacesOf(lines) == Append(p, l.offset, d).positions + PlacesOf(rest);
    assert p.branches + SlotsOf(source, original, lines)
           == Append(p, l.offset, d).branches + SlotsOf(source, original, rest);
  }
  lemma {:induction false} EmitIs(source: Address, destination: Address, original: seq<Byte>, offset: nat, p: Pass)
    requires offset <= |original| && source + |original| < W64
    ensures var lines, q := Lines(original, offset, |p.output|), Emit(source, destination, original, offset, p);
            && (lines.Some? ==> forall k | 0 <= k < |lines.value| :: Decodes(original, lines.value[k]))
            && (q.Ok? <==> lines.Some? && AllMove(source, destination, original, lines.value))
            && (q.Ok? ==> Emitted(source, destination, original, lines.value, p, q.value))
    decreases |original| - offset
  {
    hide Decode, Expand, Length, Moves, SlotOf, Emitted, Append, Decodes;
    var lines := Lines(original, offset, |p.output|);
    if lines.Some? {
      LinesAre(original, offset, |p.output|);
    }
    if offset == |original| {
      EmittedNone(source, destination, original, p);
    } else {
      var x := Decode(original[offset..]);
      if x.Some? {
        DecodeFits(original, offset, x.value);
        var l := Line(offset, x.value, |p.output|);
        LineDecodes(original, l);
        ExpandIs(source, destination, original, l);
        var d := Expand(source, destination, original, offset, x.value, |p.output|);
        var rest := Lines(original, offset + x.value.size, |p.output| + Length(x.value));
        assert lines.Some? ==> lines.value[0] == l && lines.value[1..] == rest.value;
        if d.Ok? {
          AppendLength(p, offset, d.value);
          var next := Append(p, offset, d.value);
          EmitIs(source, destination, original, offset + x.value.size, next);
          if lines.Some? {
            MoveFirst(source, destination, original, l, rest.value);
            var q := Emit(source, destination, original, offset + x.value.size, next);
            if q.Ok? {
              EmittedOne(source, destination, original, l, rest.value, p, d.value, q.value);
            }
          }
        } else if lines.Some? {
          MoveFirst(source, destination, original, l, rest.value);
        }
      }
    }
  }
  lemma LineDecodes(original: seq<Byte>, l: Line)
    requires l.offset <= |original| && Decode(original[l.offset..]) == Some(l.x) && Fits(original, l.offset, l.x)
    ensures Decodes(original, l)
  {
    hide Decode, Fits;
  }
  lemma AppendLength(p: Pass, offset: nat, d: Draft)
    ensures |Append(p, offset, d).output| == |p.output| + |d.bytes|
  {
  }
  lemma EmittedNone(source: Address, destination: Address, original: seq<Byte>, p: Pass)
    ensures Emitted(source, destination, original, [], p, p)
  {
  }
  lemma MoveFirst(source: Address, destination: Address, original: seq<Byte>, l: Line, rest: seq<Line>)
    requires Decodes(original, l) && forall k | 0 <= k < |rest| :: Decodes(original, rest[k])
    ensures forall k | 0 <= k < |[l] + rest| :: Decodes(original, ([l] + rest)[k])
    ensures AllMove(source, destination, original, [l] + rest)
            <==> Moves(source, destination, original, l) && AllMove(source, destination, original, rest)
  {
    hide Decodes, Moves;
    var lines := [l] + rest;
    assert lines[0] == l && forall k | 0 <= k < |rest| :: lines[k + 1] == rest[k];
  }

  // The second pass

  lemma {:induction false} FixIs(source: Address, destination: Address, n: nat, p: Pass, k: nat, out: seq<Byte>)
    requires k <= |p.branches| && |out| == |p.output| && SlotsFit(p)
    ensures Fix(source, destination, n, p, k, out).Ok? <==>
            forall j | k <= j < |p.branches| :: Resolve(source, destination, n, p.positions, p.branches[j]).Ok?
    decreases |p.branches| - k
  {
    hide Resolve, Patch;
    if k < |p.branches| {
      var field := Resolve(source, destination, n, p.positions, p.branches[k]);
      if field.Ok? {
        PatchKeeps(out, p.branches[k].0, field.value);
        FixIs(source, destination, n, p, k + 1, Patch(out, p.branches[k].0, field.value));
      }
    }
  }
  lemma PatchKeeps(bytes: seq<Byte>, field: nat, value: seq<Byte>)
    requires field + |value| <= |bytes|
    ensures |Patch(bytes, field, value)| == |bytes|
  {
  }
  lemma PlaceFound(lines: seq<Line>, offset: int)
    requires forall j, k | 0 <= j < k < |lines| :: lines[j].offset < lines[k].offset
    ensures Lookup(PlacesOf(lines), offset).None? ==> forall k | 0 <= k < |lines| :: lines[k].offset != offset
    ensures Lookup(PlacesOf(lines), offset).Some? ==>
              && (exists k :: 0 <= k < |lines| && lines[k].offset == offset)
              && (forall k | 0 <= k < |lines| && lines[k].offset == offset ::
                    lines[k].at == Lookup(PlacesOf(lines), offset).value)
  {
    var places := PlacesOf(lines);
    if Lookup(places, offset).Some? {
      var k := LookupUnit(places, offset);
      assert lines[k].offset == offset;
    }
    forall k | 0 <= k < |lines| && lines[k].offset == offset ensures Lookup(places, offset).Some? {
      LookupFinds(places, k);
    }
  }
  lemma ResolveIs(source: Address, destination: Address, original: seq<Byte>, lines: seq<Line>, l: Line)
    requires Decodes(original, l) && HasTarget(l.x) && JumpEnd(l) >= 4 && source + |original| < W64
    requires forall j, k | 0 <= j < k < |lines| :: lines[j].offset < lines[k].offset
    ensures Resolve(source, destination, |original|, PlacesOf(lines), SlotOf(source, original, l).value).Ok?
            <==> Lands(source, destination, original, lines, l)
  {
    hide Decodes, JumpEnd, TargetOf, Lookup, Bytes.Le32;
    var target := TargetOf(source, original, l);
    PlaceFound(lines, target - source);
    hide PlacesOf;
  }
  ghost predicate SlotResolves(source: Address, destination: Address, n: nat, positions: seq<(nat, nat)>,
                               slot: (int, int)) {
    slot.0 >= 0 && Resolve(source, destination, n, positions, slot).Ok?
  }
  lemma LineResolves(source: Address, destination: Address, original: seq<Byte>, lines: seq<Line>, l: Line)
    requires Decodes(original, l) && source + |original| < W64
    requires forall j, k | 0 <= j < k < |lines| :: lines[j].offset < lines[k].offset
    ensures SlotOf(source, original, l).None? ==> Lands(source, destination, original, lines, l)
    ensures SlotOf(source, original, l).Some? ==>
              (SlotResolves(source, destination, |original|, PlacesOf(lines), SlotOf(source, original, l).value)
               <==> Lands(source, destination, original, lines, l))
  {
    hide Resolve, Lands, PlacesOf;
    if HasTarget(l.x) {
      assert JumpEnd(l) >= 4 by {
        LongEnough(original, l);
      }
      ResolveIs(source, destination, original, lines, l);
    } else {
      NoTarget(source, destination, original, lines, l);
    }
  }
  lemma LongEnough(original: seq<Byte>, l: Line)
    requires Decodes(original, l) && HasTarget(l.x)
    ensures JumpEnd(l) >= 4
  {
    hide InstructionAt;
  }
  lemma NoTarget(source: Address, destination: Address, original: seq<Byte>, lines: seq<Line>, l: Line)
    requires Decodes(original, l) && !HasTarget(l.x)
    ensures Lands(source, destination, original, lines, l)
  {
  }
  ghost predicate AllLand(source: Address, destination: Address, original: seq<Byte>, all: seq<Line>, lines: seq<Line>)
    requires forall k | 0 <= k < |lines| :: Decodes(original, lines[k])
  {
    forall k | 0 <= k < |lines| :: Lands(source, destination, original, all, lines[k])
  }
  ghost predicate AllResolve(source: Address, destination: Address, n: nat, positions: seq<(nat, nat)>,
                             slots: seq<(int, int)>) {
    forall j | 0 <= j < |slots| :: SlotResolves(source, destination, n, positions, slots[j])
  }
  lemma ResolveBoth(source: Address, destination: Address, n: nat, positions: seq<(nat, nat)>, first: seq<(int, int)>,
                    more: seq<(int, int)>)
    ensures AllResolve(source, destination, n, positions, first + more)
            <==> && AllResolve(source, destination, n, positions, first)
                 && AllResolve(source, destination, n, positions, more)
  {
    hide SlotResolves;
    var slots := first + more;
    assert forall j | 0 <= j < |more| :: more[j] == slots[|first| + j];
    assert forall j | 0 <= j < |first| :: first[j] == slots[j];
  }
  lemma LandFirst(source: Address, destination: Address, original: seq<Byte>, all: seq<Line>, lines: seq<Line>)
    requires lines != [] && forall k | 0 <= k < |lines| :: Decodes(original, lines[k])
    ensures AllLand(source, destination, original, all, lines) <==>
            && Lands(source, destination, original, all, lines[0])
            && AllLand(source, destination, original, all, lines[1..])
  {
    hide Lands, Decodes;
    assert forall k | 0 < k < |lines| :: lines[k] == lines[1..][k - 1];
  }
  lemma {:induction false} SlotsLand(source: Address, destination: Address, original: seq<Byte>, all: seq<Line>,
                                     lines: seq<Line>)
    requires source + |original| < W64 && forall k | 0 <= k < |lines| :: Decodes(original, lines[k])
    requires forall j, k | 0 <= j < k < |all| :: all[j].offset < all[k].offset
    ensures AllResolve(source, destination, |original|, PlacesOf(all), SlotsOf(source, original, lines))
            <==> AllLand(source, destination, original, all, lines)
    decreases |lines|
  {
    hide Lands, SlotResolves, Decodes, SlotOf, PlacesOf, AllLand, AllResolve;
    if lines == [] {
      NoLines(source, destination, original, all);
    } else {
      var l, rest := lines[0], lines[1..];
      LineResolves(source, destination, original, all, l);
      SlotsLand(source, destination, original, all, rest);
      LandFirst(source, destination, original, all, lines);
      var slot, more := SlotOf(source, original, l), SlotsOf(source, original, rest);
      var first := if slot.Some? then [slot.value] else [];
      assert SlotsOf(source, original, lines) == first + more;
      ResolveBoth(source, destination, |original|, PlacesOf(all), first, more);
      ResolveFirst(source, destination, |original|, PlacesOf(all), slot);
    }
  }
  lemma ResolveFirst(source: Address, destination: Address, n: nat, positions: seq<(nat, nat)>,
                     slot: Option<(int, int)>)
    ensures AllResolve(source, destination, n, positions, if slot.Some? then [slot.value] else [])
            <==> (slot.Some? ==> SlotResolves(source, destination, n, positions, slot.value))
  {
    hide SlotResolves;
    var first := if slot.Some? then [slot.value] else [];
    assert slot.Some? ==> first[0] == slot.value;
  }
  lemma NoLines(source: Address, destination: Address, original: seq<Byte>, all: seq<Line>)
    ensures AllLand(source, destination, original, all, [])
    ensures AllResolve(source, destination, |original|, PlacesOf(all), SlotsOf(source, original, []))
  {
  }

  /** A prefix is accepted exactly when each instruction can be moved and everything it refers to stays in reach. */
  lemma AcceptedExactly(source: Address, destination: Address, original: seq<Byte>)
    ensures Relocated(source, destination, original).Ok? <==> Acceptable(source, destination, original)
  {
    hide Emit, Fix, Lines, Decodes, Moves, Lands, Bytes.Le32, SlotsOf, PlacesOf;
    if source > 0 && destination > 0 && source + |original| < W64 {
      EmitIs(source, destination, original, 0, EMPTY);
      var p, lines := Emit(source, destination, original, 0, EMPTY), Lines(original, 0, 4);
      if p.Ok? {
        EmitSlotsFit(source, destination, original, 0, EMPTY);
        LinesAre(original, 0, 4);
        AcceptedPass(source, destination, original, p.value, lines.value);
      }
    }
  }
  lemma AcceptedPass(source: Address, destination: Address, original: seq<Byte>, p: Pass, lines: seq<Line>)
    requires source + |original| < W64 && SlotsFit(p) && forall k | 0 <= k < |lines| :: Decodes(original, lines[k])
    requires forall j, k | 0 <= j < k < |lines| :: lines[j].offset < lines[k].offset
    requires p.positions == PlacesOf(lines) && p.branches == SlotsOf(source, original, lines)
    ensures Fix(source, destination, |original|, p, 0, p.output).Ok?
            <==> AllLand(source, destination, original, lines, lines)
  {
    hide Fix, Decodes, AllLand, SlotsOf, PlacesOf, Resolve;
    FixIs(source, destination, |original|, p, 0, p.output);
    SlotsLand(source, destination, original, lines, lines);
    var slots := SlotsOf(source, original, lines);
    forall j | 0 <= j < |slots|
      ensures SlotResolves(source, destination, |original|, PlacesOf(lines), slots[j])
              <==> Resolve(source, destination, |original|, p.positions, p.branches[j]).Ok?
    {
      assert slots[j] == p.branches[j];
    }
  }
}
