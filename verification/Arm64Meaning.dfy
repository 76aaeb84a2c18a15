/** Whole runs of a relocated A64 prefix. */
module Arm64Meaning {
  import opened Words
  import opened Arm64
  import opened Arm64Layout
  import opened Arm64Machine
  import opened Arm64Simulation

  /** The relocated words fit where they are published. */
  ghost predicate Accepted(source: Address, destination: Address, ws: seq<Word>, out: seq<Word>) {
    Relocated(source, destination, ws) == Ok(out) && destination + 4 * |out| <= W64
  }

  /** What acceptance says about the two passes. */
  lemma Unpack(source: Address, destination: Address, ws: seq<Word>, out: seq<Word>) returns (body: seq<Word>)
    requires Relocated(source, destination, ws) == Ok(out)
    ensures 0 < |ws| && source + 4 * |ws| < W64 && source % 4 == destination % 4 == 0
    ensures FirstPass(source, destination, ws, |ws|).Ok?
    ensures var p := FirstPass(source, destination, ws, |ws|).value;
            SecondPass(source, destination, p, |p.branches|) == Ok(body)
    ensures |body| == Position(source, destination, ws, |ws|) && destination + 4 * |body| < W64
    ensures Jump(destination + 4 * |body|, source + 4 * |ws|).Ok?
    ensures out == body + Jump(destination + 4 * |body|, source + 4 * |ws|).value && |body| < |out|
  {
    hide FirstPass, SecondPass, Relative;
    var p := FirstPass(source, destination, ws, |ws|).value;
    body := SecondPass(source, destination, p, |p.branches|).value;
  }

  /** Address in the relocated code that stands for instruction `i`. */
  ghost function Place(source: Address, destination: Address, ws: seq<Word>, i: nat): nat
    requires i <= |ws| && source + 4 * |ws| < W64 && FirstPass(source, destination, ws, |ws|).Ok?
  {
    Grows(source, destination, ws, i, |ws|);
    destination + 4 * Position(source, destination, ws, i)
  }

  ghost function Positions(source: Address, destination: Address, ws: seq<Word>): (ps: seq<nat>)
    requires source + 4 * |ws| < W64 && FirstPass(source, destination, ws, |ws|).Ok?
    ensures |ps| == |ws|
  {
    FirstPass(source, destination, ws, |ws|).value.positions
  }

  lemma PlaceOf(source: Address, destination: Address, ws: seq<Word>, i: nat)
    requires i < |ws| && source + 4 * |ws| < W64 && FirstPass(source, destination, ws, |ws|).Ok?
    ensures FirstPass(source, destination, ws, i + 1).Ok? && |DraftAt(source, destination, ws, i).words| >= 1
    ensures Place(source, destination, ws, i) == destination + 4 * Positions(source, destination, ws)[i]
    ensures Place(source, destination, ws, i + 1) ==
            Place(source, destination, ws, i) + 4 * |DraftAt(source, destination, ws, i).words|
  {
    hide Expand;
    Grows(source, destination, ws, i, |ws|);
    Grows(source, destination, ws, i + 1, |ws|);
    var p := FirstPass(source, destination, ws, i + 1).value;
    assert p.positions[i] == Positions(source, destination, ws)[i];
  }

  lemma LastPlace(source: Address, destination: Address, ws: seq<Word>, i: nat)
    requires i <= |ws| && source + 4 * |ws| < W64 && FirstPass(source, destination, ws, |ws|).Ok?
    ensures Place(source, destination, ws, i) <= Place(source, destination, ws, |ws|)
  {
    hide FirstPass;
    Grows(source, destination, ws, i, |ws|);
  }

  lemma BlockAt(source: Address, destination: Address, ws: seq<Word>, out: seq<Word>, i: nat)
    requires Relocated(source, destination, ws) == Ok(out) && i < |ws| && source + 4 * |ws| < W64
    requires FirstPass(source, destination, ws, |ws|).Ok? && FirstPass(source, destination, ws, i + 1).Ok?
    ensures Laid(source, destination, |ws|, Positions(source, destination, ws),
                 DraftAt(source, destination, ws, i), Position(source, destination, ws, i), out)
  {
    hide Expand, Resolve, SecondPass, Jump, FirstPass;
    var body := Unpack(source, destination, ws, out);
    Grows(source, destination, ws, i, |ws|);
    var d := DraftAt(source, destination, ws, i);
    var at := Position(source, destination, ws, i);
    forall q | 0 <= q < |d.words| && !(d.slot.Some? && d.slot.value.0 == q)
      ensures at + q < |body| && out[at + q] == d.words[q]
    {
      BlockLaid(source, destination, ws, i, q, body);
    }
    if d.slot.Some? && d.slot.value.0 < |d.words| {
      BlockLaid(source, destination, ws, i, d.slot.value.0, body);
    }
    PlaceOf(source, destination, ws, i);
    LastPlace(source, destination, ws, i + 1);
  }

  lemma LaidFits(source: Address, destination: Address, n: nat, positions: seq<nat>, d: Draft, at: nat, code: seq<Word>)
    requires |positions| == n && Laid(source, destination, n, positions, d, at, code)
    ensures at + |d.words| < |code|
  {
  }

  /** The emitted block answers its instruction, whatever its class. */
  lemma DraftAnswers<R>(m: Machine<R>, source: Address, destination: Address, n: nat, positions: seq<nat>,
                        code: seq<Word>, i: nat, w: Word, at: nat, st: State<R>)
    returns (k: nat, land: Address)
    requires i < n == |positions| && source + 4 * n < W64 && destination + 4 * |code| <= W64 && at < |code|
    requires Expand(source, destination, n, i, w, at).Ok?
    requires Laid(source, destination, n, positions, Expand(source, destination, n, i, w, at).value, at, code)
    ensures Answers(m, source, destination, n, positions, code, at,
                    |Expand(source, destination, n, i, w, at).value.words|,
                    source + 4 * i, st, Step(m, w, source + 4 * i, st), k, land)
  {
    hide Laid, Answers, Step, ExpandBranch, ExpandConditional, ExpandLiteral, AddressTarget, ConstantWord,
         IsBranch, IsConditional, IsCompare, IsTest, IsAddress, IsLiteral, IsCallRegister, IsJumpRegister,
         IsAuthenticatedReturn, IsRegisterFamily, Valid, Top, Rn, Rd;
    var pc := source + 4 * i;
    LaidFits(source, destination, n, positions, Expand(source, destination, n, i, w, at).value, at, code);
    if IsBranch(w) {
      k, land := AnswerBranch(m, source, destination, n, positions, code, i, w, at, st);
    } else if IsConditional(w) || IsCompare(w) || IsTest(w) {
      k, land := AnswerConditional(m, source, destination, n, positions, code, pc, w, at, st);
    } else if IsAddress(w) {
      k, land := 4, destination + 4 * at + 16;
      AnswerAddress(m, source, destination, n, positions, code, pc, w, at, st);
    } else if IsLiteral(w) {
      k := AnswerLiteral(m, source, destination, n, positions, code, pc, w, at, st);
      land := destination + 4 * (at + |ExpandLiteral(pc, destination + 4 * at, w).value.words|);
    } else if IsCallRegister(w) {
      land := AnswerCallRegister(m, source, destination, n, positions, code, pc, w, at, st);
      k := 5;
    } else {
      k, land := AnswerCopied(m, source, destination, n, positions, code, pc, w, at, st);
    }
  }

  // The way back to the original code

  /** In this state the published page answers data loads with its own words. */
  ghost predicate Sealed<R>(m: Machine<R>, base: Address, code: seq<Word>, rest: R) {
    forall q: nat | q + 1 < |code| && base + 4 * q < W64 ::
      m.load(1, WordAddress(base, q), rest) == code[q] + code[q + 1] * W32
  }
  function WordAddress(base: Address, q: nat): Address
    requires base + 4 * q < W64
  {
    base + 4 * q
  }

  /** The return jump needs its 16-byte form. */
  predicate Far(from: Address, target: Address) {
    Relative(from, target, S26).Err?
  }

  /** Either form of `Jump` reaches its target. The near form keeps the whole state;
      the far form leaves the target in x16. */
  lemma JumpReaches<R>(m: Machine<R>, base: Address, code: seq<Word>, q: nat, target: Address, st: State<R>)
    returns (k: nat)
    requires q <= |code| && base + 4 * |code| <= W64 && base + 4 * q < W64
    requires Jump(base + 4 * q, target).Ok? && code[q..] == Jump(base + 4 * q, target).value
    requires Far(base + 4 * q, target) ==> Sealed(m, base, code, st.rest)
    ensures k >= 1
    ensures Reach(m, base, code, k, base + 4 * q, st, target,
                  if Far(base + 4 * q, target) then st.Set(16, target) else st)
  {
    hide Reach, Step, Sealed;
    var here := base + 4 * q;
    var words := Jump(here, target).value;
    assert |code| == q + |words| && forall h | 0 <= h < |words| :: code[q + h] == words[h];
    assert code[q + 0] == words[0];
    if Far(here, target) {
      assert code[q + 1] == words[1] && code[q + 2] == words[2] && code[q + 3] == words[3];
      FarStep(m, here, q, base, code, target, st);
      ReachOne(m, base, code, q, st, Go(here + 4, st.Set(16, target)));
      ReachOne(m, base, code, q + 1, st.Set(16, target), Leave(target, st.Set(16, target)));
      ReachJoin(m, base, code, 1, 1, here, st, here + 4, st.Set(16, target), target, st.Set(16, target));
      k := 2;
    } else {
      RelativeRoundTrip(here, target, S26);
      StepTo(m, here, target, st);
      ReachOne(m, base, code, q, st, Go(target, st));
      k := 1;
    }
  }
  lemma DecodeFarWords()
    ensures Decode(0x58000050) == LoadLiteral(1, false, 16, 8)
    ensures Decode(0xd61f0200) == JumpRegister(16)
  {
    assert Top(0x58000050) == 0x58 && Top(0xd61f0200) == 0xd6;
    DecodeLoadLiteral(0x58000050);
  }
  lemma FarStep<R>(m: Machine<R>, here: Address, q: nat, base: Address, code: seq<Word>, target: Address, st: State<R>)
    requires q + 4 == |code| && here == base + 4 * q && base + 4 * |code| <= W64 && Sealed(m, base, code, st.rest)
    requires code[q + 2] == target % W32 && code[q + 3] == target / W32
    ensures Step(m, 0x58000050, here, st) == Go(here + 4, st.Set(16, target))
    ensures Step(m, 0xd61f0200, here + 4, st.Set(16, target)) == Leave(target, st.Set(16, target))
  {
    DecodeFarWords();
    hide Decode;
    assert m.load(1, WordAddress(base, q + 2), st.rest) == code[q + 2] + code[q + 3] * W32;
  }

  // One original move, then whole runs

  /** The relocated code follows one move of the original instruction `i`. Inside the prefix
      it arrives at the place of the next instruction with the same state. Outside it arrives
      at the same address with the same state, except that a far return leaves the
      continuation in x16. A trap happens in the same state. */
  ghost predicate Mirrors<R>(m: Machine<R>, source: Address, destination: Address, ws: seq<Word>, out: seq<Word>,
                             i: nat, st: State<R>, move: Move<R>, k: nat, land: Address, after: State<R>)
    requires source + 4 * |ws| < W64 && FirstPass(source, destination, ws, |ws|).Ok? && i < |ws|
    requires Place(source, destination, ws, i) < W64 && Place(source, destination, ws, |ws|) < W64
  {
    var here := Place(source, destination, ws, i);
    match move
    case Go(pc, st') =>
      && k >= 1 && Reach(m, destination, out, k, here, st, land, after)
      && if Inside(source, ws, pc) then land == Place(source, destination, ws, (pc - source) / 4) && after == st'
         else land == pc && (after == st' || (
                             && pc == source + 4 * |ws|
                             && Far(Place(source, destination, ws, |ws|), pc)
                             && after == st'.Set(16, pc)))
    case Leave(pc, st') =>
      k >= 1 && land == pc && after == st' && Reach(m, destination, out, k, here, st, land, after)
    case Stop(st') =>
      && after == st && Reach(m, destination, out, k, here, st, land, after)
      && Inside(destination, out, land) && MoveAt(m, destination, out, land, after) == Stop(st')
  }

  /** Everything a step of the simulation needs to know about an accepted relocation. */
  lemma Setting(source: Address, destination: Address, ws: seq<Word>, out: seq<Word>, i: nat)
    requires Accepted(source, destination, ws, out) && i < |ws|
    ensures source + 4 * |ws| < W64 && FirstPass(source, destination, ws, |ws|).Ok?
    ensures Place(source, destination, ws, i) <= Place(source, destination, ws, |ws|) < W64
    ensures Place(source, destination, ws, i) < Place(source, destination, ws, i + 1)
              <= Place(source, destination, ws, |ws|)
  {
    hide FirstPass, Relocated;
    var body := Unpack(source, destination, ws, out);
    LastPlace(source, destination, ws, i);
    LastPlace(source, destination, ws, i + 1);
    PlaceOf(source, destination, ws, i);
  }

  lemma BlockAnswers<R>(m: Machine<R>, source: Address, destination: Address, ws: seq<Word>, out: seq<Word>,
                        i: nat, st: State<R>) returns (k: nat, land: Address)
    requires Accepted(source, destination, ws, out) && i < |ws| && source + 4 * |ws| < W64
    requires FirstPass(source, destination, ws, |ws|).Ok? && FirstPass(source, destination, ws, i + 1).Ok?
    requires Place(source, destination, ws, i) < W64
    ensures Answers(m, source, destination, |ws|, Positions(source, destination, ws), out,
                    Position(source, destination, ws, i), |DraftAt(source, destination, ws, i).words|,
                    source + 4 * i, st, Step(m, ws[i], source + 4 * i, st), k, land)
  {
    hide Expand, Laid, Answers, Step, Relocated;
    Grows(source, destination, ws, i, |ws|);
    BlockAt(source, destination, ws, out, i);
    var at := Position(source, destination, ws, i);
    LaidFits(source, destination, |ws|, Positions(source, destination, ws), DraftAt(source, destination, ws, i), at,
             out);
    k, land := DraftAnswers(m, source, destination, |ws|, Positions(source, destination, ws), out, i, ws[i], at, st);
  }

  lemma ReturnReaches<R>(m: Machine<R>, source: Address, destination: Address, ws: seq<Word>, out: seq<Word>,
                         st: State<R>)
    returns (k: nat)
    requires Accepted(source, destination, ws, out) && source + 4 * |ws| < W64
    requires FirstPass(source, destination, ws, |ws|).Ok? && Place(source, destination, ws, |ws|) < W64
    requires Far(Place(source, destination, ws, |ws|), source + 4 * |ws|) ==> Sealed(m, destination, out, st.rest)
    ensures k >= 1
    ensures var (here, end) := (Place(source, destination, ws, |ws|), source + 4 * |ws|);
            Reach(m, destination, out, k, here, st, end, if Far(here, end) then st.Set(16, end) else st)
  {
    hide FirstPass, Relocated, Jump, Reach, Sealed, SecondPass;
    var body := Unpack(source, destination, ws, out);
    assert out[|body|..] == Jump(destination + 4 * |body|, source + 4 * |ws|).value;
    k := JumpReaches(m, destination, out, |body|, source + 4 * |ws|, st);
  }

  /** A far return reads its literal in the state that a move leaves. */
  ghost predicate Returns<R>(m: Machine<R>, source: Address, destination: Address, ws: seq<Word>, out: seq<Word>,
                             move: Move<R>)
    requires source + 4 * |ws| < W64 && FirstPass(source, destination, ws, |ws|).Ok?
    requires Place(source, destination, ws, |ws|) < W64
  {
    move.Go? && move.pc == source + 4 * |ws| && Far(Place(source, destination, ws, |ws|), move.pc) ==>
      Sealed(m, destination, out, move.st.rest)
  }

  /** One original move is mirrored. */
  lemma StepMirrored<R>(m: Machine<R>, source: Address, destination: Address, ws: seq<Word>, out: seq<Word>,
                        i: nat, st: State<R>) returns (k: nat, land: Address, after: State<R>)
    requires Accepted(source, destination, ws, out) && i < |ws|
    requires source + 4 * |ws| < W64 && FirstPass(source, destination, ws, |ws|).Ok?
    requires Place(source, destination, ws, i) < W64 && Place(source, destination, ws, |ws|) < W64
    requires Returns(m, source, destination, ws, out, Step(m, ws[i], source + 4 * i, st))
    ensures Mirrors(m, source, destination, ws, out, i, st, Step(m, ws[i], source + 4 * i, st), k, land, after)
  {
    hide Step, FirstPass, Expand, Accepted, Sealed, Reach, Relative;
    PlaceOf(source, destination, ws, i);
    Setting(source, destination, ws, out, i);
    k, land := BlockAnswers(m, source, destination, ws, out, i, st);
    var here := Place(source, destination, ws, i);
    match Step(m, ws[i], source + 4 * i, st) {
      case Leave(pc, st') =>
        after := st';
      case Stop(st') =>
        after := st;
      case Go(pc, st') =>
        after := st';
        if Mapped(source, destination, |ws|, Positions(source, destination, ws), pc) == Ok(land) {
          if source <= pc < source + 4 * |ws| {
            PlaceOf(source, destination, ws, (pc - source) / 4);
          }
        } else if i + 1 == |ws| {
          var l := ReturnReaches(m, source, destination, ws, out, st');
          after := if Far(land, pc) then st'.Set(16, pc) else st';
          ReachJoin(m, destination, out, k, l, here, st, land, st', pc, after);
          k, land := k + l, pc;
        } else {
          assert (pc - source) / 4 == i + 1 && Inside(source, ws, pc);
        }
    }
  }

  /** `n` direct moves of the original prefix that never leave it. */
  ghost predicate Stays<R>(m: Machine<R>, source: Address, ws: seq<Word>, n: nat,
                           i: nat, st: State<R>, j: nat, st': State<R>)
    requires source + 4 * |ws| < W64
    decreases n
  {
    if n == 0 then i == j && st == st'
    else
      && i < |ws|
      && var move := Step(m, ws[i], source + 4 * i, st);
      && move.Go? && Inside(source, ws, move.pc)
      && Stays(m, source, ws, n - 1, (move.pc - source) / 4, move.st, j, st')
  }

  /** Runs inside the prefix, loops included, are mirrored move by move and take at least
      as many steps, so the relocated code ends only if the original does. */
  lemma {:induction false} RunMirrored<R>(m: Machine<R>, source: Address, destination: Address, ws: seq<Word>,
                                          out: seq<Word>, n: nat, i: nat, st: State<R>, j: nat, st': State<R>)
    returns (k: nat)
    requires Accepted(source, destination, ws, out)
    requires source + 4 * |ws| < W64 && FirstPass(source, destination, ws, |ws|).Ok?
    requires i < |ws| && j < |ws| && Stays(m, source, ws, n, i, st, j, st')
    ensures k >= n && Place(source, destination, ws, i) < W64 && Place(source, destination, ws, j) < W64
    ensures Reach(m, destination, out, k, Place(source, destination, ws, i), st, Place(source, destination, ws, j), st')
    decreases n
  {
    hide Step, FirstPass, Accepted, Sealed, Reach, Place;
    Setting(source, destination, ws, out, i);
    Setting(source, destination, ws, out, j);
    if n == 0 {
      k := 0;
      NoSteps(m, destination, out, Place(source, destination, ws, i), st);
    } else {
      var move := Step(m, ws[i], source + 4 * i, st);
      var l, land, after := StepMirrored(m, source, destination, ws, out, i, st);
      k := RunMirrored(m, source, destination, ws, out, n - 1, (move.pc - source) / 4, move.st, j, st');
      ReachJoin(m, destination, out, l, k, Place(source, destination, ws, i), st, land, move.st,
                Place(source, destination, ws, j), st');
      k := l + k;
    }
  }

  /** Meaning is preserved. Take any run of the original prefix from its entry: `n` moves inside it,
      loops included, then one more move from instruction `j`. The relocated code, run from the page
      address, mirrors it to the same place with the same state. */
  lemma MeaningPreserved<R>(m: Machine<R>, source: Address, destination: Address, ws: seq<Word>, out: seq<Word>,
                            n: nat, st: State<R>, j: nat, st': State<R>)
    returns (k: nat, l: nat, land: Address, after: State<R>)
    requires Accepted(source, destination, ws, out)
    requires source + 4 * |ws| < W64 && j < |ws| && Stays(m, source, ws, n, 0, st, j, st')
    requires FirstPass(source, destination, ws, |ws|).Ok? && Place(source, destination, ws, |ws|) < W64 ==>
               Returns(m, source, destination, ws, out, Step(m, ws[j], source + 4 * j, st'))
    ensures FirstPass(source, destination, ws, |ws|).Ok?
    ensures Place(source, destination, ws, j) < W64 && Place(source, destination, ws, |ws|) < W64
    ensures k >= n && Reach(m, destination, out, k, destination, st, Place(source, destination, ws, j), st')
    ensures Mirrors(m, source, destination, ws, out, j, st', Step(m, ws[j], source + 4 * j, st'), l, land, after)
  {
    hide Step, FirstPass, Returns, Reach, Mirrors, Place;
    Setting(source, destination, ws, out, j);
    EntryReaches(m, source, destination, ws, out, st);
    k := RunMirrored(m, source, destination, ws, out, n, 0, st, j, st');
    ReachJoin(m, destination, out, 1, k, destination, st, destination + 4, st, Place(source, destination, ws, j), st');
    k := k + 1;
    l, land, after := StepMirrored(m, source, destination, ws, out, j, st');
  }

  /** The page starts with a landing pad; the first block follows it. */
  lemma FirstWord(source: Address, destination: Address, ws: seq<Word>, body: seq<Word>)
    requires source + 4 * |ws| < W64 && FirstPass(source, destination, ws, |ws|).Ok?
    requires var p := FirstPass(source, destination, ws, |ws|).value;
             SecondPass(source, destination, p, |p.branches|) == Ok(body)
    ensures Place(source, destination, ws, 0) == destination + 4
    ensures |body| >= 1 && body[0] == BTI
  {
    hide Expand, Resolve, SecondPass;
    var p := FirstPass(source, destination, ws, |ws|).value;
    Grows(source, destination, ws, 0, |ws|);
    assert p.output[0] == FirstPass(source, destination, ws, 0).value.output[0] == BTI;
    SlotsIncrease(source, destination, ws, |ws|);
    Patched(source, destination, p, |p.branches|);
  }

  lemma EntryReaches<R>(m: Machine<R>, source: Address, destination: Address, ws: seq<Word>, out: seq<Word>,
                        st: State<R>)
    requires Accepted(source, destination, ws, out) && source + 4 * |ws| < W64
    requires FirstPass(source, destination, ws, |ws|).Ok?
    ensures Place(source, destination, ws, 0) == destination + 4 < W64
    ensures Reach(m, destination, out, 1, destination, st, destination + 4, st)
  {
    hide Reach, Step, FirstPass, SecondPass;
    var body := Unpack(source, destination, ws, out);
    FirstWord(source, destination, ws, body);
    StepHint(m, destination, st);
    ReachOne(m, destination, out, 0, st, Go(destination + 4, st));
  }
}
