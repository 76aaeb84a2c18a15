/** Relocation and routing together: what a registered entry does to a call, in every reachable state. */
module EntryBehaviour {
  import opened Words
  import opened Memory
  import opened Executable
  import opened Saved
  import opened Routing
  import opened RoutingInvariant
  import opened RoutingSafety
  import A64 = Arm64Machine
  import A64Meaning = Arm64Meaning
  import Arm64
  import Arm64Plan
  import X64 = X86Machine
  import X64Simulation = X86Simulation
  import X64Meaning = X86Meaning
  import X86Plan
  import X86Decode
  import X86Relocate

  // Every entry was built as `Saved.Build` builds it

  ghost predicate IsBuilt(cpu: Target, patch: Patch, original: Original, dispatcher: nat) {
    Built(cpu, patch.address, patch.original, patch.replacement, original.address, original.saved, dispatcher,
          original.bridge)
  }
  ghost predicate Furnished(cpu: Target, nodes: seq<Node>) {
    forall k | 0 <= k < |nodes| :: IsBuilt(cpu, nodes[k].patch, nodes[k].original, nodes[k].dispatcher)
  }
  /** An installation publishes what it has built. */
  ghost predicate Crafted(cpu: Target, step: Step) {
    step.Publish? ==> IsBuilt(cpu, step.patch, step.original, step.dispatcher)
  }
  lemma NodesGrow(s: State, step: Step)
    requires Enabled(s, step)
    ensures !step.Publish? ==> |Next(s, step).nodes| == |s.nodes|
    ensures step.Publish? ==>
              && |Next(s, step).nodes| == |s.nodes| + 1
              && var node := Next(s, step).nodes[|s.nodes|];
              node.patch == step.patch && node.original == step.original && node.dispatcher == step.dispatcher
  {
    hide Holds, CanRoute, CanReplace, NewSource, Clear, Overlay, Without, At, MoreSites;
  }
  lemma FurnishedKept(cpu: Target, s: State, step: Step)
    requires Furnished(cpu, s.nodes) && Enabled(s, step) && Crafted(cpu, step)
    ensures Furnished(cpu, Next(s, step).nodes)
  {
    hide Enabled, Next, IsBuilt;
    NodesGrow(s, step);
    StepExtends(s, step);
    var nodes := Next(s, step).nodes;
    forall k | 0 <= k < |nodes| ensures IsBuilt(cpu, nodes[k].patch, nodes[k].original, nodes[k].dispatcher) {
      if k < |s.nodes| {
        assert IsBuilt(cpu, s.nodes[k].patch, s.nodes[k].original, s.nodes[k].dispatcher);
      }
    }
  }
  /** So it stays over every run whose installations publish what they have built. */
  lemma {:induction false} RunFurnished(cpu: Target, s: State, steps: seq<Step>)
    requires Furnished(cpu, s.nodes) && Run(s, steps).Some?
    requires forall k | 0 <= k < |steps| :: Crafted(cpu, steps[k])
    ensures Furnished(cpu, Run(s, steps).value.nodes)
    decreases |steps|
  {
    hide Enabled, Next, Furnished, Crafted;
    if steps != [] {
      FurnishedKept(cpu, s, steps[0]);
      RunFurnished(cpu, Next(s, steps[0]), steps[1..]);
    }
  }

  // What memory holds

  lemma EntryBytes(s: State, i: nat)
    requires Invariant(s) && i < |s.records|
    ensures var p := Entry(s, i).patch;
            Proper(p) && Holds(s.code, p.address, p.replacement) && Holds(s.initial, p.address, p.original)
  {
    hide Kept, Locals, Readers, Ordered, Stacked, OverlayAll, At;
    var p := Entry(s, i).patch;
    assert Live(s)[i] == p;
    hide Live;
    SavedInitial(s.initial, Live(s), i);
    forall a | p.address <= a < p.address + |p.replacement|
      ensures a in s.code && s.code[a] == p.replacement[a - p.address]
    {
      CodeInside(s.initial, Live(s), i, a);
    }
  }
  lemma EntryBuilt(cpu: Target, s: State, i: nat)
    requires Invariant(s) && Furnished(cpu, s.nodes) && i < |s.records|
    ensures IsBuilt(cpu, Entry(s, i).patch, Entry(s, i).original, Entry(s, i).dispatcher)
  {
    hide IsBuilt, Locals, Readers, Code, Ordered, Owners, Coming, Globals;
    assert 1 <= s.records[i].node <= |s.nodes|;
  }

  // x86-64

  /** A far jump finds its literal in this state. */
  ghost predicate JumpServed<S>(m: X64.Machine<S>, address: int, code: seq<Byte>, target: int, st: S) {
    Leads(X86, address, code, target) && |Jump(X86, address, target).value| == 14 ==>
      X64Simulation.Sealed(m, address, code, st)
  }
  lemma LeadsX86<S>(m: X64.Machine<S>, address: Address, code: seq<Byte>, target: Address, st: S)
    requires Leads(X86, address, code, target) && address + |code| <= W64 && JumpServed(m, address, code, target, st)
    ensures X64.Reach(m, address, code, 1, address, st, target, st)
  {
    hide X86Plan.JumpBytes, X64.Reach;
    var jump := X86Plan.JumpBytes(address, target).value;
    assert code == jump + code[|jump|..];
    X86Plan.JumpReaches(m, address, target, code[|jump|..], st);
  }
  /** The far ones of an entry's two jumps find their literals. */
  ghost predicate CallServed<S>(m: X64.Machine<S>, e: Node, st: S) {
    var relay := e.original.address + RELAY;
    && End(e.patch) <= W64
    && JumpServed(m, e.patch.address, e.patch.replacement, relay, st)
    && (RELAY <= |e.original.saved| ==> JumpServed(m, relay, e.original.saved[RELAY..], e.dispatcher, st))
  }
  /** The patched bytes lead to the relay, and the relay to the dispatcher, with the state untouched. */
  ghost predicate CallArrives<S>(m: X64.Machine<S>, e: Node, st: S) {
    && IsBuilt(X86, e.patch, e.original, e.dispatcher)
    && var relay := e.original.address + RELAY;
    && X64.Reach(m, e.patch.address, e.patch.replacement, 1, e.patch.address, st, relay, st)
    && X64.Reach(m, relay, e.original.saved[RELAY..], 1, relay, st, e.dispatcher, st)
  }
  lemma Arrives<S>(m: X64.Machine<S>, e: Node, st: S)
    requires IsBuilt(X86, e.patch, e.original, e.dispatcher) && Proper(e.patch) && CallServed(m, e, st)
    ensures CallArrives(m, e, st)
  {
    hide Leads, Keeps, JumpServed, X64.Reach, X86Plan.HasCall;
    LeadsX86(m, e.patch.address, e.patch.replacement, e.original.address + RELAY, st);
    LeadsX86(m, e.original.address + RELAY, e.original.saved[RELAY..], e.dispatcher, st);
  }
  /** In every reachable state a call of a patched function runs the bytes that memory holds there into
      the relay and on to the dispatcher of its entry. */
  lemma CallReachesDispatcherX86<S>(m: X64.Machine<S>, s: State, i: nat, st: S)
    requires Invariant(s) && Furnished(X86, s.nodes) && i < |s.records| && CallServed(m, Entry(s, i), st)
    ensures Holds(s.code, Entry(s, i).patch.address, Entry(s, i).patch.replacement) && CallArrives(m, Entry(s, i), st)
  {
    hide Invariant, Furnished, IsBuilt, CallServed, CallArrives, At, Holds;
    EntryBytes(s, i);
    EntryBuilt(X86, s, i);
    Arrives(m, Entry(s, i), st);
  }

  /** What `MeaningPreserved` asks of a run of the saved prefix from its start to `pc`. */
  ghost predicate RunServed<S(!new)>(m: X64.Machine<S>, e: Node, n: nat, st: S, pc: Address, st': S) {
    IsBuilt(X86, e.patch, e.original, e.dispatcher) ==>
      var (source, prefix, page) := (e.patch.address, e.patch.original, e.original.address);
      var out := X86Relocate.Relocated(source, page, prefix).value;
      && source + |prefix| < W64 && X64.Inside(source, prefix, pc)
      && X64Meaning.Stays(m, source, prefix, n, source, st, pc, st')
      && X64Meaning.Smooth(m, source, page, prefix, out, n, source, st)
      && X64Meaning.Ready(m, source, page, prefix, out, pc, st')
      && (forall x | X86Decode.Decode(prefix[pc - source..]) == Some(x) ::
            X64Meaning.Undisturbed(m, source, prefix, pc - source, x, st'))
  }
  /** The page, run from its start, follows that run and the move after it. */
  ghost predicate RunFollowed<S>(m: X64.Machine<S>, e: Node, n: nat, st: S, pc: Address, st': S,
                                 k: nat, place: Address, l: nat, land: Address)
  {
    && IsBuilt(X86, e.patch, e.original, e.dispatcher)
    && var (source, prefix, page) := (e.patch.address, e.patch.original, e.original.address);
    && X64.Inside(source, prefix, pc)
    && k >= n && X64.Reach(m, page, e.original.saved, k, page, st, place, st')
    && X64Meaning.Mirrors(m, source, page, prefix, X64Meaning.Positions(source, page, prefix), e.original.saved,
                          place, st', X64.MoveAt(m, source, prefix, pc, st'), l, land)
  }
  lemma MirrorsLonger<S>(m: X64.Machine<S>, source: Address, page: Address, prefix: seq<Byte>,
                         positions: seq<(nat, nat)>, out: seq<Byte>, more: seq<Byte>, place: Address, st: S,
                         move: X64.Move<S>, l: nat, land: Address)
    requires X64Meaning.Mirrors(m, source, page, prefix, positions, out, place, st, move, l, land)
    ensures X64Meaning.Mirrors(m, source, page, prefix, positions, out + more, place, st, move, l, land)
  {
    hide X64.Reach, X64.MoveAt;
    match move {
      case Go(pc, after) =>
        X64Simulation.ReachLonger(m, page, out, more, l, place, st, land, after);
      case Leave(pc, after) =>
        X64Simulation.ReachLonger(m, page, out, more, l, place, st, land, after);
      case Stop(after) =>
        X64Simulation.ReachLonger(m, page, out, more, l, place, st, land, st);
        X64Simulation.MoveLonger(m, page, out, more, land, st);
    }
  }
  lemma Follows<S(!new)>(m: X64.Machine<S>, e: Node, n: nat, st: S, pc: Address, st': S)
    returns (k: nat, place: Address, l: nat, land: Address)
    requires IsBuilt(X86, e.patch, e.original, e.dispatcher) && RunServed(m, e, n, st, pc, st')
    ensures RunFollowed(m, e, n, st, pc, st', k, place, l, land)
  {
    hide Leads, X64.Reach, X64.MoveAt, X86Plan.HasCall, X86Relocate.Relocated, X86Decode.Decode,
         X64Meaning.Stays, X64Meaning.Smooth, X64Meaning.Ready, X64Meaning.Undisturbed, X64Meaning.Mirrors;
    var source, prefix, page := e.patch.address, e.patch.original, e.original.address;
    var out := X86Relocate.Relocated(source, page, prefix).value;
    k, place, l, land := X64Meaning.MeaningPreserved(m, source, page, prefix, out, n, st, pc, st');
    var more := e.original.saved[|out|..];
    assert e.original.saved == out + more;
    X64Simulation.ReachLonger(m, page, out, more, k, page, st, place, st');
    MirrorsLonger(m, source, page, prefix, X64Meaning.Positions(source, page, prefix), out, more, place, st',
                  X64.MoveAt(m, source, prefix, pc, st'), l, land);
  }
  /** In every reachable state the saved original of an entry, run from its page, does what the code that
      was there before any patch does. */
  lemma SavedRunsInitialX86<S(!new)>(m: X64.Machine<S>, s: State, i: nat, n: nat, st: S, pc: Address, st': S)
    returns (k: nat, place: Address, l: nat, land: Address)
    requires Invariant(s) && Furnished(X86, s.nodes) && i < |s.records| && RunServed(m, Entry(s, i), n, st, pc, st')
    ensures Holds(s.initial, Entry(s, i).patch.address, Entry(s, i).patch.original)
    ensures RunFollowed(m, Entry(s, i), n, st, pc, st', k, place, l, land)
  {
    hide Invariant, Furnished, IsBuilt, RunServed, RunFollowed, At, Holds;
    EntryBytes(s, i);
    EntryBuilt(X86, s, i);
    k, place, l, land := Follows(m, Entry(s, i), n, st, pc, st');
  }

  // ARM64

  ghost predicate WordsServed<R>(m: A64.Machine<R>, address: int, code: seq<Byte>, target: int, rest: R) {
    Leads(Arm64, address, code, target) && A64Meaning.Far(address, target) ==>
      A64Meaning.Sealed(m, address, Arm64Plan.Chunks(code), rest)
  }
  /** A far jump leaves its target in x16. */
  ghost function Jumped<R>(address: Address, target: Address, st: A64.State<R>): A64.State<R> {
    if A64Meaning.Far(address, target) then st.Set(16, target) else st
  }
  lemma LeadsArm64<R>(m: A64.Machine<R>, address: Address, code: seq<Byte>, target: Address, st: A64.State<R>)
    returns (k: nat)
    requires Leads(Arm64, address, code, target) && address + |code| <= W64
             && WordsServed(m, address, code, target, st.rest)
    ensures k >= 1 && A64.Reach(m, address, Arm64Plan.Chunks(code), k, address, st, target, Jumped(address, target, st))
  {
    hide Arm64.Jump, A64.Reach, A64Meaning.Sealed, A64Meaning.Far, Arm64Plan.Pack, Arm64Plan.Chunks;
    var words := Arm64.Jump(address, target).value;
    Arm64Plan.PackRoundTrip(words);
    assert words[0..] == words;
    k := A64Meaning.JumpReaches(m, address, words, 0, target, st);
  }
  ghost predicate CallServedArm64<R>(m: A64.Machine<R>, e: Node, rest: R) {
    var relay := e.original.address + RELAY;
    && End(e.patch) <= W64
    && WordsServed(m, e.patch.address, e.patch.replacement, relay, rest)
    && (RELAY <= |e.original.saved| ==> WordsServed(m, relay, e.original.saved[RELAY..], e.dispatcher, rest))
  }
  /** The patched words lead to the relay, and the relay to the dispatcher, with nothing but x16 changed. */
  ghost predicate CallArrivesArm64<R>(m: A64.Machine<R>, e: Node, st: A64.State<R>, k: nat, l: nat) {
    && IsBuilt(Arm64, e.patch, e.original, e.dispatcher)
    && var relay := e.original.address + RELAY;
    && var between := Jumped(e.patch.address, relay, st);
    && A64.Reach(m, e.patch.address, Arm64Plan.Chunks(e.patch.replacement), k, e.patch.address, st, relay, between)
    && A64.Reach(m, relay, Arm64Plan.Chunks(e.original.saved[RELAY..]), l, relay, between,
                 e.dispatcher, Jumped(relay, e.dispatcher, between))
  }
  lemma ArrivesArm64<R>(m: A64.Machine<R>, e: Node, st: A64.State<R>) returns (k: nat, l: nat)
    requires IsBuilt(Arm64, e.patch, e.original, e.dispatcher) && Proper(e.patch) && CallServedArm64(m, e, st.rest)
    ensures CallArrivesArm64(m, e, st, k, l)
  {
    hide Leads, Keeps, WordsServed, A64.Reach, Arm64Plan.Chunks, A64Meaning.Far;
    var relay := e.original.address + RELAY;
    k := LeadsArm64(m, e.patch.address, e.patch.replacement, relay, st);
    var between := Jumped(e.patch.address, relay, st);
    assert between.rest == st.rest;
    l := LeadsArm64(m, relay, e.original.saved[RELAY..], e.dispatcher, between);
  }
  /** In every reachable state a call of a patched function runs the words that memory holds there into
      the relay and on to the dispatcher of its entry. */
  lemma CallReachesDispatcherArm64<R>(m: A64.Machine<R>, s: State, i: nat, st: A64.State<R>) returns (k: nat, l: nat)
    requires Invariant(s) && Furnished(Arm64, s.nodes) && i < |s.records| && CallServedArm64(m, Entry(s, i), st.rest)
    ensures Holds(s.code, Entry(s, i).patch.address, Entry(s, i).patch.replacement)
    ensures CallArrivesArm64(m, Entry(s, i), st, k, l)
  {
    hide Invariant, Furnished, IsBuilt, CallServedArm64, CallArrivesArm64, At, Holds;
    EntryBytes(s, i);
    EntryBuilt(Arm64, s, i);
    k, l := ArrivesArm64(m, Entry(s, i), st);
  }

  /** What `MeaningPreserved` asks of a run of the saved prefix from its start to instruction `j`. */
  ghost predicate RunServedArm64<R>(m: A64.Machine<R>, e: Node, n: nat, st: A64.State<R>, j: nat, st': A64.State<R>) {
    IsBuilt(Arm64, e.patch, e.original, e.dispatcher) ==>
      var (source, ws, page) := (e.patch.address, Arm64Plan.Chunks(e.patch.original), e.original.address);
      var out := Arm64.Relocated(source, page, ws).value;
      && source + 4 * |ws| < W64 && j < |ws| && A64Meaning.Stays(m, source, ws, n, 0, st, j, st')
      && (Arm64.FirstPass(source, page, ws, |ws|).Ok? && A64Meaning.Place(source, page, ws, |ws|) < W64 ==>
            A64Meaning.Returns(m, source, page, ws, out, A64.Step(m, ws[j], source + 4 * j, st')))
  }
  /** The page, run from its start, follows that run and the move after it. */
  ghost predicate RunFollowedArm64<R>(m: A64.Machine<R>, e: Node, n: nat, st: A64.State<R>, j: nat, st': A64.State<R>,
                                      k: nat, l: nat, land: Address, after: A64.State<R>)
  {
    && IsBuilt(Arm64, e.patch, e.original, e.dispatcher)
    && var (source, ws, page) := (e.patch.address, Arm64Plan.Chunks(e.patch.original), e.original.address);
    && var held := Arm64Plan.Chunks(e.original.saved);
    && source + 4 * |ws| < W64 && j < |ws| && Arm64.FirstPass(source, page, ws, |ws|).Ok?
    && A64Meaning.Place(source, page, ws, j) < W64 && A64Meaning.Place(source, page, ws, |ws|) < W64
    && k >= n && A64.Reach(m, page, held, k, page, st, A64Meaning.Place(source, page, ws, j), st')
    && A64Meaning.Mirrors(m, source, page, ws, held, j, st', A64.Step(m, ws[j], source + 4 * j, st'), l, land, after)
  }
  lemma MirrorsLongerArm64<R>(m: A64.Machine<R>, source: Address, page: Address, ws: seq<Word>, out: seq<Word>,
                              more: seq<Word>, j: nat, st: A64.State<R>, move: A64.Move<R>, l: nat, land: Address,
                              after: A64.State<R>)
    requires source + 4 * |ws| < W64 && Arm64.FirstPass(source, page, ws, |ws|).Ok? && j < |ws|
    requires A64Meaning.Place(source, page, ws, j) < W64 && A64Meaning.Place(source, page, ws, |ws|) < W64
    requires A64Meaning.Mirrors(m, source, page, ws, out, j, st, move, l, land, after)
    ensures A64Meaning.Mirrors(m, source, page, ws, out + more, j, st, move, l, land, after)
  {
    hide A64.Reach, A64.Step, Arm64.FirstPass, A64Meaning.Place, A64Meaning.Far;
    A64.ReachLonger(m, page, out, more, l, A64Meaning.Place(source, page, ws, j), st, land, after);
  }
  lemma FollowsArm64<R>(m: A64.Machine<R>, e: Node, n: nat, st: A64.State<R>, j: nat, st': A64.State<R>)
    returns (k: nat, l: nat, land: Address, after: A64.State<R>)
    requires IsBuilt(Arm64, e.patch, e.original, e.dispatcher) && RunServedArm64(m, e, n, st, j, st')
    ensures RunFollowedArm64(m, e, n, st, j, st', k, l, land, after)
  {
    hide Leads, A64.Reach, A64.Step, Arm64.Relocated, Arm64.FirstPass, Arm64Plan.Chunks, Arm64Plan.Pack,
         A64Meaning.Stays, A64Meaning.Returns, A64Meaning.Mirrors, A64Meaning.Place;
    var source, ws, page := e.patch.address, Arm64Plan.Chunks(e.patch.original), e.original.address;
    var out := Arm64.Relocated(source, page, ws).value;
    var held := Arm64Plan.Chunks(e.original.saved);
    Arm64Plan.PackPrefix(out, e.original.saved);
    k, l, land, after := A64Meaning.MeaningPreserved(m, source, page, ws, out, n, st, j, st');
    var more := held[|out|..];
    assert held == out + more;
    A64.ReachLonger(m, page, out, more, k, page, st, A64Meaning.Place(source, page, ws, j), st');
    MirrorsLongerArm64(m, source, page, ws, out, more, j, st', A64.Step(m, ws[j], source + 4 * j, st'), l, land, after);
  }
  /** In every reachable state the saved original of an entry, run from its page, does what the code that
      was there before any patch does. */
  lemma SavedRunsInitialArm64<R>(m: A64.Machine<R>, s: State, i: nat, n: nat, st: A64.State<R>, j: nat,
                                 st': A64.State<R>)
    returns (k: nat, l: nat, land: Address, after: A64.State<R>)
    requires Invariant(s) && Furnished(Arm64, s.nodes) && i < |s.records|
             && RunServedArm64(m, Entry(s, i), n, st, j, st')
    ensures Holds(s.initial, Entry(s, i).patch.address, Entry(s, i).patch.original)
    ensures RunFollowedArm64(m, Entry(s, i), n, st, j, st', k, l, land, after)
  {
    hide Invariant, Furnished, IsBuilt, RunServedArm64, RunFollowedArm64, At, Holds;
    EntryBytes(s, i);
    EntryBuilt(Arm64, s, i);
    k, l, land, after := FollowsArm64(m, Entry(s, i), n, st, j, st');
  }
}
