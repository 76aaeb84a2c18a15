/** Code bytes, disjoint patches and replacement chains in every reachable state. */
module RoutingSafety {
  import opened Words
  import opened Memory
  import opened Routing
  import opened RoutingInvariant

  lemma {:induction false} WithoutInside(routes: seq<Local>, source: nat, x: nat)
    requires forall k | 0 <= k < |routes| :: routes[k].source != x
    ensures forall k | 0 <= k < |Without(routes, source)| :: Without(routes, source)[k].source != x
  {
    if routes != [] {
      WithoutInside(routes[1..], source, x);
    }
  }
  predicate Installation(step: Step) {
    step.Publish? || step.Write? || step.Abandon? || step.Register?
  }
  /** An installation in progress goes on only by its own steps. */
  lemma PendingKept(s: State, step: Step)
    requires Enabled(s, step)
    ensures !Installation(step) ==> Next(s, step).pending == s.pending
    ensures step.Write? ==> s.pending.Some? && Next(s, step).pending == Some(s.pending.value.(written := true))
    ensures step.Abandon? || step.Register? ==> Next(s, step).pending.None?
    ensures step.Join? || step.Publish? ==> s.pending.None?
  {
    hide Holds, CanRoute, CanReplace, NewSource, Clear, Overlay, Without, Retarget, At, MoreSites;
  }
  lemma LocalStays(s: State, step: Step, t: Thread)
    requires Enabled(s, step) && IsLocal(s, t) && step != Close(t)
    ensures IsLocal(Next(s, step), t)
  {
    hide Holds, CanRoute, CanReplace, NewSource, Clear, Overlay, Without, Retarget, At, MoreSites;
  }
  lemma NotClosed(s: State, step: Step)
    requires Enabled(s, step) && s.pending.Some?
    ensures step != Close(s.pending.value.thread)
  {
    hide Holds, CanRoute, CanReplace, NewSource, Clear, At;
  }
  lemma StillPending(s: State, step: Step)
    requires Kept(s) && Enabled(s, step) && s.pending.Some? && Next(s, step).pending.Some? && !step.Publish?
    ensures var n := Next(s, step);
            && n.pending.value.thread == s.pending.value.thread && n.pending.value.node == s.pending.value.node
            && IsLocal(n, n.pending.value.thread) && !step.Register? && !step.Join?
            && At(n.nodes, n.pending.value.node).patch == At(s.nodes, s.pending.value.node).patch
  {
    hide Enabled, Next, At, Extends, Owners, Coming, Globals, Locks;
    PendingKept(s, step);
    NotClosed(s, step);
    LocalStays(s, step, s.pending.value.thread);
    StepExtends(s, step);
    AtStable(s.nodes, Next(s, step).nodes, s.pending.value.node);
  }
  lemma InstallingKept(s: State, step: Step)
    requires Kept(s) && Enabled(s, step)
    ensures Installing(Next(s, step))
  {
    if step.Publish? {
      PublishInstalls(s, step);
    } else if Next(s, step).pending.Some? {
      hide Enabled, Next, Lists, Locks, At;
      PendingKept(s, step);
      StillPending(s, step);
      PendingRoutes(s, step);
    }
  }
  lemma PendingRoutes(s: State, step: Step)
    requires Installing(s) && Enabled(s, step) && s.pending.Some? && !step.Register? && !step.Join?
    ensures var routes := Routes(Next(s, step), s.pending.value.thread);
            forall k | 0 <= k < |routes| :: routes[k].source != At(s.nodes, s.pending.value.node).patch.entry
  {
    var t := s.pending.value.thread;
    RoutesKept(s, step, t);
    if step.Drop? && step.t == t {
      var mine := s.sessions[t].localPatches;
      WithoutInside(Routes(s, t), mine[|mine| - 1], At(s.nodes, s.pending.value.node).patch.entry);
    }
  }
  lemma PublishInstalls(s: State, step: Step)
    requires step.Publish? && Enabled(s, step)
    ensures Installing(Next(s, step))
  {
    hide Holds, Overlay, InPatch, NewSource, Clear;
    var n := Next(s, step);
    assert At(n.nodes, n.pending.value.node).patch == step.patch;
    assert Routes(n, step.t) == Routes(s, step.t);
  }

  // Code memory

  /** Memory with patches written in order. */
  ghost function OverlayAll(m: map<int, Byte>, patches: seq<Patch>): (r: map<int, Byte>)
    ensures r.Keys == m.Keys
  {
    if patches == [] then m
    else
      var last := patches[|patches| - 1];
      Overlay(OverlayAll(m, patches[..|patches| - 1]), last.address, last.replacement)
  }
  ghost function Entries(nodes: seq<Node>, records: seq<Record>): seq<Patch> {
    seq(|records|, i requires 0 <= i < |records| => At(nodes, records[i].node).patch)
  }
  ghost function Window(nodes: seq<Node>, pending: Option<Pending>): seq<Patch> {
    if pending.Some? && pending.value.written then [At(nodes, pending.value.node).patch] else []
  }
  ghost function Raws(raws: seq<Raw>): seq<Patch> {
    seq(|raws|, k requires 0 <= k < |raws| => raws[k].patch)
  }
  function Installed(sessions: map<Thread, Session>, writer: Option<Thread>): seq<Raw> {
    if writer.Some? && writer.value in sessions then sessions[writer.value].patches else []
  }
  /** The routing entries, an entry between its write and its registration, and the global session's patches. */
  ghost function Live(s: State): seq<Patch> {
    Entries(s.nodes, s.records) + Window(s.nodes, s.pending) + Raws(Installed(s.sessions, s.writer))
  }
  /** Each patch saved the bytes that were there when it was made, and overlaps none of the earlier ones. */
  ghost predicate Stacked(m: map<int, Byte>, patches: seq<Patch>) {
    patches != [] ==>
      var less, last := patches[..|patches| - 1], patches[|patches| - 1];
      Stacked(m, less) && Proper(last) && Holds(OverlayAll(m, less), last.address, last.original) && Avoids(less, last)
  }
  ghost predicate Avoids(patches: seq<Patch>, patch: Patch) {
    forall i | 0 <= i < |patches| :: !Overlaps(patches[i], patch)
  }
  ghost predicate Code(initial: map<int, Byte>, code: map<int, Byte>, patches: seq<Patch>) {
    code == OverlayAll(initial, patches) && Stacked(initial, patches)
  }

  lemma CodePushed(initial: map<int, Byte>, code: map<int, Byte>, patches: seq<Patch>, patch: Patch)
    requires Code(initial, code, patches) && Proper(patch) && Holds(code, patch.address, patch.original)
    requires Avoids(patches, patch)
    ensures Code(initial, Overlay(code, patch.address, patch.replacement), patches + [patch])
  {
    hide Overlay, Holds, Avoids, Proper;
    assert (patches + [patch])[..|patches|] == patches;
  }
  lemma CodePopped(initial: map<int, Byte>, code: map<int, Byte>, patches: seq<Patch>)
    requires Code(initial, code, patches) && patches != []
    ensures var last := patches[|patches| - 1];
            && Code(initial, Overlay(code, last.address, last.original), patches[..|patches| - 1])
            && Holds(code, last.address, last.replacement)
  {
    var less, last := patches[..|patches| - 1], patches[|patches| - 1];
    OverlayUndone(OverlayAll(initial, less), last.address, last.original, last.replacement);
  }
  predicate Spans(p: Patch, a: int) {
    p.address <= a < End(p)
  }
  /** Written bytes are those of the patch that covers them. */
  lemma {:induction false} CodeInside(initial: map<int, Byte>, patches: seq<Patch>, k: nat, a: int)
    requires Stacked(initial, patches) && a in initial && k < |patches| && Spans(patches[k], a)
    ensures Proper(patches[k]) && OverlayAll(initial, patches)[a] == patches[k].replacement[a - patches[k].address]
  {
    hide Holds;
    var less, last := patches[..|patches| - 1], patches[|patches| - 1];
    if k < |less| {
      CodeInside(initial, less, k, a);
      assert !Overlaps(less[k], last);
    }
  }
  /** All other bytes are the initial ones. */
  lemma {:induction false} CodeOutside(initial: map<int, Byte>, patches: seq<Patch>, a: int)
    requires Stacked(initial, patches) && a in initial
    requires forall k | 0 <= k < |patches| :: !Spans(patches[k], a)
    ensures OverlayAll(initial, patches)[a] == initial[a]
  {
    hide Holds, Avoids;
    if patches != [] {
      CodeOutside(initial, patches[..|patches| - 1], a);
      assert !Spans(patches[|patches| - 1], a);
    }
  }
  lemma {:induction false} Apart(initial: map<int, Byte>, patches: seq<Patch>, i: nat, j: nat)
    requires Stacked(initial, patches) && i < j < |patches|
    ensures !Overlaps(patches[i], patches[j]) && Proper(patches[j])
  {
    hide Holds, Overlaps, Proper, OverlayAll;
    var less := patches[..|patches| - 1];
    if j == |less| {
      assert less[i] == patches[i];
    } else {
      Apart(initial, less, i, j);
    }
  }
  /** What a patch saved is what was there before any patch. */
  lemma {:induction false} SavedInitial(initial: map<int, Byte>, patches: seq<Patch>, k: nat)
    requires Stacked(initial, patches) && k < |patches|
    ensures Proper(patches[k]) && Holds(initial, patches[k].address, patches[k].original)
  {
    hide Holds, Proper, Avoids;
    var less := patches[..|patches| - 1];
    if k < |less| {
      SavedInitial(initial, less, k);
    } else {
      LastSaved(initial, less, patches[k]);
    }
  }
  lemma LastSaved(initial: map<int, Byte>, patches: seq<Patch>, p: Patch)
    requires Stacked(initial, patches) && Avoids(patches, p)
             && Holds(OverlayAll(initial, patches), p.address, p.original)
    ensures Holds(initial, p.address, p.original)
  {
    hide OverlayAll, Stacked;
    forall a | p.address <= a < p.address + |p.original|
      ensures a in initial && initial[a] == p.original[a - p.address]
    {
      assert a in OverlayAll(initial, patches);
      forall i | 0 <= i < |patches| ensures !Spans(patches[i], a) {
        assert !Overlaps(patches[i], p);
      }
      CodeOutside(initial, patches, a);
    }
  }

  lemma InstalledKept(s: State, step: Step)
    requires Enabled(s, step) && Locks(s.sessions, s.writer)
    ensures var n := Next(s, step);
            !step.Install? && !step.Restore? ==>
              Installed(n.sessions, n.writer) == Installed(s.sessions, s.writer) && (step.Write? || n.code == s.code)
  {
    hide Holds, CanRoute, CanReplace, NewSource, Clear, Overlay, Without, Retarget, At, MoreSites;
  }
  lemma WindowKept(s: State, step: Step)
    requires Enabled(s, step) && Kept(s) && !step.Register?
    ensures var n := Next(s, step);
            && (step.Write? ==> s.pending.Some?)
            && Window(n.nodes, n.pending) ==
               (if step.Write? then [At(s.nodes, s.pending.value.node).patch] else Window(s.nodes, s.pending))
            && (step.Write? ==> Window(s.nodes, s.pending) == [])
  {
    hide Enabled, Next, Kept, At;
    PendingKept(s, step);
    if step.Publish? || step.Write? || step.Abandon? {
      Unwritten(s, step);
    }
    if !step.Publish? && s.pending.Some? && Next(s, step).pending.Some? {
      StillPending(s, step);
    }
  }
  lemma Unwritten(s: State, step: Step)
    requires Enabled(s, step) && (step.Publish? || step.Write? || step.Abandon?)
    ensures s.pending.Some? ==> !s.pending.value.written
    ensures step.Publish? ==> Next(s, step).pending.Some? && !Next(s, step).pending.value.written
  {
    hide Holds, CanRoute, NewSource, Clear, Overlay, At;
  }
  lemma EntriesKept(s: State, step: Step)
    requires Enabled(s, step) && Kept(s)
    ensures var n := Next(s, step);
            Entries(n.nodes, n.records) == Entries(s.nodes, s.records)
              + if step.Register? then [At(s.nodes, s.pending.value.node).patch] else []
  {
    hide Enabled, Next, Locks, Installing, Globals, Owners, Coming, At, Extends;
    var n := Next(s, step);
    RecordCount(s, step);
    StepExtends(s, step);
    forall i | 0 <= i < |s.records|
      ensures At(n.nodes, n.records[i].node).patch == At(s.nodes, s.records[i].node).patch
    {
      RecordsKept(s, step, i);
      AtStable(s.nodes, n.nodes, s.records[i].node);
    }
  }
  lemma RecordCount(s: State, step: Step)
    requires Enabled(s, step)
    ensures var n := Next(s, step);
            && |n.records| == |s.records| + (if step.Register? then 1 else 0)
            && (step.Register? ==>
                  && n.nodes == s.nodes && n.pending.None?
                  && n.records[|s.records|].node == s.pending.value.node)
  {
    hide Holds, CanRoute, CanReplace, NewSource, Clear, Overlay, Without, Retarget, At;
  }
  /** Only three steps change which patches are live, and none but they change code. */
  lemma LiveKept(s: State, step: Step)
    requires Enabled(s, step) && Kept(s) && !step.Write? && !step.Install? && !step.Restore?
    ensures Live(Next(s, step)) == Live(s) && Next(s, step).code == s.code
  {
    hide Enabled, Next, Lists, Installing, Locks, Entries, Raws, Installed, Window, At;
    InstalledKept(s, step);
    EntriesKept(s, step);
    RecordCount(s, step);
    if step.Register? {
      RegisterWindow(s, step);
    } else {
      WindowKept(s, step);
    }
  }
  lemma RegisterWindow(s: State, step: Step)
    requires Enabled(s, step) && step.Register?
    ensures Window(s.nodes, s.pending) == [At(s.nodes, s.pending.value.node).patch]
    ensures Window(Next(s, step).nodes, Next(s, step).pending) == []
  {
    hide At;
  }
  lemma WriteLive(s: State, step: Step)
    requires Enabled(s, step) && Kept(s) && step.Write?
    ensures s.pending.Some?
    ensures var patch := At(s.nodes, s.pending.value.node).patch;
            && Live(Next(s, step)) == Live(s) + [patch] && Proper(patch) && Avoids(Live(s), patch)
            && Holds(s.code, patch.address, patch.original)
            && Next(s, step).code == Overlay(s.code, patch.address, patch.replacement)
  {
    InstalledKept(s, step);
    EntriesKept(s, step);
    WindowKept(s, step);
    assert Installed(s.sessions, s.writer) == [];
    hide Holds, Overlay, Locks, Globals, Owners, Shape, At, Installed, Window, InPatch;
  }
  lemma InstallLive(s: State, step: Step)
    requires Enabled(s, step) && Kept(s) && step.Install?
    ensures Live(Next(s, step)) == Live(s) + [step.patch] && Avoids(Live(s), step.patch)
    ensures Proper(step.patch) && Holds(s.code, step.patch.address, step.patch.original)
    ensures Next(s, step).code == Overlay(s.code, step.patch.address, step.patch.replacement)
  {
    EntriesKept(s, step);
    WindowKept(s, step);
    WriterIs(s, step.t);
    hide Holds, Overlay, Locks, Globals, Owners, Shape, At, Window, InPatch, CanReplace, NewSource;
    var mine := s.sessions[step.t].patches;
    assert Raws(mine + [Raw(step.patch, step.target, s.clock)]) == Raws(mine) + [step.patch];
    forall i | 0 <= i < |Live(s)| ensures !Overlaps(Live(s)[i], step.patch) {
      InstallAvoids(s, step, i);
    }
  }
  lemma InstallAvoids(s: State, step: Step, i: nat)
    requires Enabled(s, step) && step.Install? && s.pending.None? && s.writer == Some(step.t) && i < |Live(s)|
    ensures !Overlaps(Live(s)[i], step.patch)
  {
    hide Holds, Overlay, At, InPatch, CanReplace, NewSource;
    var n := |s.records|;
    if i < n {
      assert Live(s)[i] == Entry(s, i).patch && !Overlaps(step.patch, Entry(s, i).patch);
    } else {
      assert Live(s)[i] == s.sessions[step.t].patches[i - n].patch;
    }
  }
  lemma RestoreLive(s: State, step: Step)
    requires Enabled(s, step) && Kept(s) && step.Restore?
    ensures var mine := s.sessions[step.t].patches;
            && Live(s) != [] && Live(s)[|Live(s)| - 1] == mine[|mine| - 1].patch
            && Live(Next(s, step)) == Live(s)[..|Live(s)| - 1]
            && Next(s, step).code == Overlay(s.code, mine[|mine| - 1].patch.address, mine[|mine| - 1].patch.original)
  {
    EntriesKept(s, step);
    WindowKept(s, step);
    WriterIs(s, step.t);
    hide Holds, Overlay, Locks, Globals, Owners, Shape, At, Window;
    var mine := s.sessions[step.t].patches;
    assert Raws(mine) == Raws(mine[..|mine| - 1]) + [mine[|mine| - 1].patch];
  }
  lemma CodeKept(s: State, step: Step)
    requires Enabled(s, step) && Kept(s) && Code(s.initial, s.code, Live(s))
    ensures Code(s.initial, Next(s, step).code, Live(Next(s, step)))
  {
    hide Enabled, Next, Kept, Live, Code, Overlay, Holds, At, Proper, Avoids;
    if step.Write? {
      WriteLive(s, step);
      CodePushed(s.initial, s.code, Live(s), At(s.nodes, s.pending.value.node).patch);
    } else if step.Install? {
      InstallLive(s, step);
      CodePushed(s.initial, s.code, Live(s), step.patch);
    } else if step.Restore? {
      RestoreLive(s, step);
      CodePopped(s.initial, s.code, Live(s));
    } else {
      LiveKept(s, step);
    }
  }

  // Replacement chains

  ghost predicate LocalEdge(routes: seq<Local>, x: nat, y: nat, stamp: nat) {
    exists k :: 0 <= k < |routes| && routes[k].source == x && routes[k].target == y && routes[k].stamp == stamp
  }
  ghost predicate RawEdge(raws: seq<Raw>, x: nat, y: nat, stamp: nat) {
    exists k :: 0 <= k < |raws| && raws[k].patch.entry == x && raws[k].target == y && raws[k].stamp == stamp
  }
  ghost predicate GlobalEdge(nodes: seq<Node>, x: nat, y: nat, stamp: nat) {
    exists p ::
      1 <= p <= |nodes| && At(nodes, p).patch.entry == x && At(nodes, p).global == y != 0 && At(nodes, p).stamp == stamp
  }
  /** A call to `x` on thread `t` is replaced by a call to `y`. */
  ghost predicate Edge(s: State, t: Thread, x: nat, y: nat, stamp: nat) {
    || LocalEdge(Routes(s, t), x, y, stamp)
    || RawEdge(Installed(s.sessions, s.writer), x, y, stamp)
    || GlobalEdge(s.nodes, x, y, stamp)
  }
  /** Replacements are stamped in installation order, and chains only lead to later ones. */
  ghost predicate Ordered(s: State) {
    && (forall t: Thread, x: nat, y: nat, n: nat :: Edge(s, t, x, y, n) ==> n < s.clock)
    && (forall t: Thread, x: nat, y: nat, z: nat, m: nat, n: nat ::
          Edge(s, t, x, y, m) && Edge(s, t, y, z, n) ==> m < n)
  }

  ghost predicate Known(s: State, x: nat) {
    || (exists i :: 0 <= i < |s.records| && At(s.nodes, s.records[i].node).patch.entry == x)
    || (exists k :: 0 <= k < |Installed(s.sessions, s.writer)| && Installed(s.sessions, s.writer)[k].patch.entry == x)
  }
  lemma SourceKnown(s: State, t: Thread, x: nat, y: nat, n: nat)
    requires Kept(s) && Locals(s) && Edge(s, t, x, y, n)
    ensures Known(s, x)
  {
    hide Shape, Owners, Coming, Locks, Installing, At, Matches, Installed, Routes, AllTargeted;
    if LocalEdge(Routes(s, t), x, y, n) {
      assert Routed(s.nodes, s.records, Routes(s, t));
    } else if GlobalEdge(s.nodes, x, y, n) {
      var p :| && 1 <= p <= |s.nodes| && At(s.nodes, p).patch.entry == x && At(s.nodes, p).global == y != 0
               && At(s.nodes, p).stamp == n;
      assert IsRecord(s.records, p);
    }
  }
  lemma EntryProper(s: State, i: nat)
    requires Code(s.initial, s.code, Live(s)) && i < |s.records|
    ensures InPatch(Entry(s, i).patch, Entry(s, i).patch.entry)
  {
    assert Live(s)[i] == Entry(s, i).patch;
    hide Code, Stacked, At;
    StackedOf(s);
    SavedInitial(s.initial, Live(s), i);
  }
  lemma StackedOf(s: State)
    requires Code(s.initial, s.code, Live(s))
    ensures Stacked(s.initial, Live(s))
  {
  }
  predicate Installs(step: Step) {
    step.Register? || step.Join? || step.SetGlobal? || step.Install?
  }
  ghost function NewSourceOf(s: State, step: Step): nat
    requires Installs(step) && Enabled(s, step)
  {
    match step
    case Register(_) => At(s.nodes, s.pending.value.node).patch.entry
    case Join(_, i, _, _) => Entry(s, i).patch.entry
    case SetGlobal(_, i, _) => Entry(s, i).patch.entry
    case Install(_, patch, _) => patch.entry
  }
  ghost function NewTargetOf(s: State, step: Step): nat
    requires Installs(step) && Enabled(s, step)
  {
    match step
    case Register(_) => s.pending.value.target
    case Join(_, _, _, target) => target
    case SetGlobal(_, _, target) => target
    case Install(_, _, target) => target
  }
  /** A new replacement leads to a function that nothing replaces. */
  lemma NewTargetUnknown(s: State, step: Step)
    requires Kept(s) && Code(s.initial, s.code, Live(s)) && Enabled(s, step) && Installs(step)
    ensures !Known(s, NewTargetOf(s, step)) && NewSourceOf(s, step) != NewTargetOf(s, step)
  {
    hide Enabled, Kept, Code, Live, At, NewTargetOf, NewSourceOf, Installed;
    var target := NewTargetOf(s, step);
    forall i | 0 <= i < |s.records| ensures At(s.nodes, s.records[i].node).patch.entry != target {
      EntryProper(s, i);
      TargetOutside(s, step, i);
    }
    forall k | 0 <= k < |Installed(s.sessions, s.writer)|
      ensures Installed(s.sessions, s.writer)[k].patch.entry != target
    {
      RawOutside(s, step, k);
    }
    NewEdgeMoves(s, step);
  }
  lemma NewEdgeMoves(s: State, step: Step)
    requires Kept(s) && Enabled(s, step) && Installs(step)
    ensures NewSourceOf(s, step) != NewTargetOf(s, step)
  {
    hide Holds, Shape, Owners, Globals, Locks, Installing, Overlaps, InPatch, At, NewSource, Clear;
  }
  lemma TargetOutside(s: State, step: Step, i: nat)
    requires Kept(s) && Enabled(s, step) && Installs(step) && i < |s.records|
    ensures !InPatch(Entry(s, i).patch, NewTargetOf(s, step))
  {
    hide Holds, Shape, Owners, Globals, Locks, Installing, Overlaps, InPatch, At, NewSource, Clear;
  }
  lemma RawOutside(s: State, step: Step, k: nat)
    requires Kept(s) && Code(s.initial, s.code, Live(s)) && Enabled(s, step) && Installs(step)
             && k < |Installed(s.sessions, s.writer)|
    ensures Installed(s.sessions, s.writer)[k].patch.entry != NewTargetOf(s, step)
  {
    StackedOf(s);
    RawProper(s, k);
    if step.Register? || step.Join? {
      LocalHasNone(s, step);
    } else {
      WriterIs(s, step.t);
    }
    hide Holds, Code, Stacked, Shape, Owners, Globals, Installing, Overlaps, At, NewSource, Clear, Live;
  }
  lemma RawProper(s: State, k: nat)
    requires Stacked(s.initial, Live(s)) && k < |Installed(s.sessions, s.writer)|
    ensures Proper(Installed(s.sessions, s.writer)[k].patch)
  {
    hide Stacked, At, Installed;
    var i := |Entries(s.nodes, s.records)| + |Window(s.nodes, s.pending)| + k;
    assert Live(s)[i] == Installed(s.sessions, s.writer)[k].patch;
    SavedInitial(s.initial, Live(s), i);
  }
  lemma LocalHasNone(s: State, step: Step)
    requires Kept(s) && Enabled(s, step) && (step.Register? || step.Join?)
    ensures Installed(s.sessions, s.writer) == []
  {
    hide Holds, Lists, At, CanRoute;
  }

  /** Steps make no replacement but the one they install, and that only for whom it is meant. */
  ghost predicate OldOrNew(s: State, step: Step, t: Thread, x: nat, y: nat, n: nat)
    requires Enabled(s, step)
  {
    || Edge(s, t, x, y, n)
    || (Installs(step) && x == NewSourceOf(s, step) && y == NewTargetOf(s, step) && n == s.clock)
  }
  lemma LocalEdgeKept(s: State, step: Step, t: Thread, x: nat, y: nat, n: nat)
    requires Enabled(s, step) && Locals(s) && LocalEdge(Routes(Next(s, step), t), x, y, n)
    ensures OldOrNew(s, step, t, x, y, n)
  {
    if Reroutes(step) && t == step.t {
      var routes := Routes(s, t);
      assert Routed(s.nodes, s.records, routes) && Matches(routes, Sources(s.sessions, t));
      if step.Drop? {
        WithoutLast(routes, s.sessions[t].localPatches[|routes| - 1]);
      }
      hide Holds, CanRoute, Without, Overlay, MoreSites, At, Routed, Matches;
    } else {
      RoutesKept(s, step, t);
    }
  }
  lemma RawEdgeKept(s: State, step: Step, t: Thread, x: nat, y: nat, n: nat)
    requires Enabled(s, step) && Kept(s) && RawEdge(Installed(Next(s, step).sessions, Next(s, step).writer), x, y, n)
    ensures OldOrNew(s, step, t, x, y, n)
  {
    hide Holds, CanRoute, CanReplace, NewSource, Clear, Without, Overlay, MoreSites, At, Lists, Retarget;
    if step.Install? || step.Restore? {
      WriterIs(s, step.t);
    } else {
      InstalledKept(s, step);
    }
  }
  lemma GlobalEdgeKept(s: State, step: Step, t: Thread, x: nat, y: nat, n: nat)
    requires Enabled(s, step) && Kept(s) && GlobalEdge(Next(s, step).nodes, x, y, n)
    ensures OldOrNew(s, step, t, x, y, n)
  {
    var after := Next(s, step).nodes;
    var p :| && 1 <= p <= |after| && At(after, p).patch.entry == x && At(after, p).global == y != 0
             && At(after, p).stamp == n;
    NodeKept(s, step, p);
    hide Enabled, Next, Kept, At;
    assert At(s.nodes, p) == At(after, p) ==> GlobalEdge(s.nodes, x, y, n);
  }
  lemma NodeKept(s: State, step: Step, p: nat)
    requires Enabled(s, step) && Kept(s) && 1 <= p <= |Next(s, step).nodes| && At(Next(s, step).nodes, p).global != 0
    ensures var node := At(Next(s, step).nodes, p);
            || (p <= |s.nodes| && node == At(s.nodes, p))
            || (&& step.SetGlobal? && node.patch.entry == NewSourceOf(s, step)
                && node.global == NewTargetOf(s, step) && node.stamp == s.clock)
  {
    hide Holds, CanRoute, CanReplace, NewSource, Clear, Without, Overlay, MoreSites, Owners, Globals, Coming, Locks,
         Installing;
  }
  lemma EdgeKept(s: State, step: Step, t: Thread, x: nat, y: nat, n: nat)
    requires Enabled(s, step) && Kept(s) && Locals(s) && Edge(Next(s, step), t, x, y, n)
    ensures OldOrNew(s, step, t, x, y, n)
  {
    hide Enabled, Next, Kept, Locals, OldOrNew, LocalEdge, RawEdge, GlobalEdge, Routes, Installed;
    if LocalEdge(Routes(Next(s, step), t), x, y, n) {
      LocalEdgeKept(s, step, t, x, y, n);
    } else if RawEdge(Installed(Next(s, step).sessions, Next(s, step).writer), x, y, n) {
      RawEdgeKept(s, step, t, x, y, n);
    } else {
      GlobalEdgeKept(s, step, t, x, y, n);
    }
  }
  lemma ClockKept(s: State, step: Step)
    requires Enabled(s, step)
    ensures Next(s, step).clock == s.clock + if Installs(step) then 1 else 0
    ensures Next(s, step).initial == s.initial
  {
    hide Holds, CanRoute, CanReplace, NewSource, Clear, Without, Overlay, MoreSites, At, Retarget;
  }
  lemma OrderedKept(s: State, step: Step)
    requires Enabled(s, step) && Kept(s) && Locals(s) && Code(s.initial, s.code, Live(s)) && Ordered(s)
    ensures Ordered(Next(s, step))
  {
    hide Enabled, Next, Kept, Locals, Edge, Code, Live, Known, NewSourceOf, NewTargetOf;
    var next := Next(s, step);
    ClockKept(s, step);
    if Installs(step) {
      NewTargetUnknown(s, step);
    }
    forall t: Thread, x: nat, y: nat, n: nat | Edge(next, t, x, y, n) ensures n < next.clock {
      EdgeKept(s, step, t, x, y, n);
    }
    forall t: Thread, x: nat, y: nat, z: nat, m: nat, n: nat | Edge(next, t, x, y, m) && Edge(next, t, y, z, n)
      ensures m < n
    {
      EdgeKept(s, step, t, x, y, m);
      EdgeKept(s, step, t, y, z, n);
      if Edge(s, t, y, z, n) {
        SourceKnown(s, t, y, z, n);
      }
    }
  }

  // Every run

  ghost predicate Invariant(s: State) {
    Kept(s) && Locals(s) && Readers(s.nodes, s.readers) && Code(s.initial, s.code, Live(s)) && Ordered(s)
  }
  ghost predicate Initial(s: State) {
    && s.code == s.initial && s.nodes == [] && s.head == 0 && s.records == [] && s.pending.None?
    && s.routes == map[] && s.sessions == map[] && s.writer.None? && s.readers == map[]
  }
  lemma InitialInvariant(s: State)
    requires Initial(s)
    ensures Invariant(s)
  {
    assert Live(s) == [];
  }
  lemma InvariantKept(s: State, step: Step)
    requires Invariant(s) && Enabled(s, step)
    ensures Invariant(Next(s, step))
  {
    hide Enabled, Next, Lists, Locks, Installing, Locals, Readers, Code, Ordered, Live;
    ShapeOf(s);
    ListsKept(s, step);
    LocksKept(s, step);
    InstallingKept(s, step);
    LocalsKept(s, step);
    ReadersKept(s, step);
    CodeKept(s, step);
    ClockKept(s, step);
    OrderedKept(s, step);
  }
  lemma ShapeOf(s: State)
    requires Lists(s)
    ensures Shape(s.nodes, s.head, s.records, s.pending)
  {
  }
  /** The state after a run, if every step of it was enabled. */
  ghost function Run(s: State, steps: seq<Step>): Option<State>
    decreases |steps|
  {
    if steps == [] then Some(s)
    else if Enabled(s, steps[0]) then Run(Next(s, steps[0]), steps[1..])
    else None
  }
  lemma {:induction false} RunKeeps(s: State, steps: seq<Step>)
    requires Invariant(s) && Run(s, steps).Some?
    ensures Invariant(Run(s, steps).value)
    decreases |steps|
  {
    hide Enabled, Next, Invariant;
    if steps != [] {
      InvariantKept(s, steps[0]);
      RunKeeps(Next(s, steps[0]), steps[1..]);
    }
  }
  lemma {:induction false} RunMore(s: State, steps: seq<Step>, step: Step)
    requires Run(s, steps).Some? && Enabled(Run(s, steps).value, step)
    ensures Run(s, steps + [step]) == Some(Next(Run(s, steps).value, step))
    decreases |steps|
  {
    hide Enabled, Next;
    if steps == [] {
      assert Run(Next(s, step), []) == Some(Next(s, step));
    } else {
      assert (steps + [step])[1..] == steps[1..] + [step];
      RunMore(Next(s, steps[0]), steps[1..], step);
    }
  }
  lemma {:induction false} RunJoin(s: State, steps: seq<Step>, more: seq<Step>)
    requires Run(s, steps).Some?
    ensures Run(s, steps + more) == Run(Run(s, steps).value, more)
    decreases |steps|
  {
    hide Enabled, Next;
    if steps == [] {
      assert steps + more == more;
    } else {
      assert (steps + more)[1..] == steps[1..] + more;
      RunJoin(Next(s, steps[0]), steps[1..], more);
    }
  }
  /** A patch of the global session can always be taken back, also after a failed attempt. */
  lemma RestoreEnabled(s: State, t: Thread)
    requires Invariant(s) && t in s.sessions && s.sessions[t].patches != []
    ensures Enabled(s, Restore(t))
  {
    WriterIs(s, t);
    hide Locals, Readers, Ordered, Lists, Locks, Installing, Stacked, OverlayAll, Holds;
    var mine := s.sessions[t].patches;
    assert Raws(mine) == Raws(mine[..|mine| - 1]) + [mine[|mine| - 1].patch];
    assert Live(s)[|Live(s)| - 1] == mine[|mine| - 1].patch;
    CodePopped(s.initial, s.code, Live(s));
  }
}
