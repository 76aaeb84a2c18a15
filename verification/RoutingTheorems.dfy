/** What callers rely on: code bytes, call resolution, publication order and chains, over every run. */
module RoutingTheorems {
  import opened Words
  import opened Memory
  import opened Routing
  import opened RoutingInvariant
  import opened RoutingSafety

  // Code memory

  ghost predicate ByteIs(s: State, a: int)
    requires a in s.initial && a in s.code
  {
    && (forall k | 0 <= k < |Live(s)| && Spans(Live(s)[k], a) ::
          Proper(Live(s)[k]) && s.code[a] == Live(s)[k].replacement[a - Live(s)[k].address])
    && ((forall k | 0 <= k < |Live(s)| :: !Spans(Live(s)[k], a)) ==> s.code[a] == s.initial[a])
  }
  lemma CodeBytes(s: State, a: int)
    requires Invariant(s) && a in s.initial
    ensures a in s.code && ByteIs(s, a)
  {
    hide Live, Stacked, Kept, Locals, Readers, Ordered, OverlayAll;
    forall k | 0 <= k < |Live(s)| && Spans(Live(s)[k], a)
      ensures Proper(Live(s)[k]) && s.code[a] == Live(s)[k].replacement[a - Live(s)[k].address]
    {
      CodeInside(s.initial, Live(s), k, a);
    }
    if forall k | 0 <= k < |Live(s)| :: !Spans(Live(s)[k], a) {
      CodeOutside(s.initial, Live(s), a);
    }
  }
  lemma PatchesApart(s: State, i: nat, j: nat)
    requires Invariant(s) && i < j < |Live(s)|
    ensures !Overlaps(Live(s)[i], Live(s)[j])
  {
    hide Live, Stacked, Kept, Locals, Readers, Ordered, OverlayAll, Overlaps;
    Apart(s.initial, Live(s), i, j);
  }
  /** In every reachable state code is the initial code with exactly the live patches, which are disjoint. */
  lemma CodeInEveryState(start: State, steps: seq<Step>)
    requires Initial(start) && Run(start, steps).Some?
    ensures var s := Run(start, steps).value;
            && s.initial == start.initial
            && (forall a | a in start.initial :: a in s.code && ByteIs(s, a))
            && (forall i, j | 0 <= i < j < |Live(s)| :: !Overlaps(Live(s)[i], Live(s)[j]))
  {
    InitialInvariant(start);
    hide Initial, Run, Live, Invariant, ByteIs, Overlaps;
    RunKeeps(start, steps);
    RunInitial(start, steps);
    var s := Run(start, steps).value;
    forall a | a in start.initial ensures a in s.code && ByteIs(s, a) {
      CodeBytes(s, a);
    }
    forall i, j | 0 <= i < j < |Live(s)| ensures !Overlaps(Live(s)[i], Live(s)[j]) {
      PatchesApart(s, i, j);
    }
  }
  lemma {:induction false} RunInitial(s: State, steps: seq<Step>)
    requires Run(s, steps).Some?
    ensures Run(s, steps).value.initial == s.initial
    decreases |steps|
  {
    hide Enabled, Next;
    if steps != [] {
      ClockKept(s, steps[0]);
      RunInitial(Next(s, steps[0]), steps[1..]);
    }
  }

  lemma WriterAlone(s: State, step: Step, t: Thread)
    requires Kept(s) && s.writer == Some(t) && Enabled(s, step) && step != Close(t)
    ensures Next(s, step).writer == Some(t) && Next(s, step).records == s.records
  {
    NoLocal(s, t, step.t);
    hide Holds, CanRoute, CanReplace, NewSource, Clear, Overlay, Without, Retarget, At, MoreSites, Kept, IsLocal,
         IsGlobal;
  }
  lemma NoLocal(s: State, t: Thread, u: Thread)
    requires Kept(s) && s.writer == Some(t)
    ensures s.pending.None? && !IsLocal(s, u) && t in s.sessions && (u in s.sessions ==> u == t)
  {
    hide Lists;
  }
  lemma {:induction false} SessionRun(s: State, steps: seq<Step>, t: Thread)
    requires Invariant(s) && s.writer == Some(t) && Run(s, steps).Some? && Close(t) !in steps
    ensures var end := Run(s, steps).value;
            && end.writer == Some(t) && end.records == s.records && Invariant(end)
            && end.initial == s.initial && Entries(end.nodes, end.records) == Entries(s.nodes, s.records)
    decreases |steps|
  {
    hide Enabled, Next, Kept, Locals, Readers, Code, Ordered, Entries;
    if steps != [] {
      WriterAlone(s, steps[0], t);
      WriterEntries(s, steps[0]);
      InvariantKept(s, steps[0]);
      ClockKept(s, steps[0]);
      SessionRun(Next(s, steps[0]), steps[1..], t);
    }
  }
  lemma WriterEntries(s: State, step: Step)
    requires Kept(s) && Enabled(s, step) && Next(s, step).records == s.records
    ensures Entries(Next(s, step).nodes, s.records) == Entries(s.nodes, s.records)
  {
    EntriesKept(s, step);
    RecordCount(s, step);
    hide Enabled, Next, Kept;
  }
  /** Without a global session or an unfinished installation, only the routing entries change code. */
  lemma OnlyEntries(s: State)
    requires Invariant(s) && s.writer.None? && s.pending.None?
    ensures s.code == OverlayAll(s.initial, Entries(s.nodes, s.records)) && s.head == Last(s.records)
    ensures forall p | 1 <= p <= |s.nodes| :: At(s.nodes, p).global == 0
  {
    assert Live(s) == Entries(s.nodes, s.records);
    assert Listed(s.sessions, s.writer) == [];
    hide Entries, OverlayAll, Owners, Locks, Locals, Ordered, Readers, Stacked;
  }
  /** A finished global session leaves no trace: the same code, list of entries and no global target. */
  lemma NoTrace(s: State, t: Thread, steps: seq<Step>)
    requires Invariant(s) && Enabled(s, Open(t, false)) && Close(t) !in steps
    requires Run(Next(s, Open(t, false)), steps).Some? && Enabled(Run(Next(s, Open(t, false)), steps).value, Close(t))
    ensures var end := Next(Run(Next(s, Open(t, false)), steps).value, Close(t));
            && end.code == s.code && end.records == s.records && end.head == s.head
            && (forall p | 1 <= p <= |end.nodes| :: At(end.nodes, p).global == 0)
  {
    var during := Next(s, Open(t, false));
    OpenFrame(s, t);
    InvariantKept(s, Open(t, false));
    SessionRun(during, steps, t);
    var last := Run(during, steps).value;
    CloseFrame(last, t);
    InvariantKept(last, Close(t));
    OnlyEntries(s);
    OnlyEntries(Next(last, Close(t)));
  }
  lemma OpenFrame(s: State, t: Thread)
    requires Invariant(s) && Enabled(s, Open(t, false))
    ensures var n := Next(s, Open(t, false));
            && n.writer == Some(t) && n.records == s.records && n.nodes == s.nodes && n.initial == s.initial
            && s.writer.None? && s.pending.None?
  {
    hide Lists, Locals, Readers, Code, Ordered;
  }
  lemma CloseFrame(s: State, t: Thread)
    requires Invariant(s) && Enabled(s, Close(t)) && s.writer == Some(t)
    ensures var n := Next(s, Close(t));
            && n.writer.None? && n.pending.None? && n.records == s.records && n.nodes == s.nodes
            && n.initial == s.initial
  {
    hide Lists, Locals, Readers, Code, Ordered;
  }

  // Call resolution

  /** What the thread's own table says for a dispatcher. */
  function LocalTarget(routes: seq<Local>, dispatcher: nat): Option<nat> {
    if routes == [] then None
    else if routes[0].dispatcher == dispatcher then Some(routes[0].target)
    else LocalTarget(routes[1..], dispatcher)
  }
  function Shared(node: Node): nat {
    if node.global == 0 then node.original.address else node.global
  }
  ghost function Fallback(s: State, dispatcher: nat): Option<nat> {
    var p := Find(s.nodes, s.head, dispatcher);
    if p == 0 then None else Some(Shared(At(s.nodes, p)))
  }
  /** The address that `route` returns on a thread. */
  ghost function Resolve(s: State, t: Thread, dispatcher: nat): Option<nat> {
    var own := LocalTarget(Routes(s, t), dispatcher);
    if own.Some? && own.value != dispatcher then own else Fallback(s, dispatcher)
  }

  /** A record's dispatcher leads to that record, from the newest record on. */
  lemma {:induction false} FindRecord(nodes: seq<Node>, records: seq<Record>, n: nat, i: nat)
    requires Linked(nodes) && Recorded(nodes, records) && Owners(nodes, records) && i < n <= |records|
    ensures Find(nodes, records[n - 1].node, At(nodes, records[i].node).dispatcher) == records[i].node
  {
    var p := records[n - 1].node;
    if i < n - 1 {
      assert At(nodes, p).dispatcher in records[n - 1].sites;
      assert At(nodes, records[i].node).dispatcher in records[i].sites;
      assert At(nodes, p).next == records[n - 2].node;
      assert nodes[p - 1].next <= p - 1;
      FindRecord(nodes, records, n - 1, i);
    }
  }
  /** Also while another entry is being installed in front. */
  lemma FindFromHead(s: State, i: nat)
    requires Lists(s) && i < |s.records|
    ensures Find(s.nodes, s.head, Entry(s, i).dispatcher) == s.records[i].node
  {
    hide Find, Globals, Owners, Recorded, At, Newcomer;
    FindRecord(s.nodes, s.records, |s.records|, i);
    if s.pending.Some? {
      PendingDiffers(s.nodes, s.records, At(s.nodes, s.head), s.pending.value.target, i);
      FindNext(s.nodes, s.head, Entry(s, i).dispatcher);
    }
  }
  lemma PendingDiffers(nodes: seq<Node>, records: seq<Record>, node: Node, target: nat, i: nat)
    requires Owners(nodes, records) && Newcomer(nodes, records, node, target) && i < |records|
    ensures node.dispatcher != At(nodes, records[i].node).dispatcher
  {
    hide At, InPatch, Overlaps, Proper;
    assert At(nodes, records[i].node).dispatcher in records[i].sites;
  }
  lemma FindNext(nodes: seq<Node>, p: nat, dispatcher: nat)
    requires Linked(nodes) && 1 <= p <= |nodes| && At(nodes, p).dispatcher != dispatcher
    ensures Find(nodes, p, dispatcher) == Find(nodes, At(nodes, p).next, dispatcher)
  {
    assert nodes[p - 1].next <= p - 1;
  }

  ghost predicate Holding(routes: seq<Local>, source: nat, k: nat) {
    k < |routes| && routes[k].source == source
  }
  /** A thread's table has one line for a dispatcher: the one for its source. */
  lemma {:induction false} LocalTargetIs(nodes: seq<Node>, records: seq<Record>, routes: seq<Local>, i: nat, k: nat)
    requires Owners(nodes, records) && Routed(nodes, records, routes) && i < |records|
    requires Holding(routes, At(nodes, records[i].node).patch.entry, k)
    ensures LocalTarget(routes, At(nodes, records[i].node).dispatcher) == Some(routes[k].target)
  {
    SameDispatcher(nodes, records, routes[0], i);
    if k == 0 {
      SameSource(nodes, records, routes[0], i);
    } else {
      RoutedRest(nodes, records, routes);
      hide Owners, Routed, At;
      LocalTargetIs(nodes, records, routes[1..], i, k - 1);
    }
  }
  lemma {:induction false} LocalTargetNone(nodes: seq<Node>, records: seq<Record>, routes: seq<Local>, i: nat)
    requires Owners(nodes, records) && Routed(nodes, records, routes) && i < |records|
    requires forall k | 0 <= k < |routes| :: routes[k].source != At(nodes, records[i].node).patch.entry
    ensures LocalTarget(routes, At(nodes, records[i].node).dispatcher) == None
  {
    if routes != [] {
      SameDispatcher(nodes, records, routes[0], i);
      RoutedRest(nodes, records, routes);
      hide Owners, Routed, At;
      LocalTargetNone(nodes, records, routes[1..], i);
    }
  }
  lemma RoutedRest(nodes: seq<Node>, records: seq<Record>, routes: seq<Local>)
    requires Routed(nodes, records, routes) && routes != []
    ensures Routed(nodes, records, routes[1..])
    ensures HasEntry(nodes, records, routes[0].source, routes[0].dispatcher)
  {
    hide HasEntry;
  }
  lemma SameDispatcher(nodes: seq<Node>, records: seq<Record>, route: Local, i: nat)
    requires Owners(nodes, records) && i < |records| && HasEntry(nodes, records, route.source, route.dispatcher)
    ensures route.dispatcher == At(nodes, records[i].node).dispatcher ==>
              route.source == At(nodes, records[i].node).patch.entry
  {
    hide At;
    var j := EntryOf(nodes, records, route.source, route.dispatcher);
    assert At(nodes, records[j].node).dispatcher in records[j].sites
           && At(nodes, records[i].node).dispatcher in records[i].sites;
  }
  lemma SameSource(nodes: seq<Node>, records: seq<Record>, route: Local, i: nat)
    requires Owners(nodes, records) && i < |records| && HasEntry(nodes, records, route.source, route.dispatcher)
    requires route.source == At(nodes, records[i].node).patch.entry
    ensures route.dispatcher == At(nodes, records[i].node).dispatcher
  {
    var j := EntryOf(nodes, records, route.source, route.dispatcher);
    OneEntry(nodes, records, i, j);
  }

  /** A thread that routes a source gets its own target; every other thread gets the shared one. */
  lemma ResolveIs(s: State, t: Thread, i: nat)
    requires Invariant(s) && i < |s.records|
    ensures var source, dispatcher := Entry(s, i).patch.entry, Entry(s, i).dispatcher;
            var shared := if Entry(s, i).global != 0 then Entry(s, i).global else Entry(s, i).original.address;
            && (forall k: nat | Holding(Routes(s, t), source, k) ::
                  Resolve(s, t, dispatcher) ==
                    Some(if Routes(s, t)[k].target != dispatcher then Routes(s, t)[k].target else shared))
            && ((forall k | 0 <= k < |Routes(s, t)| :: Routes(s, t)[k].source != source) ==>
                  Resolve(s, t, dispatcher) == Some(shared))
  {
    FindFromHead(s, i);
    assert Routed(s.nodes, s.records, Routes(s, t));
    RecordInside(s, i);
    hide Find, Locals, Lists, Locks, Readers, Code, Ordered, LocalTarget, At, Routes, Routed;
    forall k: nat | Holding(Routes(s, t), Entry(s, i).patch.entry, k)
      ensures LocalTarget(Routes(s, t), Entry(s, i).dispatcher) == Some(Routes(s, t)[k].target)
    {
      LocalTargetIs(s.nodes, s.records, Routes(s, t), i, k);
    }
    if forall k | 0 <= k < |Routes(s, t)| :: Routes(s, t)[k].source != Entry(s, i).patch.entry {
      LocalTargetNone(s.nodes, s.records, Routes(s, t), i);
    }
  }
  lemma {:induction false} FindForeign(nodes: seq<Node>, records: seq<Record>, n: nat, dispatcher: nat)
    requires Linked(nodes) && Recorded(nodes, records) && n <= |records|
    requires forall i | 0 <= i < n :: At(nodes, records[i].node).dispatcher != dispatcher
    ensures Find(nodes, if n == 0 then 0 else records[n - 1].node, dispatcher) == 0
  {
    if n > 0 {
      var p := records[n - 1].node;
      assert nodes[p - 1].next == if n == 1 then 0 else records[n - 2].node;
      FindForeign(nodes, records, n - 1, dispatcher);
    }
  }
  /** A dispatcher without an entry, and without one on its way, resolves to nothing. */
  lemma ResolveNone(s: State, t: Thread, dispatcher: nat)
    requires Invariant(s) && forall i | 0 <= i < |s.records| :: Entry(s, i).dispatcher != dispatcher
    requires s.pending.Some? ==> At(s.nodes, s.pending.value.node).dispatcher != dispatcher
    ensures Resolve(s, t, dispatcher) == None
  {
    hide Locks, Readers, Code, Ordered, Owners, Coming, Globals, Installing;
    assert Routed(s.nodes, s.records, Routes(s, t));
    forall i | 0 <= i < |s.records| ensures At(s.nodes, s.records[i].node).dispatcher != dispatcher {
      assert Entry(s, i).dispatcher != dispatcher;
    }
    FindForeign(s.nodes, s.records, |s.records|, dispatcher);
    if s.pending.Some? {
      FindNext(s.nodes, s.head, dispatcher);
    }
    NoRoute(s.nodes, s.records, Routes(s, t), dispatcher);
  }
  lemma {:induction false} NoRoute(nodes: seq<Node>, records: seq<Record>, routes: seq<Local>, dispatcher: nat)
    requires Routed(nodes, records, routes)
    requires forall i | 0 <= i < |records| :: At(nodes, records[i].node).dispatcher != dispatcher
    ensures LocalTarget(routes, dispatcher) == None
  {
    if routes != [] {
      RoutedRest(nodes, records, routes);
      var i := EntryOf(nodes, records, routes[0].source, routes[0].dispatcher);
      NoRoute(nodes, records, routes[1..], dispatcher);
    }
  }
  lemma RecordInside(s: State, i: nat)
    requires Lists(s) && i < |s.records|
    ensures 1 <= s.records[i].node <= |s.nodes| && Owners(s.nodes, s.records)
  {
  }
  lemma NodesKept(s: State, step: Step)
    requires Enabled(s, step) && !step.SetGlobal? && !step.ClearGlobal?
    ensures s.nodes <= Next(s, step).nodes
  {
    hide Holds, CanRoute, CanReplace, NewSource, Clear, Overlay, Without, At, MoreSites;
  }
  lemma EntryKept(s: State, step: Step, i: nat)
    requires Kept(s) && Enabled(s, step) && !step.SetGlobal? && !step.ClearGlobal? && i < |s.records|
    ensures i < |Next(s, step).records| && Entry(Next(s, step), i) == Entry(s, i)
  {
    NodesKept(s, step);
    RecordsKept(s, step, i);
    RecordInside(s, i);
    hide Enabled, Next, Kept;
  }
  /** A step of another thread that is no global session's changes no call of this thread. */
  lemma StepIsolated(s: State, step: Step, t: Thread, i: nat)
    requires Invariant(s) && Enabled(s, step) && step.t != t && !step.SetGlobal? && !step.ClearGlobal?
             && i < |s.records|
    ensures Resolve(Next(s, step), t, Entry(s, i).dispatcher) == Resolve(s, t, Entry(s, i).dispatcher)
  {
    hide Enabled, Next, Lists, Locks, Installing, Locals, Readers, Code, Ordered, Resolve, At, Routes, Reroutes, Shared;
    InvariantKept(s, step);
    EntryKept(s, step, i);
    RoutesKept(s, step, t);
    ResolveIs(s, t, i);
    ResolveIs(Next(s, step), t, i);
    if k: nat :| Holding(Routes(s, t), Entry(s, i).patch.entry, k) {
    } else {
      assert forall k | 0 <= k < |Routes(s, t)| :: Holding(Routes(s, t), Routes(s, t)[k].source, k);
    }
  }
  lemma LocalAlone(s: State, step: Step, t: Thread)
    requires Kept(s) && IsLocal(s, t) && Enabled(s, step) && step.t != t
    ensures !step.SetGlobal? && !step.ClearGlobal? && IsLocal(Next(s, step), t)
  {
    hide Holds, CanRoute, CanReplace, NewSource, Clear, Overlay, Without, Retarget, At, MoreSites, Lists, Installing;
  }
  /** While a thread has a local session, nothing other threads do changes where its calls go. */
  lemma {:induction false} Isolated(s: State, steps: seq<Step>, t: Thread, i: nat)
    requires Invariant(s) && IsLocal(s, t) && Run(s, steps).Some? && i < |s.records|
    requires forall k | 0 <= k < |steps| :: steps[k].t != t
    ensures Resolve(Run(s, steps).value, t, Entry(s, i).dispatcher) == Resolve(s, t, Entry(s, i).dispatcher)
    decreases |steps|
  {
    hide Enabled, Next, Resolve, At, Lists, Locals, Readers, Code, Ordered, Locks, Installing, IsLocal;
    if steps != [] {
      var next := Next(s, steps[0]);
      LocalAlone(s, steps[0], t);
      StepIsolated(s, steps[0], t, i);
      InvariantKept(s, steps[0]);
      EntryKept(s, steps[0], i);
      Isolated(next, steps[1..], t, i);
    }
  }
  /** Without a global session a call goes to the thread's own target or to the saved original. */
  lemma LocalResolution(s: State, t: Thread, i: nat)
    requires Invariant(s) && s.writer.None? && i < |s.records|
    ensures var source, dispatcher := Entry(s, i).patch.entry, Entry(s, i).dispatcher;
            var original := Entry(s, i).original.address;
            && (forall k: nat | Holding(Routes(s, t), source, k) ::
                  Resolve(s, t, dispatcher)
                    == Some(if Routes(s, t)[k].target != dispatcher then Routes(s, t)[k].target else original))
            && ((forall k | 0 <= k < |Routes(s, t)| :: Routes(s, t)[k].source != source) ==>
                  Resolve(s, t, dispatcher) == Some(original))
  {
    ResolveIs(s, t, i);
    RecordInside(s, i);
    assert Listed(s.sessions, s.writer) == [];
    hide Find, Locals, Owners, Shape, Locks, Readers, Code, Ordered, LocalTarget, At, Routes, Routed, Resolve;
    assert Shared(Entry(s, i)) == Entry(s, i).original.address;
  }
  /** Under a global session every thread gets the same target. */
  lemma GlobalResolution(s: State, t: Thread, i: nat)
    requires Invariant(s) && s.writer.Some? && i < |s.records|
    ensures Entry(s, i).global != 0 ==> Resolve(s, t, Entry(s, i).dispatcher) == Some(Entry(s, i).global)
                                        && Entry(s, i).patch.entry in s.sessions[s.writer.value].globalRoutes
    ensures Entry(s, i).global == 0 ==> Resolve(s, t, Entry(s, i).dispatcher) == Some(Entry(s, i).original.address)
  {
    ResolveIs(s, t, i);
    RecordInside(s, i);
    assert Matches(Routes(s, t), Sources(s.sessions, t));
    assert Routes(s, t) == [];
    hide Find, Locals, Owners, Shape, Readers, Code, Ordered, LocalTarget, At, Routed, Resolve, Routes;
  }

  // Publication

  ghost predicate Findable(s: State, p: nat, a: int) {
    1 <= p <= |s.nodes| && Spans(At(s.nodes, p).patch, a) && Find(s.nodes, s.head, At(s.nodes, p).dispatcher) == p
  }
  /** At every step a changed byte belongs to an entry that callers find, or to the global session. */
  lemma PublishedBeforePatched(s: State, a: int)
    requires Invariant(s) && a in s.initial && s.code[a] != s.initial[a]
    ensures || (exists p: nat :: Findable(s, p, a))
            || (exists k :: && 0 <= k < |Installed(s.sessions, s.writer)|
                            && Spans(Installed(s.sessions, s.writer)[k].patch, a))
  {
    hide Find, Lists, Locks, Installing, Locals, Readers, Ordered, Stacked, OverlayAll, At, Installed;
    if forall k | 0 <= k < |Live(s)| :: !Spans(Live(s)[k], a) {
      CodeOutside(s.initial, Live(s), a);
      assert false;
    }
    var k :| 0 <= k < |Live(s)| && Spans(Live(s)[k], a);
    var n, w := |s.records|, |Window(s.nodes, s.pending)|;
    if k < n {
      assert Live(s)[k] == Entry(s, k).patch;
      FindFromHead(s, k);
      RecordInside(s, k);
      assert Findable(s, s.records[k].node, a);
    } else if k < n + w {
      assert Live(s)[k] == At(s.nodes, s.pending.value.node).patch;
      FindPending(s);
      assert Findable(s, s.pending.value.node, a);
    } else {
      assert Live(s)[k] == Installed(s.sessions, s.writer)[k - n - w].patch;
    }
  }
  lemma FindPending(s: State)
    requires Lists(s) && s.pending.Some?
    ensures 1 <= s.pending.value.node <= |s.nodes|
    ensures Find(s.nodes, s.head, At(s.nodes, s.pending.value.node).dispatcher) == s.pending.value.node
  {
  }

  lemma ReaderStep(s: State, step: Step, t: Thread)
    requires Enabled(s, step) && t in s.readers && step != Answer(t)
    ensures var n := Next(s, step);
            && t in n.readers && n.readers[t].dispatcher == s.readers[t].dispatcher
            && n.readers[t].start == s.readers[t].start
  {
    hide Holds, CanRoute, CanReplace, NewSource, Clear, Overlay, Without, Retarget, At, MoreSites;
  }
  lemma ExtendsMore(a: seq<Node>, b: seq<Node>, c: seq<Node>)
    requires Extends(a, b) && Extends(b, c)
    ensures Extends(a, c)
  {
  }
  lemma {:induction false} ReaderRun(s: State, steps: seq<Step>, t: Thread)
    requires Invariant(s) && t in s.readers && Run(s, steps).Some? && Answer(t) !in steps
    ensures var end := Run(s, steps).value;
            && Invariant(end) && Extends(s.nodes, end.nodes)
            && t in end.readers && end.readers[t].dispatcher == s.readers[t].dispatcher
            && end.readers[t].start == s.readers[t].start
    decreases |steps|
  {
    hide Enabled, Next, Invariant, Extends;
    if steps == [] {
      SelfExtends(s.nodes);
    } else {
      var next := Next(s, steps[0]);
      ReaderStep(s, steps[0], t);
      InvariantKept(s, steps[0]);
      StepExtends(s, steps[0]);
      ReaderRun(next, steps[1..], t);
      ExtendsMore(s.nodes, next.nodes, Run(s, steps).value.nodes);
    }
  }
  lemma SelfExtends(nodes: seq<Node>)
    ensures Extends(nodes, nodes)
  {
  }
  /** A walk ends at the entry that the list held when its head was loaded, whatever was installed since. */
  lemma WalkFinds(s: State, steps: seq<Step>, t: Thread, dispatcher: nat)
    requires Invariant(s) && Enabled(s, Load(t, dispatcher)) && Answer(t) !in steps
    requires Run(Next(s, Load(t, dispatcher)), steps).Some?
    requires Enabled(Run(Next(s, Load(t, dispatcher)), steps).value, Answer(t))
    ensures var end := Run(Next(s, Load(t, dispatcher)), steps).value;
            && Invariant(end) && Extends(s.nodes, end.nodes)
            && end.readers[t].cursor == Find(s.nodes, s.head, dispatcher)
  {
    var loaded := Next(s, Load(t, dispatcher));
    InvariantKept(s, Load(t, dispatcher));
    ReaderRun(loaded, steps, t);
    var end := Run(loaded, steps).value;
    var r := end.readers[t];
    HeadInside(s);
    FindStable(s.nodes, end.nodes, s.head, dispatcher);
    WalkEnds(end, t);
  }
  lemma WalkEnds(s: State, t: Thread)
    requires Invariant(s) && Enabled(s, Answer(t))
    ensures s.readers[t].cursor == Find(s.nodes, s.readers[t].start, s.readers[t].dispatcher)
  {
    hide Lists, Locks, Installing, Locals, Code, Ordered;
    assert Walks(s.nodes, s.readers[t]);
  }
  /** A walk for a dispatcher that was recorded when it began gives what the call resolves to when it ends. */
  lemma WalkAnswers(s: State, steps: seq<Step>, t: Thread, i: nat)
    requires Invariant(s) && i < |s.records| && Enabled(s, Load(t, Entry(s, i).dispatcher)) && Answer(t) !in steps
    requires Run(Next(s, Load(t, Entry(s, i).dispatcher)), steps).Some?
    requires Enabled(Run(Next(s, Load(t, Entry(s, i).dispatcher)), steps).value, Answer(t))
    ensures var end := Run(Next(s, Load(t, Entry(s, i).dispatcher)), steps).value;
            var node := At(end.nodes, end.readers[t].cursor);
            && end.readers[t].cursor == s.records[i].node
            && Fallback(end, Entry(s, i).dispatcher)
               == Some(if node.global != 0 then node.global else node.original.address)
  {
    WalkFinds(s, steps, t, Entry(s, i).dispatcher);
    FindFromHead(s, i);
    var loaded := Next(s, Load(t, Entry(s, i).dispatcher));
    LoadFrame(s, t, Entry(s, i).dispatcher);
    RecordsRun(loaded, steps, i);
    var end := Run(loaded, steps).value;
    RecordInside(s, i);
    AtStable(s.nodes, end.nodes, s.records[i].node);
    hide Enabled, Next, Run, Locks, Installing, Locals, Code, Ordered, Readers, Find, Shape, Globals, Owners, Coming;
    FindFromHead(end, i);
  }
  lemma LoadFrame(s: State, t: Thread, dispatcher: nat)
    requires Enabled(s, Load(t, dispatcher))
    ensures Next(s, Load(t, dispatcher)).records == s.records
  {
  }
  lemma {:induction false} RecordsRun(s: State, steps: seq<Step>, i: nat)
    requires Run(s, steps).Some? && i < |s.records|
    ensures i < |Run(s, steps).value.records| && Run(s, steps).value.records[i].node == s.records[i].node
    decreases |steps|
  {
    hide Enabled, Next;
    if steps != [] {
      RecordsKept(s, steps[0], i);
      RecordsRun(Next(s, steps[0]), steps[1..], i);
    }
  }
  lemma RecordFacts(s: State, i: nat)
    requires Invariant(s) && i < |s.records|
    ensures 1 <= s.records[i].node <= |s.nodes|
  {
    RecordInside(s, i);
  }
  lemma SitesKept(s: State, step: Step, i: nat, dispatcher: nat)
    requires Enabled(s, step) && i < |s.records| && dispatcher in s.records[i].sites
    ensures i < |Next(s, step).records| && dispatcher in Next(s, step).records[i].sites
  {
    hide CanRoute, CanReplace, Clear, NewSource, Holds;
  }
  /** Once a source is routed from a site, no run lets that site route another source. */
  lemma {:induction false} SiteTaken(s: State, steps: seq<Step>, i: nat, dispatcher: nat)
    requires Invariant(s) && Run(s, steps).Some? && i < |s.records| && dispatcher in s.records[i].sites
    ensures var end := Run(s, steps).value;
            forall t: Thread, source: nat, target: nat | source != Entry(s, i).patch.entry ::
              !CanRoute(end, t, source, dispatcher, target)
    decreases |steps|
  {
    hide Enabled, Next, At, Invariant;
    if steps == [] {
      assert Entry(s, i) == At(s.nodes, s.records[i].node);
    } else {
      var n := Next(s, steps[0]);
      InvariantKept(s, steps[0]);
      RecordFacts(s, i);
      RecordsKept(s, steps[0], i);
      SitesKept(s, steps[0], i, dispatcher);
      StepExtends(s, steps[0]);
      AtStable(s.nodes, n.nodes, s.records[i].node);
      SiteTaken(n, steps[1..], i, dispatcher);
    }
  }
  /** A reader can always go on, by a step of its own, or answer. */
  lemma WalkGoesOn(s: State, t: Thread)
    requires t in s.readers
    ensures Enabled(s, Advance(t)) || Enabled(s, Answer(t))
  {
  }
  /** A walk gets closer to its end with each step, whatever other threads do. */
  lemma WalkShrinks(s: State, t: Thread)
    requires Invariant(s) && Enabled(s, Advance(t))
    ensures Next(s, Advance(t)).readers[t].cursor < s.readers[t].cursor
  {
    HeadInside(s);
    assert Walks(s.nodes, s.readers[t]);
  }

  // Chains of replacements

  ghost predicate Chain(s: State, t: Thread, xs: seq<nat>, stamps: seq<nat>) {
    |xs| == |stamps| + 1 && forall i | 0 <= i < |stamps| :: Edge(s, t, xs[i], xs[i + 1], stamps[i])
  }
  lemma {:induction false} StampsRise(s: State, t: Thread, xs: seq<nat>, stamps: seq<nat>, i: nat, j: nat)
    requires Ordered(s) && Chain(s, t, xs, stamps) && i <= j < |stamps|
    ensures stamps[i] + (j - i) <= stamps[j] < s.clock
  {
    hide Edge;
    assert Edge(s, t, xs[j], xs[j + 1], stamps[j]);
    if i < j {
      StampsRise(s, t, xs, stamps, i, j - 1);
      assert Edge(s, t, xs[j - 1], xs[j], stamps[j - 1]);
    }
  }
  /** A replacement may be replaced in turn, but in every state chains have no cycle and an end. */
  lemma ChainsEnd(s: State, t: Thread, xs: seq<nat>, stamps: seq<nat>)
    requires Invariant(s) && Chain(s, t, xs, stamps)
    ensures |stamps| <= s.clock
    ensures forall i, j | 0 <= i < j < |xs| :: xs[i] != xs[j]
  {
    hide Edge, Kept, Locals, Readers, Code;
    if stamps != [] {
      StampsRise(s, t, xs, stamps, 0, |stamps| - 1);
    }
    forall i, j | 0 <= i < j < |xs| ensures xs[i] != xs[j] {
      StampsRise(s, t, xs, stamps, i, j - 1);
      assert Edge(s, t, xs[i], xs[i + 1], stamps[i]) && Edge(s, t, xs[j - 1], xs[j], stamps[j - 1]);
    }
  }
}
