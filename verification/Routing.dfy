/** Routing entries, sessions and call resolution, as a state machine over the steps of interleaved threads. */
module Routing {
  import opened Words
  import opened Memory

  type Thread = nat

  /** Replaced code. `entry` is the function, `address` the first replaced byte. */
  datatype Patch = Patch(entry: nat, address: nat, original: seq<Byte>, replacement: seq<Byte>)

  /** The page that keeps a saved original: where it lies, what it holds, and whether it bridges a call. */
  datatype Original = Original(address: nat, saved: seq<Byte>, bridge: bool)
  /** A routing entry. `next` and every other link is 0 for null and `k + 1` for `nodes[k]`. */
  datatype Node = Node(patch: Patch, dispatcher: nat, original: Original, global: nat, next: nat, stamp: nat)
  datatype Record = Record(node: nat, sites: seq<nat>)
  datatype Local = Local(source: nat, dispatcher: nat, target: nat, stamp: nat)

  /** A patch of a global session, with the function its replacement jumps to. */
  datatype Raw = Raw(patch: Patch, target: nat, stamp: nat)
  datatype Session = Session(local: bool, patches: seq<Raw>, localPatches: seq<nat>, globalRoutes: seq<nat>)

  /** An installation that has published its entry and still holds the lock on the records. */
  datatype Pending = Pending(thread: Thread, node: nat, target: nat, written: bool)
  /** A thread inside `fallback`: the head it loaded and how far it has walked. */
  datatype Reader = Reader(dispatcher: nat, start: nat, cursor: nat)

  /** `stamp` and `clock` count installations; `initial` is the code before the first one. */
  datatype State = State(
    initial: map<int, Byte>,
    code: map<int, Byte>,
    nodes: seq<Node>,
    head: nat,
    records: seq<Record>,
    pending: Option<Pending>,
    routes: map<Thread, seq<Local>>,
    sessions: map<Thread, Session>,
    writer: Option<Thread>,
    readers: map<Thread, Reader>,
    clock: nat)

  const NOWHERE := Node(Patch(0, 0, [], []), 0, Original(0, [], false), 0, 0, 0)

  function At(nodes: seq<Node>, p: nat): Node {
    if 1 <= p <= |nodes| then nodes[p - 1] else NOWHERE
  }
  function Entry(s: State, i: nat): Node
    requires i < |s.records|
  {
    At(s.nodes, s.records[i].node)
  }
  function Table(routes: map<Thread, seq<Local>>, t: Thread): seq<Local> {
    if t in routes then routes[t] else []
  }
  function Routes(s: State, t: Thread): seq<Local> {
    Table(s.routes, t)
  }
  function End(p: Patch): nat {
    p.address + |p.original|
  }
  predicate InPatch(p: Patch, x: nat) {
    p.entry <= x < End(p)
  }
  predicate Overlaps(p: Patch, q: Patch) {
    p.address < End(q) && q.address < End(p)
  }
  predicate Proper(p: Patch) {
    p.entry <= p.address && |p.original| == |p.replacement| > 0
  }

  // Steps

  datatype Step =
    | Open(t: Thread, local: bool)
    | Close(t: Thread)
    | Publish(t: Thread, patch: Patch, dispatcher: nat, original: Original, target: nat)
    | Write(t: Thread)
    | Abandon(t: Thread)
    | Register(t: Thread)
    | Join(t: Thread, i: nat, dispatcher: nat, target: nat)
    | Drop(t: Thread)
    | SetGlobal(t: Thread, i: nat, target: nat)
    | ClearGlobal(t: Thread, i: nat)
    | Install(t: Thread, patch: Patch, target: nat)
    | Restore(t: Thread)
    | Load(t: Thread, dispatcher: nat)
    | Advance(t: Thread)
    | Answer(t: Thread)

  predicate IsLocal(s: State, t: Thread) {
    t in s.sessions && s.sessions[t].local
  }
  predicate IsGlobal(s: State, t: Thread) {
    t in s.sessions && !s.sessions[t].local
  }
  /** The checks of an installation under a local session. */
  predicate CanRoute(s: State, t: Thread, source: nat, dispatcher: nat, target: nat) {
    && source != target && target != 0
    && (forall k | 0 <= k < |Routes(s, t)| :: Routes(s, t)[k].source != source)
    && (forall i | 0 <= i < |s.records| ::
          && !InPatch(Entry(s, i).patch, target)
          && (source == Entry(s, i).patch.entry
              || (!InPatch(Entry(s, i).patch, source) && dispatcher !in s.records[i].sites)))
  }
  /** The checks of an installation under a global session against its own patches and the records. */
  predicate CanReplace(s: State, t: Thread, source: nat, target: nat)
    requires t in s.sessions
  {
    && source != target && target != 0
    && (forall k | 0 <= k < |s.sessions[t].patches| ::
          && !InPatch(s.sessions[t].patches[k].patch, source)
          && !InPatch(s.sessions[t].patches[k].patch, target))
    && (forall i | 0 <= i < |s.records| ::
          && !InPatch(Entry(s, i).patch, target)
          && (source == Entry(s, i).patch.entry || !InPatch(Entry(s, i).patch, source)))
  }
  predicate NewSource(s: State, source: nat) {
    forall i | 0 <= i < |s.records| :: Entry(s, i).patch.entry != source
  }
  predicate Clear(s: State, patch: Patch) {
    forall i | 0 <= i < |s.records| :: !Overlaps(patch, Entry(s, i).patch)
  }

  ghost predicate Enabled(s: State, step: Step) {
    var t := step.t;
    match step
    case Open(_, local) => t !in s.sessions && if local then s.writer.None? else s.sessions == map[]
    case Close(_) =>
      && t in s.sessions && (s.pending.Some? ==> s.pending.value.thread != t)
      && s.sessions[t].patches == [] && s.sessions[t].localPatches == [] && s.sessions[t].globalRoutes == []
    case Publish(_, patch, dispatcher, _, target) =>
      && IsLocal(s, t) && s.pending.None? && Proper(patch)
      && CanRoute(s, t, patch.entry, dispatcher, target) && NewSource(s, patch.entry) && Clear(s, patch)
      && Holds(s.code, patch.address, patch.original)
    case Write(_) =>
      && s.pending.Some? && s.pending.value.thread == t && !s.pending.value.written
      && var patch := At(s.nodes, s.pending.value.node).patch; Holds(s.code, patch.address, patch.original)
    case Abandon(_) => s.pending.Some? && s.pending.value.thread == t && !s.pending.value.written
    case Register(_) => s.pending.Some? && s.pending.value.thread == t && s.pending.value.written && t in s.sessions
    case Join(_, i, dispatcher, target) =>
      && IsLocal(s, t) && s.pending.None? && i < |s.records|
      && CanRoute(s, t, Entry(s, i).patch.entry, dispatcher, target)
    case Drop(_) => t in s.sessions && s.sessions[t].localPatches != []
    case SetGlobal(_, i, target) =>
      && IsGlobal(s, t) && i < |s.records| && CanReplace(s, t, Entry(s, i).patch.entry, target)
      && Entry(s, i).global == 0
    case ClearGlobal(_, i) =>
      && t in s.sessions && s.sessions[t].globalRoutes != [] && i < |s.records|
      && Entry(s, i).patch.entry == s.sessions[t].globalRoutes[|s.sessions[t].globalRoutes| - 1]
    case Install(_, patch, target) =>
      && IsGlobal(s, t) && Proper(patch) && CanReplace(s, t, patch.entry, target)
      && NewSource(s, patch.entry) && Clear(s, patch)
      && (forall k | 0 <= k < |s.sessions[t].patches| :: !Overlaps(patch, s.sessions[t].patches[k].patch))
      && Holds(s.code, patch.address, patch.original)
    case Restore(_) =>
      && t in s.sessions && s.sessions[t].patches != []
      && var patch := s.sessions[t].patches[|s.sessions[t].patches| - 1].patch;
      Holds(s.code, patch.address, patch.replacement)
    case Load(_, _) => t !in s.readers
    case Advance(_) =>
      && t in s.readers && s.readers[t].cursor != 0
      && At(s.nodes, s.readers[t].cursor).dispatcher != s.readers[t].dispatcher
    case Answer(_) =>
      && t in s.readers
      && (s.readers[t].cursor == 0 || At(s.nodes, s.readers[t].cursor).dispatcher == s.readers[t].dispatcher)
  }

  function Without(routes: seq<Local>, source: nat): seq<Local> {
    if routes == [] then []
    else if routes[0].source == source then Without(routes[1..], source)
    else [routes[0]] + Without(routes[1..], source)
  }
  /** A node with another global target; links never change. */
  function Retarget(nodes: seq<Node>, p: nat, target: nat, stamp: nat): (r: seq<Node>)
    ensures |r| == |nodes|
  {
    if 1 <= p <= |nodes| then nodes[p - 1 := nodes[p - 1].(global := target, stamp := stamp)] else nodes
  }
  function MoreSites(records: seq<Record>, i: nat, dispatcher: nat): seq<Record>
    requires i < |records|
  {
    var sites := records[i].sites;
    records[i := records[i].(sites := if dispatcher in sites then sites else sites + [dispatcher])]
  }
  function Route(s: State, t: Thread, source: nat, dispatcher: nat, target: nat): State
    requires t in s.sessions
  {
    s.(routes := s.routes[t := Routes(s, t) + [Local(source, dispatcher, target, s.clock)]],
       sessions := s.sessions[t := s.sessions[t].(localPatches := s.sessions[t].localPatches + [source])],
       clock := s.clock + 1)
  }

  ghost function Next(s: State, step: Step): State
    requires Enabled(s, step)
  {
    var t := step.t;
    match step
    case Open(_, local) =>
      s.(sessions := s.sessions[t := Session(local, [], [], [])], writer := if local then s.writer else Some(t))
    case Close(_) =>
      s.(sessions := s.sessions - {t}, writer := if s.writer == Some(t) then None else s.writer)
    case Publish(_, patch, dispatcher, original, target) =>
      s.(nodes := s.nodes + [Node(patch, dispatcher, original, 0, s.head, 0)],
         head := |s.nodes| + 1,
         pending := Some(Pending(t, |s.nodes| + 1, target, false)))
    case Write(_) =>
      var patch := At(s.nodes, s.pending.value.node).patch;
      s.(code := Overlay(s.code, patch.address, patch.replacement),
         pending := Some(s.pending.value.(written := true)))
    case Abandon(_) =>
      s.(head := At(s.nodes, s.pending.value.node).next, pending := None)
    case Register(_) =>
      var node := At(s.nodes, s.pending.value.node);
      Route(s.(records := s.records + [Record(s.pending.value.node, [node.dispatcher])], pending := None),
            t, node.patch.entry, node.dispatcher, s.pending.value.target)
    case Join(_, i, dispatcher, target) =>
      Route(s.(records := MoreSites(s.records, i, dispatcher)), t, Entry(s, i).patch.entry, Entry(s, i).dispatcher,
            target)
    case Drop(_) =>
      var mine := s.sessions[t].localPatches;
      s.(routes := s.routes[t := Without(Routes(s, t), mine[|mine| - 1])],
         sessions := s.sessions[t := s.sessions[t].(localPatches := mine[..|mine| - 1])])
    case SetGlobal(_, i, target) =>
      s.(nodes := Retarget(s.nodes, s.records[i].node, target, s.clock),
         sessions := s.sessions[t := s.sessions[t].(
           globalRoutes := s.sessions[t].globalRoutes + [Entry(s, i).patch.entry])],
         clock := s.clock + 1)
    case ClearGlobal(_, i) =>
      var mine := s.sessions[t].globalRoutes;
      s.(nodes := Retarget(s.nodes, s.records[i].node, 0, 0),
         sessions := s.sessions[t := s.sessions[t].(globalRoutes := mine[..|mine| - 1])])
    case Install(_, patch, target) =>
      s.(code := Overlay(s.code, patch.address, patch.replacement),
         sessions := s.sessions[t := s.sessions[t].(patches := s.sessions[t].patches + [Raw(patch, target, s.clock)])],
         clock := s.clock + 1)
    case Restore(_) =>
      var mine := s.sessions[t].patches;
      var patch := mine[|mine| - 1].patch;
      s.(code := Overlay(s.code, patch.address, patch.original),
         sessions := s.sessions[t := s.sessions[t].(patches := mine[..|mine| - 1])])
    case Load(_, dispatcher) =>
      s.(readers := s.readers[t := Reader(dispatcher, s.head, s.head)])
    case Advance(_) =>
      s.(readers := s.readers[t := s.readers[t].(cursor := At(s.nodes, s.readers[t].cursor).next)])
    case Answer(_) =>
      s.(readers := s.readers - {t})
  }
}
