/** What every step of every thread keeps. */
module RoutingInvariant {
  import opened Words
  import opened Memory
  import opened Routing

  // The list of entries

  function Last(records: seq<Record>): nat {
    if records == [] then 0 else records[|records| - 1].node
  }
  ghost predicate Linked(nodes: seq<Node>) {
    forall k | 0 <= k < |nodes| :: nodes[k].next <= k
  }
  ghost predicate Recorded(nodes: seq<Node>, records: seq<Record>) {
    && (forall i | 0 <= i < |records| :: 1 <= records[i].node <= |nodes|)
    && (forall i | 0 < i < |records| :: At(nodes, records[i].node).next == records[i - 1].node)
    && (records != [] ==> At(nodes, records[0].node).next == 0)
  }
  /** The list from `head` is the records, newest first, after an entry that is being installed. */
  ghost predicate Shape(nodes: seq<Node>, head: nat, records: seq<Record>, pending: Option<Pending>) {
    && Linked(nodes) && Recorded(nodes, records)
    && (pending.None? ==> head == Last(records))
    && (pending.Some? ==>
          && 1 <= pending.value.node <= |nodes| && head == pending.value.node
          && At(nodes, pending.value.node).next == Last(records))
  }

  /** One record per source, one source per dispatcher. */
  ghost predicate Owners(nodes: seq<Node>, records: seq<Record>) {
    && (forall i | 0 <= i < |records| :: At(nodes, records[i].node).dispatcher in records[i].sites)
    && (forall i, j | 0 <= i < j < |records| ::
          At(nodes, records[i].node).patch.entry != At(nodes, records[j].node).patch.entry)
    && (forall i, j, d | 0 <= i < j < |records| && d in records[i].sites :: d !in records[j].sites)
  }
  /** What an installation checked stays true until it is registered. */
  ghost predicate Newcomer(nodes: seq<Node>, records: seq<Record>, node: Node, target: nat) {
    && node.global == 0 && target != 0 && target != node.patch.entry && Proper(node.patch)
    && forall i | 0 <= i < |records| ::
         var other := At(nodes, records[i].node).patch;
         && node.dispatcher !in records[i].sites && node.patch.entry != other.entry
         && !InPatch(other, target) && !Overlaps(node.patch, other)
  }
  ghost predicate Coming(nodes: seq<Node>, records: seq<Record>, pending: Option<Pending>) {
    pending.Some? ==> Newcomer(nodes, records, At(nodes, pending.value.node), pending.value.target)
  }

  /** The session lock: one global session alone, or local sessions only. */
  ghost predicate Locks(sessions: map<Thread, Session>, writer: Option<Thread>) {
    && (forall t | t in sessions :: sessions[t].local ==> sessions[t].patches == [] && sessions[t].globalRoutes == [])
    && (forall t | t in sessions :: !sessions[t].local ==> writer == Some(t) && sessions[t].localPatches == [])
    && (writer.Some? ==> sessions.Keys == {writer.value} && !sessions[writer.value].local)
  }
  /** An installation in progress belongs to a local session and routes a source new to its thread. */
  ghost predicate Installing(s: State) {
    s.pending.Some? ==>
      && IsLocal(s, s.pending.value.thread)
      && var routes := Routes(s, s.pending.value.thread);
      forall k | 0 <= k < |routes| :: routes[k].source != At(s.nodes, s.pending.value.node).patch.entry
  }

  ghost predicate HasEntry(nodes: seq<Node>, records: seq<Record>, source: nat, dispatcher: nat) {
    exists i :: 0 <= i < |records| && At(nodes, records[i].node).patch.entry == source
                && At(nodes, records[i].node).dispatcher == dispatcher
  }
  ghost predicate Routed(nodes: seq<Node>, records: seq<Record>, routes: seq<Local>) {
    && (forall j, k | 0 <= j < k < |routes| :: routes[j].source != routes[k].source)
    && (forall k | 0 <= k < |routes| ::
          routes[k].target != 0 && HasEntry(nodes, records, routes[k].source, routes[k].dispatcher))
  }
  ghost predicate Matches(routes: seq<Local>, sources: seq<nat>) {
    |routes| == |sources| && forall k | 0 <= k < |routes| :: routes[k].source == sources[k]
  }
  function Sources(sessions: map<Thread, Session>, t: Thread): seq<nat> {
    if t in sessions then sessions[t].localPatches else []
  }
  /** A thread routes exactly the sources its session installed, each once and through its entry's dispatcher. */
  ghost predicate Locals(s: State) {
    forall t: Thread :: Routed(s.nodes, s.records, Routes(s, t)) && Matches(Routes(s, t), Sources(s.sessions, t))
  }

  function Listed(sessions: map<Thread, Session>, writer: Option<Thread>): seq<nat> {
    if writer.Some? && writer.value in sessions then sessions[writer.value].globalRoutes else []
  }
  ghost predicate Targeted(nodes: seq<Node>, records: seq<Record>, source: nat) {
    exists i ::
      0 <= i < |records| && At(nodes, records[i].node).patch.entry == source && At(nodes, records[i].node).global != 0
  }
  ghost predicate IsRecord(records: seq<Record>, p: nat) {
    exists i :: 0 <= i < |records| && records[i].node == p
  }
  ghost predicate OnlyListed(nodes: seq<Node>, records: seq<Record>, listed: seq<nat>) {
    forall p | 1 <= p <= |nodes| && At(nodes, p).global != 0 ::
      At(nodes, p).patch.entry in listed && IsRecord(records, p)
  }
  ghost predicate AllTargeted(nodes: seq<Node>, records: seq<Record>, listed: seq<nat>) {
    && (forall j, k | 0 <= j < k < |listed| :: listed[j] != listed[k])
    && (forall k | 0 <= k < |listed| :: Targeted(nodes, records, listed[k]))
  }
  /** The entries with a global target are exactly the records that the global session lists. */
  ghost predicate Globals(nodes: seq<Node>, records: seq<Record>, listed: seq<nat>) {
    OnlyListed(nodes, records, listed) && AllTargeted(nodes, records, listed)
  }

  /** The first entry with a dispatcher on the way from a link, or 0. */
  ghost function Find(nodes: seq<Node>, p: nat, dispatcher: nat): (r: nat)
    ensures r <= |nodes| && (r != 0 ==> At(nodes, r).dispatcher == dispatcher)
  {
    if p == 0 || p > |nodes| then 0
    else if nodes[p - 1].dispatcher == dispatcher then p
    else if nodes[p - 1].next < p then Find(nodes, nodes[p - 1].next, dispatcher)
    else 0
  }
  ghost predicate Walks(nodes: seq<Node>, r: Reader) {
    r.cursor <= r.start <= |nodes| && Find(nodes, r.start, r.dispatcher) == Find(nodes, r.cursor, r.dispatcher)
  }
  ghost predicate Readers(nodes: seq<Node>, readers: map<Thread, Reader>) {
    forall t | t in readers :: Walks(nodes, readers[t])
  }

  ghost predicate Lists(s: State) {
    && Shape(s.nodes, s.head, s.records, s.pending)
    && Owners(s.nodes, s.records)
    && Coming(s.nodes, s.records, s.pending)
    && Globals(s.nodes, s.records, Listed(s.sessions, s.writer))
  }

  // Links, patches and dispatchers of published entries never change

  ghost predicate Extends(before: seq<Node>, after: seq<Node>) {
    && |before| <= |after|
    && forall k | 0 <= k < |before| ::
         && after[k].next == before[k].next && after[k].dispatcher == before[k].dispatcher
         && after[k].patch == before[k].patch && after[k].original == before[k].original
  }
  lemma StepExtends(s: State, step: Step)
    requires Enabled(s, step)
    ensures Extends(s.nodes, Next(s, step).nodes)
  {
    hide Holds, CanRoute, CanReplace, NewSource, Clear, Overlay, Without;
  }
  lemma {:induction false} FindStable(before: seq<Node>, after: seq<Node>, p: nat, dispatcher: nat)
    requires Extends(before, after) && p <= |before|
    ensures Find(after, p, dispatcher) == Find(before, p, dispatcher)
  {
    if p != 0 && before[p - 1].dispatcher != dispatcher && before[p - 1].next < p {
      FindStable(before, after, before[p - 1].next, dispatcher);
    }
  }
  lemma WalksStable(before: seq<Node>, after: seq<Node>, r: Reader)
    requires Walks(before, r) && Extends(before, after)
    ensures Walks(after, r)
  {
    FindStable(before, after, r.start, r.dispatcher);
    FindStable(before, after, r.cursor, r.dispatcher);
  }
  lemma ReadersKept(s: State, step: Step)
    requires Shape(s.nodes, s.head, s.records, s.pending) && Readers(s.nodes, s.readers) && Enabled(s, step)
    ensures Readers(Next(s, step).nodes, Next(s, step).readers)
  {
    hide Holds, CanRoute, CanReplace, NewSource, Clear, Overlay, Without, Extends;
    var n := Next(s, step);
    StepExtends(s, step);
    HeadInside(s);
    forall t | t in n.readers ensures Walks(n.nodes, n.readers[t]) {
      assert Walks(s.nodes, n.readers[t]);
      WalksStable(s.nodes, n.nodes, n.readers[t]);
    }
  }
  lemma HeadInside(s: State)
    requires Shape(s.nodes, s.head, s.records, s.pending)
    ensures s.head <= |s.nodes| && Linked(s.nodes)
  {
  }

  lemma LocksKept(s: State, step: Step)
    requires Locks(s.sessions, s.writer) && Installing(s) && Enabled(s, step)
    ensures Locks(Next(s, step).sessions, Next(s, step).writer)
  {
    hide Enabled, Next, Installing;
    if step.Open? || step.Close? {
      DoorKept(s, step);
    } else {
      SessionChanged(s, step);
    }
  }
  lemma DoorKept(s: State, step: Step)
    requires Locks(s.sessions, s.writer) && Enabled(s, step) && (step.Open? || step.Close?)
    ensures Locks(Next(s, step).sessions, Next(s, step).writer)
  {
  }
  /** A step changes at most its own session, and only in the way its kind allows. */
  lemma SessionChanged(s: State, step: Step)
    requires Locks(s.sessions, s.writer) && Installing(s) && Enabled(s, step) && !step.Open? && !step.Close?
    ensures var n, t := Next(s, step), step.t;
            && n.writer == s.writer
            && (n.sessions == s.sessions
                || (&& t in s.sessions && t in n.sessions && n.sessions == s.sessions[t := n.sessions[t]]
                    && n.sessions[t].local == s.sessions[t].local
                    && (n.sessions[t].local ==> n.sessions[t].patches == [] && n.sessions[t].globalRoutes == [])
                    && (!n.sessions[t].local ==> n.sessions[t].localPatches == [])))
  {
    hide Holds, CanRoute, CanReplace, NewSource, Clear, Overlay, Without, Retarget, At, MoreSites;
  }

  // Keeping the list and its owners

  predicate TouchesList(step: Step) {
    step.Publish? || step.Write? || step.Abandon? || step.Register? || step.Join? || step.SetGlobal?
    || step.ClearGlobal?
  }
  lemma ListKept(s: State, step: Step)
    requires Enabled(s, step)
    ensures !TouchesList(step) ==>
              var n := Next(s, step);
              n.nodes == s.nodes && n.head == s.head && n.records == s.records && n.pending == s.pending
  {
    hide Holds, CanRoute, CanReplace, NewSource, Clear, Overlay, Without, Retarget, At;
  }
  lemma AtStable(before: seq<Node>, after: seq<Node>, p: nat)
    requires Extends(before, after) && 1 <= p <= |before|
    ensures At(after, p).next == At(before, p).next && At(after, p).dispatcher == At(before, p).dispatcher
    ensures At(after, p).patch == At(before, p).patch && At(after, p).original == At(before, p).original
  {
  }
  ghost predicate SameEntries(before: seq<Node>, after: seq<Node>, records: seq<Record>) {
    forall i | 0 <= i < |records| ::
      && At(after, records[i].node).next == At(before, records[i].node).next
      && At(after, records[i].node).dispatcher == At(before, records[i].node).dispatcher
      && At(after, records[i].node).patch == At(before, records[i].node).patch
  }
  lemma EntriesStable(before: seq<Node>, after: seq<Node>, records: seq<Record>)
    requires Extends(before, after) && Recorded(before, records)
    ensures SameEntries(before, after, records) && Recorded(after, records)
  {
    hide At;
    forall i | 0 <= i < |records|
      ensures At(after, records[i].node).next == At(before, records[i].node).next
      ensures At(after, records[i].node).dispatcher == At(before, records[i].node).dispatcher
      ensures At(after, records[i].node).patch == At(before, records[i].node).patch
    {
      AtStable(before, after, records[i].node);
    }
  }
  lemma OwnersStable(before: seq<Node>, after: seq<Node>, records: seq<Record>)
    requires SameEntries(before, after, records) && Owners(before, records)
    ensures Owners(after, records)
  {
    hide At;
  }
  lemma NewcomerStable(before: seq<Node>, after: seq<Node>, records: seq<Record>, node: Node, target: nat)
    requires SameEntries(before, after, records) && Newcomer(before, records, node, target)
    ensures Newcomer(after, records, node, target)
  {
    hide At, InPatch, Overlaps, Proper;
  }
  lemma LinkedMore(nodes: seq<Node>, node: Node)
    requires Linked(nodes) && node.next <= |nodes|
    ensures Linked(nodes + [node])
  {
  }
  lemma LastInside(nodes: seq<Node>, records: seq<Record>)
    requires Recorded(nodes, records)
    ensures Last(records) <= |nodes|
  {
  }

  lemma PublishKeepsList(s: State, step: Step)
    requires step.Publish? && Enabled(s, step) && Lists(s)
    ensures var n := Next(s, step);
            Shape(n.nodes, n.head, n.records, n.pending) && Owners(n.nodes, n.records)
            && Coming(n.nodes, n.records, n.pending)
  {
    var node := Node(step.patch, step.dispatcher, step.original, 0, s.head, 0);
    var nodes := s.nodes + [node];
    PublishIsNew(s, step, node);
    LastInside(s.nodes, s.records);
    hide Holds, Overlay, Globals, CanRoute, NewSource, Clear, Proper, Owners, Linked, Newcomer, Recorded;
    StepExtends(s, step);
    EntriesStable(s.nodes, nodes, s.records);
    OwnersStable(s.nodes, nodes, s.records);
    LinkedMore(s.nodes, node);
    NewcomerStable(s.nodes, nodes, s.records, node, step.target);
  }
  lemma PublishIsNew(s: State, step: Step, node: Node)
    requires step.Publish? && Enabled(s, step) && node.patch == step.patch && node.dispatcher == step.dispatcher
             && node.global == 0
    ensures Newcomer(s.nodes, s.records, node, step.target)
  {
    hide Holds, InPatch, Overlaps, Proper, At;
  }

  lemma WriteKeepsList(s: State, step: Step)
    requires (step.Write? || step.Abandon?) && Enabled(s, step) && Lists(s)
    ensures var n := Next(s, step);
            Shape(n.nodes, n.head, n.records, n.pending) && Owners(n.nodes, n.records)
            && Coming(n.nodes, n.records, n.pending)
  {
    hide Holds, Overlay, Globals, Newcomer, Owners, Linked, Recorded, At;
  }

  lemma RecordMore(nodes: seq<Node>, records: seq<Record>, r: Record)
    requires Recorded(nodes, records) && 1 <= r.node <= |nodes| && At(nodes, r.node).next == Last(records)
    ensures Recorded(nodes, records + [r])
  {
    hide At;
    var more := records + [r];
    forall i | 0 < i < |more| ensures At(nodes, more[i].node).next == more[i - 1].node {
      if i < |records| {
        assert more[i] == records[i] && more[i - 1] == records[i - 1];
      }
    }
  }
  lemma OwnersMore(nodes: seq<Node>, records: seq<Record>, r: Record, target: nat)
    requires Owners(nodes, records) && Newcomer(nodes, records, At(nodes, r.node), target)
    requires r.sites == [At(nodes, r.node).dispatcher]
    ensures Owners(nodes, records + [r])
  {
    hide At, InPatch, Overlaps, Proper;
    var more := records + [r];
    assert forall i | 0 <= i < |records| :: more[i] == records[i];
  }
  lemma RegisterKeepsList(s: State, step: Step)
    requires step.Register? && Enabled(s, step) && Lists(s)
    ensures var n := Next(s, step);
            Shape(n.nodes, n.head, n.records, n.pending) && Owners(n.nodes, n.records)
            && Coming(n.nodes, n.records, n.pending)
  {
    hide Holds, Overlay, Globals, Newcomer, Owners, Linked, Recorded, At;
    var r := Record(s.pending.value.node, [At(s.nodes, s.pending.value.node).dispatcher]);
    RecordMore(s.nodes, s.records, r);
    OwnersMore(s.nodes, s.records, r, s.pending.value.target);
  }

  ghost predicate SameNodes(records: seq<Record>, after: seq<Record>) {
    |records| == |after| && forall j | 0 <= j < |records| :: records[j].node == after[j].node
  }
  lemma SitesMore(nodes: seq<Node>, records: seq<Record>, i: nat, dispatcher: nat)
    requires Owners(nodes, records) && i < |records|
    requires forall j | 0 <= j < |records| && j != i :: dispatcher !in records[j].sites
    ensures Owners(nodes, MoreSites(records, i, dispatcher))
  {
    hide At;
    var after := MoreSites(records, i, dispatcher);
    forall j, k, d | 0 <= j < k < |after| && d in after[j].sites ensures d !in after[k].sites {
      assert j != i ==> d in records[j].sites;
      assert j == i ==> d in records[j].sites || d == dispatcher;
    }
  }
  lemma NodesSame(nodes: seq<Node>, records: seq<Record>, i: nat, dispatcher: nat)
    requires Recorded(nodes, records) && i < |records|
    ensures var after := MoreSites(records, i, dispatcher);
            SameNodes(records, after) && Recorded(nodes, after) && Last(after) == Last(records)
  {
    hide At;
  }
  lemma JoinIsAlone(s: State, step: Step, j: nat)
    requires step.Join? && Enabled(s, step) && Owners(s.nodes, s.records) && j < |s.records| && j != step.i
    ensures step.dispatcher !in s.records[j].sites
  {
    hide Holds, InPatch, At;
  }
  lemma JoinKeepsList(s: State, step: Step)
    requires step.Join? && Enabled(s, step) && Lists(s)
    ensures var n := Next(s, step);
            Shape(n.nodes, n.head, n.records, n.pending) && Owners(n.nodes, n.records)
            && Coming(n.nodes, n.records, n.pending)
  {
    forall j | 0 <= j < |s.records| && j != step.i ensures step.dispatcher !in s.records[j].sites {
      JoinIsAlone(s, step, j);
    }
    hide Holds, Globals, Owners, Linked, Recorded, At, CanRoute, MoreSites, Last;
    NodesSame(s.nodes, s.records, step.i, step.dispatcher);
    SitesMore(s.nodes, s.records, step.i, step.dispatcher);
  }
  lemma RetargetKeepsList(s: State, step: Step)
    requires (step.SetGlobal? || step.ClearGlobal?) && Enabled(s, step) && Lists(s) && s.pending.None?
    ensures var n := Next(s, step);
            Shape(n.nodes, n.head, n.records, n.pending) && Owners(n.nodes, n.records)
            && Coming(n.nodes, n.records, n.pending)
  {
    StepExtends(s, step);
    RetargetFrame(s, step);
    hide Enabled, Next, Globals, Owners, Recorded, At, Extends, SameEntries, Linked;
    var n := Next(s, step);
    LinkedStable(s.nodes, n.nodes);
    EntriesStable(s.nodes, n.nodes, s.records);
    OwnersStable(s.nodes, n.nodes, s.records);
  }
  lemma RetargetFrame(s: State, step: Step)
    requires (step.SetGlobal? || step.ClearGlobal?) && Enabled(s, step)
    ensures var n := Next(s, step);
            |n.nodes| == |s.nodes| && n.head == s.head && n.records == s.records && n.pending == s.pending
  {
    hide CanReplace, At;
  }
  lemma LinkedStable(before: seq<Node>, after: seq<Node>)
    requires Extends(before, after) && |before| == |after| && Linked(before)
    ensures Linked(after)
  {
  }

  // Keeping the global targets

  lemma ListedKept(s: State, step: Step)
    requires Enabled(s, step) && Locks(s.sessions, s.writer)
    ensures var n := Next(s, step);
            !step.SetGlobal? && !step.ClearGlobal? ==> Listed(n.sessions, n.writer) == Listed(s.sessions, s.writer)
  {
    hide Holds, CanRoute, CanReplace, NewSource, Clear, Overlay, Without, Retarget, At, MoreSites;
  }
  lemma GlobalsStable(nodes: seq<Node>, more: seq<Node>, records: seq<Record>, after: seq<Record>, listed: seq<nat>)
    requires Globals(nodes, records, listed) && Recorded(nodes, records)
    requires |records| <= |after| && SameNodes(records, after[..|records|])
    requires nodes <= more && forall k | |nodes| <= k < |more| :: more[k].global == 0
    ensures Globals(more, after, listed)
  {
    forall p | 1 <= p <= |more| && At(more, p).global != 0
      ensures At(more, p).patch.entry in listed && IsRecord(after, p)
    {
      assert At(nodes, p) == At(more, p);
      var i :| 0 <= i < |records| && records[i].node == p;
      assert after[..|records|][i].node == after[i].node;
    }
    forall k | 0 <= k < |listed| ensures Targeted(more, after, listed[k]) {
      var i := TargetedBy(nodes, records, listed[k]);
      assert after[..|records|][i].node == after[i].node;
      assert At(more, after[i].node) == At(nodes, records[i].node);
    }
  }
  lemma RetargetAt(nodes: seq<Node>, p: nat, target: nat, stamp: nat, q: nat)
    ensures q != p ==> At(Retarget(nodes, p, target, stamp), q) == At(nodes, q)
    ensures 1 <= p <= |nodes| ==>
              At(Retarget(nodes, p, target, stamp), p) == At(nodes, p).(global := target, stamp := stamp)
  {
  }
  lemma OneEntry(nodes: seq<Node>, records: seq<Record>, i: nat, j: nat)
    requires Owners(nodes, records) && i < |records| && j < |records|
    requires At(nodes, records[i].node).patch.entry == At(nodes, records[j].node).patch.entry
    ensures i == j
  {
  }
  lemma TargetedBy(nodes: seq<Node>, records: seq<Record>, source: nat) returns (i: nat)
    requires Targeted(nodes, records, source)
    ensures i < |records| && At(nodes, records[i].node).patch.entry == source && At(nodes, records[i].node).global != 0
  {
    var j :| && 0 <= j < |records| && At(nodes, records[j].node).patch.entry == source
             && At(nodes, records[j].node).global != 0;
    i := j;
  }
  lemma GlobalSet(nodes: seq<Node>, records: seq<Record>, listed: seq<nat>, i: nat, target: nat, stamp: nat)
    requires Globals(nodes, records, listed) && Recorded(nodes, records) && Owners(nodes, records)
    requires i < |records| && At(nodes, records[i].node).global == 0 && target != 0
    ensures Globals(Retarget(nodes, records[i].node, target, stamp), records,
                    listed + [At(nodes, records[i].node).patch.entry])
  {
    hide Owners, At, Retarget, Targeted;
    var after, source := Retarget(nodes, records[i].node, target, stamp), At(nodes, records[i].node).patch.entry;
    var more := listed + [source];
    RetargetAt(nodes, records[i].node, target, stamp, 0);
    forall p | 1 <= p <= |nodes| && At(after, p).global != 0
      ensures At(after, p).patch.entry in more && IsRecord(records, p)
    {
      RetargetAt(nodes, records[i].node, target, stamp, p);
      assert source == more[|listed|] && forall x | x in listed :: x in more;
    }
    forall k | 0 <= k < |listed| ensures listed[k] != source && Targeted(after, records, listed[k]) {
      var j := TargetedBy(nodes, records, listed[k]);
      if listed[k] == source {
        OneEntry(nodes, records, i, j);
      }
      StaysTargeted(nodes, records, listed[k], j, records[i].node, target, stamp);
    }
    SetTargeted(nodes, records, i, target, stamp);
  }
  lemma StaysTargeted(nodes: seq<Node>, records: seq<Record>, source: nat, j: nat, p: nat, target: nat, stamp: nat)
    requires j < |records| && At(nodes, records[j].node).patch.entry == source && At(nodes, records[j].node).global != 0
    requires records[j].node != p
    ensures Targeted(Retarget(nodes, p, target, stamp), records, source)
  {
    hide At, Retarget;
    RetargetAt(nodes, p, target, stamp, records[j].node);
  }
  lemma SetTargeted(nodes: seq<Node>, records: seq<Record>, i: nat, target: nat, stamp: nat)
    requires i < |records| && target != 0 && 1 <= records[i].node <= |nodes|
    ensures Targeted(Retarget(nodes, records[i].node, target, stamp), records, At(nodes, records[i].node).patch.entry)
  {
    hide At, Retarget;
    RetargetAt(nodes, records[i].node, target, stamp, 0);
  }
  lemma GlobalCleared(nodes: seq<Node>, records: seq<Record>, listed: seq<nat>, i: nat)
    requires Globals(nodes, records, listed) && Recorded(nodes, records) && Owners(nodes, records)
    requires i < |records| && listed != [] && At(nodes, records[i].node).patch.entry == listed[|listed| - 1]
    ensures Globals(Retarget(nodes, records[i].node, 0, 0), records, listed[..|listed| - 1])
  {
    hide Owners, At, Retarget, Targeted;
    var after, source := Retarget(nodes, records[i].node, 0, 0), At(nodes, records[i].node).patch.entry;
    var less := listed[..|listed| - 1];
    forall p | 1 <= p <= |nodes| && At(after, p).global != 0
      ensures At(after, p).patch.entry in less && IsRecord(records, p)
    {
      RetargetAt(nodes, records[i].node, 0, 0, p);
      assert At(nodes, p).patch.entry in listed && IsRecord(records, p);
      var j :| 0 <= j < |records| && records[j].node == p;
      if At(nodes, p).patch.entry == source {
        OneEntry(nodes, records, i, j);
      }
      assert listed == less + [source];
    }
    forall k | 0 <= k < |less| ensures Targeted(after, records, less[k]) {
      var j := TargetedBy(nodes, records, listed[k]);
      StaysTargeted(nodes, records, listed[k], j, records[i].node, 0, 0);
    }
  }
  lemma WriterIs(s: State, t: Thread)
    requires Locks(s.sessions, s.writer) && Installing(s) && t in s.sessions
    requires !s.sessions[t].local || s.sessions[t].globalRoutes != [] || s.sessions[t].patches != []
    ensures s.writer == Some(t) && s.pending.None? && Listed(s.sessions, s.writer) == s.sessions[t].globalRoutes
  {
  }
  ghost predicate Kept(s: State) {
    Lists(s) && Locks(s.sessions, s.writer) && Installing(s)
  }
  lemma GlobalsKept(s: State, step: Step)
    requires Kept(s) && Enabled(s, step)
    ensures var n := Next(s, step); Globals(n.nodes, n.records, Listed(n.sessions, n.writer))
  {
    hide Holds, CanRoute, NewSource, Clear, Overlay, Without, Retarget, Globals, Owners, Locks, Installing, Coming,
         Listed, At, Recorded;
    ListedKept(s, step);
    ListKept(s, step);
    if step.SetGlobal? || step.ClearGlobal? {
      WriterIs(s, step.t);
      RetargetGlobals(s, step);
    } else if TouchesList(step) {
      var n := Next(s, step);
      if step.Join? {
        NodesSame(s.nodes, s.records, step.i, step.dispatcher);
      }
      assert n.records[..|s.records|] == if step.Join? then n.records else s.records;
      GlobalsStable(s.nodes, n.nodes, s.records, n.records, Listed(s.sessions, s.writer));
    }
  }
  lemma RetargetGlobals(s: State, step: Step)
    requires (step.SetGlobal? || step.ClearGlobal?) && Lists(s) && Enabled(s, step)
    requires s.writer == Some(step.t) && Listed(s.sessions, s.writer) == s.sessions[step.t].globalRoutes
    ensures var n := Next(s, step); Globals(n.nodes, n.records, Listed(n.sessions, n.writer))
  {
    hide Holds, Overlay, Retarget, Globals, Owners, Coming, At, Recorded;
    if step.SetGlobal? {
      GlobalSet(s.nodes, s.records, s.sessions[step.t].globalRoutes, step.i, step.target, s.clock);
    } else {
      GlobalCleared(s.nodes, s.records, s.sessions[step.t].globalRoutes, step.i);
    }
  }
  lemma ListsKept(s: State, step: Step)
    requires Kept(s) && Enabled(s, step)
    ensures Lists(Next(s, step))
  {
    GlobalsKept(s, step);
    if step.SetGlobal? || step.ClearGlobal? {
      WriterIs(s, step.t);
    }
    hide Enabled, Next, Shape, Owners, Coming, Globals, Locks, Installing;
    ListKept(s, step);
    if step.Publish? {
      PublishKeepsList(s, step);
    } else if step.Write? || step.Abandon? {
      WriteKeepsList(s, step);
    } else if step.Register? {
      RegisterKeepsList(s, step);
    } else if step.Join? {
      JoinKeepsList(s, step);
    } else if step.SetGlobal? || step.ClearGlobal? {
      RetargetKeepsList(s, step);
    }
  }

  // Keeping the routes of every thread

  lemma EntryOf(nodes: seq<Node>, records: seq<Record>, source: nat, dispatcher: nat) returns (i: nat)
    requires HasEntry(nodes, records, source, dispatcher)
    ensures i < |records| && At(nodes, records[i].node).patch.entry == source
            && At(nodes, records[i].node).dispatcher == dispatcher
  {
    var j :| && 0 <= j < |records| && At(nodes, records[j].node).patch.entry == source
             && At(nodes, records[j].node).dispatcher == dispatcher;
    i := j;
  }
  lemma HasEntryKept(s: State, step: Step, source: nat, dispatcher: nat)
    requires Kept(s) && Enabled(s, step) && HasEntry(s.nodes, s.records, source, dispatcher)
    ensures HasEntry(Next(s, step).nodes, Next(s, step).records, source, dispatcher)
  {
    hide Enabled, Next, At, Extends, Owners, Coming, Globals, Locks, Installing;
    var n := Next(s, step);
    var i := EntryOf(s.nodes, s.records, source, dispatcher);
    StepExtends(s, step);
    AtStable(s.nodes, n.nodes, s.records[i].node);
    RecordsKept(s, step, i);
    assert At(n.nodes, n.records[i].node).patch.entry == source;
  }
  lemma RecordsKept(s: State, step: Step, i: nat)
    requires Enabled(s, step) && i < |s.records|
    ensures i < |Next(s, step).records| && Next(s, step).records[i].node == s.records[i].node
  {
    hide Holds, CanRoute, CanReplace, NewSource, Clear, Overlay, Without, Retarget, At;
  }
  lemma RoutedKept(s: State, step: Step, routes: seq<Local>)
    requires Kept(s) && Enabled(s, step) && Routed(s.nodes, s.records, routes)
    ensures Routed(Next(s, step).nodes, Next(s, step).records, routes)
  {
    hide Kept, Enabled, Next, HasEntry;
    forall k | 0 <= k < |routes|
      ensures HasEntry(Next(s, step).nodes, Next(s, step).records, routes[k].source, routes[k].dispatcher)
    {
      HasEntryKept(s, step, routes[k].source, routes[k].dispatcher);
    }
  }
  lemma RoutedMore(nodes: seq<Node>, records: seq<Record>, routes: seq<Local>, route: Local)
    requires Routed(nodes, records, routes) && route.target != 0
             && HasEntry(nodes, records, route.source, route.dispatcher)
    requires forall k | 0 <= k < |routes| :: routes[k].source != route.source
    ensures Routed(nodes, records, routes + [route])
  {
    hide HasEntry;
  }
  /** Sources are distinct, so dropping the newest by its source drops just it. */
  lemma {:induction false} WithoutLast(routes: seq<Local>, last: nat)
    requires routes != [] && routes[|routes| - 1].source == last
    requires forall j, k | 0 <= j < k < |routes| :: routes[j].source != routes[k].source
    ensures Without(routes, last) == routes[..|routes| - 1]
  {
    if |routes| == 1 {
      assert routes[1..] == [];
    } else {
      WithoutLast(routes[1..], last);
      assert routes[..|routes| - 1] == [routes[0]] + routes[1..][..|routes| - 2];
    }
  }
  predicate Reroutes(step: Step) {
    step.Register? || step.Join? || step.Drop?
  }
  lemma RoutesKept(s: State, step: Step, t: Thread)
    requires Enabled(s, step)
    ensures !Reroutes(step) || t != step.t ==> Routes(Next(s, step), t) == Routes(s, t)
    ensures (!Reroutes(step) && !step.Open? && !step.Close?) || t != step.t ==>
              Sources(Next(s, step).sessions, t) == Sources(s.sessions, t)
    ensures step.Open? || step.Close? ==> Sources(Next(s, step).sessions, step.t) == [] == Sources(s.sessions, step.t)
  {
    hide Holds, CanRoute, CanReplace, NewSource, Clear, Overlay, Without, Retarget, At, MoreSites;
  }
  lemma LocalsKept(s: State, step: Step)
    requires Kept(s) && Locals(s) && Enabled(s, step)
    ensures Locals(Next(s, step))
  {
    hide Kept, Enabled, Next, Routed, Matches, Routes, Sources;
    var n := Next(s, step);
    forall t: Thread ensures Routed(n.nodes, n.records, Routes(n, t)) && Matches(Routes(n, t), Sources(n.sessions, t)) {
      RoutesKept(s, step, t);
      if Reroutes(step) && t == step.t {
        RerouteKeeps(s, step);
      } else {
        RoutedKept(s, step, Routes(s, t));
      }
    }
  }
  lemma RerouteKeeps(s: State, step: Step)
    requires Kept(s) && Locals(s) && Enabled(s, step) && Reroutes(step)
    ensures var n := Next(s, step);
            Routed(n.nodes, n.records, Routes(n, step.t)) && Matches(Routes(n, step.t), Sources(n.sessions, step.t))
  {
    hide Kept, Routed, Matches, Holds, At, CanRoute, MoreSites, Without, Overlay, Locks;
    var n, t := Next(s, step), step.t;
    var routes := Routes(s, t);
    assert Routed(s.nodes, s.records, routes) && Matches(routes, Sources(s.sessions, t));
    if step.Drop? {
      var mine := s.sessions[t].localPatches;
      LastSource(routes, mine);
      DropKeeps(s.nodes, s.records, routes, mine);
    } else {
      RoutedKept(s, step, routes);
      RouteIsNew(s, step);
      var route := Routes(n, t)[|routes|];
      assert Routes(n, t) == routes + [route];
      RoutedMore(n.nodes, n.records, routes, route);
      MatchesMore(routes, Sources(s.sessions, t), route);
    }
  }
  lemma MatchesMore(routes: seq<Local>, sources: seq<nat>, route: Local)
    requires Matches(routes, sources)
    ensures Matches(routes + [route], sources + [route.source])
  {
  }
  lemma LastSource(routes: seq<Local>, sources: seq<nat>)
    requires Matches(routes, sources) && sources != []
    ensures routes != [] && routes[|routes| - 1].source == sources[|sources| - 1]
  {
  }
  lemma DropKeeps(nodes: seq<Node>, records: seq<Record>, routes: seq<Local>, sources: seq<nat>)
    requires Routed(nodes, records, routes) && Matches(routes, sources) && sources != []
    ensures var after := Without(routes, sources[|sources| - 1]);
            Routed(nodes, records, after) && Matches(after, sources[..|sources| - 1])
  {
    hide HasEntry;
    WithoutLast(routes, sources[|sources| - 1]);
  }
  lemma RouteIsNew(s: State, step: Step)
    requires Kept(s) && Enabled(s, step) && (step.Register? || step.Join?)
    ensures var n, routes := Next(s, step), Routes(s, step.t);
            && |Routes(n, step.t)| == |routes| + 1
            && var route := Routes(n, step.t)[|routes|];
            && route.target != 0 && HasEntry(n.nodes, n.records, route.source, route.dispatcher)
            && (forall k | 0 <= k < |routes| :: routes[k].source != route.source)
  {
    hide Holds, InPatch, Overlaps, Proper, Owners, Shape, Globals, Locks;
    var n := Next(s, step);
    var i := if step.Join? then step.i else |s.records|;
    assert At(n.nodes, n.records[i].node) == if step.Join? then Entry(s, i) else At(s.nodes, s.pending.value.node);
  }
}
