/** The operations on the process-wide tables, as runs of the routing steps. */
module Process {
  import opened Words
  import opened Memory
  import opened Executable
  import opened Saved
  import opened Routing
  import opened RoutingInvariant
  import opened RoutingSafety
  import opened EntryBehaviour
  import opened Failures
  import X86Plan
  import RoutingTheorems

  class Process {
    const os: Platform
    const pages: Allocator
    const cpu: Target
    const system: System
    ghost const initial: map<int, Byte>

    var nodes: seq<Node>
    var head: nat
    var records: seq<Record>
    var routes: map<Thread, seq<Local>>
    var sessions: map<Thread, Session>
    var writer: Option<Thread>
    var clock: nat
    /** The page between an ARM64 patch and its target, and what it holds, by the patched function. */
    var relays: map<nat, (int, seq<Byte>)>

    ghost function View(): State
      reads this, os
    {
      State(initial, os.bytes, nodes, head, records, None, routes, sessions, writer, map[], clock)
    }
    ghost predicate Valid()
      reads this, os
    {
      os.Quiet() && Invariant(View()) && Furnished(cpu, nodes) && Undoable(os.regions, os.pageSize, sessions)
    }

    constructor (os: Platform, pages: Allocator, cpu: Target, system: System)
      requires os.Quiet()
      ensures Valid() && Initial(View()) && this.os == os && this.pages == pages
    {
      this.os, this.pages, this.cpu, this.system, this.initial := os, pages, cpu, system, os.bytes;
      nodes, head, records, routes, sessions, writer, clock, relays := [], 0, [], map[], map[], None, 0, map[];
      new;
      InitialInvariant(View());
    }

    // Resolving a call

    /** Walks the published entries. An original that bridges a call is not returned, but a panic, where a
        shadow stack is in use. */
    method Fallback(dispatcher: nat, shadowStack: Result<bool>) returns (r: Result<Option<nat>>)
      requires Valid()
      ensures r.Ok? ==> r.value == RoutingTheorems.Fallback(View(), dispatcher)
      ensures r.Err? <==> Panics(View(), dispatcher, shadowStack)
    {
      hide Invariant, Furnished;
      ListFacts();
      var cursor: nat := head;
      while cursor != 0
        invariant cursor <= |nodes| && Find(nodes, head, dispatcher) == Find(nodes, cursor, dispatcher)
      {
        var entry := nodes[cursor - 1];
        if entry.dispatcher == dispatcher {
          if entry.global != 0 {
            return Ok(Some(entry.global));
          }
          if entry.original.bridge && shadowStack != Ok(false) {
            return Err(ShadowStack);
          }
          return Ok(Some(entry.original.address));
        }
        cursor := entry.next;
      }
      r := Ok(None);
    }
    lemma ListFacts()
      requires Valid()
      ensures head <= |nodes| && Linked(nodes)
      ensures forall i | 0 <= i < |records| :: 1 <= records[i].node <= |nodes|
    {
    }

    /** The thread's own target, unless it is the dispatcher itself, else what the entries say. */
    method Route(t: Thread, dispatcher: nat, shadowStack: Result<bool>) returns (r: Result<Option<nat>>)
      requires Valid()
      ensures r.Ok? ==> r.value == RoutingTheorems.Resolve(View(), t, dispatcher)
      ensures r.Err? <==> && Panics(View(), dispatcher, shadowStack)
                          && RoutingTheorems.LocalTarget(Routes(View(), t), dispatcher) in {None, Some(dispatcher)}
    {
      hide Invariant, Furnished, Panics;
      var mine := Table(routes, t);
      var own: Option<nat> := None;
      var k := 0;
      while k < |mine| && own.None?
        invariant k <= |mine|
        invariant RoutingTheorems.LocalTarget(mine, dispatcher) ==
                  if own.Some? then own else RoutingTheorems.LocalTarget(mine[k..], dispatcher)
      {
        if mine[k].dispatcher == dispatcher {
          own := Some(mine[k].target);
        }
        assert mine[k..][1..] == mine[k + 1..];
        k := k + 1;
      }
      if own.Some? && own.value != dispatcher {
        return Ok(own);
      }
      r := Fallback(dispatcher, shadowStack);
    }

    // Sessions

    /** Opens a session without waiting: exactly one global session, or any number of local ones. */
    method Open(t: Thread, local: bool) returns (r: Result<()>)
      requires Valid()
      modifies this
      ensures Valid() && os.bytes == old(os.bytes)
      ensures r.Ok? <==> t !in old(sessions) && if local then old(writer).None? else old(sessions) == map[]
      ensures r.Ok? ==> View() == Next(old(View()), Routing.Open(t, local))
      ensures r.Err? ==> r.error == Busy && View() == old(View())
    {
      hide Invariant, Furnished, Enabled, Next;
      ghost var before := View();
      NotEmpty(sessions);
      OpenFrame(before, t, local);
      if t in sessions || (if local then writer.Some? else |sessions| > 0) {
        return Err(Busy);
      }
      InvariantKept(before, Routing.Open(t, local));
      sessions := sessions[t := Session(local, [], [], [])];
      writer := if local then writer else Some(t);
      r := Ok(());
    }

    /** Ends a session that has nothing left to restore. */
    method Close(t: Thread)
      requires Valid() && Enabled(View(), Routing.Close(t))
      modifies this
      ensures Valid() && View() == Next(old(View()), Routing.Close(t))
    {
      hide Invariant, Furnished, Enabled, Next;
      CloseFrame(View(), t);
      InvariantKept(View(), Routing.Close(t));
      sessions := sessions - {t};
      writer := if writer == Some(t) then None else writer;
    }

    // Routes of a local session

    method FindEntry(source: nat) returns (r: Option<nat>)
      requires Valid()
      ensures r.Some? ==> r.value < |records| && Entry(View(), r.value).patch.entry == source
      ensures r.None? ==> NewSource(View(), source)
    {
      hide Invariant, Furnished;
      for i := 0 to |records|
        invariant forall j | 0 <= j < i :: Entry(View(), j).patch.entry != source
      {
        if At(nodes, records[i].node).patch.entry == source {
          return Some(i);
        }
      }
      r := None;
    }

    /** The checks before an installation in a local session. */
    method CheckRoute(t: Thread, source: Address, dispatcher: Address, target: Address) returns (r: Result<()>)
      requires Valid()
      modifies os`refusals
      ensures Valid() && os.refusals >= old(os.refusals)
      ensures r.Ok? ==> CanRoute(View(), t, source, dispatcher, target)
      ensures r == Err(SameAddress) <==> source == target
      ensures r == Err(Overlap) <==> source != target && RouteClash(View(), t, source, dispatcher, target)
      ensures r.Err? && os.refusals == old(os.refusals) ==>
                || RouteClash(View(), t, source, dispatcher, target)
                || !Callable(os.regions, target) || !Callable(os.regions, dispatcher)
    {
      hide Invariant, Furnished, CanRoute, Undoable;
      CanRouteIs(View(), t, source, dispatcher, target);
      if source == target {
        return Err(SameAddress);
      }
      var mine := Table(routes, t);
      assert mine == Routes(View(), t);
      if exists k :: 0 <= k < |mine| && mine[k].source == source {
        return Err(Overlap);
      }
      for i := 0 to |records|
        invariant forall j | 0 <= j < i :: !RouteClashesWith(View(), j, source, dispatcher, target)
      {
        var patch := At(nodes, records[i].node).patch;
        if InPatch(patch, target)
           || (source != patch.entry && (InPatch(patch, source) || dispatcher in records[i].sites)) {
          assert RouteClashesWith(View(), i, source, dispatcher, target);
          return Err(Overlap);
        }
      }
      var _ :- Read(os, target, 1);
      var _ :- Read(os, dispatcher, 1);
      r := Ok(());
    }

    /** Routes a source that has an entry already. */
    method JoinEntry(t: Thread, i: nat, dispatcher: nat, target: nat)
      requires Valid() && Enabled(View(), Join(t, i, dispatcher, target))
      modifies this
      ensures Valid() && View() == Next(old(View()), Join(t, i, dispatcher, target))
    {
      hide Invariant, Furnished, CanRoute, Enabled, Next;
      ghost var before := View();
      JoinStep(before, Join(t, i, dispatcher, target));
      InvariantKept(before, Join(t, i, dispatcher, target));
      var entry := At(nodes, records[i].node);
      records := MoreSites(records, i, dispatcher);
      AddRoute(t, entry.patch.entry, entry.dispatcher, target);
    }
    method AddRoute(t: Thread, source: nat, dispatcher: nat, target: nat)
      requires t in sessions
      modifies this
      ensures View() == Routing.Route(old(View()), t, source, dispatcher, target)
    {
      var mine := Table(routes, t);
      routes := routes[t := mine + [Local(source, dispatcher, target, clock)]];
      sessions := sessions[t := sessions[t].(localPatches := sessions[t].localPatches + [source])];
      clock := clock + 1;
    }

    /** A page near the function, from the system's own search. Only on Apple Silicon it may be distant. */
    method Near(source: Address) returns (r: Result<int>)
      modifies pages
      ensures r.Ok? ==> 0 <= r.value && r.value + CAPACITY < W64 && r.value % 4 == 0
      ensures r.Ok? && !(system.MacOs? && cpu.Arm64?) ==> Distance(r.value, source) <= Reach(cpu)
      ensures old(pages.log) <= pages.log
      ensures r.Ok? ==> Chosen(system, cpu, source, pages.log, |old(pages.log)|, r.value)
      ensures r.Err? ==> || source == 0 || source > HIGHEST - CAPACITY
                         || NoPage(system, cpu, source, pages.log, |old(pages.log)|)
    {
      hide Lower, Upper, Distance, AllFar, StuckFar, RuledOut;
      if source == 0 || source > HIGHEST - CAPACITY {
        return Err(InvalidAddress);
      }
      var reach := Reach(cpu);
      match system {
        case Windows =>
          r := SearchWindows(pages, reach, source);
          if r.Ok? {
            InReach(reach, source, r.value);
            assert AllRuledOut(pages.log, |old(pages.log)|, Lower(reach, source), r.value);
          }
        case Linux =>
          r := SearchUnix(pages, reach, source);
        case MacOs =>
          r := SearchUnix(pages, reach, source);
          if cpu.Arm64? {
            ghost var reports := pages.log[|old(pages.log)|..];
            r := FallBack(pages, r);
            assert pages.log[|old(pages.log)|..] == reports
                   || pages.log[|old(pages.log)|..][..|reports|] == reports;
          }
      }
      if r.Ok? {
        PageAligned(r.value);
      }
    }

    /** What a new entry needs: its patch, and the published page with the saved original. */
    method PrepareEntry(source: Address, dispatcher: Address, shadowStack: Result<bool>)
      returns (r: Result<(Patch, Original)>, fatal: bool)
      requires Valid()
      modifies os`refusals, pages
      ensures Valid() && os.refusals >= old(os.refusals)
      ensures r.Ok? ==> Prepared(cpu, View(), source, dispatcher, r.value.0, r.value.1)
      ensures r.Ok? && !(system.MacOs? && cpu.Arm64?) ==> ShortEntry(cpu, r.value.0, r.value.1)
      ensures r.Ok? && r.value.1.bridge ==> shadowStack == Ok(false)
      ensures os.refusals == old(os.refusals) ==>
                || (r.Ok? && Writes(os.regions, os.pageSize, os.bytes, r.value.0))
                || NoEntry(system, cpu, View(), os.regions, os.pageSize, source, dispatcher, shadowStack, pages.log,
                           |old(pages.log)|)
    {
      hide Invariant, Furnished, Prepared, ShortEntry, Chosen, NoPage, Enterable, Snapshot, Undoable, Writes, Extent;
      fatal := false;
      ghost var from := |pages.log|;
      var bytes :- Read(os, source, MAX_PREFIX);
      SnapshotIs(os.regions, os.bytes, source, bytes);
      var page :- Near(source);
      ghost var searched := pages.log;
      r := PlanEntry(source, dispatcher, bytes, page, shadowStack);
      if r.Err? {
        var released := pages.Release(page);
        fatal := released.Err?;
      }
      assert pages.log[..|searched|] == searched;
      if os.refusals == old(os.refusals) && !(r.Ok? && Writes(os.regions, os.pageSize, os.bytes, r.value.0)) {
        assert Wasted(system, cpu, View(), os.regions, os.pageSize, source, dispatcher, shadowStack, pages.log, from,
                      |searched|, page);
      }
    }
    method PlanEntry(source: Address, dispatcher: Address, bytes: seq<Byte>, page: int, shadowStack: Result<bool>)
      returns (r: Result<(Patch, Original)>)
      requires Valid() && Holds(os.bytes, source, bytes) && 0 <= page && page + CAPACITY < W64 && page % 4 == 0
      requires 0 < source
      modifies pages`log
      ensures Valid()
      ensures r.Ok? ==> Prepared(cpu, View(), source, dispatcher, r.value.0, r.value.1) && r.value.1.address == page
      ensures r.Ok? && Distance(page, source) <= Reach(cpu) ==> ShortEntry(cpu, r.value.0, r.value.1)
      ensures r.Ok? && r.value.1.bridge ==> shadowStack == Ok(false)
      ensures pages.log == old(pages.log) || pages.log == old(pages.log) + [Unsealed(page)]
      ensures || (r.Ok? && (Snapshot(os.regions, os.bytes, source, bytes) ==>
                              Writes(os.regions, os.pageSize, os.bytes, r.value.0)))
              || (r.Err? && pages.log == old(pages.log) + [Unsealed(page)])
              || !Enterable(cpu, View(), os.pageSize, source, dispatcher, bytes, page, shadowStack)
    {
      hide Invariant, Furnished, Plannable, Fits, Shaped, Buildable, Undoable, Writes, Snapshot, Holds, Roomy,
           Enterable, Clear, IsBuilt, ShortEntry;
      EnterableIs(cpu, View(), os.pageSize, source, dispatcher, bytes, page, shadowStack);
      var plan :- ClearPlan(source, page + RELAY, bytes);
      FitsShaped(cpu, source, page + RELAY, bytes, plan);
      ShapedIs(cpu, source, page + RELAY, bytes, plan);
      var address := source + plan.offset;
      var patch := Patch(source, address, plan.original, plan.replacement);
      HoldsPart(os.bytes, source, bytes, plan.offset, |plan.original|);
      RoomyIs(View(), os.pageSize, patch);
      var page :- FillPage(source, bytes, plan, page, dispatcher, shadowStack);
      PlanWrites(os.regions, os.pageSize, os.bytes, source, bytes, patch);
      r := Ok((patch, page));
    }
    /** A plan that clashes with no entry. */
    method ClearPlan(source: Address, target: Address, bytes: seq<Byte>) returns (r: Result<Plan>)
      requires Valid()
      ensures r.Ok? ==>
                && Fits(cpu, source, target, bytes, r.value) && source + r.value.offset + |r.value.original| < W64
                && Clear(View(), Patch(source, source + r.value.offset, r.value.original, r.value.replacement))
      ensures r.Err? && Plannable(cpu, source, target, bytes) ==>
                exists plan :: Fits(cpu, source, target, bytes, plan)
                               && !Roomy(View(), os.pageSize, source + plan.offset, |plan.original|)
    {
      hide Invariant, Furnished, Plannable, Fits, Shaped, Undoable, Roomy, Clear;
      var plan :- MakePlan(cpu, source, target, bytes);
      ghost var patch := Patch(source, source + plan.offset, plan.original, plan.replacement);
      RoomyIs(View(), os.pageSize, patch);
      var address :- Sum(source, plan.offset);
      var _ :- Sum(address, |plan.original|);
      var overlaps := Overlapped(address, |plan.original|);
      OverlapIs(View(), patch);
      if overlaps {
        return Err(Overlap);
      }
      r := Ok(plan);
    }
    /** Whether the bytes of a function touch those of an entry. */
    method Overlapped(address: nat, length: nat) returns (r: bool)
      requires Valid()
      ensures r <==> !Free(View(), address, length)
    {
      hide Invariant, Furnished, Undoable;
      r := exists i :: 0 <= i < |records| && Common(address, length, At(nodes, records[i].node).patch);
      if r {
        ghost var i :| 0 <= i < |records| && Common(address, length, At(nodes, records[i].node).patch);
        assert Common(address, length, Entry(View(), i).patch);
      }
    }
    /** Builds, writes and seals the page of a new entry. */
    method FillPage(source: Address, ghost bytes: seq<Byte>, plan: Plan, page: int, dispatcher: Address,
                    shadowStack: Result<bool>)
      returns (r: Result<Original>)
      requires 0 <= page && page + CAPACITY < W64 && page % 4 == 0
      requires Shaped(cpu, source, page + RELAY, bytes, plan)
      modifies pages`log
      ensures r.Ok? ==> && r.value.address == page && (r.value.bridge ==> shadowStack == Ok(false))
                        && var patch := Patch(source, source + plan.offset, plan.original, plan.replacement);
                        && IsBuilt(cpu, patch, r.value, dispatcher)
                        && (Distance(page, source) <= Reach(cpu) ==> ShortEntry(cpu, patch, r.value))
      ensures r.Ok? ==> pages.log == old(pages.log)
      ensures r.Err? ==>
                || pages.log == old(pages.log) + [Unsealed(page)]
                || (&& pages.log == old(pages.log) && source + plan.offset < W64
                    && !Buildable(cpu, source + plan.offset, page, plan.original, dispatcher, shadowStack))
    {
      hide Jump, Relocated, Leads, Keeps, Short, X86Plan.HasCall, X86Plan.Tiled;
      var address := source + plan.offset;
      var built :- Build(cpu, source, bytes, address, page, plan, dispatcher, shadowStack);
      var memory := new Page(page);
      var _ :- memory.Publish(pages, built.0);
      KeepsRelocated(cpu, address, plan.original, page, built.0);
      if Distance(page, source) <= Reach(cpu) {
        NearIsShort(cpu, source, bytes, plan, page);
      }
      r := Ok(Original(page, memory.contents, built.1));
    }

    /** Publishes a new entry, patches its source, and either registers it or takes it back. */
    method InstallEntry(t: Thread, patch: Patch, dispatcher: nat, page: Original, target: nat)
      returns (o: Outcome, ghost trace: seq<Step>)
      requires Valid() && Enabled(View(), Publish(t, patch, dispatcher, page, target)) && End(patch) < W64
      requires IsBuilt(cpu, patch, page, dispatcher)
      modifies this, os
      ensures !o.Fatal? ==> Valid() && Run(old(View()), trace) == Some(View())
      ensures o.Done? ==> trace == [Publish(t, patch, dispatcher, page, target), Write(t), Register(t)]
      ensures o.Failed? ==> trace == [Publish(t, patch, dispatcher, page, target), Abandon(t)]
      ensures os.refusals >= old(os.refusals)
      ensures !o.Done? && os.refusals == old(os.refusals) ==>
                !Writes(os.regions, os.pageSize, old(os.bytes), patch)
    {
      ghost var before, first := View(), Publish(t, patch, dispatcher, page, target);
      hide Invariant, Furnished, Enabled, Next, Run, Holds, Overlay, IsBuilt, Allowed, Undoable;
      AbandonRun(before, first);
      RegisterRun(before, first);
      var previous := head;
      FurnishedMore(cpu, nodes, Node(patch, dispatcher, page, 0, previous, 0));
      nodes := nodes + [Node(patch, dispatcher, page, 0, previous, 0)];
      head := |nodes|;
      o := Replace(os, patch.address, patch.original, patch.replacement);
      match o {
        case Fatal =>
          trace := [];
        case Failed(_) =>
          head := previous;
          trace := [first, Abandon(t)];
        case Done =>
          records := records + [Record(|nodes|, [dispatcher])];
          UndoableAs(os.regions, os.pageSize, sessions, t,
                     sessions[t].(localPatches := sessions[t].localPatches + [patch.entry]));
          AddRoute(t, patch.entry, dispatcher, target);
          trace := [first, Write(t), Register(t)];
      }
    }

    /** Routes a source on this thread. A failure leaves code, list, records and routes as they were. */
    method InstallReplacement(t: Thread, source: Address, dispatcher: Address, target: Address,
                              shadowStack: Result<bool>)
      returns (o: Outcome, ghost trace: seq<Step>)
      requires Valid() && IsLocal(View(), t)
      modifies this, os, pages
      ensures !o.Fatal? ==> Valid() && Traced(old(View()), trace, t, View())
      ensures o.Done? ==> Resolves(View(), t, source, target) && Gained(old(View()), View(), t, source)
      ensures o.Done? ==> Wired(cpu, View(), source) && Sited(View(), source, dispatcher)
      ensures o.Failed? ==> SameTables(old(View()), View())
      ensures !o.Done? && os.refusals == old(os.refusals) ==>
                CannotRoute(system, cpu, old(View()), os.regions, os.pageSize, t, source, dispatcher, target,
                            shadowStack, pages.log, |old(pages.log)|)
    {
      hide Invariant, Furnished, Prepared, ShortEntry, CanRoute, NewSource, Clear, Holds, Overlay, Run, Enabled, Next,
           IsBuilt, RouteClash, NoEntry, Undoable;
      trace := [];
      RunNone(View());
      var checked := CheckRoute(t, source, dispatcher, target);
      if checked.Err? {
        return Failed(checked.error), [];
      }
      var found := FindEntry(source);
      ghost var before := View();
      if found.Some? {
        trace := [Join(t, found.value, dispatcher, target)];
        JoinFrame(before, trace[0]);
        JoinEntry(t, found.value, dispatcher, target);
        assert SitedAt(View(), found.value, source, dispatcher);
        o := Done;
      } else {
        o, trace := MakeEntry(t, source, dispatcher, target, shadowStack);
      }
      if o.Done? {
        RouteFrame(View(), t, source, target);
        WiredEntry(cpu, View(), t, source);
      }
    }
    /** Builds, publishes and patches in the entry of a source that has none. */
    method MakeEntry(t: Thread, source: Address, dispatcher: Address, target: Address, shadowStack: Result<bool>)
      returns (o: Outcome, ghost trace: seq<Step>)
      requires Valid() && IsLocal(View(), t) && CanRoute(View(), t, source, dispatcher, target)
      requires NewSource(View(), source)
      modifies this, os, pages
      ensures !o.Fatal? ==> Valid() && Traced(old(View()), trace, t, View())
      ensures o.Done? ==> Gained(old(View()), View(), t, source)
      ensures o.Done? ==>
                Routes(View(), t) == old(Routes(View(), t)) + [Local(source, dispatcher, target, old(clock))]
      ensures o.Done? ==> Sited(View(), source, dispatcher)
      ensures o.Failed? ==> SameTables(old(View()), View())
      ensures os.refusals >= old(os.refusals)
      ensures !o.Done? && os.refusals == old(os.refusals) ==>
                NoEntry(system, cpu, old(View()), os.regions, os.pageSize, source, dispatcher, shadowStack, pages.log,
                        |old(pages.log)|)
    {
      hide Invariant, Furnished, Prepared, ShortEntry, CanRoute, NewSource, Clear, Holds, Overlay, Run, Enabled, Next,
           IsBuilt, NoEntry, Writes, Undoable;
      trace := [];
      RunNone(View());
      ghost var before := View();
      var entry, fatal := PrepareEntry(source, dispatcher, shadowStack);
      if entry.Err? {
        return if fatal then Fatal else Failed(entry.error), [];
      }
      var (patch, page) := entry.value;
      PreparedIs(cpu, before, source, dispatcher, patch, page);
      PublishEnabled(before, t, patch, dispatcher, page, target);
      RegisterRun(before, Publish(t, patch, dispatcher, page, target));
      AbandonRun(before, Publish(t, patch, dispatcher, page, target));
      o, trace := InstallEntry(t, patch, dispatcher, page, target);
      if o.Done? {
        assert SitedAt(View(), |before.records|, source, dispatcher);
      }
    }

    // Ending a session

    /** Forgets the thread's route for a source. */
    method Remove(t: Thread, source: nat)
      modifies this`routes
      ensures routes == old(routes)[t := Without(Table(old(routes), t), source)]
    {
      var mine := Table(routes, t);
      var kept: seq<Local> := [];
      for k := 0 to |mine|
        invariant kept + Without(mine[k..], source) == Without(mine, source)
      {
        assert mine[k..][1..] == mine[k + 1..];
        if mine[k].source != source {
          kept := kept + [mine[k]];
        }
      }
      assert mine[|mine|..] == [] && kept + [] == kept;
      routes := routes[t := kept];
    }
    /** Removes the routes of a session, newest first. */
    method RestoreLocal(t: Thread) returns (ghost trace: seq<Step>)
      requires Valid() && t in sessions
      modifies this
      ensures Valid() && Traced(old(View()), trace, t, View())
      ensures t in sessions && sessions[t] == old(sessions[t]).(localPatches := [])
      ensures nodes == old(nodes) && head == old(head) && records == old(records)
    {
      hide Invariant, Furnished, Enabled, Next, Run, Undoable;
      trace := [];
      RunNone(View());
      while sessions[t].localPatches != []
        invariant Valid() && Traced(old(View()), trace, t, View()) && t in sessions
        invariant sessions[t] == old(sessions[t]).(localPatches := sessions[t].localPatches)
        invariant nodes == old(nodes) && head == old(head) && records == old(records)
        decreases |sessions[t].localPatches|
      {
        ghost var before := View();
        DropFrame(before, t);
        Took(old(View()), trace, t, before, Drop(t));
        trace := trace + [Drop(t)];
        var mine := sessions[t].localPatches;
        Remove(t, mine[|mine| - 1]);
        UndoableAs(os.regions, os.pageSize, sessions, t, sessions[t].(localPatches := mine[..|mine| - 1]));
        sessions := sessions[t := sessions[t].(localPatches := mine[..|mine| - 1])];
      }
    }
    /** Clears the global targets of a session, newest first. Every listed source has its record. */
    method RestoreGlobal(t: Thread) returns (ghost trace: seq<Step>)
      requires Valid() && t in sessions
      modifies this
      ensures Valid() && Traced(old(View()), trace, t, View())
      ensures t in sessions && sessions[t] == old(sessions[t]).(globalRoutes := [])
      ensures head == old(head) && records == old(records) && routes == old(routes)
    {
      hide Invariant, Furnished, Enabled, Next, Run, NewSource, Undoable;
      trace := [];
      RunNone(View());
      while sessions[t].globalRoutes != []
        invariant Valid() && Traced(old(View()), trace, t, View()) && t in sessions
        invariant sessions[t] == old(sessions[t]).(globalRoutes := sessions[t].globalRoutes)
        invariant head == old(head) && records == old(records) && routes == old(routes)
        decreases |sessions[t].globalRoutes|
      {
        ghost var before := View();
        var mine := sessions[t].globalRoutes;
        var found := FindEntry(mine[|mine| - 1]);
        ListedFound(before, t);
        var i := found.value;
        ClearFrame(before, t, i);
        Took(old(View()), trace, t, before, ClearGlobal(t, i));
        trace := trace + [ClearGlobal(t, i)];
        RetargetFurnished(cpu, nodes, records[i].node, 0, 0);
        UndoableAs(os.regions, os.pageSize, sessions, t, sessions[t].(globalRoutes := mine[..|mine| - 1]));
        sessions := sessions[t := sessions[t].(globalRoutes := mine[..|mine| - 1])];
        nodes := Retarget(nodes, records[i].node, 0, 0);
      }
    }
    /** Writes the saved code back, newest patch first. A failure keeps the rest for another attempt. */
    method RestoreCode(t: Thread) returns (o: Outcome, ghost trace: seq<Step>)
      requires Valid() && t in sessions
      modifies this, os, pages
      ensures !o.Fatal? ==> Valid() && Traced(old(View()), trace, t, View()) && t in sessions
      ensures o.Done? ==> sessions[t] == old(sessions[t]).(patches := [])
      ensures o.Failed? ==> [] < sessions[t].patches <= old(sessions[t].patches)
                            && sessions[t] == old(sessions[t]).(patches := sessions[t].patches)
      ensures head == old(head) && records == old(records) && routes == old(routes)
      ensures o.Done? || os.refusals > old(os.refusals) || Leaked(pages.log, |old(pages.log)|)
    {
      hide Invariant, Furnished, Enabled, Next, Run, Holds, Overlay, Undoable;
      trace := [];
      RunNone(View());
      while sessions[t].patches != []
        invariant Valid() && Traced(old(View()), trace, t, View()) && t in sessions
        invariant sessions[t] == old(sessions[t]).(patches := sessions[t].patches)
                  && sessions[t].patches <= old(sessions[t].patches)
        invariant head == old(head) && records == old(records) && routes == old(routes)
        invariant os.refusals >= old(os.refusals) && old(pages.log) <= pages.log
        decreases |sessions[t].patches|
      {
        ghost var before := View();
        RestoreFrame(before, t);
        o := RestoreLast(t);
        if !o.Done? {
          return;
        }
        Took(old(View()), trace, t, before, Restore(t));
        trace := trace + [Restore(t)];
      }
      o := Done;
    }
    /** Takes the newest patch of a session back. */
    method RestoreLast(t: Thread) returns (o: Outcome)
      requires Valid() && t in sessions && sessions[t].patches != []
      modifies this, os, pages
      ensures o.Done? ==> os.Quiet() && Undoable(os.regions, os.pageSize, sessions)
      ensures o.Done? ==> View() == old(AfterRestore(View(), t))
      ensures o.Failed? ==> Valid() && View() == old(View())
      ensures o.Fatal? ==> head == old(head) && records == old(records) && routes == old(routes)
      ensures os.refusals >= old(os.refusals) && old(pages.log) <= pages.log
      ensures o.Done? || os.refusals > old(os.refusals) || Leaked(pages.log, |old(pages.log)|)
    {
      hide Invariant, Furnished, Enabled, Next, Holds, Overlay, Undoable, Allowed;
      UndoableLess(os.regions, os.pageSize, sessions, t, os.bytes);
      RestoreFrame(View(), t);
      var mine := sessions[t].patches;
      var patch := mine[|mine| - 1].patch;
      o := Replace(os, patch.address, patch.replacement, patch.original);
      if o.Done? {
        sessions := sessions[t := sessions[t].(patches := mine[..|mine| - 1])];
        var kept := ReleaseRelay(patch.entry);
        if !kept {
          return Fatal;
        }
      }
    }
    /** Dropping a patch gives its relay back; failing to is fatal. */
    method ReleaseRelay(source: nat) returns (ok: bool)
      modifies this`relays, pages
      ensures ok ==> relays == old(relays) - {source}
      ensures old(pages.log) <= pages.log && (ok ==> pages.log == old(pages.log))
      ensures !ok ==> Leaked(pages.log, |old(pages.log)|)
      ensures ok ==> pages.held == old(pages.held) - (if source in old(relays) then {old(relays)[source].0} else {})
    {
      if source !in relays {
        return true;
      }
      var released := pages.Release(relays[source].0);
      assert released.Err? ==> pages.log[|old(pages.log)|].Stuck?;
      relays := relays - {source};
      ok := released.Ok?;
    }

    /** Undoes everything a session did. After success code is what the routing entries alone make it. */
    method RestorePatches(t: Thread) returns (o: Outcome, ghost trace: seq<Step>)
      requires Valid() && t in sessions
      modifies this, os, pages
      ensures !o.Fatal? ==> Valid() && Traced(old(View()), trace, t, View()) && t in sessions
      ensures o.Done? ==> sessions[t] == Session(old(sessions[t].local), [], [], [])
      ensures o.Done? && IsGlobal(View(), t) ==> os.bytes == OverlayAll(initial, Entries(nodes, records))
      ensures o.Failed? ==> && [] < sessions[t].patches <= old(sessions[t].patches)
                            && sessions[t].localPatches == [] && sessions[t].globalRoutes == []
      ensures head == old(head) && records == old(records)
      ensures o.Done? || os.refusals > old(os.refusals) || Leaked(pages.log, |old(pages.log)|)
    {
      hide Invariant, Furnished, Run, Holds, Overlay, Undoable;
      ghost var start := View();
      ghost var first, second, third;
      first := RestoreLocal(t);
      ghost var afterFirst := View();
      second := RestoreGlobal(t);
      TracedJoin(start, first, t, afterFirst, second, View());
      ghost var afterSecond := View();
      o, third := RestoreCode(t);
      trace := first + second + third;
      if !o.Fatal? {
        TracedJoin(start, first + second, t, afterSecond, third, View());
        if o.Done? && IsGlobal(View(), t) {
          CodeLeft(View(), t);
        }
      }
    }

    // Replacements of a global session

    /** The checks of an installation in a global session, against its patches and the records. */
    method CheckReplace(t: Thread, source: Address, target: Address) returns (r: Result<()>)
      requires Valid() && t in sessions
      modifies os`refusals
      ensures Valid() && os.refusals >= old(os.refusals)
      ensures r.Ok? ==> CanReplace(View(), t, source, target)
      ensures r == Err(SameAddress) <==> source == target
      ensures r == Err(Overlap) <==> source != target && ReplaceClash(View(), t, source, target)
      ensures r.Err? && os.refusals == old(os.refusals) ==>
                ReplaceClash(View(), t, source, target) || !Callable(os.regions, target)
    {
      hide Invariant, Furnished, CanReplace, Undoable;
      CanReplaceIs(View(), t, source, target);
      if source == target {
        return Err(SameAddress);
      }
      var mine := sessions[t].patches;
      if exists k :: 0 <= k < |mine| && (InPatch(mine[k].patch, source) || InPatch(mine[k].patch, target)) {
        return Err(Overlap);
      }
      for i := 0 to |records|
        invariant forall j | 0 <= j < i :: !ReplaceClashesWith(View(), j, source, target)
      {
        var patch := At(nodes, records[i].node).patch;
        if InPatch(patch, target) || (source != patch.entry && InPatch(patch, source)) {
          assert ReplaceClashesWith(View(), i, source, target);
          return Err(Overlap);
        }
      }
      var _ :- Read(os, target, 1);
      r := Ok(());
    }
    /** The patch that makes a function jump to a target, or on ARM64 to a relay near it. */
    method PreparePatch(t: Thread, source: Address, target: Address) returns (r: Result<Patch>, fatal: bool)
      requires Valid() && t in sessions
      modifies this`relays, os`refusals, pages
      ensures Valid() && os.refusals >= old(os.refusals)
      ensures r.Ok? ==> Fitted(View(), t, source, r.value) && Directed(cpu, r.value, target, relays)
      ensures os.refusals == old(os.refusals) ==>
                || (r.Ok? && Writes(os.regions, os.pageSize, os.bytes, r.value))
                || NoUse(system, cpu, View(), os.regions, os.pageSize, t, source, target, pages.log, |old(pages.log)|)
                || (r.Err? && NoPatch(system, cpu, View(), os.regions, os.pageSize, t, source, target, pages.log,
                                      |old(pages.log)|))
    {
      hide Invariant, Furnished, Fitted, Directed, Undoable, Chosen, NoPage, Patchable, Snapshot, Writes, Extent, Holds;
      fatal := false;
      ghost var from := |pages.log|;
      var bytes :- Read(os, source, MAX_PREFIX);
      SnapshotIs(os.regions, os.bytes, source, bytes);
      if cpu.X86? {
        r := PlanPatch(t, source, target, bytes);
        if r.Ok? {
          DirectedX86(cpu, r.value, source, target, relays);
        }
        return;
      }
      var page :- Near(source);
      ghost var searched := pages.log;
      r := RelayPatch(t, source, target, bytes, page);
      if r.Err? {
        var released := pages.Release(page);
        fatal := released.Err?;
      }
      assert pages.log[..|searched|] == searched;
      if os.refusals == old(os.refusals) && !(r.Ok? && Writes(os.regions, os.pageSize, os.bytes, r.value)) {
        assert Unused(system, cpu, View(), os.regions, os.pageSize, t, source, target, pages.log, from, |searched|,
                      page);
      }
    }
    method RelayPatch(t: Thread, source: Address, target: Address, bytes: seq<Byte>, page: int)
      returns (r: Result<Patch>)
      requires Valid() && t in sessions && cpu.Arm64? && Holds(os.bytes, source, bytes) && 0 <= page
               && page + CAPACITY < W64 && 0 < source
      modifies this`relays, pages`log
      ensures Valid()
      ensures r.Ok? ==> Fitted(View(), t, source, r.value) && Directed(cpu, r.value, target, relays)
      ensures pages.log == old(pages.log) || pages.log == old(pages.log) + [Unsealed(page)]
      ensures || (r.Ok? && (Snapshot(os.regions, os.bytes, source, bytes) ==>
                              Writes(os.regions, os.pageSize, os.bytes, r.value)))
              || (r.Err? && pages.log == old(pages.log) + [Unsealed(page)])
              || Jump(cpu, page, target).Err? || !Patchable(cpu, View(), t, os.pageSize, source, page, bytes)
    {
      hide Invariant, Furnished, Jump, Holds, Fitted, Undoable, Writes, Snapshot, Patchable;
      var relay := new Page(page);
      var jump :- Jump(cpu, page, target);
      JumpSize(cpu, page, target);
      var _ :- relay.Publish(pages, jump);
      r := PlanPatch(t, source, page, bytes);
      if r.Ok? {
        FittedEntry(View(), t, source, r.value);
        relays := relays[source := (page, relay.contents)];
      }
    }
    method PlanPatch(t: Thread, source: Address, target: Address, bytes: seq<Byte>) returns (r: Result<Patch>)
      requires Valid() && t in sessions && Holds(os.bytes, source, bytes) && 0 < source
      ensures r.Ok? ==> Fitted(View(), t, source, r.value) && Leads(cpu, r.value.address, r.value.replacement, target)
      ensures || (r.Ok? && (Snapshot(os.regions, os.bytes, source, bytes) ==>
                              Writes(os.regions, os.pageSize, os.bytes, r.value)))
              || !Patchable(cpu, View(), t, os.pageSize, source, target, bytes)
    {
      hide Invariant, Furnished, Plannable, Fits, Shaped, Undoable, Writes, Snapshot, Holds, Roomy, Clear, Leads;
      var plan :- ClearPlan(source, target, bytes);
      FitsShaped(cpu, source, target, bytes, plan);
      ShapedIs(cpu, source, target, bytes, plan);
      ShapedLeads(cpu, source, target, bytes, plan);
      var patch := Patch(source, source + plan.offset, plan.original, plan.replacement);
      HoldsPart(os.bytes, source, bytes, plan.offset, |plan.original|);
      RoomyIs(View(), os.pageSize, patch);
      PlanWrites(os.regions, os.pageSize, os.bytes, source, bytes, patch);
      var mine := sessions[t].patches;
      if exists k :: 0 <= k < |mine| && Overlaps(patch, mine[k].patch) {
        ghost var k :| 0 <= k < |mine| && Overlaps(patch, mine[k].patch);
        assert Common(patch.address, |patch.original|, View().sessions[t].patches[k].patch);
        return Err(Overlap);
      }
      r := Ok(patch);
    }
    /** Replaces a function for all threads: through its entry when it has one, else by patching it. */
    method InstallRaw(t: Thread, source: Address, target: Address) returns (o: Outcome, ghost trace: seq<Step>)
      requires Valid() && t in sessions
      modifies this, os, pages
      ensures !o.Fatal? ==> Valid() && Traced(old(View()), trace, t, View())
      ensures o.Done? ==> (forall u: Thread :: Edge(View(), u, source, target, old(clock)))
      ensures o.Done? ==> Rewired(cpu, View(), t, source, target, relays) && Everywhere(View(), source, target)
      ensures o.Failed? ==> SameTables(old(View()), View())
      ensures !o.Done? && os.refusals == old(os.refusals) ==>
                CannotReplace(system, cpu, old(View()), os.regions, os.pageSize, t, source, target, pages.log,
                              |old(pages.log)|)
    {
      hide Invariant, Furnished, Run, Enabled, Next, CanReplace, NewSource, Edge, Rewired, ReplaceClash, NoPatch,
           Undoable;
      trace := [];
      RunNone(View());
      if sessions[t].local {
        return Failed(Expectation), [];
      }
      var checked := CheckReplace(t, source, target);
      if checked.Err? {
        return Failed(checked.error), [];
      }
      var found := FindEntry(source);
      if found.None? {
        o, trace := PatchSource(t, source, target);
        if o.Done? {
          NobodyElse(View(), source, target);
        }
      } else if At(nodes, records[found.value].node).global != 0 {
        o := Failed(Overlap);
      } else {
        trace := TargetEntry(t, source, found.value, target);
        o := Done;
      }
    }
    method TargetEntry(t: Thread, source: nat, i: nat, target: nat) returns (ghost trace: seq<Step>)
      requires Valid() && IsGlobal(View(), t) && i < |records| && Entry(View(), i).patch.entry == source
      requires CanReplace(View(), t, source, target) && Entry(View(), i).global == 0
      modifies this
      ensures Valid() && Traced(old(View()), trace, t, View())
      ensures forall u: Thread :: Edge(View(), u, source, target, old(clock))
      ensures Rewired(cpu, View(), t, source, target, relays) && Everywhere(View(), source, target)
    {
      hide Invariant, Furnished, Run, Enabled, Next, CanReplace, Edge, Holds, IsBuilt, Everywhere, Undoable;
      ghost var before := View();
      SetFrame(before, t, i, target);
      RetargetFurnished(cpu, nodes, records[i].node, target, clock);
      trace := [SetGlobal(t, i, target)];
      nodes := Retarget(nodes, records[i].node, target, clock);
      UndoableAs(os.regions, os.pageSize, sessions, t,
                 sessions[t].(globalRoutes := sessions[t].globalRoutes + [source]));
      sessions := sessions[t := sessions[t].(globalRoutes := sessions[t].globalRoutes + [source])];
      clock := clock + 1;
      RewiredEntry(cpu, before, View(), t, i, target, relays);
      TargetsAll(before, View(), t, i, target);
    }
    method PatchSource(t: Thread, source: Address, target: Address) returns (o: Outcome, ghost trace: seq<Step>)
      requires Valid() && IsGlobal(View(), t) && CanReplace(View(), t, source, target) && NewSource(View(), source)
      modifies this, os, pages
      ensures !o.Fatal? ==> Valid() && Traced(old(View()), trace, t, View())
      ensures o.Done? ==> (forall u: Thread :: Edge(View(), u, source, target, old(clock)))
      ensures o.Done? ==> Rewired(cpu, View(), t, source, target, relays) && NewSource(View(), source)
      ensures o.Failed? ==> SameTables(old(View()), View())
      ensures os.refusals >= old(os.refusals)
      ensures !o.Done? && os.refusals == old(os.refusals) ==>
                NoPatch(system, cpu, old(View()), os.regions, os.pageSize, t, source, target, pages.log,
                        |old(pages.log)|)
    {
      hide Invariant, Furnished, Run, Enabled, Next, CanReplace, NewSource, Edge, Fitted, Directed, Rewired, NoUse,
           Undoable, Writes, Holds, CanInstall;
      trace := [];
      RunNone(View());
      ghost var before := View();
      var patch, fatal := PreparePatch(t, source, target);
      if patch.Err? {
        return if fatal then Fatal else Failed(patch.error), [];
      }
      FittedInstalls(before, t, source, patch.value, target);
      o, trace := WritePatch(t, patch.value, target);
      if o.Failed? {
        ghost var log := pages.log;
        var kept := ReleaseRelay(source);
        if os.refusals == old(os.refusals) {
          assert pages.log == log + pages.log[|log|..];
          NoUseKept(system, cpu, before, os.regions, os.pageSize, t, source, target, log, |old(pages.log)|,
                    pages.log[|log|..]);
        }
        if !kept {
          o := Fatal;
        }
      }
    }
    /** Writes a patch and lists it with its session. */
    method WritePatch(t: Thread, patch: Patch, target: nat) returns (o: Outcome, ghost trace: seq<Step>)
      requires Valid() && CanInstall(View(), t, patch, target) && End(patch) < W64
      requires Directed(cpu, patch, target, relays)
      modifies this`sessions, this`clock, os
      ensures !o.Fatal? ==> Valid() && Traced(old(View()), trace, t, View())
      ensures o.Done? ==> (forall u: Thread :: Edge(View(), u, patch.entry, target, old(clock)))
      ensures o.Done? ==> Rewired(cpu, View(), t, patch.entry, target, relays) && NewSource(View(), patch.entry)
      ensures o.Failed? ==> View() == old(View())
      ensures os.refusals >= old(os.refusals)
      ensures !o.Done? && os.refusals == old(os.refusals) ==> !Writes(os.regions, os.pageSize, old(os.bytes), patch)
    {
      hide Invariant, Furnished, Run, Enabled, Next, CanReplace, NewSource, Edge, Directed, Overlay, Rewired, Undoable,
           Allowed, Holds, Clear;
      trace := [];
      RunNone(View());
      ghost var before := View();
      InstallFrame(before, t, patch, target);
      o := Replace(os, patch.address, patch.original, patch.replacement);
      if o.Done? {
        trace := [Install(t, patch, target)];
        UndoableMore(os.regions, os.pageSize, sessions, t, Raw(patch, target, clock), before.code);
        sessions := sessions[t := sessions[t].(patches := sessions[t].patches + [Raw(patch, target, clock)])];
        clock := clock + 1;
        RewiredPatch(cpu, before, View(), t, patch, target, relays);
        NewSourceKept(before, View(), patch.entry);
      }
    }
  }
  lemma NewSourceKept(s: State, n: State, source: nat)
    requires NewSource(s, source) && n.records == s.records && n.nodes == s.nodes
    ensures NewSource(n, source)
  {
    forall i | 0 <= i < |n.records| ensures Entry(n, i).patch.entry != source {
      assert Entry(n, i) == Entry(s, i);
    }
  }
  /** What a session has patched can be written back. */
  ghost predicate Undoable(regions: seq<Region>, pageSize: nat, sessions: map<Thread, Session>) {
    forall t, k | t in sessions && 0 <= k < |sessions[t].patches| ::
      var p := sessions[t].patches[k].patch; Rewritable(regions, pageSize, p.address, |p.original|)
  }
  ghost predicate Rewritable(regions: seq<Region>, pageSize: nat, address: int, length: int) {
    && 0 < address && 0 < length && address + length < W64 && address + length + pageSize <= W64
    && forall a | address <= a < address + length :: Memory.Executable(regions, a)
  }
  /** Only the operating system could refuse to write the patch. */
  ghost predicate Writes(regions: seq<Region>, pageSize: nat, code: map<int, Byte>, patch: Patch) {
    patch.address < W64 && Allowed(regions, pageSize, code, patch.address, patch.original, patch.replacement)
  }
  /** The system kept a page that was given back. */
  ghost predicate Leaked(log: seq<Report>, from: nat) {
    exists k :: from <= k < |log| && log[k].Stuck?
  }
  /** The newest patch can be taken back, and the others stay so. */
  lemma UndoableLess(regions: seq<Region>, pageSize: nat, sessions: map<Thread, Session>, t: Thread,
                     code: map<int, Byte>)
    requires t in sessions && sessions[t].patches != [] && Undoable(regions, pageSize, sessions)
    ensures var mine := sessions[t].patches;
            var patch := mine[|mine| - 1].patch;
            && Undoable(regions, pageSize, sessions[t := sessions[t].(patches := mine[..|mine| - 1])])
            && patch.address < W64
            && (|patch.original| == |patch.replacement| && Holds(code, patch.address, patch.replacement) ==>
                  Allowed(regions, pageSize, code, patch.address, patch.replacement, patch.original))
  {
    hide Holds;
    var mine := sessions[t].patches;
    var patch := mine[|mine| - 1].patch;
    assert Rewritable(regions, pageSize, patch.address, |patch.original|);
  }
  lemma UndoableAs(regions: seq<Region>, pageSize: nat, sessions: map<Thread, Session>, t: Thread, session: Session)
    requires Undoable(regions, pageSize, sessions) && t in sessions && session.patches <= sessions[t].patches
    ensures Undoable(regions, pageSize, sessions[t := session])
  {
  }
  lemma UndoableMore(regions: seq<Region>, pageSize: nat, sessions: map<Thread, Session>, t: Thread, raw: Raw,
                     code: map<int, Byte>)
    requires t in sessions && Undoable(regions, pageSize, sessions) && Writes(regions, pageSize, code, raw.patch)
    ensures Undoable(regions, pageSize, sessions[t := sessions[t].(patches := sessions[t].patches + [raw])])
  {
    var after := sessions[t := sessions[t].(patches := sessions[t].patches + [raw])];
    forall u, k | u in after && 0 <= k < |after[u].patches|
      ensures Rewritable(regions, pageSize, after[u].patches[k].patch.address, |after[u].patches[k].patch.original|)
    {
      if u == t && k == |sessions[t].patches| {
      } else {
        assert Rewritable(regions, pageSize, sessions[u].patches[k].patch.address,
                          |sessions[u].patches[k].patch.original|);
      }
    }
  }
  lemma SnapshotIs(regions: seq<Region>, code: map<int, Byte>, source: Address, bytes: seq<Byte>)
    requires Holds(code, source, bytes)
    ensures Extent(regions, source, source + MAX_PREFIX, source + |bytes|) ==> Snapshot(regions, code, source, bytes)
  {
  }
  lemma PlanWrites(regions: seq<Region>, pageSize: nat, code: map<int, Byte>, source: Address, bytes: seq<Byte>,
                   patch: Patch)
    requires 0 < source <= patch.address && |patch.original| == |patch.replacement| > 0
    requires End(patch) < W64 && End(patch) <= source + |bytes| && Holds(code, patch.address, patch.original)
    ensures Snapshot(regions, code, source, bytes) && End(patch) + pageSize <= W64 ==>
              Writes(regions, pageSize, code, patch)
  {
  }
  lemma RoomyIs(s: State, pageSize: nat, patch: Patch)
    ensures Roomy(s, pageSize, patch.address, |patch.original|) ==>
              Clear(s, patch) && End(patch) < W64 && End(patch) + pageSize <= W64
  {
  }
  lemma EnterableIs(cpu: Target, s: State, pageSize: nat, source: Address, dispatcher: Address, bytes: seq<Byte>,
                    page: int, shadowStack: Result<bool>)
    requires 0 <= page && page + CAPACITY < W64
    ensures Enterable(cpu, s, pageSize, source, dispatcher, bytes, page, shadowStack) ==>
              && Plannable(cpu, source, page + RELAY, bytes)
              && forall plan | Fits(cpu, source, page + RELAY, bytes, plan) ::
                   && Roomy(s, pageSize, source + plan.offset, |plan.original|)
                   && source + plan.offset < W64
                   && Buildable(cpu, source + plan.offset, page, plan.original, dispatcher, shadowStack)
  {
    hide Plannable, Roomy, Buildable, Jump, X86Plan.Tiled, X86Plan.Displaceable;
  }
  lemma OverlapIs(s: State, patch: Patch)
    ensures Free(s, patch.address, |patch.original|) <==> Clear(s, patch)
    ensures Roomy(s, 0, patch.address, |patch.original|) ==> Free(s, patch.address, |patch.original|)
  {
  }
  lemma ShapedIs(cpu: Target, source: Address, target: Address, bytes: seq<Byte>, plan: Plan)
    requires Shaped(cpu, source, target, bytes, plan)
    ensures plan.offset in {0, 4} && source + plan.offset < W64 && |plan.original| == |plan.replacement| > 0
    ensures plan.offset + |plan.original| <= |bytes|
    ensures plan.original == bytes[plan.offset..plan.offset + |plan.original|]
  {
    hide Jump, X86Plan.Tiled;
  }
  lemma ShapedLeads(cpu: Target, source: Address, target: Address, bytes: seq<Byte>, plan: Plan)
    requires Shaped(cpu, source, target, bytes, plan)
    ensures Leads(cpu, source + plan.offset, plan.replacement, target)
  {
    hide Jump, X86Plan.Tiled;
  }
  lemma FitsShaped(cpu: Target, source: Address, target: Address, bytes: seq<Byte>, plan: Plan)
    requires Fits(cpu, source, target, bytes, plan)
    ensures Shaped(cpu, source, target, bytes, plan)
  {
  }
  lemma FurnishedMore(cpu: Target, nodes: seq<Node>, node: Node)
    requires Furnished(cpu, nodes) && IsBuilt(cpu, node.patch, node.original, node.dispatcher)
    ensures Furnished(cpu, nodes + [node])
  {
    hide IsBuilt;
  }
  lemma RetargetFurnished(cpu: Target, nodes: seq<Node>, p: nat, target: nat, stamp: nat)
    requires Furnished(cpu, nodes)
    ensures Furnished(cpu, Retarget(nodes, p, target, stamp))
  {
    hide IsBuilt;
  }
  /** A patch that fits the function and clashes with nothing that the session or an entry has patched. */
  ghost predicate Fitted(s: State, t: Thread, source: nat, patch: Patch) {
    && patch.entry == source && Proper(patch) && Clear(s, patch) && End(patch) < W64
    && Holds(s.code, patch.address, patch.original) && t in s.sessions
    && forall k | 0 <= k < |s.sessions[t].patches| :: !Overlaps(patch, s.sessions[t].patches[k].patch)
  }
  lemma FittedEntry(s: State, t: Thread, source: nat, patch: Patch)
    requires Fitted(s, t, source, patch)
    ensures patch.entry == source
  {
  }
  lemma FittedInstalls(s: State, t: Thread, source: nat, patch: Patch, target: nat)
    requires Fitted(s, t, source, patch) && IsGlobal(s, t) && CanReplace(s, t, source, target) && NewSource(s, source)
    ensures CanInstall(s, t, patch, target) && patch.entry == source && End(patch) < W64
  {
    hide CanReplace, NewSource, Clear, Holds, Overlaps;
  }
  /** The patch jumps to its target, on ARM64 by way of the relay kept for it. */
  ghost predicate Directed(cpu: Target, patch: Patch, target: nat, relays: map<nat, (int, seq<Byte>)>) {
    if cpu.X86? then Leads(cpu, patch.address, patch.replacement, target)
    else
      && patch.entry in relays
      && Leads(cpu, patch.address, patch.replacement, relays[patch.entry].0)
      && Leads(cpu, relays[patch.entry].0, relays[patch.entry].1, target)
  }
  lemma DirectedX86(cpu: Target, patch: Patch, source: nat, target: nat, relays: map<nat, (int, seq<Byte>)>)
    requires cpu.X86? && Leads(cpu, patch.address, patch.replacement, target)
    ensures Directed(cpu, patch, target, relays)
  {
    hide Leads;
  }
  /** Memory holds code at the source that leads to the target: its entry's patch, with the target as the
      entry's global one, or a patch of its own. */
  ghost predicate Rewired(cpu: Target, s: State, t: Thread, source: nat, target: nat,
                          relays: map<nat, (int, seq<Byte>)>) {
    || (exists i :: && 0 <= i < |s.records| && Entry(s, i).patch.entry == source && Entry(s, i).global == target
                    && WiredBy(cpu, s.code, Entry(s, i)))
    || (exists k :: && 0 <= k < |Installed(s.sessions, Some(t))|
                    && var raw := Installed(s.sessions, Some(t))[k];
                    && raw.patch.entry == source && raw.target == target
                    && Holds(s.code, raw.patch.address, raw.patch.replacement)
                    && Directed(cpu, raw.patch, target, relays))
  }
  lemma RewiredEntry(cpu: Target, s: State, n: State, t: Thread, i: nat, target: nat,
                     relays: map<nat, (int, seq<Byte>)>)
    requires Invariant(s) && Furnished(cpu, s.nodes) && i < |s.records| && t in s.sessions
             && n == AfterSet(s, t, i, target)
    ensures Rewired(cpu, n, t, Entry(s, i).patch.entry, target, relays)
  {
    hide Lists, Locks, Installing, Locals, Readers, Code, Ordered, Furnished, IsBuilt, At, Retarget, Holds, Directed;
    EntryBytes(s, i);
    EntryBuilt(cpu, s, i);
    RoutingTheorems.RecordInside(s, i);
    RetargetAt(s.nodes, s.records[i].node, target, s.clock, 0);
    assert Entry(n, i) == Entry(s, i).(global := target, stamp := s.clock);
  }
  lemma RewiredPatch(cpu: Target, s: State, n: State, t: Thread, patch: Patch, target: nat,
                     relays: map<nat, (int, seq<Byte>)>)
    requires t in s.sessions && n == AfterInstall(s, t, patch, target) && Directed(cpu, patch, target, relays)
    requires |patch.original| == |patch.replacement| && Holds(s.code, patch.address, patch.original)
    ensures Rewired(cpu, n, t, patch.entry, target, relays)
  {
    hide Directed;
    var k := |s.sessions[t].patches|;
    assert Installed(n.sessions, Some(t))[k] == Raw(patch, target, s.clock);
    assert Holds(n.code, patch.address, patch.replacement);
  }
  function AfterSet(s: State, t: Thread, i: nat, target: nat): State
    requires i < |s.records| && t in s.sessions
  {
    s.(nodes := Retarget(s.nodes, s.records[i].node, target, s.clock),
       sessions := s.sessions[t := s.sessions[t].(
         globalRoutes := s.sessions[t].globalRoutes + [Entry(s, i).patch.entry])],
       clock := s.clock + 1)
  }
  lemma SetStep(s: State, t: Thread, i: nat, target: nat)
    requires IsGlobal(s, t) && i < |s.records| && CanReplace(s, t, Entry(s, i).patch.entry, target)
             && Entry(s, i).global == 0
    ensures Enabled(s, SetGlobal(t, i, target)) && Next(s, SetGlobal(t, i, target)) == AfterSet(s, t, i, target)
            && target != 0
  {
  }
  lemma SetFrame(s: State, t: Thread, i: nat, target: nat)
    requires Invariant(s) && IsGlobal(s, t) && i < |s.records| && CanReplace(s, t, Entry(s, i).patch.entry, target)
             && Entry(s, i).global == 0
    ensures var n := AfterSet(s, t, i, target);
            && Run(s, [SetGlobal(t, i, target)]) == Some(n) && Invariant(n) && target != 0
            && forall u: Thread :: Edge(n, u, Entry(s, i).patch.entry, target, s.clock)
  {
    hide Lists, Locks, Installing, Locals, Readers, Code, Ordered, Retarget, At, Run, Enabled, Next, CanReplace;
    RoutingTheorems.RecordInside(s, i);
    SetStep(s, t, i, target);
    RunOne(s, SetGlobal(t, i, target));
    InvariantKept(s, SetGlobal(t, i, target));
    RetargetAt(s.nodes, s.records[i].node, target, s.clock, 0);
    assert GlobalEdge(AfterSet(s, t, i, target).nodes, Entry(s, i).patch.entry, target, s.clock);
  }
  function AfterInstall(s: State, t: Thread, patch: Patch, target: nat): State
    requires t in s.sessions
  {
    s.(code := Overlay(s.code, patch.address, patch.replacement),
       sessions := s.sessions[t := s.sessions[t].(patches := s.sessions[t].patches + [Raw(patch, target, s.clock)])],
       clock := s.clock + 1)
  }
  ghost predicate CanInstall(s: State, t: Thread, patch: Patch, target: nat) {
    && IsGlobal(s, t) && Proper(patch) && CanReplace(s, t, patch.entry, target)
    && NewSource(s, patch.entry) && Clear(s, patch) && Holds(s.code, patch.address, patch.original)
    && forall k | 0 <= k < |s.sessions[t].patches| :: !Overlaps(patch, s.sessions[t].patches[k].patch)
  }
  lemma InstallStep(s: State, t: Thread, patch: Patch, target: nat)
    requires CanInstall(s, t, patch, target)
    ensures Enabled(s, Install(t, patch, target))
            && Next(s, Install(t, patch, target)) == AfterInstall(s, t, patch, target)
  {
  }
  lemma InstallFrame(s: State, t: Thread, patch: Patch, target: nat)
    requires Invariant(s) && CanInstall(s, t, patch, target)
    ensures var n := AfterInstall(s, t, patch, target);
            && Run(s, [Install(t, patch, target)]) == Some(n) && Invariant(n)
            && forall u: Thread :: Edge(n, u, patch.entry, target, s.clock)
  {
    hide Lists, Locks, Installing, Locals, Readers, Code, Ordered, Run, Enabled, Next, CanReplace, Clear, NewSource,
         Holds, Overlay;
    InstallStep(s, t, patch, target);
    RunOne(s, Install(t, patch, target));
    InvariantKept(s, Install(t, patch, target));
    WriterIs(s, t);
    var n := AfterInstall(s, t, patch, target);
    assert Installed(n.sessions, n.writer)[|s.sessions[t].patches|] == Raw(patch, target, s.clock);
    assert RawEdge(Installed(n.sessions, n.writer), patch.entry, target, s.clock);
  }
  lemma TracedJoin(start: State, first: seq<Step>, t: Thread, mid: State, second: seq<Step>, end: State)
    requires Traced(start, first, t, mid) && Traced(mid, second, t, end)
    ensures Traced(start, first + second, t, end)
  {
    hide Run;
    RunJoin(start, first, second);
  }
  lemma CodeLeft(s: State, t: Thread)
    requires Invariant(s) && IsGlobal(s, t) && s.sessions[t].patches == []
    ensures s.code == OverlayAll(s.initial, Entries(s.nodes, s.records))
  {
    WriterIs(s, t);
    assert Live(s) == Entries(s.nodes, s.records);
    hide Lists, Locals, Ordered, Readers, Stacked, OverlayAll;
  }
  lemma Took(start: State, trace: seq<Step>, t: Thread, s: State, step: Step)
    requires Traced(start, trace, t, s) && Invariant(s) && Enabled(s, step) && step.t == t
    ensures Traced(start, trace + [step], t, Next(s, step)) && Invariant(Next(s, step))
  {
    hide Run, Enabled, Next, Invariant;
    RunMore(start, trace, step);
    InvariantKept(s, step);
  }
  lemma DropFrame(s: State, t: Thread)
    requires t in s.sessions && s.sessions[t].localPatches != []
    ensures var mine := s.sessions[t].localPatches;
            && Enabled(s, Drop(t))
            && Next(s, Drop(t)) ==
               s.(routes := s.routes[t := Without(Routes(s, t), mine[|mine| - 1])],
                  sessions := s.sessions[t := s.sessions[t].(localPatches := mine[..|mine| - 1])])
  {
  }
  lemma ListedFound(s: State, t: Thread)
    requires Invariant(s) && t in s.sessions && s.sessions[t].globalRoutes != []
    ensures !NewSource(s, s.sessions[t].globalRoutes[|s.sessions[t].globalRoutes| - 1])
  {
    WriterIs(s, t);
    hide Locals, Readers, Code, Ordered, Locks, Installing, Shape, Owners, Coming;
    var mine := s.sessions[t].globalRoutes;
    var i := TargetedBy(s.nodes, s.records, mine[|mine| - 1]);
    assert Entry(s, i).patch.entry == mine[|mine| - 1];
  }
  lemma ClearFrame(s: State, t: Thread, i: nat)
    requires t in s.sessions && s.sessions[t].globalRoutes != [] && i < |s.records|
    requires Entry(s, i).patch.entry == s.sessions[t].globalRoutes[|s.sessions[t].globalRoutes| - 1]
    ensures var mine := s.sessions[t].globalRoutes;
            && Enabled(s, ClearGlobal(t, i))
            && Next(s, ClearGlobal(t, i)) ==
               s.(nodes := Retarget(s.nodes, s.records[i].node, 0, 0),
                  sessions := s.sessions[t := s.sessions[t].(globalRoutes := mine[..|mine| - 1])])
  {
  }
  function AfterRestore(s: State, t: Thread): State
    requires t in s.sessions && s.sessions[t].patches != []
  {
    var mine := s.sessions[t].patches;
    var patch := mine[|mine| - 1].patch;
    s.(code := Overlay(s.code, patch.address, patch.original),
       sessions := s.sessions[t := s.sessions[t].(patches := mine[..|mine| - 1])])
  }
  lemma RestoreFrame(s: State, t: Thread)
    requires Invariant(s) && t in s.sessions && s.sessions[t].patches != []
    ensures Enabled(s, Restore(t)) && Next(s, Restore(t)) == AfterRestore(s, t)
    ensures var patch := s.sessions[t].patches[|s.sessions[t].patches| - 1].patch;
            && patch.address in s.code && |patch.original| == |patch.replacement|
            && Holds(s.code, patch.address, patch.replacement)
  {
    hide Lists, Locks, Installing, Locals, Readers, Ordered, Stacked, OverlayAll, Overlay, Live;
    RestoreEnabled(s, t);
    StackedOf(s);
    WriterIs(s, t);
    RawProper(s, |s.sessions[t].patches| - 1);
  }
  /** The operation went through these steps of its own thread. */
  ghost predicate Traced(before: State, trace: seq<Step>, t: Thread, after: State) {
    Run(before, trace) == Some(after) && forall k | 0 <= k < |trace| :: trace[k].t == t
  }
  ghost predicate Gained(before: State, after: State, t: Thread, source: nat) {
    Sources(after.sessions, t) == Sources(before.sessions, t) + [source]
  }
  /** Code, list, records, routes and sessions are as they were. */
  ghost predicate SameTables(before: State, after: State) {
    && after.code == before.code && after.head == before.head && after.records == before.records
    && after.routes == before.routes && after.sessions == before.sessions && after.writer == before.writer
  }
  /** A walk would end at an original that bridges a call, with a shadow stack in use. */
  ghost predicate Panics(s: State, dispatcher: nat, shadowStack: Result<bool>) {
    var p := Find(s.nodes, s.head, dispatcher);
    p != 0 && At(s.nodes, p).global == 0 && At(s.nodes, p).original.bridge && shadowStack != Ok(false)
  }
  /** A patch that fits the function and clashes with no entry, and the page built for it. */
  ghost predicate Prepared(cpu: Target, s: State, source: nat, dispatcher: nat, patch: Patch, page: Original) {
    && patch.entry == source && Proper(patch) && Clear(s, patch) && End(patch) < W64
    && Holds(s.code, patch.address, patch.original) && IsBuilt(cpu, patch, page, dispatcher)
  }
  lemma PreparedIs(cpu: Target, s: State, source: nat, dispatcher: nat, patch: Patch, page: Original)
    requires Prepared(cpu, s, source, dispatcher, patch, page)
    ensures patch.entry == source && Proper(patch) && Clear(s, patch) && End(patch) < W64
    ensures Holds(s.code, patch.address, patch.original) && IsBuilt(cpu, patch, page, dispatcher)
  {
    hide IsBuilt;
  }
  ghost predicate ShortEntry(cpu: Target, patch: Patch, page: Original) {
    && patch.address < W64 && page.address + RELAY < W64 && Jump(cpu, patch.address, page.address + RELAY).Ok?
    && Short(cpu, patch.address, patch.original, page.address)
  }
  lemma KeepsRelocated(cpu: Target, address: Address, original: seq<Byte>, page: Address, saved: seq<Byte>)
    requires Keeps(cpu, address, original, page, saved)
    ensures Relocated(cpu, address, page, original).Ok?
  {
  }
  /** Memory holds the patch of the source's entry, which leads to its dispatcher. */
  ghost predicate Wired(cpu: Target, s: State, source: nat) {
    exists i :: 0 <= i < |s.records| && Entry(s, i).patch.entry == source && WiredBy(cpu, s.code, Entry(s, i))
  }
  /** The site is listed with its source, which keeps it from routing any other. */
  ghost predicate Sited(s: State, source: nat, dispatcher: nat) {
    exists i :: SitedAt(s, i, source, dispatcher)
  }
  ghost predicate SitedAt(s: State, i: int, source: nat, dispatcher: nat) {
    0 <= i < |s.records| && Entry(s, i).patch.entry == source && dispatcher in s.records[i].sites
  }
  /** Calls to a source that has an entry go to the target on every thread. */
  ghost predicate Everywhere(s: State, source: nat, target: nat) {
    forall u: Thread, i | 0 <= i < |s.records| && Entry(s, i).patch.entry == source ::
      RoutingTheorems.Resolve(s, u, Entry(s, i).dispatcher) == Some(target)
  }
  lemma TargetsAll(s: State, n: State, t: Thread, i: nat, target: nat)
    requires Invariant(s) && Invariant(n) && IsGlobal(s, t) && i < |s.records| && n == AfterSet(s, t, i, target)
    requires target != 0
    ensures Everywhere(n, Entry(s, i).patch.entry, target)
  {
    var source := Entry(s, i).patch.entry;
    WriterIs(n, t);
    RoutingTheorems.RecordInside(s, i);
    RetargetAt(s.nodes, s.records[i].node, target, s.clock, 0);
    assert Entry(n, i) == Entry(s, i).(global := target, stamp := s.clock);
    forall u: Thread, j | 0 <= j < |n.records| && Entry(n, j).patch.entry == source
      ensures RoutingTheorems.Resolve(n, u, Entry(n, j).dispatcher) == Some(target)
    {
      OnlyEntryOf(n, i, j);
      RoutingTheorems.GlobalResolution(n, u, j);
    }
  }
  lemma NobodyElse(s: State, source: nat, target: nat)
    requires NewSource(s, source)
    ensures Everywhere(s, source, target)
  {
  }
  lemma OnlyEntryOf(s: State, i: nat, j: nat)
    requires Invariant(s) && i < |s.records| && j < |s.records| && Entry(s, i).patch.entry == Entry(s, j).patch.entry
    ensures i == j
  {
  }
  ghost predicate WiredBy(cpu: Target, code: map<int, Byte>, e: Node) {
    Holds(code, e.patch.address, e.patch.replacement) && IsBuilt(cpu, e.patch, e.original, e.dispatcher)
  }
  lemma WiredEntry(cpu: Target, s: State, t: Thread, source: nat)
    requires Invariant(s) && Furnished(cpu, s.nodes) && Routes(s, t) != []
    requires Routes(s, t)[|Routes(s, t)| - 1].source == source
    ensures Wired(cpu, s, source)
  {
    hide Furnished, IsBuilt, Kept, Readers, Code, Ordered, At;
    var k: nat := |Routes(s, t)| - 1;
    assert Routed(s.nodes, s.records, Routes(s, t));
    var i := EntryOf(s.nodes, s.records, source, Routes(s, t)[k].dispatcher);
    EntryBytes(s, i);
    EntryBuilt(cpu, s, i);
  }
  /** Calls to a source on a thread go to the target, or reach the dispatcher that handles them itself. */
  ghost predicate Resolves(s: State, t: Thread, source: nat, target: nat) {
    exists i :: 0 <= i < |s.records| && Entry(s, i).patch.entry == source
                && (target != Entry(s, i).dispatcher ==>
                      RoutingTheorems.Resolve(s, t, Entry(s, i).dispatcher) == Some(target))
  }
  lemma RouteFrame(s: State, t: Thread, source: nat, target: nat)
    requires Invariant(s) && Routes(s, t) != []
    requires var last := Routes(s, t)[|Routes(s, t)| - 1]; last.source == source && last.target == target
    ensures Resolves(s, t, source, target)
  {
    var k: nat := |Routes(s, t)| - 1;
    assert Routed(s.nodes, s.records, Routes(s, t));
    var i := EntryOf(s.nodes, s.records, source, Routes(s, t)[k].dispatcher);
    RoutingTheorems.ResolveIs(s, t, i);
    hide Invariant, Furnished, Routes, RoutingTheorems.Resolve;
    assert RoutingTheorems.Holding(Routes(s, t), source, k);
  }
  lemma RunNone(s: State)
    ensures Run(s, []) == Some(s)
  {
  }
  lemma RunOne(s: State, a: Step)
    requires Enabled(s, a)
    ensures Run(s, [a]) == Some(Next(s, a))
  {
    hide Enabled, Next;
    RunMore(s, [], a);
    assert [] + [a] == [a];
  }
  lemma PublishEnabled(s: State, t: Thread, patch: Patch, dispatcher: nat, page: Original, target: nat)
    requires IsLocal(s, t) && s.pending.None? && Proper(patch) && CanRoute(s, t, patch.entry, dispatcher, target)
    requires NewSource(s, patch.entry) && Clear(s, patch) && Holds(s.code, patch.address, patch.original)
    ensures Enabled(s, Publish(t, patch, dispatcher, page, target))
  {
  }
  lemma JoinStep(s: State, step: Step)
    requires step.Join? && Enabled(s, step)
    ensures step.i < |s.records| && step.t in s.sessions
    ensures Next(s, step) == Routing.Route(s.(records := MoreSites(s.records, step.i, step.dispatcher)), step.t,
                                           Entry(s, step.i).patch.entry, Entry(s, step.i).dispatcher, step.target)
  {
    hide CanRoute;
  }
  lemma JoinFrame(s: State, step: Step)
    requires step.Join? && IsLocal(s, step.t) && s.pending.None? && step.i < |s.records|
    requires CanRoute(s, step.t, Entry(s, step.i).patch.entry, step.dispatcher, step.target)
    ensures Enabled(s, step) && Run(s, [step]) == Some(Next(s, step))
    ensures Next(s, step) == Routing.Route(s.(records := MoreSites(s.records, step.i, step.dispatcher)), step.t,
                                           Entry(s, step.i).patch.entry, Entry(s, step.i).dispatcher, step.target)
  {
    RunOne(s, step);
  }
  function Added(s: State, step: Step): Node
    requires step.Publish?
  {
    Node(step.patch, step.dispatcher, step.original, 0, s.head, 0)
  }
  /** A failed write leaves nothing but the unreachable entry. */
  lemma AbandonRun(s: State, step: Step)
    requires step.Publish? && Invariant(s) && Enabled(s, step) && s.pending.None?
    ensures var end := s.(nodes := s.nodes + [Added(s, step)]);
            Run(s, [step, Abandon(step.t)]) == Some(end) && Invariant(end)
  {
    InvariantKept(s, step);
    PublishFrame(s, step);
    var mid := Next(s, step);
    AbandonFrame(mid, step.t);
    InvariantKept(mid, Abandon(step.t));
    hide Enabled, Next, Invariant;
    RunTwo(s, step, Abandon(step.t));
  }
  lemma PublishFrame(s: State, step: Step)
    requires step.Publish? && Enabled(s, step)
    ensures var node := |s.nodes| + 1;
            Next(s, step) ==
              s.(nodes := s.nodes + [Added(s, step)], head := node,
                 pending := Some(Pending(step.t, node, step.target, false)))
    ensures step.t in s.sessions && Holds(s.code, step.patch.address, step.patch.original)
    ensures At(Next(s, step).nodes, |s.nodes| + 1) == Added(s, step)
  {
  }
  lemma AbandonFrame(s: State, t: Thread)
    requires s.pending.Some? && s.pending.value.thread == t && !s.pending.value.written
    ensures Enabled(s, Abandon(t))
            && Next(s, Abandon(t)) == s.(head := At(s.nodes, s.pending.value.node).next, pending := None)
  {
  }
  lemma WriteFrame(s: State, t: Thread)
    requires s.pending.Some? && s.pending.value.thread == t && !s.pending.value.written
    requires var patch := At(s.nodes, s.pending.value.node).patch; Holds(s.code, patch.address, patch.original)
    ensures var patch := At(s.nodes, s.pending.value.node).patch;
            && Enabled(s, Write(t))
            && Next(s, Write(t)) == s.(code := Overlay(s.code, patch.address, patch.replacement),
                                       pending := Some(s.pending.value.(written := true)))
  {
  }
  lemma RegisterFrame(s: State, t: Thread)
    requires s.pending.Some? && s.pending.value.thread == t && s.pending.value.written && t in s.sessions
    ensures var node := At(s.nodes, s.pending.value.node);
            && Enabled(s, Register(t))
            && Next(s, Register(t)) ==
               Routing.Route(s.(records := s.records + [Record(s.pending.value.node, [node.dispatcher])],
                                pending := None),
                             t, node.patch.entry, node.dispatcher, s.pending.value.target)
  {
  }
  lemma RegisterRun(s: State, step: Step)
    requires step.Publish? && Invariant(s) && Enabled(s, step) && s.pending.None?
    ensures step.t in s.sessions
    ensures var node := |s.nodes| + 1;
            var end := Routing.Route(s.(nodes := s.nodes + [Added(s, step)], head := node,
                                        code := Overlay(s.code, step.patch.address, step.patch.replacement),
                                        records := s.records + [Record(node, [step.dispatcher])]),
                                     step.t, step.patch.entry, step.dispatcher, step.target);
            Run(s, [step, Write(step.t), Register(step.t)]) == Some(end) && Invariant(end)
  {
    hide Enabled, Next, Invariant, Holds, Overlay, At;
    InvariantKept(s, step);
    PublishFrame(s, step);
    var first := Next(s, step);
    WriteFrame(first, step.t);
    InvariantKept(first, Write(step.t));
    var second := Next(first, Write(step.t));
    RegisterFrame(second, step.t);
    InvariantKept(second, Register(step.t));
    RunThree(s, step, Write(step.t), Register(step.t));
  }
  lemma RunTwo(s: State, a: Step, b: Step)
    requires Enabled(s, a) && Enabled(Next(s, a), b)
    ensures Run(s, [a, b]) == Some(Next(Next(s, a), b))
  {
    hide Enabled, Next;
    RunMore(s, [], a);
    assert [] + [a] == [a] && [a] + [b] == [a, b];
    RunMore(s, [a], b);
  }
  lemma RunThree(s: State, a: Step, b: Step, c: Step)
    requires Enabled(s, a) && Enabled(Next(s, a), b) && Enabled(Next(Next(s, a), b), c)
    ensures Run(s, [a, b, c]) == Some(Next(Next(Next(s, a), b), c))
  {
    hide Enabled, Next;
    RunTwo(s, a, b);
    assert [a, b] + [c] == [a, b, c];
    RunMore(s, [a, b], c);
  }
  lemma HoldsPart(bytes: map<int, Byte>, address: int, data: seq<Byte>, from: nat, length: nat)
    requires Holds(bytes, address, data) && from + length <= |data|
    ensures Holds(bytes, address + from, data[from..from + length])
  {
  }
  lemma OpenFrame(s: State, t: Thread, local: bool)
    ensures Enabled(s, Routing.Open(t, local)) <==>
            t !in s.sessions && if local then s.writer.None? else s.sessions == map[]
    ensures Enabled(s, Routing.Open(t, local)) ==>
              Next(s, Routing.Open(t, local))
              == s.(sessions := s.sessions[t := Session(local, [], [], [])],
                    writer := if local then s.writer else Some(t))
  {
  }
  lemma CloseFrame(s: State, t: Thread)
    requires Enabled(s, Routing.Close(t))
    ensures Next(s, Routing.Close(t))
            == s.(sessions := s.sessions - {t}, writer := if s.writer == Some(t) then None else s.writer)
  {
  }
  lemma NotEmpty(m: map<Thread, Session>)
    ensures |m| > 0 <==> m != map[]
  {
    if m != map[] {
      var k :| k in m;
      assert m.Keys == {k} + (m.Keys - {k});
    }
  }
}
