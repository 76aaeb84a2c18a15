/** The only reasons for which an installation may fail, as a caller can see them. */
module Failures {
  import opened Words
  import opened Memory
  import opened Executable
  import opened Saved
  import opened Routing

  datatype System = Linux | MacOs | Windows

  // Clashes with what is installed

  /** The bytes from a function to the end of its patch. */
  predicate Takes(p: Patch, x: int) {
    p.entry <= x < p.address + |p.original|
  }
  predicate Common(address: int, length: int, p: Patch) {
    address < p.address + |p.original| && p.address < address + length
  }
  predicate RouteClashesWith(s: State, i: nat, source: nat, dispatcher: nat, target: nat)
    requires i < |s.records|
  {
    var p := Entry(s, i).patch;
    Takes(p, target) || (source != p.entry && (Takes(p, source) || dispatcher in s.records[i].sites))
  }
  /** A source may be routed once on a thread, and neither source nor target may lie inside another patched entry;
      a dispatcher belongs to one source. */
  predicate RouteClash(s: State, t: Thread, source: nat, dispatcher: nat, target: nat) {
    || source == target
    || (exists k :: 0 <= k < |Routes(s, t)| && Routes(s, t)[k].source == source)
    || (exists i :: 0 <= i < |s.records| && RouteClashesWith(s, i, source, dispatcher, target))
  }
  predicate ReplaceClashesWith(s: State, i: nat, source: nat, target: nat)
    requires i < |s.records|
  {
    var p := Entry(s, i).patch;
    Takes(p, target) || (source != p.entry && Takes(p, source))
  }
  predicate ReplaceClash(s: State, t: Thread, source: nat, target: nat)
    requires t in s.sessions
  {
    || source == target
    || (exists k :: && 0 <= k < |s.sessions[t].patches|
                    && var p := s.sessions[t].patches[k].patch; Takes(p, source) || Takes(p, target))
    || (exists i :: 0 <= i < |s.records| && ReplaceClashesWith(s, i, source, target))
  }
  lemma CanRouteIs(s: State, t: Thread, source: nat, dispatcher: nat, target: nat)
    ensures CanRoute(s, t, source, dispatcher, target)
            <==> target != 0 && !RouteClash(s, t, source, dispatcher, target)
  {
    hide Routes, Entry;
    if target != 0 && !RouteClash(s, t, source, dispatcher, target) {
      forall i | 0 <= i < |s.records|
        ensures !InPatch(Entry(s, i).patch, target)
        ensures source == Entry(s, i).patch.entry
                || (!InPatch(Entry(s, i).patch, source) && dispatcher !in s.records[i].sites)
      {
        assert !RouteClashesWith(s, i, source, dispatcher, target);
      }
    }
  }
  lemma CanReplaceIs(s: State, t: Thread, source: nat, target: nat)
    requires t in s.sessions
    ensures CanReplace(s, t, source, target) <==> target != 0 && !ReplaceClash(s, t, source, target)
  {
    hide Entry;
    if target != 0 && !ReplaceClash(s, t, source, target) {
      forall i | 0 <= i < |s.records|
        ensures !InPatch(Entry(s, i).patch, target)
        ensures source == Entry(s, i).patch.entry || !InPatch(Entry(s, i).patch, source)
      {
        assert !ReplaceClashesWith(s, i, source, target);
      }
    }
  }

  // Code that cannot be read

  predicate Callable(regions: seq<Region>, a: int) {
    0 < a && a + 1 < W64 && Memory.Executable(regions, a)
  }
  predicate HasCode(regions: seq<Region>, source: int) {
    0 < source && source + MAX_PREFIX < W64 && Memory.Executable(regions, source)
  }
  /** The code of a function, as much of it as is looked at. */
  ghost predicate Snapshot(regions: seq<Region>, code: map<int, Byte>, source: int, bytes: seq<Byte>) {
    Holds(code, source, bytes) && Extent(regions, source, source + MAX_PREFIX, source + |bytes|)
  }

  // Pages that the system does not give

  /** The search ended without a page. */
  ghost predicate NoPage(system: System, cpu: Target, source: Address, log: seq<Report>, from: nat) {
    from <= |log| &&
    var reach, reports := Reach(cpu), log[from..];
    match system
    case Windows => || AllRuledOut(log, from, Lower(reach, source), Upper(reach, source) - CAPACITY + 1)
                    || Misled(log, from)
    case Linux => AllFar(reports, reach, source, 129) || StuckFar(reports, reach, source)
    case MacOs =>
      || StuckFar(reports, reach, source)
      || (if cpu.X86? then AllFar(reports, reach, source, 129)
          else && |reports| > 0 && AllFar(reports[..|reports| - 1], reach, source, 129)
               && reports[|reports| - 1] == Hinted(0, None))
  }
  /** The page that the search found: the first within reach, and on Apple Silicon any when there is none. */
  ghost predicate Chosen(system: System, cpu: Target, source: Address, log: seq<Report>, from: nat, page: int) {
    from < |log| &&
    var reach, reports := Reach(cpu), log[from..];
    match system
    case Windows => log[|log| - 1] == Placed(page) && AllRuledOut(log, from, Lower(reach, source), page)
    case Linux => FirstNear(reports, reach, source, page)
    case MacOs =>
      || FirstNear(reports, reach, source, page)
      || (&& cpu.Arm64? && AllFar(reports[..|reports| - 1], reach, source, 129)
          && reports[|reports| - 1] == Hinted(0, Some(page)))
  }

  // Functions that cannot be patched

  ghost predicate Free(s: State, address: int, length: int) {
    forall i | 0 <= i < |s.records| :: !Common(address, length, Entry(s, i).patch)
  }
  /** What a plan needs beside itself: a clear range that ends before the last page. */
  ghost predicate Roomy(s: State, pageSize: nat, address: int, length: int) {
    address + length < W64 && address + length + pageSize <= W64 && Free(s, address, length)
  }
  /** The function can be patched to jump to the page, and its entry be kept there. */
  ghost predicate Enterable(cpu: Target, s: State, pageSize: nat, source: Address, dispatcher: Address,
                            bytes: seq<Byte>, page: int, shadowStack: Result<bool>) {
    && 0 <= page && page + CAPACITY < W64
    && Plannable(cpu, source, page + RELAY, bytes)
    && forall plan | Fits(cpu, source, page + RELAY, bytes, plan) ::
         && Roomy(s, pageSize, source + plan.offset, |plan.original|)
         && Buildable(cpu, source + plan.offset, page, plan.original, dispatcher, shadowStack)
  }
  /** A page was found, but not sealed, or of no use for this function. */
  ghost predicate Wasted(system: System, cpu: Target, s: State, regions: seq<Region>, pageSize: nat, source: Address,
                         dispatcher: Address, shadowStack: Result<bool>, log: seq<Report>, from: nat, mid: nat,
                         page: int) {
    && mid <= |log| && Chosen(system, cpu, source, log[..mid], from, page)
    && (|| (mid < |log| && log[mid] == Unsealed(page))
        || exists bytes :: && Snapshot(regions, s.code, source, bytes)
                           && !Enterable(cpu, s, pageSize, source, dispatcher, bytes, page, shadowStack))
  }
  /** No entry can be made for a function that has none. */
  ghost predicate NoEntry(system: System, cpu: Target, s: State, regions: seq<Region>, pageSize: nat, source: Address,
                          dispatcher: Address, shadowStack: Result<bool>, log: seq<Report>, from: nat) {
    || !HasCode(regions, source) || source > HIGHEST - CAPACITY || NoPage(system, cpu, source, log, from)
    || exists mid, page ::
         Wasted(system, cpu, s, regions, pageSize, source, dispatcher, shadowStack, log, from, mid, page)
  }
  /** Why a thread cannot route a source to a target. */
  ghost predicate CannotRoute(system: System, cpu: Target, s: State, regions: seq<Region>, pageSize: nat, t: Thread,
                              source: Address, dispatcher: Address, target: Address, shadowStack: Result<bool>,
                              log: seq<Report>, from: nat) {
    || RouteClash(s, t, source, dispatcher, target) || !Callable(regions, target) || !Callable(regions, dispatcher)
    || (NewSource(s, source)
        && NoEntry(system, cpu, s, regions, pageSize, source, dispatcher, shadowStack, log, from))
  }

  /** The function can be patched to jump to an address. */
  ghost predicate Patchable(cpu: Target, s: State, t: Thread, pageSize: nat, source: Address, target: Address,
                            bytes: seq<Byte>)
    requires t in s.sessions
  {
    && Plannable(cpu, source, target, bytes)
    && forall plan | Fits(cpu, source, target, bytes, plan) ::
         && Roomy(s, pageSize, source + plan.offset, |plan.original|)
         && forall k | 0 <= k < |s.sessions[t].patches| ::
              !Common(source + plan.offset, |plan.original|, s.sessions[t].patches[k].patch)
  }
  /** A page for the relay of an ARM64 patch was found, but not sealed, or of no use for this function. */
  ghost predicate Unused(system: System, cpu: Target, s: State, regions: seq<Region>, pageSize: nat, t: Thread,
                         source: Address, target: Address, log: seq<Report>, from: nat, mid: nat, page: int)
    requires t in s.sessions
  {
    && mid <= |log| && Chosen(system, cpu, source, log[..mid], from, page)
    && (|| (mid < |log| && log[mid] == Unsealed(page))
        || !(0 <= page < W64) || Jump(cpu, page, target).Err?
        || exists bytes ::
             Snapshot(regions, s.code, source, bytes) && !Patchable(cpu, s, t, pageSize, source, page, bytes))
  }
  /** The function cannot be patched to jump to its target, on ARM64 by way of the page that was found. */
  ghost predicate NoUse(system: System, cpu: Target, s: State, regions: seq<Region>, pageSize: nat, t: Thread,
                        source: Address, target: Address, log: seq<Report>, from: nat)
    requires t in s.sessions
  {
    if cpu.X86? then
      exists bytes ::
        Snapshot(regions, s.code, source, bytes) && !Patchable(cpu, s, t, pageSize, source, target, bytes)
    else
      exists mid, page :: Unused(system, cpu, s, regions, pageSize, t, source, target, log, from, mid, page)
  }
  lemma NoUseKept(system: System, cpu: Target, s: State, regions: seq<Region>, pageSize: nat, t: Thread,
                  source: Address, target: Address, log: seq<Report>, from: nat, more: seq<Report>)
    requires t in s.sessions && NoUse(system, cpu, s, regions, pageSize, t, source, target, log, from)
    ensures NoUse(system, cpu, s, regions, pageSize, t, source, target, log + more, from)
  {
    hide Chosen, Snapshot, Patchable, Jump;
    if cpu.Arm64? {
      var mid: nat, page: int :| Unused(system, cpu, s, regions, pageSize, t, source, target, log, from, mid, page);
      assert (log + more)[..mid] == log[..mid];
      assert Unused(system, cpu, s, regions, pageSize, t, source, target, log + more, from, mid, page);
    }
  }
  /** No patch can be made for a function without an entry. */
  ghost predicate NoPatch(system: System, cpu: Target, s: State, regions: seq<Region>, pageSize: nat, t: Thread,
                          source: Address, target: Address, log: seq<Report>, from: nat)
    requires t in s.sessions
  {
    || !HasCode(regions, source)
    || (cpu.Arm64? && (source > HIGHEST - CAPACITY || NoPage(system, cpu, source, log, from)))
    || NoUse(system, cpu, s, regions, pageSize, t, source, target, log, from)
  }
  /** Why a session cannot replace a function for all threads. */
  ghost predicate CannotReplace(system: System, cpu: Target, s: State, regions: seq<Region>, pageSize: nat, t: Thread,
                                source: Address, target: Address, log: seq<Report>, from: nat)
    requires t in s.sessions
  {
    || s.sessions[t].local || ReplaceClash(s, t, source, target) || !Callable(regions, target)
    || (exists i :: 0 <= i < |s.records| && Entry(s, i).patch.entry == source && Entry(s, i).global != 0)
    || (NewSource(s, source) && NoPatch(system, cpu, s, regions, pageSize, t, source, target, log, from))
  }
}
