/** Pages near a function, for its saved entry and the relay to its dispatcher. */
module Executable {
  import opened Words

  const CAPACITY: int := 16384
  const X86_REACH: int := 0x4000_0000
  const ARM64_REACH: int := 0x800_0000 - CAPACITY
  const GRANULARITY: int := 65536
  /** `isize::MAX`. */
  const HIGHEST: int := W64 / 2 - 1

  /** What the allocator answered: the page for a hint, a region, a page at its place or not, and calls that failed. */
  datatype Report =
    | Hinted(hint: int, answer: Option<int>)
    | Region(at: int, end: int, free: bool)
    | Placed(at: int)
    | Refused(at: int)
    | Unknown(at: int)
    | Stuck(page: int)
    | Unsealed(at: int)

  class Allocator {
    /** Pages that this process holds. */
    var held: set<int>
    ghost var log: seq<Report>

    constructor ()
      ensures held == {} && log == []
    {
      held, log := {}, [];
    }

    /** Maps a page wherever the system likes. */
    method Reserve(hint: int) returns (r: Option<int>)
      modifies this
      ensures log == old(log) + [Hinted(hint, r)]
      ensures r.None? ==> held == old(held)
      ensures r.Some? ==>
                r.value !in old(held) && held == old(held) + {r.value} && 0 <= r.value <= HIGHEST && r.value % 4096 == 0
    {
      var page: int := *;
      r := None;
      if page !in held && 0 <= page <= HIGHEST && page % 4096 == 0 {
        held := held + {page};
        r := Some(page);
      }
      log := log + [Hinted(hint, r)];
    }

    /** Maps a page at an address, or nothing. */
    method ReserveAt(address: int) returns (r: Option<int>)
      modifies this
      ensures r.None? ==> held == old(held) && log == old(log) + [Refused(address)]
      ensures r.Some? ==>
                && r.value == address && held == old(held) + {address} && address !in old(held)
                && log == old(log) + [Placed(address)]
    {
      var refuses: bool := *;
      if refuses || address in held {
        log := log + [Refused(address)];
        return None;
      }
      held, log := held + {address}, log + [Placed(address)];
      r := Some(address);
    }

    method Release(page: int) returns (r: Result<()>)
      modifies this
      ensures r.Ok? ==> held == old(held) - {page} && log == old(log)
      ensures r.Err? ==> r.error == Os && held == old(held) && log == old(log) + [Stuck(page)]
    {
      var refuses: bool := *;
      if refuses {
        log := log + [Stuck(page)];
        return Err(Os);
      }
      held := held - {page};
      r := Ok(());
    }

    /** The region around an address. User space ends far below the last address. */
    method Query(address: int) returns (r: Result<(int, bool)>)
      modifies this`log
      ensures r.Ok? ==> r.value.0 <= HIGHEST + 1 && log == old(log) + [Region(address, r.value.0, r.value.1)]
      ensures r.Err? ==> r.error == Os && log == old(log) + [Unknown(address)]
    {
      var refuses: bool, end: int, free: bool := *, *, *;
      if refuses || end > HIGHEST + 1 {
        log := log + [Unknown(address)];
        return Err(Os);
      }
      log := log + [Region(address, end, free)];
      r := Ok((end, free));
    }

    /** Makes a written page executable. */
    method Seal(page: int) returns (r: Result<()>)
      modifies this`log
      ensures r.Ok? ==> log == old(log)
      ensures r.Err? ==> r.error == Os && log == old(log) + [Unsealed(page)]
    {
      var refuses: bool := *;
      if refuses {
        log := log + [Unsealed(page)];
        return Err(Os);
      }
      r := Ok(());
    }
  }

  function Saturate(a: int): Address {
    if a < 0 then 0 else if a >= W64 then W64 - 1 else a
  }
  /** Where step `step` of the Unix search asks for a page: alternating sides, ever farther out. */
  function Hint(reach: int, source: Address, step: nat): int {
    var distance := (step + 1) / 2 * (reach / 64);
    Saturate(if step % 2 == 0 then source + distance else source - distance) / CAPACITY * CAPACITY
  }
  predicate Usable(hint: int) {
    CAPACITY <= hint <= HIGHEST - CAPACITY
  }
  /** The hints of the first `n` steps. */
  ghost function Hints(reach: int, source: Address, n: nat): seq<int> {
    if n == 0 then []
    else if Usable(Hint(reach, source, n - 1)) then Hints(reach, source, n - 1) + [Hint(reach, source, n - 1)]
    else Hints(reach, source, n - 1)
  }
  /** Each hint of the first `n` steps was asked for in its turn, and no answer lies within reach. */
  ghost predicate AllFar(reports: seq<Report>, reach: int, source: Address, n: nat) {
    && |reports| == |Hints(reach, source, n)|
    && forall k | 0 <= k < |reports| ::
         && reports[k].Hinted? && reports[k].hint == Hints(reach, source, n)[k]
         && (reports[k].answer.Some? ==> Distance(reports[k].answer.value, source) > reach - CAPACITY)
  }
  /** The last answer is the first within reach. */
  ghost predicate FirstNear(reports: seq<Report>, reach: int, source: Address, page: int) {
    exists n: nat :: n < 129 && |reports| > 0 && AllFar(reports[..|reports| - 1], reach, source, n)
                     && reports[|reports| - 1] == Hinted(Hint(reach, source, n), Some(page))
  }
  /** The last call failed to give a far page back. */
  ghost predicate StuckFar(reports: seq<Report>, reach: int, source: Address) {
    && |reports| > 0 && reports[|reports| - 1].Stuck?
    && Distance(reports[|reports| - 1].page, source) > reach - CAPACITY
  }
  function Distance(a: int, b: int): int {
    if a < b then b - a else a - b
  }

  /** Finds the first page within reach that the system offers. A failed search holds nothing, unless a far page could
      not be given back. */
  method SearchUnix(pages: Allocator, reach: int, source: Address) returns (r: Result<int>)
    requires reach in {X86_REACH, ARM64_REACH}
    modifies pages
    ensures r.Ok? ==> && r.value !in old(pages.held) && pages.held == old(pages.held) + {r.value}
                      && Distance(r.value, source) <= reach - CAPACITY && 0 <= r.value <= HIGHEST && r.value % 4096 == 0
    ensures r.Err? ==> r.error in {InsufficientSpace, Os}
    ensures old(pages.log) <= pages.log
    ensures r.Ok? ==> FirstNear(pages.log[|old(pages.log)|..], reach, source, r.value)
    ensures r == Err(InsufficientSpace) ==>
              pages.held == old(pages.held) && AllFar(pages.log[|old(pages.log)|..], reach, source, 129)
    ensures r == Err(Os) ==>
              && StuckFar(pages.log[|old(pages.log)|..], reach, source)
              && exists page :: page !in old(pages.held) && pages.held == old(pages.held) + {page}
                                && Distance(page, source) > reach - CAPACITY
  {
    hide Hint, Usable, Distance;
    ghost var start := |pages.log|;
    for step := 0 to 129
      invariant pages.held == old(pages.held) && old(pages.log) <= pages.log
      invariant AllFar(pages.log[start..], reach, source, step)
    {
      ghost var asked := pages.log[start..];
      var hint := Hint(reach, source, step);
      if !Usable(hint) {
        continue;
      }
      var page := pages.Reserve(hint);
      assert pages.log[start..] == asked + [Hinted(hint, page)];
      if page.Some? {
        if Distance(page.value, source) <= reach - CAPACITY {
          assert pages.log[start..][..|asked|] == asked;
          return Ok(page.value);
        }
        var released := pages.Release(page.value);
        if released.Err? {
          return Err(released.error);
        }
        assert pages.held == old(pages.held);
      }
    }
    r := Err(InsufficientSpace);
  }
  /** Every usable hint lies within reach on its own side of the function, up to alignment. */
  lemma HintNear(reach: int, source: Address, step: nat)
    requires reach in {X86_REACH, ARM64_REACH} && step <= 128 && Usable(Hint(reach, source, step))
    ensures Hint(reach, source, step) % CAPACITY == 0
    ensures source - reach - CAPACITY < Hint(reach, source, step) <= source + reach
    ensures step % 2 == 0 && source <= HIGHEST ==> Hint(reach, source, step) > source - CAPACITY
    ensures step % 2 == 1 ==> Hint(reach, source, step) <= source
  {
    Spread((step + 1) / 2, reach / 64);
    var distance := (step + 1) / 2 * (reach / 64);
    Aligned(Saturate(if step % 2 == 0 then source + distance else source - distance));
  }
  lemma Spread(half: int, unit: int)
    requires 0 <= half <= 64 && 0 <= unit
    ensures 0 <= half * unit <= 64 * unit
  {
  }
  lemma Aligned(a: int)
    ensures a - CAPACITY < a / CAPACITY * CAPACITY <= a && a / CAPACITY * CAPACITY % CAPACITY == 0
  {
  }

  /** Where hint `step` lies before it is aligned. */
  function Place(reach: int, source: Address, step: nat): int {
    var distance := (step + 1) / 2 * (reach / 64);
    if step % 2 == 0 then source + distance else source - distance
  }
  lemma HintPlace(reach: int, source: Address, step: nat)
    requires reach in {X86_REACH, ARM64_REACH} && step <= 128 && reach <= source < W64 - reach
    ensures Hint(reach, source, step) <= Place(reach, source, step) < Hint(reach, source, step) + CAPACITY
  {
    Spread((step + 1) / 2, reach / 64);
    Aligned(Place(reach, source, step));
  }
  /** Hints on one side of the function are one unit apart, up to alignment, as long as they stay inside the address
      space. */
  lemma HintsSpread(reach: int, source: Address, step: nat)
    requires reach in {X86_REACH, ARM64_REACH} && step <= 126 && reach <= source < W64 - reach
    ensures reach / 64 - CAPACITY
            < Distance(Hint(reach, source, step + 2), Hint(reach, source, step)) < reach / 64 + CAPACITY
  {
    hide Hint, Place;
    HintPlace(reach, source, step);
    HintPlace(reach, source, step + 2);
    PlacesApart(reach, source, step);
  }
  lemma PlacesApart(reach: int, source: Address, step: nat)
    ensures Place(reach, source, step + 2) - Place(reach, source, step)
            == if step % 2 == 0 then reach / 64 else -(reach / 64)
  {
    var half, unit := (step + 1) / 2, reach / 64;
    assert (step + 2 + 1) / 2 == half + 1 && (half + 1) * unit == half * unit + unit;
  }
  /** They start at the function, and the last ones lie at the edges of the reach. */
  lemma HintsReach(reach: int, source: Address)
    requires reach in {X86_REACH, ARM64_REACH} && reach <= source < W64 - reach
    ensures Hint(reach, source, 0) <= source < Hint(reach, source, 0) + CAPACITY
    ensures Hint(reach, source, 1) + reach / 64 <= source < Hint(reach, source, 1) + reach / 64 + CAPACITY
    ensures Hint(reach, source, 127) + reach <= source < Hint(reach, source, 127) + reach + CAPACITY
    ensures Hint(reach, source, 128) <= source + reach < Hint(reach, source, 128) + CAPACITY
  {
    hide Hint;
    HintPlace(reach, source, 0);
    HintPlace(reach, source, 1);
    HintPlace(reach, source, 127);
    HintPlace(reach, source, 128);
    assert reach / 64 * 64 == reach;
  }
  /** Some hint can always be asked for. */
  lemma SomeHint(reach: int, source: Address)
    requires reach in {X86_REACH, ARM64_REACH} && 0 < source <= HIGHEST - CAPACITY
    ensures Hints(reach, source, 129) != []
  {
    Aligned(source);
    Aligned(source + reach / 64);
    assert Usable(Hint(reach, source, 0)) || Usable(Hint(reach, source, 2));
    hide Hint, Usable;
    HintsGrow(reach, source, 1, 129);
    HintsGrow(reach, source, 3, 129);
  }
  lemma {:induction false} HintsGrow(reach: int, source: Address, m: nat, n: nat)
    requires m <= n
    ensures |Hints(reach, source, m)| <= |Hints(reach, source, n)|
    decreases n
  {
    hide Hint, Usable;
    if m < n {
      HintsGrow(reach, source, m, n - 1);
    }
  }

  /** Apple Silicon: a distant page will do when no near one exists. */
  method FallBack(pages: Allocator, near: Result<int>) returns (r: Result<int>)
    modifies pages
    ensures near != Err(InsufficientSpace) ==>
              r == near && pages.held == old(pages.held) && pages.log == old(pages.log)
    ensures near == Err(InsufficientSpace) ==>
              && (r.Err? ==> r.error == InsufficientSpace)
              && pages.log == old(pages.log) + [Hinted(0, if r.Ok? then Some(r.value) else None)]
    ensures near == Err(InsufficientSpace) && r.Ok? ==>
              && r.value !in old(pages.held) && pages.held == old(pages.held) + {r.value}
              && 0 <= r.value <= HIGHEST && r.value % 4096 == 0
    ensures r == Err(InsufficientSpace) ==> pages.held == old(pages.held)
  {
    if near == Err(InsufficientSpace) {
      var page := pages.Reserve(0);
      return if page.Some? then Ok(page.value) else Err(InsufficientSpace);
    }
    r := near;
  }

  // Windows

  function RoundUp(a: int): int {
    (a + GRANULARITY - 1) / GRANULARITY * GRANULARITY
  }
  lemma RoundedUp(a: int)
    ensures a <= RoundUp(a) < a + GRANULARITY && RoundUp(a) % GRANULARITY == 0
    ensures forall c | c % GRANULARITY == 0 && a <= c :: RoundUp(a) <= c
  {
    forall c | c % GRANULARITY == 0 && a <= c ensures RoundUp(a) <= c {
    }
  }
  /** An answer that rules a candidate out: its region is taken or too small, or it was refused. */
  ghost predicate RulesOut(report: Report, c: int) {
    match report
    case Region(at, end, free) => at <= c < end && (!free || end - at < CAPACITY)
    case Refused(at) => at == c
    case _ => false
  }
  ghost predicate RuledOut(log: seq<Report>, from: nat, c: int) {
    exists k :: from <= k < |log| && RulesOut(log[k], c)
  }
  function Lower(reach: int, source: Address): int {
    if source - reach < GRANULARITY then GRANULARITY else source - reach
  }
  function Upper(reach: int, source: Address): int {
    if source + reach < HIGHEST then source + reach else HIGHEST
  }

  /** The last question got no answer, or an answer about another region. */
  ghost predicate Misled(log: seq<Report>, from: nat) {
    && from < |log|
    && var last := log[|log| - 1]; last.Unknown? || (last.Region? && last.end <= last.at)
  }

  /** Finds the lowest aligned page within reach that the system grants, and fails only when
      every aligned candidate was ruled out. */
  method SearchWindows(pages: Allocator, reach: int, source: Address) returns (r: Result<int>)
    requires reach in {X86_REACH, ARM64_REACH}
    modifies pages
    ensures r.Ok? ==> && r.value !in old(pages.held) && pages.held == old(pages.held) + {r.value}
                      && r.value % GRANULARITY == 0
                      && Lower(reach, source) <= r.value <= Upper(reach, source) - CAPACITY
    ensures r.Err? ==> pages.held == old(pages.held)
    ensures old(pages.log) <= pages.log
    ensures r.Ok? ==> |pages.log| > |old(pages.log)| && pages.log[|pages.log| - 1] == Placed(r.value)
    ensures r.Err? ==> r.error in {InsufficientSpace, InvalidRange, Os}
    ensures r == Err(Os) || r == Err(InvalidRange) ==> Misled(pages.log, |old(pages.log)|)
    ensures forall c | c % GRANULARITY == 0
                       && Lower(reach, source) <= c
                            < (if r.Ok? then r.value else Upper(reach, source) - CAPACITY + 1) ::
              r.Ok? || r == Err(InsufficientSpace) ==> RuledOut(pages.log, |old(pages.log)|, c)
  {
    hide RoundUp, Lower, Upper, RulesOut, RuledOut;
    var upper := Upper(reach, source);
    var cursor := RoundUp(Lower(reach, source));
    RoundedUp(Lower(reach, source));
    ghost var from := |pages.log|;
    while cursor <= upper - CAPACITY
      invariant pages.held == old(pages.held) && old(pages.log) <= pages.log
      invariant cursor % GRANULARITY == 0 && Lower(reach, source) <= cursor
      invariant AllRuledOut(pages.log, from, Lower(reach, source), cursor)
      decreases upper - cursor
    {
      ghost var before := pages.log;
      var region :- pages.Query(cursor);
      var (end, free) := region;
      if end <= cursor {
        return Err(InvalidRange);
      }
      if free && end - cursor >= CAPACITY {
        var page := pages.ReserveAt(cursor);
        if page.Some? {
          MoreRuledOut(before, pages.log, from, Lower(reach, source), cursor, cursor);
          return Ok(page.value);
        }
        RefusedOne(before, pages.log, from, Lower(reach, source), cursor);
        cursor := cursor + GRANULARITY;
      } else {
        RoundedUp(end);
        SkippedAll(before, pages.log, from, Lower(reach, source), cursor, end);
        cursor := RoundUp(end);
      }
    }
    r := Err(InsufficientSpace);
  }
  /** A refusal rules out the one aligned candidate before the next. */
  lemma RefusedOne(before: seq<Report>, after: seq<Report>, from: nat, lower: int, cursor: int)
    requires from <= |before| < |after| && before <= after && after[|after| - 1] == Refused(cursor)
    requires AllRuledOut(before, from, lower, cursor) && cursor % GRANULARITY == 0
    ensures AllRuledOut(after, from, lower, cursor + GRANULARITY)
  {
    forall c | c % GRANULARITY == 0 && cursor <= c < cursor + GRANULARITY ensures c == cursor {
    }
    MoreRuledOut(before, after, from, lower, cursor, cursor + GRANULARITY);
  }
  /** A region that is taken or too small rules out every aligned candidate up to its end. */
  lemma SkippedAll(before: seq<Report>, after: seq<Report>, from: nat, lower: int, cursor: int, end: int)
    requires from <= |before| < |after| && before <= after && AllRuledOut(before, from, lower, cursor)
    requires after[|after| - 1].Region? && after[|after| - 1].at == cursor && after[|after| - 1].end == end
    requires !after[|after| - 1].free || end - cursor < CAPACITY
    requires cursor % GRANULARITY == 0
    ensures AllRuledOut(after, from, lower, RoundUp(end))
  {
    hide RoundUp;
    RoundedUp(end);
    MoreRuledOut(before, after, from, lower, cursor, RoundUp(end));
  }
  lemma InReach(reach: int, source: Address, page: int)
    requires reach in {X86_REACH, ARM64_REACH} && page % GRANULARITY == 0
    requires Lower(reach, source) <= page <= Upper(reach, source) - CAPACITY
    ensures 0 <= page <= HIGHEST && Distance(page, source) <= reach && page % 4096 == 0
  {
  }
  lemma PageAligned(page: int)
    requires page % 4096 == 0
    ensures page % 4 == 0
  {
  }
  ghost predicate AllRuledOut(log: seq<Report>, from: nat, lower: int, cursor: int) {
    forall c | c % GRANULARITY == 0 && lower <= c < cursor :: RuledOut(log, from, c)
  }
  lemma MoreRuledOut(before: seq<Report>, after: seq<Report>, from: nat, lower: int, cursor: int, next: int)
    requires from <= |before| && before <= after && AllRuledOut(before, from, lower, cursor)
             && cursor % GRANULARITY == 0
    requires forall c | c % GRANULARITY == 0 && cursor <= c < next ::
               |before| < |after| && RulesOut(after[|after| - 1], c)
    ensures AllRuledOut(after, from, lower, next)
  {
    forall c | c % GRANULARITY == 0 && lower <= c < next ensures RuledOut(after, from, c) {
      if c < cursor {
        assert RuledOut(before, from, c);
        var k :| from <= k < |before| && RulesOut(before[k], c);
        assert RulesOut(after[k], c);
      }
    }
  }

  // A page is written once

  class Page {
    const address: int
    var contents: seq<Byte>
    var sealed: bool

    constructor (address: int)
      ensures this.address == address && contents == [] && !sealed
    {
      this.address, contents, sealed := address, [], false;
    }

    /** Only the first acceptable publication writes the page, even when sealing it fails. */
    method Publish(pages: Allocator, bytes: seq<Byte>) returns (r: Result<()>)
      modifies this, pages`log
      ensures old(sealed) ==> r == Err(InvalidRange) && contents == old(contents) && sealed
      ensures !old(sealed) ==>
                sealed == (0 < |bytes| <= CAPACITY) && contents == if sealed then bytes else old(contents)
      ensures r.Ok? ==> sealed && contents == bytes && pages.log == old(pages.log)
      ensures r.Err? && !old(sealed) && sealed ==> pages.log == old(pages.log) + [Unsealed(address)]
      ensures r.Err? && (old(sealed) || !sealed) ==> r.error == InvalidRange && pages.log == old(pages.log)
    {
      if sealed || bytes == [] || |bytes| > CAPACITY {
        return Err(InvalidRange);
      }
      contents, sealed := bytes, true;
      r := pages.Seal(address);
    }
  }
}
