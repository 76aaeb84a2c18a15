/** Code writes that either take effect completely or not at all. */
module Memory {
  import opened Words

  datatype Region = Region(start: nat, end: nat, protection: int, readable: bool, executable: bool)
  datatype PageRange = PageRange(address: nat, length: nat, protection: int)

  /** Access rights of an address: those of its mapping, or temporarily writable ones. */
  datatype Access = Normal(code: int) | Writable(code: int)

  /** `fatal` never returns; it is the third way a write can end. */
  datatype Outcome = Done | Failed(error: Error) | Fatal

  predicate Within(a: int, page: PageRange) {
    page.address <= a < page.address + page.length
  }
  /** The region is what the process has mapped around `address`. */
  ghost predicate Describes(region: Region, protection: map<int, Access>, address: int) {
    && region.start <= address < region.end <= W64
    && forall a | region.start <= a < region.end :: a in protection && protection[a] == Normal(region.protection)
  }
  /** Memory with `data` written at `address`. */
  function Overlay(bytes: map<int, Byte>, address: int, data: seq<Byte>): (r: map<int, Byte>)
    ensures r.Keys == bytes.Keys
  {
    map a | a in bytes :: if address <= a < address + |data| then data[a - address] else bytes[a]
  }
  ghost predicate Holds(bytes: map<int, Byte>, address: int, data: seq<Byte>) {
    forall a | address <= a < address + |data| :: a in bytes && bytes[a] == data[a - address]
  }

  /** The first mapped region around an address. */
  function RegionOf(regions: seq<Region>, address: int): Option<Region> {
    if regions == [] then None
    else if InRegion(address, regions[0]) then Some(regions[0])
    else RegionOf(regions[1..], address)
  }
  predicate InRegion(a: int, region: Region) {
    region.start <= a < region.end
  }
  /** No address is mapped twice. */
  ghost predicate Separate(regions: seq<Region>) {
    forall j, k, a | 0 <= j < k < |regions| && InRegion(a, regions[j]) :: !InRegion(a, regions[k])
  }
  lemma {:induction false} SameRegion(regions: seq<Region>, k: nat, a: int)
    requires Separate(regions) && k < |regions| && InRegion(a, regions[k])
    ensures RegionOf(regions, a) == Some(regions[k])
  {
    if k > 0 {
      var rest := regions[1..];
      assert forall j | 0 <= j < |rest| :: rest[j] == regions[j + 1];
      SameRegion(rest, k - 1, a);
    }
  }
  /** Code may be read from and patched at this address. */
  predicate Executable(regions: seq<Region>, a: int) {
    var region := RegionOf(regions, a);
    region.Some? && region.value.readable && region.value.executable
  }

  /** The operating system: every call may refuse, and then changes nothing. */
  class Platform {
    const regions: seq<Region>
    const pageSize: nat
    var bytes: map<int, Byte>
    var protection: map<int, Access>
    /** How many calls were refused so far. */
    ghost var refusals: nat

    /** Mappings are what the regions say, with no temporary access left over. */
    ghost predicate Quiet()
      reads this
    {
      && pageSize > 0 && (forall a | a in bytes :: 0 <= a < W64)
      && (forall k | 0 <= k < |regions| :: regions[k].end <= W64) && Separate(regions)
      && (forall k, a | 0 <= k < |regions| && InRegion(a, regions[k]) ::
            a in bytes && a in protection && protection[a] == Normal(regions[k].protection))
    }

    constructor (regions: seq<Region>, pageSize: nat, bytes: map<int, Byte>, protection: map<int, Access>)
      ensures this.regions == regions && this.pageSize == pageSize
      ensures this.bytes == bytes && this.protection == protection && refusals == 0
    {
      this.regions, this.pageSize := regions, pageSize;
      this.bytes, this.protection, refusals := bytes, protection, 0;
    }

    method RegionAt(address: int) returns (r: Result<Option<Region>>)
      modifies this`refusals
      ensures r.Ok? ==> r.value == RegionOf(regions, address) && refusals == old(refusals)
      ensures r.Err? ==> r.error == Os && refusals > old(refusals)
    {
      var refuses: bool := *;
      if refuses {
        refusals := refusals + 1;
        return Err(Os);
      }
      for k := 0 to |regions|
        invariant RegionOf(regions, address) == RegionOf(regions[k..], address)
      {
        if InRegion(address, regions[k]) {
          return Ok(Some(regions[k]));
        }
        assert regions[k..][1..] == regions[k + 1..];
      }
      r := Ok(None);
    }

    /** May also read less than was asked for. */
    method ReadBytes(address: int, length: nat) returns (r: Result<seq<Byte>>)
      modifies this`refusals
      ensures refusals >= old(refusals)
      ensures r.Ok? ==> |r.value| <= length && Holds(bytes, address, r.value)
      ensures r.Err? ==> r.error == Os
      ensures refusals == old(refusals) && (forall a | address <= a < address + length :: a in bytes) ==>
                r.Ok? && |r.value| == length
    {
      var refuses: bool, limit: nat := *, *;
      if refuses || limit < length {
        refusals := refusals + 1;
      }
      if refuses {
        return Err(Os);
      }
      var data: seq<Byte> := [];
      while |data| < length && |data| < limit && address + |data| in bytes
        invariant |data| <= length && Holds(bytes, address, data)
      {
        var next := bytes[address + |data|];
        data := data + [next];
        assert forall i | 0 <= i < |data| - 1 :: data[i] == data[..|data| - 1][i];
      }
      r := Ok(data);
    }

    method PageSize() returns (r: Result<nat>)
      modifies this`refusals
      ensures r.Ok? ==> r.value == pageSize && refusals == old(refusals)
      ensures r.Err? ==> refusals > old(refusals)
    {
      var refuses: bool := *;
      if refuses {
        refusals := refusals + 1;
        return Err(Os);
      }
      r := Ok(pageSize);
    }

    method Protect(page: PageRange, writable: bool) returns (r: Result<()>)
      modifies this`protection, this`refusals
      ensures r.Err? ==> protection == old(protection) && refusals > old(refusals)
      ensures r.Ok? ==> protection == Protected(old(protection), page, writable) && refusals == old(refusals)
    {
      var refuses: bool := *;
      if refuses {
        refusals := refusals + 1;
        return Err(Os);
      }
      protection := Protected(protection, page, writable);
      r := Ok(());
    }

    method Flush(address: int, length: nat) returns (r: Result<()>)
      modifies this`refusals
      ensures r.Err? ==> refusals > old(refusals)
      ensures r.Ok? ==> refusals == old(refusals)
    {
      r := Call();
    }

    /** Any call that changes neither code nor its protection. */
    method Call() returns (r: Result<()>)
      modifies this`refusals
      ensures r.Err? ==> refusals > old(refusals)
      ensures r.Ok? ==> refusals == old(refusals)
    {
      var refuses: bool := *;
      if refuses {
        refusals := refusals + 1;
        return Err(Os);
      }
      r := Ok(());
    }

    /** A copy into code memory; an unmapped or write-protected byte would fault. */
    method Copy(address: int, data: seq<Byte>)
      requires forall a | address <= a < address + |data| :: a in protection && protection[a].Writable?
      modifies this`bytes
      ensures bytes == Overlay(old(bytes), address, data)
    {
      bytes := Overlay(bytes, address, data);
    }
  }

  function Protected(protection: map<int, Access>, page: PageRange, writable: bool): (r: map<int, Access>)
    ensures r.Keys == protection.Keys
  {
    map a | a in protection ::
      if !Within(a, page) then protection[a]
      else if writable then Writable(page.protection)
      else Normal(page.protection)
  }

  function CheckedEnd(address: Address, length: nat): Result<Address> {
    if address == 0 then Err(InvalidAddress)
    else if length == 0 then Err(InvalidRange)
    else Sum(address, length)
  }

  // Regions and pages

  ghost predicate Covered(a: int, regions: seq<Region>) {
    exists k :: 0 <= k < |regions| && InRegion(a, regions[k])
  }
  ghost predicate Touches(region: Region, protection: map<int, Access>, address: int, limit: int) {
    exists c :: address <= c < limit && Describes(region, protection, c)
  }
  /** Consecutive regions cover `[address, limit)`, and each holds a byte of it. */
  ghost predicate Covers(regions: seq<Region>, protection: map<int, Access>, address: int, limit: int) {
    && (forall k | 0 <= k < |regions| :: Touches(regions[k], protection, address, limit))
    && (forall a | address <= a < limit :: Covered(a, regions))
  }

  /** Executable code goes on from an address up to `stop`, where it ends or the limit is reached. */
  ghost predicate Extent(regions: seq<Region>, address: int, limit: int, stop: int) {
    && address < stop <= limit
    && (forall a | address <= a < stop :: Executable(regions, a))
    && (stop < limit ==> !Executable(regions, stop))
  }

  /** Why code cannot be read: no such range, data without execute permission, or nothing readable there. */
  function Unreadable(regions: seq<Region>, address: Address, length: nat): Error {
    if address != 0 && (length == 0 || address + length >= W64) then InvalidRange
    else if address != 0 && RegionOf(regions, address).Some? && RegionOf(regions, address).value.readable
    then NotExecutable else InvalidAddress
  }

  /** Walks executable regions from `address` to `address + length`, or to the first gap. */
  method ExecutableRegions(os: Platform, address: Address, length: nat) returns (r: Result<seq<Region>>)
    requires os.Quiet()
    modifies os`refusals
    ensures os.refusals >= old(os.refusals)
    ensures r.Ok? ==>
              && 0 < length && 0 < address && address + length < W64 && r.value != []
              && var last := r.value[|r.value| - 1].end;
              && address < last
              && var stop := if last < address + length then last else address + length;
              && Covers(r.value, os.protection, address, stop) && Extent(os.regions, address, address + length, stop)
    ensures r.Err? ==> r.error in {InvalidAddress, InvalidRange, NotExecutable, Os}
    ensures r.Err? && os.refusals == old(os.refusals) ==> r.error == Unreadable(os.regions, address, length)
    ensures os.refusals == old(os.refusals) && CheckedEnd(address, length).Ok? && Executable(os.regions, address) ==>
              r.Ok?
  {
    var end :- CheckedEnd(address, length);
    var regions: seq<Region> := [];
    var cursor: int := address;
    while cursor < end
      invariant address <= cursor <= end && os.refusals == old(os.refusals)
      invariant cursor == address <==> regions == []
      invariant regions != [] ==>
                  var last := regions[|regions| - 1].end; cursor == if last < end then last else end
      invariant Covers(regions, os.protection, address, cursor)
      invariant forall a | address <= a < cursor :: Executable(os.regions, a)
    {
      var region :- os.RegionAt(cursor);
      if region.Some? && region.value.readable && region.value.executable {
        var found := region.value;
        RegionDescribes(os, cursor);
        RegionExecutable(os.regions, cursor);
        CoversMore(regions, os.protection, address, cursor, found, if found.end < end then found.end else end);
        cursor := if found.end < end then found.end else end;
        regions := regions + [found];
      } else {
        assert !Executable(os.regions, cursor);
        if regions == [] {
          return Err(if region.Some? && region.value.readable then NotExecutable else InvalidAddress);
        }
        return Ok(regions);
      }
    }
    r := Ok(regions);
  }
  lemma {:induction false} RegionListed(regions: seq<Region>, address: int) returns (k: nat)
    requires RegionOf(regions, address).Some?
    ensures k < |regions| && regions[k] == RegionOf(regions, address).value && InRegion(address, regions[k])
  {
    if InRegion(address, regions[0]) {
      k := 0;
    } else {
      k := RegionListed(regions[1..], address);
      k := k + 1;
    }
  }
  lemma RegionExecutable(regions: seq<Region>, c: int)
    requires Separate(regions) && Executable(regions, c)
    ensures forall a | InRegion(a, RegionOf(regions, c).value) :: Executable(regions, a)
  {
    var k := RegionListed(regions, c);
    forall a | InRegion(a, regions[k]) ensures Executable(regions, a) {
      SameRegion(regions, k, a);
    }
  }
  lemma RegionDescribes(os: Platform, address: int)
    requires os.Quiet() && RegionOf(os.regions, address).Some?
    ensures Describes(RegionOf(os.regions, address).value, os.protection, address)
  {
    var k := RegionListed(os.regions, address);
    assert forall a | InRegion(a, os.regions[k]) ::
             a in os.protection && os.protection[a] == Normal(os.regions[k].protection);
  }
  lemma CoversMore(regions: seq<Region>, protection: map<int, Access>, address: int, cursor: int, region: Region,
                   next: int)
    requires Covers(regions, protection, address, cursor) && address <= cursor < next <= region.end
    requires Describes(region, protection, cursor)
    ensures Covers(regions + [region], protection, address, next)
  {
    DescribesBounds(region, protection, cursor);
    hide Describes;
    var all := regions + [region];
    forall k | 0 <= k < |all| ensures Touches(all[k], protection, address, next) {
      if k < |regions| {
        assert Touches(regions[k], protection, address, cursor);
      }
    }
    forall a | address <= a < next ensures Covered(a, all) {
      if a < cursor {
        assert Covered(a, regions);
        var k :| 0 <= k < |regions| && InRegion(a, regions[k]);
        assert InRegion(a, all[k]);
      } else {
        assert InRegion(a, all[|regions|]);
      }
    }
  }
  lemma DescribesBounds(region: Region, protection: map<int, Access>, c: int)
    requires Describes(region, protection, c)
    ensures region.start <= c < region.end
  {
  }

  /** Reads up to `limit` bytes of code, as many as consecutive executable regions hold. */
  method Read(os: Platform, address: Address, limit: nat) returns (r: Result<seq<Byte>>)
    requires os.Quiet()
    modifies os`refusals
    ensures os.refusals >= old(os.refusals)
    ensures r.Ok? ==> 0 < address && |r.value| <= limit && Holds(os.bytes, address, r.value)
    ensures r.Ok? && os.refusals == old(os.refusals) ==>
              Extent(os.regions, address, address + limit, address + |r.value|)
    ensures os.refusals == old(os.refusals) && CheckedEnd(address, limit).Ok? && Executable(os.regions, address) ==>
              r.Ok?
    ensures r.Err? ==> r.error in {InvalidAddress, InvalidRange, NotExecutable, Os}
    ensures r.Err? && os.refusals == old(os.refusals) ==> r.error == Unreadable(os.regions, address, limit)
  {
    var regions :- ExecutableRegions(os, address, limit);
    var last := regions[|regions| - 1].end;
    ExtentMapped(os, address, address + limit, if last < address + limit then last else address + limit);
    r := os.ReadBytes(address, if last - address < limit then last - address else limit);
  }

  lemma ExtentMapped(os: Platform, address: int, limit: int, stop: int)
    requires os.Quiet() && Extent(os.regions, address, limit, stop)
    ensures forall a | address <= a < stop :: a in os.bytes
  {
    forall a | address <= a < stop ensures a in os.bytes {
      assert Executable(os.regions, a);
      var k := RegionListed(os.regions, a);
    }
  }

  // The page ranges whose protection a write changes

  function Floor(a: int, size: int): int
    requires size > 0
  {
    a / size * size
  }
  function PageOf(region: Region, address: Address, lastPageEnd: int, size: nat): (page: PageRange)
    requires size > 0 && region.start < lastPageEnd && address < region.end
    requires region.start < region.end && Floor(address, size) < lastPageEnd
  {
    FloorBelow(address, size);
    var start := if region.start < Floor(address, size) then Floor(address, size) else region.start;
    var end := if region.end < lastPageEnd then region.end else lastPageEnd;
    PageRange(start, end - start, region.protection)
  }
  lemma FloorBelow(a: int, size: int)
    requires size > 0
    ensures Floor(a, size) <= a < Floor(a, size) + size
    ensures a >= 0 ==> Floor(a, size) >= 0
  {
  }

  /** Pages describe the protection they replace, cover the written range, and reach into it. */
  ghost predicate Planned(pages: seq<PageRange>, was: map<int, Access>, address: int, end: int) {
    && (forall k, a | 0 <= k < |pages| && Within(a, pages[k]) :: a in was && was[a] == Normal(pages[k].protection))
    && (forall a | address <= a < end :: InPages(a, pages, |pages|))
    && (forall k | 0 <= k < |pages| :: pages[k].address < end && address < pages[k].address + pages[k].length)
  }
  ghost predicate InPages(a: int, pages: seq<PageRange>, n: int) {
    exists k :: 0 <= k < n <= |pages| && Within(a, pages[k])
  }

  method PlanPages(regions: seq<Region>, ghost was: map<int, Access>, address: Address, end: Address, size: nat)
    returns (r: Result<seq<PageRange>>)
    requires size > 0 && address < end && Covers(regions, was, address, end)
    ensures r.Err? <==> end + size - 1 >= W64
    ensures r.Ok? ==> Planned(r.value, was, address, end)
  {
    var top :- Sum(end, size - 1);
    var lastPageEnd := Floor(top, size);
    FloorBelow(top, size);
    FloorBelow(address, size);
    var pages: seq<PageRange> := [];
    for k := 0 to |regions|
      invariant |pages| == k
      invariant forall j | 0 <= j < k :: PageFits(regions[j], was, pages[j], address, end)
    {
      assert Touches(regions[k], was, address, end);
      pages := pages + [PageOf(regions[k], address, lastPageEnd, size)];
    }
    r := Ok(pages);
    PagesPlanned(regions, pages, was, address, end);
  }

  /** What one page must satisfy. */
  ghost predicate PageFits(region: Region, was: map<int, Access>, page: PageRange, address: int, end: int) {
    && (forall a | Within(a, page) :: a in was && was[a] == Normal(page.protection))
    && (forall a | address <= a < end && InRegion(a, region) :: Within(a, page))
    && page.address < end && address < page.address + page.length
  }
  lemma PagesPlanned(regions: seq<Region>, pages: seq<PageRange>, was: map<int, Access>, address: int, end: int)
    requires |pages| == |regions| && Covers(regions, was, address, end)
    requires forall j | 0 <= j < |pages| :: PageFits(regions[j], was, pages[j], address, end)
    ensures Planned(pages, was, address, end)
  {
    forall a | address <= a < end ensures InPages(a, pages, |pages|) {
      assert Covered(a, regions);
      var k :| 0 <= k < |regions| && InRegion(a, regions[k]);
      assert PageFits(regions[k], was, pages[k], address, end);
      assert Within(a, pages[k]);
    }
    forall k | 0 <= k < |pages|
      ensures pages[k].address < end && address < pages[k].address + pages[k].length
      ensures forall a | Within(a, pages[k]) :: a in was && was[a] == Normal(pages[k].protection)
    {
      assert PageFits(regions[k], was, pages[k], address, end);
    }
  }

  // Changing and restoring protection

  /** Outside the first `n` pages nothing has changed. */
  ghost predicate Outside(pages: seq<PageRange>, n: int, was: map<int, Access>, now: map<int, Access>) {
    && now.Keys == was.Keys
    && forall a | a in was && !InPages(a, pages, n) :: now[a] == was[a]
  }
  /** The first `n` pages have temporary write access. */
  ghost predicate Raised(pages: seq<PageRange>, n: int, now: map<int, Access>) {
    forall k, a | 0 <= k < n <= |pages| && Within(a, pages[k]) :: a in now && now[a].Writable?
  }

  lemma RaiseOne(pages: seq<PageRange>, k: nat, was: map<int, Access>, now: map<int, Access>)
    requires k < |pages| && Outside(pages, k, was, now) && Raised(pages, k, now)
    requires forall a | Within(a, pages[k]) :: a in was
    ensures Outside(pages, k + 1, was, Protected(now, pages[k], true))
    ensures Raised(pages, k + 1, Protected(now, pages[k], true))
  {
    var next := Protected(now, pages[k], true);
    forall a | a in was && !InPages(a, pages, k + 1) ensures next[a] == was[a] {
      assert !Within(a, pages[k]);
      assert !InPages(a, pages, k);
    }
  }

  /** The first `n` pages, and everything outside all pages, are as they were. */
  ghost predicate Lowered(pages: seq<PageRange>, n: int, was: map<int, Access>, now: map<int, Access>) {
    forall a | a in was && a in now && InPages(a, pages, n) :: now[a] == was[a]
  }
  lemma LowerOne(pages: seq<PageRange>, k: nat, was: map<int, Access>, now: map<int, Access>)
    requires k < |pages| && Outside(pages, |pages|, was, now) && Lowered(pages, k, was, now)
    requires forall a | Within(a, pages[k]) :: a in was && was[a] == Normal(pages[k].protection)
    ensures Outside(pages, |pages|, was, Protected(now, pages[k], false))
    ensures Lowered(pages, k + 1, was, Protected(now, pages[k], false))
  {
    var next := Protected(now, pages[k], false);
    forall a | a in was && !InPages(a, pages, |pages|) ensures next[a] == was[a] {
      assert !Within(a, pages[k]);
    }
    forall a | a in was && InPages(a, pages, k + 1) ensures next[a] == was[a] {
      if !Within(a, pages[k]) {
        var j :| 0 <= j < k + 1 && Within(a, pages[j]);
        assert InPages(a, pages, k);
      }
    }
  }

  /** Gives every page its own protection back. */
  method LowerAll(os: Platform, pages: seq<PageRange>, ghost was: map<int, Access>) returns (r: Result<()>)
    requires Outside(pages, |pages|, was, os.protection)
    requires forall k, a | 0 <= k < |pages| && Within(a, pages[k]) :: a in was && was[a] == Normal(pages[k].protection)
    modifies os`protection, os`refusals
    ensures Outside(pages, |pages|, was, os.protection)
    ensures r.Ok? ==> os.protection == was && os.refusals == old(os.refusals)
    ensures r.Err? ==> os.refusals > old(os.refusals)
  {
    for k := 0 to |pages|
      invariant os.refusals == old(os.refusals)
      invariant Outside(pages, |pages|, was, os.protection) && Lowered(pages, k, was, os.protection)
    {
      LowerOne(pages, k, was, os.protection);
      r := os.Protect(pages[k], false);
      if r.Err? {
        return;
      }
    }
    r := Ok(());
    forall a | a in was ensures os.protection[a] == was[a] {
      assert InPages(a, pages, |pages|) || os.protection[a] == was[a];
    }
    assert os.protection == was;
  }

  /** The roll back variant of `LowerAll`: a failure is fatal. */
  method RestorePermissions(os: Platform, pages: seq<PageRange>, ghost was: map<int, Access>) returns (fatal: bool)
    requires Outside(pages, |pages|, was, os.protection)
    requires forall k, a | 0 <= k < |pages| && Within(a, pages[k]) :: a in was && was[a] == Normal(pages[k].protection)
    modifies os`protection, os`refusals
    ensures !fatal ==> os.protection == was
    ensures os.refusals >= old(os.refusals)
  {
    var r := LowerAll(os, pages, was);
    fatal := r.Err?;
  }

  /** Raises pages in order. On failure the first `done` pages are raised and nothing else changed. */
  method RaiseAll(os: Platform, pages: seq<PageRange>, ghost was: map<int, Access>) returns (r: Result<()>, done: nat)
    requires os.protection == was
    requires forall k, a | 0 <= k < |pages| && Within(a, pages[k]) :: a in was
    modifies os`protection, os`refusals
    ensures done <= |pages| && (r.Ok? ==> done == |pages|)
    ensures if r.Ok? then os.refusals == old(os.refusals) else os.refusals > old(os.refusals)
    ensures Outside(pages, done, was, os.protection) && Raised(pages, done, os.protection)
  {
    done := 0;
    while done < |pages|
      invariant done <= |pages| && os.refusals == old(os.refusals)
      invariant Outside(pages, done, was, os.protection) && Raised(pages, done, os.protection)
    {
      RaiseOne(pages, done, was, os.protection);
      r := os.Protect(pages[done], true);
      if r.Err? {
        return;
      }
      done := done + 1;
    }
    r := Ok(());
  }

  /** Raises all pages again, from any state of their protection; a failure is fatal. */
  method RaiseAgain(os: Platform, pages: seq<PageRange>, ghost was: map<int, Access>) returns (fatal: bool)
    requires Outside(pages, |pages|, was, os.protection)
    requires forall k, a | 0 <= k < |pages| && Within(a, pages[k]) :: a in was
    modifies os`protection, os`refusals
    ensures os.refusals >= old(os.refusals)
    ensures Outside(pages, |pages|, was, os.protection)
    ensures !fatal ==> Raised(pages, |pages|, os.protection)
  {
    for k := 0 to |pages|
      invariant os.refusals == old(os.refusals)
      invariant Outside(pages, |pages|, was, os.protection) && Raised(pages, k, os.protection)
    {
      ghost var before := os.protection;
      var r := os.Protect(pages[k], true);
      if r.Err? {
        return true;
      }
      RaisedAgain(pages, k, was, before);
    }
    fatal := false;
  }
  lemma RaisedAgain(pages: seq<PageRange>, k: nat, was: map<int, Access>, now: map<int, Access>)
    requires k < |pages| && Outside(pages, |pages|, was, now) && Raised(pages, k, now)
    requires forall a | Within(a, pages[k]) :: a in was
    ensures Outside(pages, |pages|, was, Protected(now, pages[k], true))
    ensures Raised(pages, k + 1, Protected(now, pages[k], true))
  {
    var next := Protected(now, pages[k], true);
    forall a | a in was && !InPages(a, pages, |pages|) ensures next[a] == was[a] {
      assert !Within(a, pages[k]);
    }
  }

  lemma TakePages(pages: seq<PageRange>, n: nat, was: map<int, Access>, now: map<int, Access>)
    requires n <= |pages| && Outside(pages, n, was, now)
    ensures Outside(pages[..n], n, was, now)
  {
    forall a | a in was && !InPages(a, pages[..n], n) ensures now[a] == was[a] {
      TakenPage(a, pages, n);
    }
  }
  lemma TakenPage(a: int, pages: seq<PageRange>, n: nat)
    requires n <= |pages|
    ensures InPages(a, pages, n) ==> InPages(a, pages[..n], n)
  {
    if InPages(a, pages, n) {
      var k :| 0 <= k < n && Within(a, pages[k]);
      assert Within(a, pages[..n][k]);
    }
  }
  /** Writing the saved bytes back undoes the write. */
  lemma OverlayUndone(bytes: map<int, Byte>, address: int, saved: seq<Byte>, data: seq<Byte>)
    requires Holds(bytes, address, saved) && |saved| == |data|
    ensures Overlay(Overlay(bytes, address, data), address, saved) == bytes
  {
  }

  /** A write that only the operating system could refuse: to executable code that holds what is expected. */
  ghost predicate Allowed(regions: seq<Region>, pageSize: nat, bytes: map<int, Byte>,
                          address: Address, expected: seq<Byte>, replacement: seq<Byte>)
  {
    && |expected| == |replacement| && CheckedEnd(address, |expected|).Ok?
    && address + |expected| + pageSize <= W64
    && (forall a | address <= a < address + |expected| :: Executable(regions, a))
    && Holds(bytes, address, expected)
  }

  /** The write itself, once the pages are planned. */
  method Swap(os: Platform, address: Address, original: seq<Byte>, replacement: seq<Byte>, pages: seq<PageRange>)
    returns (o: Outcome)
    requires |original| == |replacement| && Holds(os.bytes, address, original)
    requires Planned(pages, os.protection, address, address + |replacement|)
    modifies os
    ensures o.Done? ==> os.bytes == Overlay(old(os.bytes), address, replacement) && os.protection == old(os.protection)
    ensures o.Failed? ==> os.bytes == old(os.bytes) && os.protection == old(os.protection)
    ensures os.refusals >= old(os.refusals) && (os.refusals == old(os.refusals) ==> o.Done?)
  {
    ghost var was, before := os.protection, os.bytes;
    var raised, done := RaiseAll(os, pages, was);
    if raised.Err? {
      TakePages(pages, done, was, os.protection);
      var fatal := RestorePermissions(os, pages[..done], was);
      return if fatal then Fatal else Failed(raised.error);
    }
    AllWritable(pages, was, os.protection, address, address + |replacement|);
    os.Copy(address, replacement);
    var result := os.Flush(address, |replacement|);
    if result.Ok? {
      result := LowerAll(os, pages, was);
    }
    if result.Err? {
      var fatal := RaiseAgain(os, pages, was);
      if fatal {
        return Fatal;
      }
      AllWritable(pages, was, os.protection, address, address + |replacement|);
      OverlayUndone(before, address, original, replacement);
      os.Copy(address, original);
      var flushed := os.Flush(address, |original|);
      if flushed.Err? {
        return Fatal;
      }
      fatal := RestorePermissions(os, pages, was);
      return if fatal then Fatal else Failed(result.error);
    }
    o := Done;
  }
  lemma AllWritable(pages: seq<PageRange>, was: map<int, Access>, now: map<int, Access>, address: int, end: int)
    requires Planned(pages, was, address, end) && Raised(pages, |pages|, now)
    ensures forall a | address <= a < end :: a in now && now[a].Writable?
  {
    forall a | address <= a < end ensures a in now && now[a].Writable? {
      assert InPages(a, pages, |pages|);
    }
  }

  /** Everything `replace` settles before it changes anything: the saved bytes and the pages they lie in. */
  method Prepare(os: Platform, address: Address, expected: seq<Byte>, replacement: seq<Byte>)
    returns (r: Result<seq<PageRange>>)
    requires os.Quiet()
    modifies os`refusals
    ensures os.refusals >= old(os.refusals)
    ensures r.Ok? ==> && Allowed(os.regions, os.pageSize, os.bytes, address, expected, replacement)
                      && Planned(r.value, os.protection, address, address + |replacement|)
    ensures Allowed(os.regions, os.pageSize, os.bytes, address, expected, replacement) ==>
              r.Ok? || os.refusals > old(os.refusals)
  {
    if |expected| != |replacement| {
      return Err(InvalidRange);
    }
    var end :- CheckedEnd(address, |expected|);
    var regions :- ExecutableRegions(os, address, |expected|);
    if regions[|regions| - 1].end < end {
      return Err(InvalidRange);
    }
    var original :- os.ReadBytes(address, |expected|);
    if original != expected {
      SameBytes(os.bytes, address, original, expected);
      return Err(MemoryChanged);
    }
    var size :- os.PageSize();
    r := PlanPages(regions, os.protection, address, end, size);
  }

  /** A code write is atomic under every schedule of refusals: it leaves the new bytes with the old
      protection, or nothing changed, or the process ends. An allowed write that no call refuses succeeds. */
  method Replace(os: Platform, address: Address, expected: seq<Byte>, replacement: seq<Byte>) returns (o: Outcome)
    requires os.Quiet()
    modifies os
    ensures o.Done? ==> && Allowed(os.regions, os.pageSize, old(os.bytes), address, expected, replacement)
                        && os.bytes == Overlay(old(os.bytes), address, replacement)
                        && os.protection == old(os.protection)
    ensures o.Failed? ==> os.bytes == old(os.bytes) && os.protection == old(os.protection)
    ensures !o.Fatal? ==> os.Quiet()
    ensures Allowed(os.regions, os.pageSize, old(os.bytes), address, expected, replacement) ==>
              o.Done? || os.refusals > old(os.refusals)
    ensures os.refusals >= old(os.refusals)
  {
    var pages := Prepare(os, address, expected, replacement);
    if pages.Err? {
      return Failed(pages.error);
    }
    o := Swap(os, address, expected, replacement, pages.value);
  }
  lemma SameBytes(bytes: map<int, Byte>, address: int, a: seq<Byte>, b: seq<Byte>)
    requires Holds(bytes, address, a)
    ensures |a| == |b| && Holds(bytes, address, b) ==> a == b
  {
    if |a| == |b| && Holds(bytes, address, b) {
      assert forall i | 0 <= i < |a| :: a[i] == bytes[address + i] && b[i] == bytes[address + i];
    }
  }
}
