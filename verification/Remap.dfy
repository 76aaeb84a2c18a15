/** Code writes on Apple Silicon: whole pages are staged as private images and mapped over the originals. */
module Remap {
  import opened Words
  import opened Memory

  /** A private mapping that holds the bytes of a page. */
  datatype Image = Image(bytes: seq<Byte>, protection: int)
  datatype Staged = Staged(page: PageRange, original: Image, updated: Image)

  /** The images the process holds. */
  class Store {
    var held: nat

    constructor ()
      ensures held == 0
    {
      held := 0;
    }

    /** Allocation or sealing may fail. A half made image is dropped, and failing to unmap it is fatal. */
    method Create(os: Platform, bytes: seq<Byte>, protection: int) returns (r: Result<Image>, fatal: bool)
      modifies this, os`refusals
      ensures r.Ok? ==> r.value == Image(bytes, protection) && held == old(held) + 1
      ensures r.Err? && !fatal ==> held == old(held)
      ensures if r.Ok? then !fatal && os.refusals == old(os.refusals) else os.refusals > old(os.refusals)
    {
      fatal := false;
      var mapping := os.Call();
      if mapping.Err? {
        return Err(Os), false;
      }
      held := held + 1;
      var sealed := os.Call();
      if sealed.Err? {
        r := Err(Os);
        fatal := Release(os);
        return;
      }
      r := Ok(Image(bytes, protection));
    }

    method Release(os: Platform) returns (fatal: bool)
      requires held > 0
      modifies this, os`refusals
      ensures !fatal ==> held == old(held) - 1 && os.refusals == old(os.refusals)
      ensures fatal ==> os.refusals > old(os.refusals)
    {
      var r := os.Call();
      fatal := r.Err?;
      held := held - 1;
    }

    /** Dropping the list of images unmaps each of them. */
    method ReleaseDownTo(os: Platform, kept: nat) returns (fatal: bool)
      requires kept <= held
      modifies this, os`refusals
      ensures !fatal ==> held == kept && os.refusals == old(os.refusals)
      ensures fatal ==> os.refusals > old(os.refusals)
    {
      fatal := false;
      while held > kept
        invariant kept <= held && os.refusals == old(os.refusals)
        decreases held
      {
        fatal := Release(os);
        if fatal {
          return;
        }
      }
    }
  }

  /** Maps an image over a page: its bytes and protection replace those of the page at once. */
  method Install(os: Platform, image: Image, address: nat) returns (r: Result<()>)
    modifies os
    ensures r.Err? ==>
              os.bytes == old(os.bytes) && os.protection == old(os.protection) && os.refusals > old(os.refusals)
    ensures r.Ok? ==> && os.bytes == Overlay(old(os.bytes), address, image.bytes)
                      && os.protection
                           == Protected(old(os.protection), PageRange(address, |image.bytes|, image.protection), false)
                      && os.refusals == old(os.refusals)
  {
    r := os.Call();
    if r.Ok? {
      os.bytes := Overlay(os.bytes, address, image.bytes);
      os.protection := Protected(os.protection, PageRange(address, |image.bytes|, image.protection), false);
    }
  }

  /** Both images of a page hold what the page holds before and after the write. */
  ghost predicate Ready(s: Staged, page: PageRange, before: map<int, Byte>, after: map<int, Byte>) {
    && s.page == page
    && s.original.protection == page.protection == s.updated.protection
    && |s.original.bytes| == page.length == |s.updated.bytes|
    && Holds(before, page.address, s.original.bytes)
    && Holds(after, page.address, s.updated.bytes)
  }

  /** Copies the part of the replacement that falls into a page over the bytes of that page. */
  method EditPage(bytes: seq<Byte>, page: PageRange, address: nat, replacement: seq<Byte>, ghost before: map<int, Byte>)
    returns (edited: seq<Byte>)
    requires |bytes| == page.length && Holds(before, page.address, bytes)
    requires page.address < address + |replacement| && address < page.address + page.length
    ensures |edited| == page.length && Holds(Overlay(before, address, replacement), page.address, edited)
  {
    var end := address + |replacement|;
    var start := if address < page.address then page.address else address;
    var limit := if page.address + page.length < end then page.address + page.length else end;
    edited := bytes[..start - page.address] + replacement[start - address..limit - address]
      + bytes[limit - page.address..];
  }

  method StagePage(os: Platform, store: Store, address: nat, replacement: seq<Byte>, page: PageRange)
    returns (r: Result<Staged>, fatal: bool)
    requires page.address < address + |replacement| && address < page.address + page.length
    modifies store, os`refusals
    ensures store.held >= old(store.held) || fatal
    ensures os.refusals >= old(os.refusals)
    ensures r.Ok? ==> !fatal && Ready(r.value, page, os.bytes, Overlay(os.bytes, address, replacement))
    ensures os.refusals == old(os.refusals) && (forall a | Within(a, page) :: a in os.bytes) ==> r.Ok?
    ensures fatal ==> r.Err? && os.refusals > old(os.refusals)
  {
    fatal := false;
    var bytes :- os.ReadBytes(page.address, page.length);
    if |bytes| != page.length {
      assert os.refusals == old(os.refusals) ==> exists a :: Within(a, page) && a !in os.bytes;
      return Err(InvalidRange), false;
    }
    var original: Result<Image>;
    original, fatal := store.Create(os, bytes, page.protection);
    if original.Err? {
      return Err(original.error), fatal;
    }
    var edited := EditPage(bytes, page, address, replacement, os.bytes);
    var updated: Result<Image>;
    updated, fatal := store.Create(os, edited, page.protection);
    if updated.Err? {
      return Err(updated.error), fatal;
    }
    r := Ok(Staged(page, original.value, updated.value));
  }

  ghost predicate AllReady(staged: seq<Staged>, pages: seq<PageRange>, before: map<int, Byte>, after: map<int, Byte>) {
    && |staged| <= |pages|
    && forall k | 0 <= k < |staged| :: Ready(staged[k], pages[k], before, after)
  }
  method StageAll(os: Platform, store: Store, address: nat, replacement: seq<Byte>, pages: seq<PageRange>)
    returns (r: Result<seq<Staged>>, fatal: bool)
    requires Planned(pages, os.protection, address, address + |replacement|)
    modifies store, os`refusals
    ensures store.held >= old(store.held) || fatal
    ensures os.refusals >= old(os.refusals)
    ensures r.Ok? ==>
              !fatal && |r.value| == |pages|
              && AllReady(r.value, pages, os.bytes, Overlay(os.bytes, address, replacement))
    ensures os.refusals == old(os.refusals) && os.protection.Keys <= os.bytes.Keys ==> r.Ok?
  {
    var staged: seq<Staged> := [];
    fatal := false;
    for k := 0 to |pages|
      invariant store.held >= old(store.held) && os.refusals >= old(os.refusals) && |staged| == k && !fatal
      invariant AllReady(staged, pages, os.bytes, Overlay(os.bytes, address, replacement))
    {
      assert forall a | Within(a, pages[k]) :: a in os.protection;
      var next: Result<Staged>;
      next, fatal := StagePage(os, store, address, replacement, pages[k]);
      if next.Err? {
        return Err(next.error), fatal;
      }
      staged := staged + [next.value];
    }
    r := Ok(staged);
  }

  /** The first `n` pages hold the new bytes, the rest the old ones. */
  ghost predicate Mixed(pages: seq<PageRange>, n: int, before: map<int, Byte>, after: map<int, Byte>,
                        now: map<int, Byte>) {
    && now.Keys == before.Keys == after.Keys
    && (forall a | a in now && InPages(a, pages, n) :: now[a] == after[a])
    && Intact(pages, n, before, now)
  }
  /** Outside the first `n` pages memory is as it was. */
  ghost predicate Intact(pages: seq<PageRange>, n: int, before: map<int, Byte>, now: map<int, Byte>) {
    && now.Keys == before.Keys
    && forall a | a in now && !InPages(a, pages, n) :: now[a] == before[a]
  }
  ghost predicate Guards(page: PageRange, protection: map<int, Access>) {
    forall a | Within(a, page) :: a in protection && protection[a] == Normal(page.protection)
  }
  lemma KeepsProtection(page: PageRange, protection: map<int, Access>)
    requires Guards(page, protection)
    ensures Protected(protection, page, false) == protection
  {
  }

  lemma InstallOne(pages: seq<PageRange>, k: nat, s: Staged, before: map<int, Byte>, after: map<int, Byte>,
                   now: map<int, Byte>)
    requires k < |pages| && Ready(s, pages[k], before, after) && Mixed(pages, k, before, after, now)
    ensures Mixed(pages, k + 1, before, after, Overlay(now, pages[k].address, s.updated.bytes))
  {
    var next := Overlay(now, pages[k].address, s.updated.bytes);
    forall a | a in next
      ensures InPages(a, pages, k + 1) ==> next[a] == after[a]
      ensures !InPages(a, pages, k + 1) ==> next[a] == before[a]
    {
      NextPage(a, pages, k);
    }
  }
  lemma RestoreOne(pages: seq<PageRange>, k: nat, s: Staged, before: map<int, Byte>, after: map<int, Byte>,
                   now: map<int, Byte>)
    requires k < |pages| && Ready(s, pages[k], before, after) && Intact(pages, k + 1, before, now)
    ensures Intact(pages, k, before, Overlay(now, pages[k].address, s.original.bytes))
  {
    var next := Overlay(now, pages[k].address, s.original.bytes);
    forall a | a in next && !InPages(a, pages, k) ensures next[a] == before[a] {
      NextPage(a, pages, k);
    }
  }
  lemma NextPage(a: int, pages: seq<PageRange>, k: nat)
    requires k < |pages|
    ensures InPages(a, pages, k + 1) <==> InPages(a, pages, k) || Within(a, pages[k])
  {
  }

  /** Maps the originals back over the first `n` pages, last page first; a failure is fatal. */
  method RollBack(os: Platform, staged: seq<Staged>, pages: seq<PageRange>, n: nat, ghost before: map<int, Byte>,
                  ghost after: map<int, Byte>)
    returns (fatal: bool)
    requires n <= |staged| == |pages| && AllReady(staged, pages, before, after)
    requires Intact(pages, n, before, os.bytes)
    requires forall k | 0 <= k < |pages| :: Guards(pages[k], os.protection)
    modifies os
    ensures !fatal ==> os.bytes == before && os.protection == old(os.protection)
    ensures os.refusals >= old(os.refusals)
  {
    for k := n downto 0
      invariant Intact(pages, k, before, os.bytes) && os.protection == old(os.protection)
      invariant os.refusals >= old(os.refusals)
    {
      RestoreOne(pages, k, staged[k], before, after, os.bytes);
      KeepsProtection(pages[k], os.protection);
      assert staged[k].page == pages[k] && Ready(staged[k], pages[k], before, after);
      var r := Install(os, staged[k].original, pages[k].address);
      if r.Ok? {
        r := os.Flush(pages[k].address, pages[k].length);
      }
      if r.Err? {
        return true;
      }
    }
    fatal := false;
    forall a | a in before ensures os.bytes[a] == before[a] {
      assert !InPages(a, pages, 0);
    }
  }

  /** Maps the new pages in order, and undoes every mapping made so far when one fails. */
  method InstallAll(os: Platform, staged: seq<Staged>, pages: seq<PageRange>, ghost after: map<int, Byte>)
    returns (o: Outcome)
    requires |staged| == |pages| && AllReady(staged, pages, os.bytes, after) && after.Keys == os.bytes.Keys
    requires forall k | 0 <= k < |pages| :: Guards(pages[k], os.protection)
    modifies os
    ensures !o.Fatal? ==> os.protection == old(os.protection)
    ensures o.Done? ==> Mixed(pages, |pages|, old(os.bytes), after, os.bytes)
    ensures o.Failed? ==> os.bytes == old(os.bytes)
    ensures os.refusals >= old(os.refusals) && (os.refusals == old(os.refusals) ==> o.Done?)
  {
    ghost var before := os.bytes;
    for k := 0 to |pages|
      invariant Mixed(pages, k, before, after, os.bytes) && os.protection == old(os.protection)
      invariant os.refusals == old(os.refusals)
    {
      InstallOne(pages, k, staged[k], before, after, os.bytes);
      WiderIntact(pages, k, before, os.bytes);
      KeepsProtection(pages[k], os.protection);
      assert Ready(staged[k], pages[k], before, after);
      var r := Install(os, staged[k].updated, pages[k].address);
      if r.Ok? {
        r := os.Flush(pages[k].address, pages[k].length);
      }
      if r.Err? {
        var fatal := RollBack(os, staged, pages, k + 1, before, after);
        return if fatal then Fatal else Failed(r.error);
      }
    }
    o := Done;
  }
  lemma WiderIntact(pages: seq<PageRange>, k: nat, before: map<int, Byte>, now: map<int, Byte>)
    requires k < |pages| && Intact(pages, k, before, now)
    ensures Intact(pages, k + 1, before, now)
  {
    forall a | a in now && !InPages(a, pages, k + 1) ensures now[a] == before[a] {
      NextPage(a, pages, k);
    }
  }
  /** Pages that cover the written range reassemble exactly the replacement. */
  lemma Reassembled(pages: seq<PageRange>, was: map<int, Access>, before: map<int, Byte>, now: map<int, Byte>,
                    address: int, data: seq<Byte>)
    requires Planned(pages, was, address, address + |data|)
    requires Mixed(pages, |pages|, before, Overlay(before, address, data), now)
    ensures now == Overlay(before, address, data)
  {
    forall a | a in now ensures now[a] == Overlay(before, address, data)[a] {
      assert InPages(a, pages, |pages|) || !(address <= a < address + |data|);
    }
  }

  method StageAndInstall(os: Platform, store: Store, address: Address, replacement: seq<Byte>, pages: seq<PageRange>)
    returns (o: Outcome)
    requires Planned(pages, os.protection, address, address + |replacement|)
    modifies os, store
    ensures o.Done? ==> os.bytes == Overlay(old(os.bytes), address, replacement)
    ensures o.Failed? ==> os.bytes == old(os.bytes)
    ensures !o.Fatal? ==> os.protection == old(os.protection) && store.held == old(store.held)
    ensures os.refusals >= old(os.refusals)
    ensures os.refusals == old(os.refusals) && old(os.protection.Keys <= os.bytes.Keys) ==> o.Done?
  {
    ghost var before, after := os.bytes, Overlay(os.bytes, address, replacement);
    var kept := store.held;
    var staged, fatal := StageAll(os, store, address, replacement, pages);
    if fatal {
      return Fatal;
    }
    if staged.Err? {
      o := Failed(staged.error);
    } else {
      o := InstallAll(os, staged.value, pages, after);
      if o.Done? {
        Reassembled(pages, os.protection, before, os.bytes, address, replacement);
      }
    }
    if !o.Fatal? {
      fatal := store.ReleaseDownTo(os, kept);
      if fatal {
        o := Fatal;
      }
    }
  }

  /** The same atomic write, by mapping images instead of writing through raised pages. */
  method Replace(os: Platform, store: Store, address: Address, expected: seq<Byte>, replacement: seq<Byte>)
    returns (o: Outcome)
    requires os.Quiet() && os.protection.Keys <= os.bytes.Keys
    modifies os, store
    ensures o.Done? ==> && Allowed(os.regions, os.pageSize, old(os.bytes), address, expected, replacement)
                        && os.bytes == Overlay(old(os.bytes), address, replacement)
                        && os.protection == old(os.protection)
    ensures o.Failed? ==> os.bytes == old(os.bytes) && os.protection == old(os.protection)
    ensures !o.Fatal? ==> os.Quiet() && store.held == old(store.held)
    ensures Allowed(os.regions, os.pageSize, old(os.bytes), address, expected, replacement) ==>
              o.Done? || os.refusals > old(os.refusals)
  {
    var pages := Prepare(os, address, expected, replacement);
    if pages.Err? {
      return Failed(pages.error);
    }
    o := StageAndInstall(os, store, address, replacement, pages.value);
  }
}
