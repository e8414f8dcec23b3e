/** The paginated listing of the block archive's slot index. */
module ArchiveListing {
  import opened Core

  /** Go's int on a 64-bit machine; a value outside it would have wrapped. */
  type int64 = x: int | -0x8000_0000_0000_0000 <= x <= MAX_INT

  const MAX_INT: int := 0x7FFF_FFFF_FFFF_FFFF
  const INDEX_SLOT_RANGE_PAGE_SIZE: int64 := 1000
  const INDEX_SAFETY_ENTRIES_PER_SLOT: int64 := 16

  datatype IndexEntry = IndexEntry(slot: uint64, blockRoot: string)

  datatype PageResult = NotFound | Failed | Page(entries: seq<IndexEntry>)

  /** What the archive answers for a limit and an offset; retries are over when it answers. */
  type Server = (int64, int64) -> PageResult

  /** The most entries a listing accepts; no step of the calculation leaves the range of int. */
  function SafetyLimit(slotMin: uint64, slotMax: uint64, pageLimit: int64): (r: int64)
    requires slotMin <= slotMax && pageLimit > 0
    ensures pageLimit <= r
    ensures 16 * (slotMax - slotMin + 1) <= r || r == MAX_INT
    ensures r <= pageLimit || r <= 16 * (slotMax - slotMin + 1)
  {
    var span: uint64 := slotMax - slotMin;
    var maxSafeSpan: uint64 := MAX_INT / INDEX_SAFETY_ENTRIES_PER_SLOT - 1;
    if span > maxSafeSpan then MAX_INT
    else
      var maxEntries: int64 := (span + 1) * INDEX_SAFETY_ENTRIES_PER_SLOT;
      if maxEntries < pageLimit then pageLimit else maxEntries
  }

  /** The server lists exactly `all`: at each offset it answers with some of the entries left, as many as it likes but
      at least one, and with an empty page or not-found once they are exhausted. */
  ghost predicate Lists(server: Server, limit: int64, all: seq<IndexEntry>) {
    && |all| <= MAX_INT
    && (forall offset: int64 :: 0 <= offset < |all| ==>
          var p := server(limit, offset); p.Page? && p.entries != [] && p.entries <= all[offset..])
    && (server(limit, |all|) == NotFound || server(limit, |all|) == Page([]))
  }

  function PageLimit(limit: int64): int64 {
    if limit > INDEX_SLOT_RANGE_PAGE_SIZE then INDEX_SLOT_RANGE_PAGE_SIZE else limit
  }

  /** Against such a server an answer without entries means that everything was fetched. */
  lemma Exhausted(server: Server, limit: int64, all: seq<IndexEntry>, entries: seq<IndexEntry>)
    requires Lists(server, limit, all) && entries <= all
    ensures server(limit, |entries|) == NotFound || server(limit, |entries|) == Page([]) <==> entries == all
    ensures server(limit, |entries|).Page? ==> entries + server(limit, |entries|).entries <= all
    ensures !server(limit, |entries|).Failed?
  {
    var offset: int64 := |entries|;
    if offset < |all| {
      var p := server(limit, offset);
      assert p.Page? && p.entries != [] && p.entries <= all[offset..];
      assert all == all[..offset] + all[offset..];
    }
  }

  /** What asking page by page comes to from `entries` on: it ends against any server, since every round adds an
      entry. */
  ghost function Pages(server: Server, limit: int64, maxEntries: int64,
                       entries: seq<IndexEntry>): Option<seq<IndexEntry>>
    requires |entries| <= maxEntries
    decreases maxEntries - |entries|
  {
    match server(limit, |entries|)
    case NotFound => Some(entries)
    case Failed => None
    case Page(more) =>
      if more == [] then Some(entries)
      else if |entries| > maxEntries - |more| then None
      else Pages(server, limit, maxEntries, entries + more)
  }

  /** The index of a slot range as a caller sees it: None for an error. */
  ghost function Listing(server: Server, slotMin: uint64, slotMax: uint64, limit: int64): Option<seq<IndexEntry>> {
    if slotMin > slotMax then Some([])
    else if limit <= 0 then None
    else Pages(server, PageLimit(limit), SafetyLimit(slotMin, slotMax, PageLimit(limit)), [])
  }

  lemma {:induction false} PagesOfList(server: Server, limit: int64, maxEntries: int64, all: seq<IndexEntry>,
                                       entries: seq<IndexEntry>)
    requires Lists(server, limit, all) && entries <= all && |entries| <= maxEntries
    ensures Pages(server, limit, maxEntries, entries) == if |all| <= maxEntries then Some(all) else None
    decreases maxEntries - |entries|
  {
    Exhausted(server, limit, all, entries);
    var page := server(limit, |entries|);
    if page.Page? && page.entries != [] && |entries| <= maxEntries - |page.entries| {
      PagesOfList(server, limit, maxEntries, all, entries + page.entries);
    }
  }

  /** Against a server that lists its entries in pages of any length, the listing is all of them, or an error when they
      exceed the safety limit. */
  lemma ListingIsAll(server: Server, slotMin: uint64, slotMax: uint64, limit: int64, all: seq<IndexEntry>)
    requires slotMin <= slotMax && 0 < limit && Lists(server, PageLimit(limit), all)
    ensures Listing(server, slotMin, slotMax, limit)
         == if |all| <= SafetyLimit(slotMin, slotMax, PageLimit(limit)) then Some(all) else None
  {
    PagesOfList(server, PageLimit(limit), SafetyLimit(slotMin, slotMax, PageLimit(limit)), all, []);
  }

  /** The server hands out these pages one after the other from an offset on, none of them empty, and then nothing more;
      it never fails, and never hands out more entries than the limit allows. */
  ghost predicate HandsOut(server: Server, limit: int64, maxEntries: int64, offset: nat, pages: seq<seq<IndexEntry>>)
    decreases |pages|
  {
    && offset <= maxEntries
    && (if pages == [] then server(limit, offset) == NotFound || server(limit, offset) == Page([])
        else
          && pages[0] != [] && server(limit, offset) == Page(pages[0])
          && HandsOut(server, limit, maxEntries, offset + |pages[0]|, pages[1..]))
  }

  ghost function Joined(pages: seq<seq<IndexEntry>>): seq<IndexEntry> {
    if pages == [] then [] else pages[0] + Joined(pages[1..])
  }

  lemma {:induction false} HandedOut(server: Server, limit: int64, maxEntries: int64, entries: seq<IndexEntry>,
                                     pages: seq<seq<IndexEntry>>)
    requires HandsOut(server, limit, maxEntries, |entries|, pages)
    ensures Pages(server, limit, maxEntries, entries) == Some(entries + Joined(pages))
    decreases |pages|
  {
    if pages == [] {
      assert entries + [] == entries;
    } else {
      HandedOut(server, limit, maxEntries, entries + pages[0], pages[1..]);
      assert entries + pages[0] + Joined(pages[1..]) == entries + Joined(pages);
    }
  }

  lemma {:induction false} FetchedPages(server: Server, limit: int64, maxEntries: int64, entries: seq<IndexEntry>)
    returns (pages: seq<seq<IndexEntry>>)
    requires |entries| <= maxEntries && Pages(server, limit, maxEntries, entries).Some?
    ensures HandsOut(server, limit, maxEntries, |entries|, pages)
    decreases maxEntries - |entries|
  {
    pages := [];
    var page := server(limit, |entries|);
    if page.Page? && page.entries != [] {
      var rest := FetchedPages(server, limit, maxEntries, entries + page.entries);
      pages := [page.entries] + rest;
      assert pages[1..] == rest;
    }
  }

  /** Against any server: the listing succeeds exactly when the server hands out pages to their end within the limit,
      and is then these pages joined. */
  lemma ListingIsPages(server: Server, slotMin: uint64, slotMax: uint64, limit: int64)
    requires slotMin <= slotMax && 0 < limit
    ensures var max := SafetyLimit(slotMin, slotMax, PageLimit(limit));
      var r := Listing(server, slotMin, slotMax, limit);
      && (r.Some? <==> exists pages :: HandsOut(server, PageLimit(limit), max, 0, pages))
      && (forall pages :: HandsOut(server, PageLimit(limit), max, 0, pages) ==> r == Some(Joined(pages)))
  {
    var max := SafetyLimit(slotMin, slotMax, PageLimit(limit));
    hide SafetyLimit, HandsOut, Pages;
    forall pages | HandsOut(server, PageLimit(limit), max, 0, pages)
      ensures Pages(server, PageLimit(limit), max, []) == Some(Joined(pages))
    {
      HandedOut(server, PageLimit(limit), max, [], pages);
      assert [] + Joined(pages) == Joined(pages);
    }
    if Listing(server, slotMin, slotMax, limit).Some? {
      var none: seq<IndexEntry> := [];
      var pages := FetchedPages(server, PageLimit(limit), max, none);
      assert |none| == 0 && HandsOut(server, PageLimit(limit), max, 0, pages);
    }
  }

  /** Asks page by page until nothing more comes, and never holds more than the limit. */
  method ListIndexBySlotRange(server: Server, slotMin: uint64, slotMax: uint64, limit: int64)
    returns (r: Option<seq<IndexEntry>>)
    ensures r == Listing(server, slotMin, slotMax, limit)
    ensures slotMin <= slotMax && 0 < limit && r.Some? ==> |r.value| <= SafetyLimit(slotMin, slotMax, PageLimit(limit))
    ensures forall all :: slotMin <= slotMax && 0 < limit && Lists(server, PageLimit(limit), all) ==>
      r == if |all| <= SafetyLimit(slotMin, slotMax, PageLimit(limit)) then Some(all) else None
  {
    forall all | slotMin <= slotMax && 0 < limit && Lists(server, PageLimit(limit), all)
      ensures Listing(server, slotMin, slotMax, limit)
           == if |all| <= SafetyLimit(slotMin, slotMax, PageLimit(limit)) then Some(all) else None
    {
      ListingIsAll(server, slotMin, slotMax, limit, all);
    }
    if slotMin > slotMax {
      return Some([]);
    }
    if limit <= 0 {
      return None;
    }
    var pageLimit := PageLimit(limit);
    var maxEntries := SafetyLimit(slotMin, slotMax, pageLimit);
    var entries: seq<IndexEntry> := [];
    var offset: int64 := 0;
    while true
      invariant offset == |entries| <= maxEntries
      invariant Listing(server, slotMin, slotMax, limit) == Pages(server, pageLimit, maxEntries, entries)
      decreases maxEntries - offset
    {
      var page := server(pageLimit, offset);
      if page.Failed? {
        return None;
      }
      if page.NotFound? || |page.entries| == 0 {
        return Some(entries);
      }
      if |entries| > maxEntries - |page.entries| {
        return None;
      }
      entries := entries + page.entries;
      offset := offset + |page.entries|;
    }
  }
}
