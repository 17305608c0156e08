/**
 * The paging logic of `src/components/PokemonList.tsx`: which page numbers
 * and ellipses the pager shows, which clicks load a page, and the offset and
 * page count of a load. The rendering is not part of the model.
 */
module PokemonList {
  import opened Wrappers
  import opened PokemonService

  /** Entries per page, and the page window on each side of the current page. */
  const LIMIT: int := 20
  const DELTA: int := 2

  /** An entry of the pager: a page number or `'...'`. */
  datatype PageEntry = Page(n: int) | Dots

  function Max(a: int, b: int): int { if a >= b then a else b }
  function Min(a: int, b: int): int { if a <= b then a else b }

  /** `lo, lo + 1, ..., hi - 1`. */
  function Interval(lo: int, hi: int): (r: seq<int>)
    ensures |r| == if lo < hi then hi - lo else 0
    ensures forall k :: 0 <= k < |r| ==> r[k] == lo + k
  {
    if hi <= lo then [] else seq(hi - lo, k requires 0 <= k < hi - lo => lo + k)
  }

  function Pages(ns: seq<int>): (r: seq<PageEntry>)
    ensures |r| == |ns| && forall k :: 0 <= k < |r| ==> r[k] == Page(ns[k])
  {
    seq(|ns|, k requires 0 <= k < |ns| => Page(ns[k]))
  }

  /** The pages listed between the first and the last: those within DELTA of
      the current page, excluding 1 and the last page. */
  function Inner(current: int, total: int): seq<int> {
    Interval(Max(2, current - DELTA), Min(total - 1, current + DELTA) + 1)
  }

  /** What `getPaginationNumbers` returns. */
  function Pagination(current: int, total: int): (r: seq<PageEntry>)
    ensures |r| >= 1 && r[0] == Page(1)
    ensures total > 1 ==> r[|r| - 1] == Page(total)
  {
    var head := if current - DELTA > 2 then [Page(1), Dots] else [Page(1)];
    var tail :=
      if current + DELTA < total - 1 then [Dots, Page(total)]
      else if total > 1 then [Page(total)]
      else [];
    head + Pages(Inner(current, total)) + tail
  }

  /** `getPaginationNumbers`, building `range` in a loop and then
      `rangeWithDots`. */
  method GetPaginationNumbers(currentPage: int, totalPages: int) returns (rangeWithDots: seq<PageEntry>)
    ensures rangeWithDots == Pagination(currentPage, totalPages)
  {
    var lo := Max(2, currentPage - DELTA);
    var hi := Min(totalPages - 1, currentPage + DELTA);
    var range: seq<int> := [];
    var i := lo;
    while i <= hi
      invariant lo <= i && (i <= hi + 1 || i == lo)
      invariant range == Interval(lo, i)
      decreases hi - i
    {
      range := range + [i];
      i := i + 1;
    }
    assert range == Inner(currentPage, totalPages);
    if currentPage - DELTA > 2 {
      rangeWithDots := [Page(1), Dots];
    } else {
      rangeWithDots := [Page(1)];
    }
    rangeWithDots := rangeWithDots + Pages(range);
    if currentPage + DELTA < totalPages - 1 {
      rangeWithDots := rangeWithDots + [Dots, Page(totalPages)];
    } else {
      if totalPages > 1 {
        rangeWithDots := rangeWithDots + [Page(totalPages)];
      }
    }
  }

  /** The page numbers of a pager, in order. */
  function Numbers(entries: seq<PageEntry>): seq<int> {
    if entries == [] then []
    else (if entries[0].Page? then [entries[0].n] else []) + Numbers(entries[1..])
  }

  predicate StrictlyIncreasing(s: seq<int>) {
    forall i, j :: 0 <= i < j < |s| ==> s[i] < s[j]
  }

  /** The pager is page 1 alone when there is a single page and the current
      page is among the first four. */
  lemma PaginationStartsAtOne(current: int, total: int)
    ensures 1 <= current <= 4 && total <= 1 ==> Pagination(current, total) == [Page(1)]
  {
  }

  lemma {:induction false} NumbersAppend(a: seq<PageEntry>, b: seq<PageEntry>)
    ensures Numbers(a + b) == Numbers(a) + Numbers(b)
  {
    if a == [] {
      assert a + b == b;
    } else {
      assert (a + b)[1..] == a[1..] + b;
      NumbersAppend(a[1..], b);
    }
  }

  lemma {:induction false} NumbersOfPages(ns: seq<int>)
    ensures Numbers(Pages(ns)) == ns
  {
    if ns != [] {
      assert Pages(ns)[1..] == Pages(ns[1..]);
      NumbersOfPages(ns[1..]);
    }
  }

  /** The numbers the pager shows: 1, the inner pages, then the last page if
      there is more than one. */
  lemma PaginationNumbers(current: int, total: int)
    requires current >= 1
    ensures Numbers(Pagination(current, total))
         == [1] + Inner(current, total) + (if total > 1 then [total] else [])
  {
    var head := if current - DELTA > 2 then [Page(1), Dots] else [Page(1)];
    var tail :=
      if current + DELTA < total - 1 then [Dots, Page(total)]
      else if total > 1 then [Page(total)]
      else [];
    NumbersAppend(head + Pages(Inner(current, total)), tail);
    NumbersAppend(head, Pages(Inner(current, total)));
    NumbersOfPages(Inner(current, total));
    assert Numbers(head) == [1] by {
      assert head[1..] == [] || head[1..] == [Dots];
      assert Numbers([Dots]) == [];
    }
    assert Numbers(tail) == if total > 1 then [total] else [] by {
      if current + DELTA < total - 1 {
        assert tail[1..] == [Page(total)];
        assert Numbers(tail[1..]) == [total];
      } else if total > 1 {
        assert tail[1..] == [];
      }
    }
  }

  /** For a current page within range, the numbers shown strictly increase
      (so 1 and the last page appear once) and include every page within two
      of the current one. */
  lemma PaginationOrdered(current: int, total: int)
    requires 1 <= current <= total
    ensures StrictlyIncreasing(Numbers(Pagination(current, total)))
    ensures forall p :: 1 <= p <= total && current - DELTA <= p <= current + DELTA ==>
              p in Numbers(Pagination(current, total))
  {
    PaginationNumbers(current, total);
    var inner := Inner(current, total);
    var ns := [1] + inner + (if total > 1 then [total] else []);
    assert forall k :: 0 <= k < |inner| ==> 2 <= inner[k] <= total - 1;
    forall p | 1 <= p <= total && current - DELTA <= p <= current + DELTA
      ensures p in ns
    {
      if p == 1 {
        assert ns[0] == 1;
      } else if p == total {
        assert ns[|ns| - 1] == total;
      } else {
        var lo := Max(2, current - DELTA);
        assert inner[p - lo] == p;
        assert ns[1 + p - lo] == p;
      }
    }
  }

  /** An ellipsis follows 1 exactly when the current page is past 4, and one
      precedes the last page exactly when the current page is more than 3
      before it; for a current page within range each ellipsis stands for at
      least one page left out (its neighbours are at least two apart). */
  lemma PaginationEllipses(current: int, total: int)
    requires 1 <= current <= total
    ensures var r := Pagination(current, total);
      && |r| >= 1
      && (|r| >= 2 && r[1] == Dots <==> current - DELTA > 2)
      && (|r| >= 2 && r[|r| - 2] == Dots <==> current + DELTA < total - 1)
      && (current - DELTA > 2 ==> r[2] == Page(current - DELTA))
      && (current + DELTA < total - 1 ==> r[|r| - 3] == Page(current + DELTA))
  {
    var r := Pagination(current, total);
    var inner := Inner(current, total);
    var head := if current - DELTA > 2 then [Page(1), Dots] else [Page(1)];
    var tail :=
      if current + DELTA < total - 1 then [Dots, Page(total)]
      else if total > 1 then [Page(total)]
      else [];
    assert r == head + Pages(inner) + tail;
    if current - DELTA > 2 {
      assert |inner| >= 1;
      assert r[2] == Pages(inner)[0];
    }
    if current + DELTA < total - 1 {
      assert |inner| >= 1;
      assert r[|r| - 3] == Pages(inner)[|inner| - 1];
    }
  }

  // ---------------------------------------------------------------------------
  // Loading a page

  /** `offset` of `loadPokemonList(page)`. */
  function Offset(page: int): (o: int)
    ensures o % LIMIT == 0
    ensures o >= 0 <==> page >= 1
  {
    (page - 1) * LIMIT
  }

  /** `Math.ceil(count / limit)`. */
  function TotalPages(count: nat): (t: nat)
    ensures (t - 1) * LIMIT < count <= t * LIMIT || (count == 0 && t == 0)
  {
    (count + LIMIT - 1) / LIMIT
  }

  /** Page `p` begins right after the entries of the pages before it, and the
      page count covers every entry with fewer than 20 to spare. */
  lemma PagesCoverCount(page: int, count: nat)
    ensures Offset(page + 1) == Offset(page) + LIMIT
    ensures TotalPages(count) * LIMIT >= count
    ensures TotalPages(count) * LIMIT - count < LIMIT
  {
  }

  /** The component's paging state over the shared service. */
  class PokemonList {
    const service: PokemonService
    var currentPage: int
    var totalPages: int
    var totalCount: int

    constructor (service: PokemonService)
      ensures this.service == service
      ensures currentPage == 1 && totalPages == 1 && totalCount == 0
    {
      this.service := service;
      currentPage, totalPages, totalCount := 1, 1, 0;
    }

    /** `loadPokemonList(page)`; `count` is the `count` field of the response
        body when the request succeeds. A failed request is caught and leaves
        the paging state as it was. */
    method LoadPokemonList(page: int, w: World, count: nat)
      requires service.cache.Valid()
      modifies this, service.cache
      ensures service.cache.Valid()
      ensures var x := Request(old(service.cache.Snapshot()), ListUrl(LIMIT, Offset(page)), w);
        && service.cache.Snapshot() == x.cache
        && (x.result.Success? ==>
              currentPage == page && totalCount == count && totalPages == TotalPages(count))
        && (x.result.Failure? ==>
              currentPage == old(currentPage) && totalCount == old(totalCount)
              && totalPages == old(totalPages))
    {
      var limit := LIMIT;
      var offset := (page - 1) * limit;
      var response, _, _ := service.GetPokemonList(limit, offset, w);
      if response.Success? {
        currentPage := page;
        totalCount := count;
        totalPages := (count + limit - 1) / limit;
      }
    }

    /** `goToPage`: only a different page within range is loaded. */
    method GoToPage(page: int, w: World, count: nat)
      requires service.cache.Valid()
      modifies this, service.cache
      ensures service.cache.Valid()
      ensures !(1 <= page <= old(totalPages) && page != old(currentPage)) ==>
        && service.cache.Snapshot() == old(service.cache.Snapshot())
        && currentPage == old(currentPage) && totalPages == old(totalPages)
        && totalCount == old(totalCount)
      ensures 1 <= page <= old(totalPages) && page != old(currentPage) ==>
        var x := Request(old(service.cache.Snapshot()), ListUrl(LIMIT, Offset(page)), w);
        && service.cache.Snapshot() == x.cache
        && (x.result.Success? ==> currentPage == page && totalPages == TotalPages(count))
    {
      if page >= 1 && page <= totalPages && page != currentPage {
        LoadPokemonList(page, w, count);
      }
    }
  }
}
