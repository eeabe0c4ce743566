/** Name-ordered pages with a cursor, and the browser's loop that follows it. */
module Pagination {
  import opened Base

  /** Names are compared only through the database's order. */
  datatype Item = Item(name: int, content: string)

  datatype Page = Page(items: seq<Item>, next: Option<int>)

  const PAGE_LIMIT: nat := 100
  const MAX_COLLECTION_PAGES: nat := 100

  /** The visible collection in name order; names are unique. */
  ghost predicate Ordered(all: seq<Item>) {
    forall i, j :: 0 <= i < j < |all| ==> all[i].name < all[j].name
  }

  /** The rows a query selects: names beyond the cursor, in order. */
  function Beyond(all: seq<Item>, after: Option<int>): seq<Item> {
    if all == [] then []
    else (if after.None? || all[0].name > after.value then [all[0]] else []) + Beyond(all[1..], after)
  }

  function Take(s: seq<Item>, count: nat): seq<Item> {
    if |s| <= count then s else s[..count]
  }

  lemma {:induction false} BeyondAll(all: seq<Item>, after: Option<int>)
    requires forall i :: 0 <= i < |all| ==> after.None? || all[i].name > after.value
    ensures Beyond(all, after) == all
  {
    if all != [] {
      BeyondAll(all[1..], after);
    }
  }

  /** In name order, what lies beyond an item is exactly what follows it. */
  lemma {:induction false} BeyondItem(all: seq<Item>, k: nat)
    requires Ordered(all) && k < |all|
    ensures Beyond(all, Some(all[k].name)) == all[k + 1..]
  {
    if k == 0 {
      BeyondAll(all[1..], Some(all[0].name));
    } else {
      BeyondItem(all[1..], k - 1);
      assert all[1..][k - 1] == all[k] && all[1..][k..] == all[k + 1..];
    }
  }

  /** One row more than the limit was asked for: it tells whether another page follows. */
  method MakePage(rows: seq<Item>, limit: nat) returns (p: Page)
    requires |rows| <= limit + 1
    ensures p.items == Take(rows, limit)
    ensures p.next.Some? <==> |rows| > limit > 0
    ensures p.next.Some? ==> p.next.value == p.items[limit - 1].name
  {
    var kept := rows;
    var more := |kept| > limit;
    if more {
      kept := kept[..|kept| - 1];
    }
    return Page(kept, if more && kept != [] then Some(kept[|kept| - 1].name) else None);
  }

  method ListPage(all: seq<Item>, limit: nat, after: Option<int>) returns (p: Page)
    ensures p.items == Take(Beyond(all, after), limit)
    ensures p.next.Some? <==> |Beyond(all, after)| > limit > 0
    ensures p.next.Some? ==> p.next.value == p.items[limit - 1].name
  {
    p := MakePage(Take(Beyond(all, after), limit + 1), limit);
  }

  function Capacity(pages: nat, limit: nat): nat {
    pages * limit
  }

  lemma CapacityGrows(pages: nat, more: nat, limit: nat)
    requires pages <= more
    ensures Capacity(0, limit) == 0 && Capacity(pages + 1, limit) == Capacity(pages, limit) + limit
    ensures Capacity(pages, limit) <= Capacity(more, limit)
  {
    assert (pages + 1) * limit == pages * limit + limit;
    Multiples(pages, more, limit);
  }

  /** Following the cursor returns every item once, in order, exactly when the pages suffice. */
  method Follow(all: seq<Item>, limit: nat, pages: nat) returns (r: Option<seq<Item>>)
    requires Ordered(all) && limit > 0
    ensures r.Some? ==> r.value == all
    ensures r.Some? <==> pages > 0 && |all| <= Capacity(pages, limit)
  {
    hide Capacity, Beyond, Ordered;
    var items: seq<Item>, after := [], None;
    BeyondAll(all, None);
    CapacityGrows(0, 0, limit);
    for i := 0 to pages
      invariant |items| == Capacity(i, limit) <= |all| && items == all[..|items|]
      invariant i > 0 ==> |items| < |all|
      invariant Beyond(all, after) == all[|items|..]
    {
      CapacityGrows(i, i, limit);
      CapacityGrows(i + 1, pages, limit);
      var p := ListPage(all, limit, after);
      items := items + p.items;
      if p.next.None? {
        assert items == all;
        return Some(items);
      }
      assert items == all[..|items|];
      BeyondItem(all, |items| - 1);
      after := p.next;
    }
    return None;
  }

  lemma Multiples(a: nat, b: nat, m: nat)
    requires a <= b
    ensures a * m <= b * m
  {
  }

  /** With pages of 100 and at most 100 of them: all items, or an error beyond 10,000. */
  method GetAll(all: seq<Item>) returns (r: Option<seq<Item>>)
    requires Ordered(all)
    ensures r == if |all| <= 10_000 then Some(all) else None
  {
    r := Follow(all, PAGE_LIMIT, MAX_COLLECTION_PAGES);
  }
}
