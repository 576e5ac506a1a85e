/** The item helpers: the `store_required` check, the lookup of the current user's store
    and of an item inside it, and `get_paginated_items`, which lists a store's items
    newest first. */
module ItemUtils {
  import opened Basics
  import opened Tables
  import opened Models
  import opened Pagination
  import opened Responses

  /** `store_required`: the handler runs only when the `store_id` path parameter is an
      integer; otherwise the answer is a 401. */
  function StoreRequired(storeId: string): (r: Option<Response>)
    ensures r.None? <==> ParseId(storeId).Some?
    ensures r.Some? ==> Code(r.value) == 401 && r.value == Failed("Provide a valid Store Id", 401)
  {
    if ParseId(storeId).Some? then None else Some(Failed("Provide a valid Store Id", 401))
  }

  /** `get_user_store(current_user, store_id)`: the first of the user's stores with this id. */
  function GetUserStore(stores: seq<Store>, userId: nat, id: int): (r: Option<Store>)
    ensures r.Some? ==> r.value in stores && r.value.userId == userId && r.value.id == id
    ensures r.None? ==> forall i :: 0 <= i < |stores| ==> !(stores[i].userId == userId && stores[i].id == id)
  {
    FirstWith(stores, StoreKey, id, StoreOwner, userId)
  }

  /** A user's own store is found by its id. */
  lemma OwnStoreFound(stores: seq<Store>, userId: nat, s: Store)
    requires KeysIncreasing(stores, StoreKey) && s in stores && s.userId == userId
    ensures GetUserStore(stores, userId, s.id) == Some(s)
  {
    FoundByKey(stores, StoreKey, StoreOwner, s, userId);
  }

  /** Another user's store cannot be reached: its id addresses nothing for this user. */
  lemma OthersStoreHidden(stores: seq<Store>, userId: nat, s: Store)
    requires KeysIncreasing(stores, StoreKey) && s in stores && s.userId != userId
    ensures GetUserStore(stores, userId, s.id) == None
  {
    FoundByKey(stores, StoreKey, StoreOwner, s, userId);
  }

  /** `store.items.filter_by(id=item_id).first()`: the first item of this store with this id. */
  function GetStoreItem(items: seq<StoreItem>, storeId: nat, id: int): (r: Option<StoreItem>)
    ensures r.Some? ==> r.value in items && r.value.storeId == storeId && r.value.id == id
    ensures r.None? ==> forall i :: 0 <= i < |items| ==> !(items[i].storeId == storeId && items[i].id == id)
  {
    FirstWith(items, ItemKey, id, ItemStoreId, storeId)
  }

  /** An item is found by its id through the store it belongs to, and through no other
      store. */
  lemma ItemFoundOnlyInItsStore(items: seq<StoreItem>, it: StoreItem, storeId: nat)
    requires KeysIncreasing(items, ItemKey) && it in items
    ensures GetStoreItem(items, storeId, it.id) == if it.storeId == storeId then Some(it) else None
  {
    FoundByKey(items, ItemKey, ItemStoreId, it, storeId);
  }

  /** The items of one store that pass the name filter, in primary-key (insertion) order. */
  function StoreItems(items: seq<StoreItem>, storeId: nat, term: Option<string>): (r: seq<StoreItem>)
    reads items
    ensures |r| <= |items|
    ensures forall i :: 0 <= i < |r| ==> r[i].storeId == storeId && NameMatches(r[i].name, term)
  {
    if items == [] then []
    else
      var it := items[0];
      (if it.storeId == storeId && NameMatches(it.name, term) then [it] else [])
        + StoreItems(items[1..], storeId, term)
  }

  /** An item is listed exactly when it is in the table, belongs to the store and passes
      the name filter. */
  lemma {:induction false} StoreItemsMember(items: seq<StoreItem>, storeId: nat, term: Option<string>, it: StoreItem)
    ensures it in StoreItems(items, storeId, term) <==>
            it in items && it.storeId == storeId && NameMatches(it.name, term)
  {
    if items != [] {
      StoreItemsMember(items[1..], storeId, term, it);
      assert it in items <==> it == items[0] || it in items[1..];
    }
  }

  /** The listing keeps the table's primary-key order, so no item appears twice. */
  lemma {:induction false} StoreItemsIncreasing(items: seq<StoreItem>, storeId: nat, term: Option<string>)
    requires KeysIncreasing(items, ItemKey)
    ensures KeysIncreasing(StoreItems(items, storeId, term), ItemKey)
  {
    if items != [] {
      TailIncreasing(items, ItemKey);
      StoreItemsIncreasing(items[1..], storeId, term);
      var rest := StoreItems(items[1..], storeId, term);
      forall y | y in rest ensures items[0].id < y.id {
        StoreItemsMember(items[1..], storeId, term, y);
        var j :| 0 <= j < |items[1..]| && items[1..][j] == y;
        assert items[j + 1] == y;
      }
    }
  }

  /** Selecting items keeps creation times in non-decreasing order. */
  lemma {:induction false} StoreItemsNondecreasing(items: seq<StoreItem>, storeId: nat, term: Option<string>)
    requires KeysNondecreasing(items, ItemCreatedAt)
    ensures KeysNondecreasing(StoreItems(items, storeId, term), ItemCreatedAt)
  {
    if items != [] {
      assert KeysNondecreasing(items[1..], ItemCreatedAt) by {
        forall a, b | 0 <= a < b < |items| - 1
          ensures ItemCreatedAt(items[1..][a]) <= ItemCreatedAt(items[1..][b])
        {
          assert items[1..][a] == items[a + 1] && items[1..][b] == items[b + 1];
        }
      }
      StoreItemsNondecreasing(items[1..], storeId, term);
      var rest := StoreItems(items[1..], storeId, term);
      var head := if items[0].storeId == storeId && NameMatches(items[0].name, term) then [items[0]] else [];
      assert StoreItems(items, storeId, term) == head + rest;
      forall x, y | x in head && y in rest ensures ItemCreatedAt(x) <= ItemCreatedAt(y) {
        StoreItemsMember(items[1..], storeId, term, y);
        var j :| 0 <= j < |items[1..]| && items[1..][j] == y;
        assert items[j + 1] == y && x == items[0];
      }
      PrependNondecreasing(head, rest, ItemCreatedAt);
    }
  }

  /** The rows `get_paginated_items` pages through: `ORDER BY create_at DESC`, newest first. */
  function NewestFirst(items: seq<StoreItem>, storeId: nat, term: Option<string>): (r: seq<StoreItem>)
    reads items
    ensures |r| == |StoreItems(items, storeId, term)|
    ensures forall k :: 0 <= k < |r| ==> r[k].storeId == storeId && NameMatches(r[k].name, term)
  {
    Reverse(StoreItems(items, storeId, term))
  }

  /** `get_paginated_items(store, store_id, page, q)`; `storeIdParam` is the path parameter
      as given, which the links repeat. */
  function GetPaginatedItems(items: seq<StoreItem>, store: Store, storeIdParam: string, page: int,
                             q: Option<string>, perPage: nat): (r: Listing<StoreItem>)
    requires perPage > 0
    reads items
    ensures r.items == r.pagination.items && |r.items| <= perPage
    ensures r.pagination.total == |StoreItems(items, store.id, SearchTerm(q))|
    ensures forall k :: 0 <= k < |r.items| ==>
              r.items[k].storeId == store.id && NameMatches(r.items[k].name, SearchTerm(q))
    ensures r.previous.Some? <==> page > 1
    ensures r.previous.Some? ==> r.previous.value == ItemsLink(storeIdParam, SearchTerm(q), page - 1)
    ensures r.next.Some? ==> r.next.value == ItemsLink(storeIdParam, SearchTerm(q), page + 1)
  {
    var term := SearchTerm(q);
    var p := Paginate(NewestFirst(items, store.id, term), page, perPage);
    var previous := if HasPrev(p) then Some(ItemsLink(storeIdParam, term, page - 1)) else None;
    var next := if HasNext(p) then Some(ItemsLink(storeIdParam, term, page + 1)) else None;
    Listing(p.items, next, p, previous)
  }

  /** On every page, items are shown newest first. */
  lemma {:induction false} PageNewestFirst(items: seq<StoreItem>, store: Store, storeIdParam: string, page: int,
                                           q: Option<string>, perPage: nat)
    requires perPage > 0 && KeysNondecreasing(items, ItemCreatedAt)
    ensures var r := GetPaginatedItems(items, store, storeIdParam, page, q, perPage);
            forall i, j :: 0 <= i < j < |r.items| ==> ItemCreatedAt(r.items[i]) >= ItemCreatedAt(r.items[j])
  {
    var selected := StoreItems(items, store.id, SearchTerm(q));
    StoreItemsNondecreasing(items, store.id, SearchTerm(q));
    ReverseOrders(selected, ItemCreatedAt);
    PageKeepsDescending(Reverse(selected), page, perPage, ItemCreatedAt);
  }

  /** Page 1 opens with the store's most recently added matching item. */
  lemma {:induction false} NewestItemFirst(items: seq<StoreItem>, store: Store, storeIdParam: string,
                                           q: Option<string>, perPage: nat)
    requires perPage > 0
    requires StoreItems(items, store.id, SearchTerm(q)) != []
    ensures var selected := StoreItems(items, store.id, SearchTerm(q));
            var r := GetPaginatedItems(items, store, storeIdParam, 1, q, perPage);
            r.items != [] && r.items[0] == selected[|selected| - 1]
  {
    PageNonEmptyIff(NewestFirst(items, store.id, SearchTerm(q)), 1, perPage);
  }

  /** Every item the listing selects is shown: the `k`-th newest is at position
      `k % per_page` of page `k / per_page + 1`. */
  lemma {:induction false} EveryItemListed(items: seq<StoreItem>, store: Store, storeIdParam: string,
                                           q: Option<string>, perPage: nat, k: nat)
    requires perPage > 0 && k < |StoreItems(items, store.id, SearchTerm(q))|
    ensures var r := GetPaginatedItems(items, store, storeIdParam, k / perPage + 1, q, perPage);
            k % perPage < |r.items| && r.items[k % perPage] == NewestFirst(items, store.id, SearchTerm(q))[k]
  {
    MatchOnItsPage(NewestFirst(items, store.id, SearchTerm(q)), perPage, k);
  }

  /** There is a next link exactly when items remain beyond the page served. */
  lemma {:induction false} ItemsNextIff(items: seq<StoreItem>, store: Store, storeIdParam: string, page: int,
                                        q: Option<string>, perPage: nat)
    requires perPage > 0
    ensures GetPaginatedItems(items, store, storeIdParam, page, q, perPage).next.Some? <==>
            EffectivePage(page) * perPage < |StoreItems(items, store.id, SearchTerm(q))|
  {
    HasNextIff(NewestFirst(items, store.id, SearchTerm(q)), page, perPage);
  }

  /** A store with a single (matching) item lists it alone on page 1, with neither a
      previous nor a next link. */
  lemma {:induction false} SingleItemOnePage(items: seq<StoreItem>, store: Store, storeIdParam: string,
                                             q: Option<string>, perPage: nat)
    requires perPage > 0 && |StoreItems(items, store.id, SearchTerm(q))| == 1
    ensures var r := GetPaginatedItems(items, store, storeIdParam, 1, q, perPage);
            && r.items == StoreItems(items, store.id, SearchTerm(q)) && r.pagination.total == 1
            && r.previous == None && r.next == None
  {
    var all := NewestFirst(items, store.id, SearchTerm(q));
    HasNextIff(all, 1, perPage);
    PageNonEmptyIff(all, 1, perPage);
    var r := GetPaginatedItems(items, store, storeIdParam, 1, q, perPage);
    assert r.items[|r.items| - 1] == all[|r.items| - 1];
    assert r.items == [all[0]];
  }

  /** The item search of the tests, page 1: of six matching items at three per page, the
      first page shows the three newest, from the sixth back to the fourth, with a link to
      page 2 and none back. */
  lemma {:induction false} ItemSearchFirstPage(items: seq<StoreItem>, store: Store, storeIdParam: string, q: string)
    requires q != "" && |StoreItems(items, store.id, Some(q))| == 6
    ensures var s := StoreItems(items, store.id, Some(q));
            var r := GetPaginatedItems(items, store, storeIdParam, 1, Some(q), 3);
            && r.items == [s[5], s[4], s[3]] && r.pagination.total == 6
            && r.previous == None && r.next == Some(ItemsLink(storeIdParam, Some(q), 2))
  {
    var s := StoreItems(items, store.id, Some(q));
    var all := NewestFirst(items, store.id, Some(q));
    SixMatchesThreePerPage(all);
    ReverseSixHalves(s);
  }

  /** The item search of the tests, page 2: the three oldest, from the third back to the
      first, with a link back to page 1 and none forward. */
  lemma {:induction false} ItemSearchSecondPage(items: seq<StoreItem>, store: Store, storeIdParam: string, q: string)
    requires q != "" && |StoreItems(items, store.id, Some(q))| == 6
    ensures var s := StoreItems(items, store.id, Some(q));
            var r := GetPaginatedItems(items, store, storeIdParam, 2, Some(q), 3);
            && r.items == [s[2], s[1], s[0]] && r.pagination.total == 6
            && r.previous == Some(ItemsLink(storeIdParam, Some(q), 1)) && r.next == None
  {
    var s := StoreItems(items, store.id, Some(q));
    var all := NewestFirst(items, store.id, Some(q));
    SixMatchesThreePerPage(all);
    ReverseSixHalves(s);
  }
}
