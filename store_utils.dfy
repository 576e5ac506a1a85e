/** The store listing helpers: which stores a listing pages through, the
    `paginate_stores` query with its links, and the JSON list of a page. */
module StoreUtils {
  import opened Basics
  import opened Tables
  import opened Models
  import opened Pagination

  /** The rows `paginate_stores` pages through, in primary-key order (neither query has an
      `ORDER BY`): the user's stores, narrowed by the name filter when there is a search term. */
  function UserStores(stores: seq<Store>, userId: nat, term: Option<string>): (r: seq<Store>)
    reads stores
    ensures |r| <= |stores|
    ensures forall i :: 0 <= i < |r| ==> r[i].userId == userId && NameMatches(r[i].name, term)
  {
    if stores == [] then []
    else
      var s := stores[0];
      (if s.userId == userId && NameMatches(s.name, term) then [s] else [])
        + UserStores(stores[1..], userId, term)
  }

  /** A store is listed exactly when it is in the table, belongs to the user and passes
      the name filter. */
  lemma {:induction false} UserStoresMember(stores: seq<Store>, userId: nat, term: Option<string>, s: Store)
    ensures s in UserStores(stores, userId, term) <==>
            s in stores && s.userId == userId && NameMatches(s.name, term)
  {
    if stores != [] {
      UserStoresMember(stores[1..], userId, term, s);
      assert s in stores <==> s == stores[0] || s in stores[1..];
    }
  }

  /** The listing keeps the table's primary-key order. */
  lemma {:induction false} UserStoresIncreasing(stores: seq<Store>, userId: nat, term: Option<string>)
    requires KeysIncreasing(stores, StoreKey)
    ensures KeysIncreasing(UserStores(stores, userId, term), StoreKey)
  {
    if stores != [] {
      TailIncreasing(stores, StoreKey);
      UserStoresIncreasing(stores[1..], userId, term);
      var rest := UserStores(stores[1..], userId, term);
      forall y | y in rest ensures stores[0].id < y.id {
        UserStoresMember(stores[1..], userId, term, y);
        var j :| 0 <= j < |stores[1..]| && stores[1..][j] == y;
        assert stores[j + 1] == y;
      }
    }
  }

  /** A name filter that every store passes lists the user's stores as no filter does. */
  lemma {:induction false} FilterPassingAll(stores: seq<Store>, userId: nat, term: Option<string>)
    requires forall i :: 0 <= i < |stores| ==> NameMatches(stores[i].name, term)
    ensures UserStores(stores, userId, term) == UserStores(stores, userId, None)
  {
    if stores != [] {
      FilterPassingAll(stores[1..], userId, term);
    }
  }

  /** A query that is blank after stripping (e.g. `"  "`) switches the filter on but
      matches every store: the user's stores are listed as without a query. */
  lemma {:induction false} BlankQueryMatchesAll(stores: seq<Store>, userId: nat, q: string)
    requires Needle(q) == ""
    ensures UserStores(stores, userId, Some(q)) == UserStores(stores, userId, None)
  {
    forall i | 0 <= i < |stores| ensures NameMatches(stores[i].name, Some(q)) {
      EmptyNeedleMatchesAll(Lower(stores[i].name));
    }
    FilterPassingAll(stores, userId, Some(q));
  }

  /** `paginate_stores(user_id, page, q, user)` over the stores table. */
  function PaginateStores(stores: seq<Store>, userId: nat, page: int, q: Option<string>, perPage: nat)
    : (r: Listing<Store>)
    requires perPage > 0
    reads stores
    ensures r.items == r.pagination.items && |r.items| <= perPage
    ensures r.pagination.total == |UserStores(stores, userId, SearchTerm(q))|
    ensures forall k :: 0 <= k < |r.items| ==>
              r.items[k].userId == userId && NameMatches(r.items[k].name, SearchTerm(q))
    ensures r.previous.Some? <==> page > 1
    ensures r.previous.Some? ==> r.previous.value == StoresLink(SearchTerm(q), page - 1)
    ensures r.next.Some? ==> r.next.value == StoresLink(SearchTerm(q), page + 1)
  {
    var term := SearchTerm(q);
    var p := Paginate(UserStores(stores, userId, term), page, perPage);
    var previous := if HasPrev(p) then Some(StoresLink(term, page - 1)) else None;
    var next := if HasNext(p) then Some(StoresLink(term, page + 1)) else None;
    Listing(p.items, next, p, previous)
  }

  /** There is a next link exactly when stores remain beyond the page served. */
  lemma {:induction false} StoresNextIff(stores: seq<Store>, userId: nat, page: int, q: Option<string>, perPage: nat)
    requires perPage > 0
    ensures PaginateStores(stores, userId, page, q, perPage).next.Some? <==>
            EffectivePage(page) * perPage < |UserStores(stores, userId, SearchTerm(q))|
  {
    HasNextIff(UserStores(stores, userId, SearchTerm(q)), page, perPage);
  }

  /** Every store the listing selects is shown: the `k`-th one, in key order, is at
      position `k % per_page` of page `k / per_page + 1`. */
  lemma {:induction false} EveryStoreListed(stores: seq<Store>, userId: nat, q: Option<string>, perPage: nat, k: nat)
    requires perPage > 0 && k < |UserStores(stores, userId, SearchTerm(q))|
    ensures var r := PaginateStores(stores, userId, k / perPage + 1, q, perPage);
            k % perPage < |r.items| && r.items[k % perPage] == UserStores(stores, userId, SearchTerm(q))[k]
  {
    MatchOnItsPage(UserStores(stores, userId, SearchTerm(q)), perPage, k);
  }

  /** A user with no (matching) stores gets an empty page and no next link; a previous
      link appears only for a page number above 1. */
  lemma {:induction false} NoStoresListed(stores: seq<Store>, userId: nat, page: int, q: Option<string>, perPage: nat)
    requires perPage > 0 && UserStores(stores, userId, SearchTerm(q)) == []
    ensures var r := PaginateStores(stores, userId, page, q, perPage);
            r.items == [] && r.pagination.total == 0 && r.next == None && (r.previous == None <==> page <= 1)
  {
    NoMatches(UserStores(stores, userId, SearchTerm(q)), page, perPage);
  }

  /** The search of the store tests: six matching stores, three per page. Page 1 shows the
      first three with a link to page 2 carrying the query; page 2 the last three with a
      link back to page 1; both report a total of 6. */
  lemma {:induction false} StoreSearchTwoPages(stores: seq<Store>, userId: nat, q: string)
    requires q != "" && |UserStores(stores, userId, Some(q))| == 6
    ensures var r := PaginateStores(stores, userId, 1, Some(q), 3);
            && r.items == UserStores(stores, userId, Some(q))[..3] && r.pagination.total == 6
            && r.previous == None && r.next == Some(StoresLink(Some(q), 2))
    ensures var r := PaginateStores(stores, userId, 2, Some(q), 3);
            && r.items == UserStores(stores, userId, Some(q))[3..] && r.pagination.total == 6
            && r.previous == Some(StoresLink(Some(q), 1)) && r.next == None
  {
    SixMatchesThreePerPage(UserStores(stores, userId, Some(q)));
  }

  /** `get_user_store_json_list(user_stores)`: the JSON form of each store, in order. */
  method GetUserStoreJsonList(userStores: seq<Store>) returns (r: seq<StoreJson>)
    ensures |r| == |userStores|
    ensures forall i :: 0 <= i < |r| ==> r[i] == userStores[i].Json()
  {
    r := [];
    for n := 0 to |userStores|
      invariant |r| == n
      invariant forall i :: 0 <= i < n ==> r[i] == userStores[i].Json()
    {
      r := r + [userStores[n].Json()];
    }
  }
}
