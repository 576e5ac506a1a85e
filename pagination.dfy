/** The search-and-page engine both listing endpoints share: the `LIKE` name filter,
    the `paginate(page=..., per_page=..., error_out=False)` call of Flask-SQLAlchemy
    (limit/offset window, `total`, `has_prev`, `has_next`), and the previous/next
    links, kept as the `(store_id, q, page)` arguments given to `url_for`. */
module Pagination {
  import opened Basics

  // ---------------------------------------------------------------------------
  // Search
  // ---------------------------------------------------------------------------

  /** The `q` argument when `if q:` holds (present and non-empty), else `None`: it switches
      the filter on and is reproduced, as given, in both links. */
  function SearchTerm(q: Option<string>): Option<string> {
    if Truthy(q) then q else None
  }

  /** The needle of `name LIKE '%' + q.lower().strip() + '%'`. */
  function Needle(q: string): (r: string)
    ensures forall i :: 0 <= i < |r| ==> !IsUpper(r[i])
    ensures r == [] || (!IsSpace(r[0]) && !IsSpace(r[|r| - 1]))
  {
    LowerIsLower(q);
    StripKeepsLower(Lower(q));
    Strip(Lower(q))
  }

  /** A name passes the filter when there is no search term, or when the needle occurs in
      it; `LIKE` ignores ASCII case, so the name is compared lower-cased. */
  predicate NameMatches(name: string, term: Option<string>) {
    term.None? || Contains(Lower(name), Needle(term.value))
  }

  /** The filter in terms of positions: with a search term, a name passes exactly when the
      needle occurs in the lower-cased name at some index. */
  lemma NameMatchesIff(name: string, term: Option<string>)
    ensures NameMatches(name, term) <==> term.None? || Occurs(Lower(name), Needle(term.value))
  {
    if term.Some? {
      ContainsIff(Lower(name), Needle(term.value));
    }
  }

  /** Searching is insensitive to the case of the query. */
  lemma {:induction false} QueryNormalised(name: string, q: string)
    ensures NameMatches(name, Some(q)) <==> NameMatches(name, Some(Lower(q)))
  {
    LowerIsLower(q);
  }

  // ---------------------------------------------------------------------------
  // Paging
  // ---------------------------------------------------------------------------

  /** The `Pagination` object: the page actually served, the page size, `total` and `items`. */
  datatype Pagination<T> = Pagination(page: nat, perPage: nat, total: nat, items: seq<T>)

  /** With `error_out=False` a page number below 1 is served as page 1. */
  function EffectivePage(page: int): nat {
    if page < 1 then 1 else page
  }

  function Min(a: int, b: int): int {
    if a <= b then a else b
  }

  /** `OFFSET (page - 1) * per_page`: the number of matches on the pages before `page`. */
  function Offset(page: nat, perPage: nat): (r: nat)
    requires page >= 1
    ensures page == 1 ==> r == 0
  {
    (page - 1) * perPage
  }

  /** `query.paginate(page, per_page, error_out=False)` over the matching rows in query
      order: `LIMIT per_page OFFSET (page - 1) * per_page`, and `total` taken from the page
      itself when page 1 is short, else from a count of all matches. */
  function Paginate<T>(matches: seq<T>, page: int, perPage: nat): (p: Pagination<T>)
    requires perPage > 0
    ensures p.page >= 1 && (page >= 1 ==> p.page == page) && p.perPage == perPage
    ensures page < 1 ==> p.page == 1
    ensures p.total == |matches|
    ensures |p.items| <= perPage
    ensures forall k :: 0 <= k < |p.items| ==>
              Offset(p.page, perPage) + k < |matches| && p.items[k] == matches[Offset(p.page, perPage) + k]
    ensures |p.items| == perPage || Offset(p.page, perPage) + |p.items| >= |matches|
  {
    var pg := EffectivePage(page);
    var offset := Offset(pg, perPage);
    var items := if offset >= |matches| then [] else matches[offset..Min(offset + perPage, |matches|)];
    var total := if pg == 1 && |items| < perPage then |items| else |matches|;
    Pagination(pg, perPage, total, items)
  }

  /** `pages`: `ceil(total / per_page)`. */
  function Pages(total: nat, perPage: nat): nat
    requires perPage > 0
  {
    (total + perPage - 1) / perPage
  }

  /** `has_prev`. */
  predicate HasPrev<T>(p: Pagination<T>): (r: bool)
    ensures p.page >= 1 && p.perPage > 0 ==> (r <==> Offset(p.page, p.perPage) > 0)
  {
    p.page > 1
  }

  /** `has_next`. */
  predicate HasNext<T>(p: Pagination<T>): (r: bool)
    ensures r <==> p.perPage > 0 && p.page * p.perPage < p.total
  {
    p.perPage > 0 && (BelowPageCount(p.total, p.perPage, p.page); p.page < Pages(p.total, p.perPage))
  }

  /** A page number is below the page count exactly when the pages up to and including it
      do not yet hold every match. */
  lemma {:induction false} BelowPageCount(total: nat, perPage: nat, g: nat)
    requires perPage > 0
    ensures g < Pages(total, perPage) <==> g * perPage < total
  {
    var c := Pages(total, perPage);
    var r := (total + perPage - 1) % perPage;
    assert total + perPage - 1 == c * perPage + r;
    if g < c {
      assert (g + 1) * perPage <= c * perPage by { MulLeft(g + 1, c, perPage); }
      assert g * perPage + perPage <= total + perPage - 1 - r;
    } else {
      assert c * perPage <= g * perPage by { MulLeft(c, g, perPage); }
    }
  }

  lemma MulLeft(a: nat, b: nat, n: nat)
    requires a <= b
    ensures a * n <= b * n
  {
  }

  /** `previous` exists exactly when the requested page number is above 1. */
  lemma HasPrevIff<T>(matches: seq<T>, page: int, perPage: nat)
    requires perPage > 0
    ensures HasPrev(Paginate(matches, page, perPage)) <==> page > 1
  {
  }

  /** `next` exists exactly when some match lies beyond the page served. */
  lemma {:induction false} HasNextIff<T>(matches: seq<T>, page: int, perPage: nat)
    requires perPage > 0
    ensures HasNext(Paginate(matches, page, perPage)) <==> EffectivePage(page) * perPage < |matches|
  {
    BelowPageCount(|matches|, perPage, EffectivePage(page));
  }

  /** Match `k` lies `k % per_page` places past the offset of page `k / per_page + 1`. */
  lemma PageOfIndex(k: nat, perPage: nat)
    requires perPage > 0
    ensures Offset(k / perPage + 1, perPage) + k % perPage == k && k % perPage < perPage
  {
  }

  /** Every match is served, on page `k / per_page + 1` at position `k % per_page`. */
  lemma {:induction false} MatchOnItsPage<T>(matches: seq<T>, perPage: nat, k: nat)
    requires perPage > 0 && k < |matches|
    ensures var p := Paginate(matches, k / perPage + 1, perPage);
            k % perPage < |p.items| && p.items[k % perPage] == matches[k]
  {
    PageOfIndex(k, perPage);
  }

  /** A page holds something exactly when its offset is below the number of matches. */
  lemma {:induction false} PageNonEmptyIff<T>(matches: seq<T>, page: int, perPage: nat)
    requires perPage > 0
    ensures |Paginate(matches, page, perPage).items| > 0 <==> (EffectivePage(page) - 1) * perPage < |matches|
  {
    var p := Paginate(matches, page, perPage);
    if (EffectivePage(page) - 1) * perPage < |matches| {
      assert |p.items| == Min((p.page - 1) * perPage + perPage, |matches|) - (p.page - 1) * perPage;
    }
  }

  /** A page is a consecutive run of the matches, so it keeps any descending order
      the matches are in. */
  lemma {:induction false} PageKeepsDescending<T>(matches: seq<T>, page: int, perPage: nat, col: T -> nat)
    requires perPage > 0
    requires forall i, j :: 0 <= i < j < |matches| ==> col(matches[i]) >= col(matches[j])
    ensures var items := Paginate(matches, page, perPage).items;
            forall i, j :: 0 <= i < j < |items| ==> col(items[i]) >= col(items[j])
  {
    var items := Paginate(matches, page, perPage).items;
    var off := Offset(EffectivePage(page), perPage);
    forall i, j | 0 <= i < j < |items| ensures col(items[i]) >= col(items[j]) {
      assert items[i] == matches[off + i] && items[j] == matches[off + j];
    }
  }

  /** Past the last page: no items, no next link, and a previous link when the page
      number is above 1; not an error. */
  lemma {:induction false} PastLastPage<T>(matches: seq<T>, page: int, perPage: nat)
    requires perPage > 0 && (EffectivePage(page) - 1) * perPage >= |matches|
    ensures var p := Paginate(matches, page, perPage);
            p.items == [] && !HasNext(p) && (HasPrev(p) <==> page > 1)
  {
    var g := EffectivePage(page);
    HasNextIff(matches, page, perPage);
    assert (g - 1) * perPage <= g * perPage by { MulLeft(g - 1, g, perPage); }
  }

  /** Nothing to page through: no items, a total of 0, no next link. */
  lemma {:induction false} NoMatches<T>(matches: seq<T>, page: int, perPage: nat)
    requires perPage > 0 && matches == []
    ensures var p := Paginate(matches, page, perPage);
            p.items == [] && p.total == 0 && !HasNext(p) && (HasPrev(p) <==> page > 1)
  {
    PastLastPage(matches, page, perPage);
  }

  /** Six matches, three per page: page 1 holds the first three and links forward only,
      page 2 the last three and links back only; both report a total of 6. */
  lemma {:induction false} SixMatchesThreePerPage<T>(matches: seq<T>)
    requires |matches| == 6
    ensures var p := Paginate(matches, 1, 3);
            p.items == matches[..3] && p.total == 6 && HasNext(p) && !HasPrev(p)
    ensures var p := Paginate(matches, 2, 3);
            p.items == matches[3..] && p.total == 6 && !HasNext(p) && HasPrev(p)
  {
    HasNextIff(matches, 1, 3);
    HasNextIff(matches, 2, 3);
  }

  // ---------------------------------------------------------------------------
  // Links
  // ---------------------------------------------------------------------------

  /** `url_for('store.storelist', [q=q,] page=...)` and
      `url_for('items.get_items', [q=q,] store_id=..., page=...)`. */
  datatype Link =
    | StoresLink(q: Option<string>, page: int)
    | ItemsLink(storeId: string, q: Option<string>, page: int)

  /** What `paginate_stores` and `get_paginated_items` return:
      `(pagination.items, nex, pagination, previous)`. */
  datatype Listing<T> = Listing(items: seq<T>, next: Option<Link>, pagination: Pagination<T>, previous: Option<Link>)
}
