# store_api in Dafny

A model of the core of `store_api`, a Flask REST service. Each user owns shopping
"stores" (lists), and each store holds items. The model covers:

- **Auth tokens.** The claims of `User.encode_auth_token` and the ordered verdict of
  `User.decode_auth_token` are modelled. The HS256 signer is an abstract codec whose
  verifier inverts its signer. The `blacklist_token` table holds revoked tokens.
- **Rows.** `Store` and `StoreItem` rows are classes whose `update` assigns fields in place.
  The `Database` class holds the three tables in primary-key order, the next key of each
  table, the clock and the page size. Its methods are `save`, `delete` and `blacklist`.
- **Listing.** A listing filters by owner or store and by name (`LIKE '%q%'`), then orders
  the rows. Stores come in key order and items newest first. Flask-SQLAlchemy's
  `paginate(error_out=False)` then cuts the window and computes `total`, `has_prev`,
  `has_next` and the previous/next links.
- **Lookups.** `get_user_store` finds a store only for its owner. An item is found only
  through its store.
- **Handlers.** The ten handlers of the `store` and `items` blueprints are modelled as
  methods over the `Database`. Each runs its checks in the source's order. Each
  `ensures` gives the exact (status, message, code) of every refusal. Every table changes
  only when all checks pass, and nothing else changes.

Files, in dependency order:

- `basics.dfy`: Option, ASCII `lower`/`strip`, substring search, `int()` on path
  parameters.
- `tables.dfy`: ordered tables, row removal and reversal.
- `models.dfy`: rows, blacklist and `Database`.
- `tokens.dfy`: claims, codec and decode verdicts.
- `pagination.dfy`: search needle, `paginate` and links.
- `responses.dfy`: requests and JSON responses.
- `store_utils.dfy` and `storeitems_utils.dfy`: the two helper modules.
- `store_views.dfy` and `item_views.dfy`: the handlers.

Time is a parameter `now`, in whole seconds. The current user is the id that
`token_required` produced. The page size `STORE_AND_ITEMS_PER_PAGE` is a positive
constant of the `Database`.

Three behaviours of the code worth noting:

- `BlackListToken.blacklist` does not catch the unique-constraint failure of a second
  insert of the same token. `Database.Blacklist` therefore reports failure and leaves the
  table as it was. It does not treat the second insert as a silent success.
- `Store.update` assigns only the name. `modified_at` is not re-stamped, and
  `StoreItem.update` does not re-stamp it either.
- `edit_store` stores the new name exactly as given. `create_storelist` and `post`
  lower-case it.

Two quirks of the code are modelled as written:

- **Non-positive page numbers.** The source does not pin a Flask-SQLAlchemy version. The
  model follows versions 2.3 and later, where `paginate(error_out=False)` serves a page
  number of 0 or less as page 1. The next link still names `page + 1` computed from the
  raw number, so `?page=0` links "next" to page 1, the page just served. (Before 2.3,
  `?page=0` is reported as page 0, and `has_next` becomes `0 < pages`; that behaviour is
  not modelled.)
- **Blank queries.** A query that is blank after stripping, such as `q=%20`, switches the
  search on but matches every name (`StoreUtils.BlankQueryMatchesAll`).

## Model

| member | source | states |
|---|---|---|
| Basics.Lower | app/store/utils.py:90 | `q.lower()`: same length, every ASCII capital replaced by its small letter, every other character kept |
| Basics.LowerIsLower | app/store/utils.py:90 | lower-casing leaves no capital and is idempotent |
| Basics.Strip | app/store/utils.py:90 | `strip()`: the result neither starts nor ends with whitespace, and is a middle part of the input surrounded only by whitespace |
| Basics.ContainsIff | app/store/utils.py:90 | the `LIKE '%needle%'` search holds exactly when the needle occurs at some position |
| Basics.EmptyNeedleMatchesAll | app/store/utils.py:90 | an empty needle matches every name |
| Basics.ParseId | app/store/views.py:59-62 | `int(store_id)` succeeds exactly on digits with at most one leading sign; only a `-` gives a negative value |
| Basics.ParseShowNat | app/store/views.py:59-64 | every id written in decimal parses back to that id, so every row can be addressed |
| Basics.ParseSigned | app/store/views.py:59-64 | a signed id such as `-3` passes the integer check, as `int()` does, and is then looked up |
| Tables.FirstWith | app/storeitems/utils.py:72-80 | `filter_by(id=..., user_id=...).first()` returns only a row with that key and that owner, and `None` only when no such row exists |
| Tables.SameKeySameRow | app/models.py:144 | the primary key identifies a row |
| Tables.FoundByKey | app/storeitems/utils.py:72-80 | a row is found by its key exactly under its own owner (its user, or its store for an item) |
| Tables.RemoveKey | app/models.py:174-180 | after `DELETE ... WHERE id = k` no row has key `k`, and the table does not grow |
| Tables.RemoveKeyMember | app/models.py:174-180 | a row survives a delete exactly when it was there and has another key |
| Tables.RemoveKeyAt | app/models.py:236-242 | with unique keys, deleting row `i`'s key removes exactly row `i` and keeps the others in order |
| Tables.RemoveOnlyKey | app/models.py:236-242 | when only row `i` has key `k`, deleting `k` leaves every row except row `i`, in order |
| Tables.RemoveKeyAbsent | app/models.py:236-242 | deleting a key no row has leaves the table unchanged |
| Tables.RemoveKeyIncreasing | app/models.py:174-180 | a delete keeps the primary-key order |
| Tables.RemoveKeyNondecreasing | app/models.py:236-242 | a delete keeps items ordered by creation time |
| Tables.Reverse | app/storeitems/utils.py:97 | `ORDER BY ... DESC` on a key-ordered table: the same rows, last first |
| Tables.ReverseOrders | app/storeitems/utils.py:97 | reversed, increasing keys become decreasing and non-decreasing times non-increasing |
| Models.Store.constructor | app/models.py:151-155 | a new store has the given name and owner, and both timestamps are `now` |
| Models.Store.Update | app/models.py:165-172 | only the name changes; `modified_at` is not re-stamped |
| Models.StoreItem.constructor | app/models.py:209-214 | a new item has the given name, description and store, and both timestamps are `now` |
| Models.StoreItem.Update | app/models.py:224-234 | the name is always replaced; the description is replaced only when one is given; `modified_at` stays |
| Models.Store.Json | app/models.py:182-192 | `json()` of a store carries its key, its current name and both timestamps |
| Models.StoreItem.Json | app/models.py:244-256 | `json()` of an item carries its key, current name and description, owning store and both timestamps |
| Models.FirstWithToken | app/models.py:132 | `filter_by(token=t).first()` returns an entry holding `t`, or `None` exactly when no entry holds `t` |
| Models.CheckBlacklist | app/models.py:125-135 | true exactly when some entry holds precisely the token string |
| Models.CheckBlacklistAppend | app/models.py:117-135 | appending an entry adds exactly its token to the blacklist; every other string's membership is unchanged |
| Models.Database.SaveStore | app/models.py:157-163 | the store is appended under the next key; the invariant holds and the other tables are unchanged |
| Models.Database.DeleteStore | app/models.py:174-180 | exactly that store's row is removed; the items and the blacklist are unchanged |
| Models.Database.SaveItem | app/models.py:216-222 | the item is appended as the newest row; key and time order are kept |
| Models.Database.DeleteItem | app/models.py:236-242 | exactly that item's row is removed; the invariant holds and the stores are unchanged |
| Models.Database.Blacklist | app/models.py:110-123 | the insert succeeds exactly when the token is not yet listed; afterwards it is listed, other tokens are as before, and tokens stay unique |
| Tokens.IssueClaims | app/models.py:41-47 | the payload's `sub` is the user id, `iat` is `now`, and `exp - iat` is `days*86400 + seconds` |
| Tokens.EncodeAuthToken | app/models.py:34-54 | under a sound codec, verifying the issued token gives back exactly the issued payload |
| Tokens.DecodeAuthToken | app/models.py:56-72 | a subject is returned exactly for a verified, unexpired, unlisted token, and it is the token's `sub`; every refusal is one of the three messages |
| Tokens.IssuedClaims | app/models.py:41-47 | an issued token carries `sub = user_id`, `iat = now` and `exp = now + days*86400 + seconds` |
| Tokens.RoundTrip | app/models.py:34-68 | a token issued for a user, decoded before expiry and not blacklisted, gives that user's id |
| Tokens.ExpiryBoundary | app/models.py:64-70 | an issued token is reported expired exactly from `iat + lifetime` on |
| Tokens.InvalidTokenRejected | app/models.py:64-72 | a token failing the signature or structure check gets 'Invalid token. Please sign in again' |
| Tokens.BlacklistConsultedLast | app/models.py:64-67 | the blacklist is read only after a successful, unexpired decode |
| Tokens.BlacklistedNeverAccepted | app/models.py:64-68 | a blacklisted token never yields a subject; if otherwise valid, it gets 'Token was Blacklisted, Please login In' |
| Tokens.DecodeAccepts | app/models.py:56-72 | decoding returns `sub` exactly for a verified, unexpired, unlisted token |
| Tokens.RevokedTokenRefused | app/models.py:64-68 | once an unexpired token is appended to the blacklist, it is refused as blacklisted |
| Pagination.Needle | app/store/utils.py:90 | `q.lower().strip()` has no capital letter and neither starts nor ends with whitespace |
| Pagination.NameMatchesIff | app/store/utils.py:90 | with a search term, a name passes the `LIKE '%needle%'` filter exactly when the needle occurs in the lower-cased name at some index; without one every name passes |
| Pagination.QueryNormalised | app/store/utils.py:90 | the search result does not depend on the case of `q` |
| Pagination.Paginate | app/store/utils.py:90-94 | page < 1 is served as 1; `total` is the number of matches; at most `per_page` items; item `k` is match `(page-1)*per_page + k`; a short page reaches the last match |
| Pagination.HasPrev | app/store/utils.py:95-96 | `has_prev` holds exactly when some matches come before the page served (its offset is positive) |
| Pagination.HasNext | app/store/utils.py:101-102 | `has_next` holds exactly when the pages up to the one served hold fewer than `total` matches |
| Pagination.BelowPageCount | app/store/utils.py:101-102 | `page < ceil(total/per_page)` exactly when `page*per_page < total` |
| Pagination.HasPrevIff | app/store/utils.py:95-96 | `has_prev` exactly when the requested page is above 1 |
| Pagination.HasNextIff | app/store/utils.py:101-102 | `has_next` exactly when matches remain beyond the page served |
| Pagination.MatchOnItsPage | app/store/utils.py:90-91 | match `k` is served on page `k/per_page + 1` at position `k % per_page` |
| Pagination.PageNonEmptyIff | app/store/utils.py:90-91 | a page shows something exactly when its offset is below the number of matches |
| Pagination.PageKeepsDescending | app/storeitems/utils.py:97-102 | a page cut from a newest-first listing is itself newest first |
| Pagination.PastLastPage | app/store/utils.py:90-106 | beyond the last page: no items and no next link (no error) |
| Pagination.NoMatches | app/store/utils.py:90-106 | with no matches: no items, total 0, no next link |
| Pagination.SixMatchesThreePerPage | tests/test_store.py:319-366 | six matches at three per page: page 1 has the first three and only a next link; page 2 the last three and only a previous link; total 6 on both |
| StoreUtils.UserStores | app/store/utils.py:89-94 | the candidate stores all belong to the user and pass the name filter |
| StoreUtils.UserStoresMember | app/store/utils.py:89-94 | a store is a candidate exactly when it is in the table, owned by the user and matches |
| StoreUtils.UserStoresIncreasing | app/store/utils.py:93 | candidates come in id order |
| StoreUtils.FilterPassingAll | app/store/utils.py:89-94 | a name filter every store passes selects the same stores as no filter |
| StoreUtils.BlankQueryMatchesAll | app/store/utils.py:89-90 | a blank query selects exactly the user's stores |
| StoreUtils.PaginateStores | app/store/utils.py:78-108 | only the user's matching stores, at most `per_page` of them; `total` counts all matches; previous exists exactly when page > 1, and both links carry the same `q` and `page ± 1` |
| StoreUtils.StoresNextIff | app/store/utils.py:101-106 | a next link exists exactly when stores remain beyond the page |
| StoreUtils.EveryStoreListed | app/store/utils.py:89-94 | every candidate store appears on the page computed from its position |
| StoreUtils.NoStoresListed | tests/test_store.py:48-66 | a user with no stores gets no stores, total 0 and no links on page 1 |
| StoreUtils.StoreSearchTwoPages | tests/test_store.py:319-366 | the six-store search: exact contents and links of pages 1 and 2 |
| StoreUtils.GetUserStoreJsonList | app/store/utils.py:48-57 | the JSON list has the same length and order as the stores |
| ItemUtils.StoreRequired | app/storeitems/utils.py:7-23 | the handler runs exactly when `store_id` is an integer; otherwise 401 'Provide a valid Store Id' |
| ItemUtils.GetUserStore | app/storeitems/utils.py:72-80 | a store is returned only if it has this id and is owned by the user; `None` only if no such store exists |
| ItemUtils.OwnStoreFound | app/storeitems/utils.py:72-80 | the owner always finds their store by its id |
| ItemUtils.OthersStoreHidden | app/storeitems/utils.py:72-80 | another user's store is not found, the same result as a missing store |
| ItemUtils.GetStoreItem | app/storeitems/views.py:66-68 | an item is returned only if it belongs to the store and has this id; `None` only if no such item exists |
| ItemUtils.ItemFoundOnlyInItsStore | app/storeitems/views.py:66-68 | an item is found through its own store and through no other |
| ItemUtils.StoreItems | app/storeitems/utils.py:95-102 | the candidate items all belong to the store and pass the name filter |
| ItemUtils.StoreItemsMember | app/storeitems/utils.py:95-102 | an item is a candidate exactly when it is in the table, in the store and matches |
| ItemUtils.StoreItemsIncreasing | app/storeitems/utils.py:95-102 | candidates come in strictly increasing id order, so no item is listed twice |
| ItemUtils.StoreItemsNondecreasing | app/storeitems/utils.py:97 | candidates keep creation-time order |
| ItemUtils.NewestFirst | app/storeitems/utils.py:95-102 | the rows listed newest first are as many as the store's matching items, and each belongs to the store and matches |
| ItemUtils.GetPaginatedItems | app/storeitems/utils.py:83-116 | only the store's matching items, at most `per_page`; `total` counts all matches; links carry the raw `store_id`, the same `q` and `page ± 1` |
| ItemUtils.PageNewestFirst | app/storeitems/utils.py:97-102 | every page lists items newest first |
| ItemUtils.NewestItemFirst | app/storeitems/utils.py:97-102 | page 1 opens with the most recently added matching item |
| ItemUtils.EveryItemListed | app/storeitems/utils.py:95-102 | every candidate item appears on the page computed from its position in newest-first order |
| ItemUtils.ItemsNextIff | app/storeitems/utils.py:110-115 | a next link exists exactly when items remain beyond the page |
| ItemUtils.SingleItemOnePage | tests/test_storeitems.py:165-185 | a single item is listed alone, with total 1 and no links |
| ItemUtils.ItemSearchFirstPage | tests/test_storeitems.py:187-211 | the six-item search, page 1: the sixth, fifth and fourth item, total 6, a next link to page 2 and no previous link |
| ItemUtils.ItemSearchSecondPage | tests/test_storeitems.py:213-236 | the six-item search, page 2: the third, second and first item, total 6, a previous link to page 1 and no next link |
| StoreViews.Storelist | app/store/views.py:11-28 | the page's stores as JSON in order with the links; `count` is the number of matches, or 0 on an empty page |
| StoreViews.CreateStorelist | app/store/views.py:31-47 | non-JSON gives 202, a malformed body 400 'Bad Request', no name 400; otherwise exactly one fresh store is appended with the lower-cased name, the user as owner and the next key, answered with 201 |
| StoreViews.GetStore | app/store/views.py:50-67 | a non-integer id gives 400 before any lookup; the owner always gets the store; a store is shown only to its owner; otherwise 404 'Store not found' |
| StoreViews.EditStore | app/store/views.py:70-94 | checks in the order content type, body, name, id, ownership, each with its exact response; only the owned store's name changes, to the name as given; no `modified_at` changes |
| StoreViews.DeleteStore | app/store/views.py:97-114 | a non-integer id gives 400; a store not owned gives 404 'Store resource cannot be found' and no change; otherwise exactly that row is removed |
| ItemViews.ItemJsonList | app/storeitems/views.py:34-38 | the JSON list has the same length and order as the page's items |
| ItemViews.GetItems | app/storeitems/views.py:11-39 | a bad store id gives 401; an unowned store 404 'Store not found'; otherwise the page's items as JSON with the links, and `count` 0 on an empty page |
| ItemViews.GetItem | app/storeitems/views.py:42-69 | checks store id (401), item id (202), store (404 'User has no Store with Id …'), then item (404 'Item not found'); an existing item of an owned store is always shown with 200, and a shown item belongs to an owned store with the requested ids |
| ItemViews.PostItem | app/storeitems/views.py:72-98 | checks store id, content type (401), body (400), name (401) and store (202) in order; then exactly one fresh newest item with the lower-cased name, the given description and the store's id |
| ItemViews.EditItem | app/storeitems/views.py:101-145 | checks in the source's order; the body is read only after the item is found; an empty object gives 401; only the addressed item changes |
| ItemViews.DeleteItem | app/storeitems/views.py:148-175 | checks in order; then exactly the addressed item is removed and the message names the store id |

## Left out

- Signing, verifying and password hashing are left out. `jwt.encode`/`jwt.decode` (HS256) and
  `bcrypt` are foreign cryptography. A `Codec` with `verify(sign(p)) == Some(p)` stands
  for the signer.
- Tokens.DecodeAuthToken: an `iat` in the future and clock leeway are not modelled; a
  verified token is expired exactly when `exp <= now`.
- `encode_auth_token` catches an exception and returns it. That path is left out, because the
  codec cannot fail.
- The users table, registration and `token_required` (`app/auth/`) are not part of this model. The
  current user is an id parameter.
- Basics.ParseId: does not model the surrounding whitespace, digit-group underscores and
  non-ASCII decimal digits (such as `'٣'`) that Python's `int()` also accepts. The model
  refuses such ids as it refuses any non-integer id: 400 in the store handlers, and in
  the item handlers 401 for a store id and 202 for an item id. The source passes them on
  and filters by the raw string. A whitespace-padded id such as `' 3'` is converted to a
  number in that comparison, so the source finds and serves, edits or deletes row 3.
  An underscored or non-ASCII id matches no key, so the source answers as it does for a
  missing row: 404, except that the store lookup of `post`, `edit_item` and `delete`
  answers 202 'User has no Store with Id …'.
- Basics.Lower: ASCII only. Python's Unicode case mapping is left out, and so is SQLite's
  case handling outside ASCII in `LIKE`.
- Basics.Strip: ASCII whitespace only.
- `%` and `_` typed inside `q` are `LIKE` wildcards in the source. The model treats them
  as ordinary characters.
- Timestamps are whole seconds of an injected clock; `utcnow()` and `isoformat()` are
  left out. Item creation times are required to be non-decreasing. Rows created in the
  same instant are ordered by id, whereas the database leaves the order of such ties
  unspecified.
- Request bodies that are valid JSON but not an object, and `null` bodies, are left out.
  So are JSON members that are not strings; in the source their effect differs by
  handler and by value type.
- The ORM's handling of a deleted store's items is left out: SQLAlchemy sets their `store_id`
  to NULL. The model keeps the rows. Store keys are never reused, so those items cannot be
  reached through any store either way.
- SQLite may hand out a deleted maximal key again; the model's counter never does.
- Blacklist pruning is absent in the source too.
- `url_for` rendering is left out. Links are kept as the arguments given to it (`q`, `store_id`, `page`).
- `manage.py` and `app/__init__.py` (CLI, configuration, CORS and blueprint wiring) are
  not part of this model.
