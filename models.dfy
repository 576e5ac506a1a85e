/** The persistent entities and the session that holds their tables: stores and
    store items (rows whose fields `update` assigns in place), blacklisted tokens,
    and the `Database` object whose methods are `save`, `delete` and `blacklist`.
    Users are represented only by their ids. */
module Models {
  import opened Basics
  import opened Tables

  /** `Store.json()`; timestamps are whole seconds of the injected clock. */
  datatype StoreJson = StoreJson(id: nat, name: string, createdAt: nat, modifiedAt: nat)

  /** `StoreItem.json()`. */
  datatype ItemJson = ItemJson(id: nat, name: string, description: Option<string>,
                               storeId: nat, createdAt: nat, modifiedAt: nat)

  /** A row of the `stores` table. The primary key, the owner and the creation time are
      never reassigned, so they are constants. */
  class Store {
    const id: nat
    var name: string
    const userId: nat
    const createAt: nat
    var modifiedAt: nat

    /** `Store(name, user_id)`, stamped with `now`; `id` is the key the table hands out on save. */
    constructor (name: string, userId: nat, now: nat, id: nat)
      ensures this.name == name && this.userId == userId && this.id == id
      ensures createAt == now && modifiedAt == now
    {
      this.id := id;
      this.name := name;
      this.userId := userId;
      this.createAt := now;
      this.modifiedAt := now;
    }

    /** `Store.update(name)`: only the name changes; `modified_at` is not re-stamped. */
    method Update(name: string)
      modifies this
      ensures this.name == name
      ensures modifiedAt == old(modifiedAt)
    {
      this.name := name;
    }

    /** `Store.json()`: the key, the current name and both timestamps. */
    function Json(): (j: StoreJson)
      reads this
      ensures j.id == id && j.name == name && j.createdAt == createAt && j.modifiedAt == modifiedAt
    {
      StoreJson(id, name, createAt, modifiedAt)
    }
  }

  /** A row of the `storeitems` table. */
  class StoreItem {
    const id: nat
    var name: string
    var description: Option<string>
    const storeId: nat
    const createAt: nat
    var modifiedAt: nat

    /** `StoreItem(name, description, store_id)`, stamped with `now`. */
    constructor (name: string, description: Option<string>, storeId: nat, now: nat, id: nat)
      ensures this.name == name && this.description == description
      ensures this.storeId == storeId && this.id == id
      ensures createAt == now && modifiedAt == now
    {
      this.id := id;
      this.name := name;
      this.description := description;
      this.storeId := storeId;
      this.createAt := now;
      this.modifiedAt := now;
    }

    /** `StoreItem.update(name, description=None)`: the name is always replaced, the
        description only when one is given; nothing else changes. */
    method Update(name: string, description: Option<string>)
      modifies this
      ensures this.name == name
      ensures this.description == if description.Some? then description else old(this.description)
      ensures modifiedAt == old(modifiedAt)
    {
      this.name := name;
      if description.Some? {
        this.description := description;
      }
    }

    /** `StoreItem.json()`: the key, the current name and description, the owning store
        and both timestamps. */
    function Json(): (j: ItemJson)
      reads this
      ensures j.id == id && j.name == name && j.description == description && j.storeId == storeId
      ensures j.createdAt == createAt && j.modifiedAt == modifiedAt
    {
      ItemJson(id, name, description, storeId, createAt, modifiedAt)
    }
  }

  function StoreKey(s: Store): nat { s.id }
  function ItemKey(it: StoreItem): nat { it.id }
  function ItemCreatedAt(it: StoreItem): nat { it.createAt }
  function StoreOwner(s: Store): nat { s.userId }
  function ItemStoreId(it: StoreItem): nat { it.storeId }

  /** A row of the `blacklist_token` table. */
  datatype BlacklistEntry = BlacklistEntry(token: string, blacklistedOn: nat)

  /** `BlackListToken.query.filter_by(token=token).first()`. */
  function FirstWithToken(entries: seq<BlacklistEntry>, token: string): (r: Option<BlacklistEntry>)
    ensures r.Some? ==> r.value in entries && r.value.token == token
    ensures r.None? ==> forall i :: 0 <= i < |entries| ==> entries[i].token != token
  {
    if entries == [] then None
    else if entries[0].token == token then Some(entries[0])
    else FirstWithToken(entries[1..], token)
  }

  /** `BlackListToken.check_blacklist(token)`: true exactly when some entry holds
      precisely this token string. */
  function CheckBlacklist(entries: seq<BlacklistEntry>, token: string): (r: bool)
    ensures r <==> exists i :: 0 <= i < |entries| && entries[i].token == token
  {
    FirstWithToken(entries, token).Some?
  }

  /** Listing one more entry adds exactly that entry's token to the blacklist:
      membership of every other string is as before. */
  lemma {:induction false} CheckBlacklistAppend(entries: seq<BlacklistEntry>, e: BlacklistEntry, t: string)
    ensures CheckBlacklist(entries + [e], t) <==> CheckBlacklist(entries, t) || e.token == t
  {
    var all := entries + [e];
    if CheckBlacklist(entries, t) {
      var i :| 0 <= i < |entries| && entries[i].token == t;
      assert all[i] == entries[i];
    } else if e.token == t {
      assert all[|entries|] == e;
    } else {
      forall i | 0 <= i < |all| ensures all[i].token != t {
        if i < |entries| {
          assert all[i] == entries[i];
        }
      }
    }
  }

  /** The `unique=True` constraint on the token column. */
  ghost predicate TokensUnique(entries: seq<BlacklistEntry>) {
    forall i, j :: 0 <= i < j < |entries| ==> entries[i].token != entries[j].token
  }

  /** The database session: the three tables in primary-key order, the next key each
      table hands out, the latest time the injected clock has shown, and the page size
      (`STORE_AND_ITEMS_PER_PAGE`). */
  class Database {
    const perPage: nat
    var stores: seq<Store>
    var items: seq<StoreItem>
    var blacklist: seq<BlacklistEntry>
    var nextStoreId: nat
    var nextItemId: nat
    var clock: nat

    ghost predicate Valid()
      reads this
    {
      && perPage > 0
      && KeysIncreasing(stores, StoreKey)
      && (forall i :: 0 <= i < |stores| ==> stores[i].id < nextStoreId)
      && KeysIncreasing(items, ItemKey)
      && (forall i :: 0 <= i < |items| ==> items[i].id < nextItemId)
      && KeysNondecreasing(items, ItemCreatedAt)
      && (forall i :: 0 <= i < |items| ==> items[i].createAt <= clock)
      && TokensUnique(blacklist)
    }

    /** Empty tables; keys start at 1. */
    constructor (perPage: nat)
      requires perPage > 0
      ensures Valid() && this.perPage == perPage
      ensures stores == [] && items == [] && blacklist == []
      ensures nextStoreId == 1 && nextItemId == 1 && clock == 0
    {
      this.perPage := perPage;
      stores, items, blacklist := [], [], [];
      nextStoreId, nextItemId, clock := 1, 1, 0;
    }

    /** `Store.save()`: the new row goes after every existing one. */
    method SaveStore(s: Store)
      requires Valid() && s.id == nextStoreId
      modifies this
      ensures Valid()
      ensures stores == old(stores) + [s] && nextStoreId == old(nextStoreId) + 1
      ensures items == old(items) && blacklist == old(blacklist)
      ensures nextItemId == old(nextItemId) && clock == old(clock)
    {
      stores := stores + [s];
      nextStoreId := nextStoreId + 1;
    }

    /** `Store.delete()`: the row with this store's key is removed; no other table changes. */
    method DeleteStore(s: Store)
      requires Valid() && s in stores
      modifies this
      ensures Valid()
      ensures stores == RemoveKey(old(stores), StoreKey, s.id)
      ensures |stores| == |old(stores)| - 1
      ensures items == old(items) && blacklist == old(blacklist)
      ensures nextStoreId == old(nextStoreId) && nextItemId == old(nextItemId) && clock == old(clock)
    {
      var i :| 0 <= i < |stores| && stores[i] == s;
      RemoveKeyAt(stores, StoreKey, i);
      RemoveKeyIncreasing(stores, StoreKey, s.id);
      var rest := RemoveKey(stores, StoreKey, s.id);
      forall j | 0 <= j < |rest| ensures rest[j].id < nextStoreId {
        RemoveKeyMember(stores, StoreKey, s.id, rest[j]);
      }
      stores := rest;
    }

    /** `StoreItem.save()`: the new row is the newest one. */
    method SaveItem(it: StoreItem)
      requires Valid() && it.id == nextItemId && clock <= it.createAt
      modifies this
      ensures Valid()
      ensures items == old(items) + [it] && nextItemId == old(nextItemId) + 1
      ensures clock == it.createAt
      ensures stores == old(stores) && blacklist == old(blacklist) && nextStoreId == old(nextStoreId)
    {
      items := items + [it];
      nextItemId := nextItemId + 1;
      clock := it.createAt;
    }

    /** `StoreItem.delete()`. */
    method DeleteItem(it: StoreItem)
      requires Valid() && it in items
      modifies this
      ensures Valid()
      ensures items == RemoveKey(old(items), ItemKey, it.id)
      ensures |items| == |old(items)| - 1
      ensures stores == old(stores) && blacklist == old(blacklist)
      ensures nextStoreId == old(nextStoreId) && nextItemId == old(nextItemId) && clock == old(clock)
    {
      var i :| 0 <= i < |items| && items[i] == it;
      RemoveKeyAt(items, ItemKey, i);
      RemoveKeyIncreasing(items, ItemKey, it.id);
      RemoveKeyNondecreasing(items, ItemKey, it.id, ItemCreatedAt);
      var rest := RemoveKey(items, ItemKey, it.id);
      forall j | 0 <= j < |rest| ensures rest[j].id < nextItemId && rest[j].createAt <= clock {
        RemoveKeyMember(items, ItemKey, it.id, rest[j]);
      }
      items := rest;
    }

    /** `BlackListToken(token).blacklist()` at time `now`. The token column is unique and
        the insert is not guarded, so a token that is already listed makes the commit
        fail (`ok` is false) and the table keeps its rows. */
    method Blacklist(token: string, now: nat) returns (ok: bool)
      requires Valid() && clock <= now
      modifies this
      ensures Valid()
      ensures ok <==> !CheckBlacklist(old(blacklist), token)
      ensures blacklist == if ok then old(blacklist) + [BlacklistEntry(token, now)] else old(blacklist)
      ensures CheckBlacklist(blacklist, token)
      ensures forall t :: t != token ==> CheckBlacklist(blacklist, t) == CheckBlacklist(old(blacklist), t)
      ensures stores == old(stores) && items == old(items) && clock == now
      ensures nextStoreId == old(nextStoreId) && nextItemId == old(nextItemId)
    {
      clock := now;
      ok := !CheckBlacklist(blacklist, token);
      if ok {
        var e := BlacklistEntry(token, now);
        forall t ensures CheckBlacklist(blacklist + [e], t) <==> CheckBlacklist(blacklist, t) || t == token {
          CheckBlacklistAppend(blacklist, e, t);
        }
        blacklist := blacklist + [e];
      }
    }
  }
}
