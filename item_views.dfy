/** The `items` blueprint: list, show, add, edit and delete the items of one of the current
    user's stores. Every handler first passes `store_required` (the `store_id` path
    parameter must be an integer). Its error handlers turn `abort(404)` into "Item not
    found" and a malformed JSON body into "Bad request". */
module ItemViews {
  import opened Basics
  import opened Tables
  import opened Models
  import opened Pagination
  import opened Responses
  import opened ItemUtils

  const ItemNotFoundMessage: string := "Item not found"
  const BadRequestMessage: string := "Bad request"
  const InvalidItemIdMessage: string := "Provide a valid item Id"
  const JsonRequiredMessage: string := "Content-type must be application/json"
  const NoNameMessage: string := "No name or value attribute found"

  function NoStoreMessage(storeId: string): string {
    "User has no Store with Id " + storeId
  }

  /** The JSON form of each item of a page, in order. */
  method ItemJsonList(items: seq<StoreItem>) returns (r: seq<ItemJson>)
    ensures |r| == |items|
    ensures forall i :: 0 <= i < |r| ==> r[i] == items[i].Json()
  {
    r := [];
    for n := 0 to |items|
      invariant |r| == n
      invariant forall i :: 0 <= i < n ==> r[i] == items[i].Json()
    {
      r := r + [items[n].Json()];
    }
  }

  /** `GET /storelists/<store_id>/items/`: one page of the store's items, newest first,
      searched by name when `q` is given; `count` is the number of matching items, or 0 on
      a page that shows none. */
  method GetItems(db: Database, userId: nat, storeId: string, page: int, q: Option<string>)
    returns (resp: Response)
    requires db.Valid()
    ensures ParseId(storeId).None? ==> resp == Failed("Provide a valid Store Id", 401)
    ensures ParseId(storeId).Some? && GetUserStore(db.stores, userId, ParseId(storeId).value).None? ==>
              resp == Failed("Store not found", 404)
    ensures resp.ItemList? <==> ParseId(storeId).Some? && GetUserStore(db.stores, userId, ParseId(storeId).value).Some?
    ensures resp.ItemList? ==>
              var store := GetUserStore(db.stores, userId, ParseId(storeId).value).value;
              var l := GetPaginatedItems(db.items, store, storeId, page, q, db.perPage);
              && |resp.items| == |l.items|
              && (forall i :: 0 <= i < |l.items| ==> resp.items[i] == l.items[i].Json())
              && resp.previous == l.previous && resp.next == l.next
              && resp.count == if l.items == [] then 0 else |StoreItems(db.items, store.id, SearchTerm(q))|
  {
    var refused := StoreRequired(storeId);
    if refused.Some? {
      return refused.value;
    }
    var found := GetUserStore(db.stores, userId, ParseId(storeId).value);
    if found.None? {
      return Failed("Store not found", 404);
    }
    var l := GetPaginatedItems(db.items, found.value, storeId, page, q, db.perPage);
    if l.items != [] {
      var result := ItemJsonList(l.items);
      return ItemList(result, l.previous, l.next, l.pagination.total);
    }
    return ItemList([], l.previous, l.next, 0);
  }

  /** `GET /storelists/<store_id>/items/<item_id>/`: an item is shown only through the
      store it belongs to, and only to that store's owner. */
  method GetItem(db: Database, userId: nat, storeId: string, itemId: string) returns (resp: Response)
    requires db.Valid()
    ensures ParseId(storeId).None? ==> resp == Failed("Provide a valid Store Id", 401)
    ensures ParseId(storeId).Some? && ParseId(itemId).None? ==> resp == Failed(InvalidItemIdMessage, 202)
    ensures ParseId(storeId).Some? && ParseId(itemId).Some?
            && GetUserStore(db.stores, userId, ParseId(storeId).value).None? ==>
              resp == Failed(NoStoreMessage(storeId), 404)
    ensures resp.ItemFound? ==>
              && resp.status == "success" && resp.code == 200
              && exists i, j :: && 0 <= i < |db.stores| && 0 <= j < |db.items|
                                && db.stores[i].userId == userId && Some(db.stores[i].id as int) == ParseId(storeId)
                                && db.items[j].storeId == db.stores[i].id && Some(db.items[j].id as int) == ParseId(itemId)
                                && resp.item == db.items[j].Json()
    ensures ParseId(storeId).Some? && ParseId(itemId).Some? && !resp.ItemFound?
            && GetUserStore(db.stores, userId, ParseId(storeId).value).Some? ==>
              resp == Failed(ItemNotFoundMessage, 404)
    ensures forall i, j :: && 0 <= i < |db.stores| && 0 <= j < |db.items|
                           && db.stores[i].userId == userId && Some(db.stores[i].id as int) == ParseId(storeId)
                           && db.items[j].storeId == db.stores[i].id && Some(db.items[j].id as int) == ParseId(itemId) ==>
              resp == ItemFound("success", db.items[j].Json(), 200)
  {
    var refused := StoreRequired(storeId);
    if refused.Some? {
      return refused.value;
    }
    var id := ParseId(itemId);
    if id.None? {
      return Failed(InvalidItemIdMessage, 202);
    }
    var store := GetUserStore(db.stores, userId, ParseId(storeId).value);
    forall i, j | && 0 <= i < |db.stores| && 0 <= j < |db.items|
                  && db.stores[i].userId == userId && db.stores[i].id == ParseId(storeId).value
                  && db.items[j].storeId == db.stores[i].id && db.items[j].id == id.value
      ensures store == Some(db.stores[i]) && GetStoreItem(db.items, db.stores[i].id, id.value) == Some(db.items[j])
    {
      OwnStoreFound(db.stores, userId, db.stores[i]);
      ItemFoundOnlyInItsStore(db.items, db.items[j], db.stores[i].id);
    }
    if store.None? {
      return Failed(NoStoreMessage(storeId), 404);
    }
    var item := GetStoreItem(db.items, store.value.id, id.value);
    if item.None? {
      return Failed(ItemNotFoundMessage, 404);
    }
    ghost var i :| 0 <= i < |db.stores| && db.stores[i] == store.value;
    ghost var j :| 0 <= j < |db.items| && db.items[j] == item.value;
    resp := ItemFound("success", item.value.Json(), 200);
  }

  /** `POST /storelists/<store_id>/items/`: a JSON request with a non-empty `name` adds an
      item under the lower-cased name, with the given description if any, to the user's
      store with this id; it becomes the newest item. */
  method PostItem(db: Database, userId: nat, storeId: string, req: Request, now: nat) returns (resp: Response)
    requires db.Valid() && db.clock <= now
    modifies db
    ensures db.Valid()
    ensures ParseId(storeId).None? ==> resp == Failed("Provide a valid Store Id", 401)
    ensures ParseId(storeId).Some? && !IsJson(req) ==> resp == Failed(JsonRequiredMessage, 401)
    ensures ParseId(storeId).Some? && IsJson(req) && req.body.Malformed? ==> resp == Failed(BadRequestMessage, 400)
    ensures ParseId(storeId).Some? && IsJson(req) && req.body.Object? && !Truthy(BodyField(req, "name")) ==>
              resp == Failed(NoNameMessage, 401)
    ensures ParseId(storeId).Some? && IsJson(req) && Truthy(BodyField(req, "name"))
            && GetUserStore(db.stores, userId, ParseId(storeId).value).None? ==>
              resp == Failed(NoStoreMessage(storeId), 202)
    ensures resp.ItemFound? <==>
              ParseId(storeId).Some? && IsJson(req) && Truthy(BodyField(req, "name"))
              && GetUserStore(db.stores, userId, ParseId(storeId).value).Some?
    ensures resp.ItemFound? ==>
              && |db.items| == |old(db.items)| + 1
              && db.items[..|old(db.items)|] == old(db.items)
              && var it := db.items[|old(db.items)|];
              && fresh(it) && it.id == old(db.nextItemId)
              && it.storeId == GetUserStore(db.stores, userId, ParseId(storeId).value).value.id
              && it.name == Lower(BodyField(req, "name").value)
              && it.description == BodyField(req, "description")
              && it.createAt == now && it.modifiedAt == now && db.clock == now
              && resp == ItemFound("success", it.Json(), 200)
    ensures !resp.ItemFound? ==> db.items == old(db.items) && db.nextItemId == old(db.nextItemId) && db.clock == old(db.clock)
    ensures db.stores == old(db.stores) && db.blacklist == old(db.blacklist) && db.nextStoreId == old(db.nextStoreId)
  {
    var refused := StoreRequired(storeId);
    if refused.Some? {
      return refused.value;
    }
    if !IsJson(req) {
      return Failed(JsonRequiredMessage, 401);
    }
    if req.body.Malformed? {
      return Failed(BadRequestMessage, 400);
    }
    var name := Field(req.body.fields, "name");
    if !Truthy(name) {
      return Failed(NoNameMessage, 401);
    }
    var store := GetUserStore(db.stores, userId, ParseId(storeId).value);
    if store.None? {
      return Failed(NoStoreMessage(storeId), 202);
    }
    var it := new StoreItem(Lower(name.value), Field(req.body.fields, "description"), store.value.id, now, db.nextItemId);
    db.SaveItem(it);
    resp := ItemFound("success", it.Json(), 200);
  }

  /** `PUT /storelists/<store_id>/items/<item_id>/`: renames an item of the user's store,
      and replaces its description when one is given. Unlike the other handlers the body
      is read only after the item has been found, and an empty JSON object is refused
      before the name is looked at. The name is stored as given and `modified_at` is
      left as it was. */
  method EditItem(db: Database, userId: nat, storeId: string, itemId: string, req: Request)
    returns (resp: Response)
    requires db.Valid()
    modifies db.items
    ensures ParseId(storeId).None? ==> resp == Failed("Provide a valid Store Id", 401)
    ensures ParseId(storeId).Some? && !IsJson(req) ==> resp == Failed(JsonRequiredMessage, 401)
    ensures ParseId(storeId).Some? && IsJson(req) && ParseId(itemId).None? ==>
              resp == Failed(InvalidItemIdMessage, 202)
    ensures ParseId(storeId).Some? && IsJson(req) && ParseId(itemId).Some?
            && GetUserStore(db.stores, userId, ParseId(storeId).value).None? ==>
              resp == Failed(NoStoreMessage(storeId), 202)
    ensures ParseId(storeId).Some? && IsJson(req) && ParseId(itemId).Some?
            && GetUserStore(db.stores, userId, ParseId(storeId).value).Some?
            && GetStoreItem(db.items, GetUserStore(db.stores, userId, ParseId(storeId).value).value.id,
                            ParseId(itemId).value).None? ==>
              resp == Failed(ItemNotFoundMessage, 404)
    ensures ParseId(storeId).Some? && IsJson(req) && ParseId(itemId).Some?
            && GetUserStore(db.stores, userId, ParseId(storeId).value).Some?
            && GetStoreItem(db.items, GetUserStore(db.stores, userId, ParseId(storeId).value).value.id,
                            ParseId(itemId).value).Some? ==>
              && (req.body.Malformed? ==> resp == Failed(BadRequestMessage, 400))
              && (req.body == Object(map[]) ==> resp == Failed("No attributes specified in the request", 401))
              && (req.body.Object? && req.body.fields != map[] && !Truthy(BodyField(req, "name")) ==>
                    resp == Failed(NoNameMessage, 401))
              && (req.body.Object? && req.body.fields != map[] && Truthy(BodyField(req, "name")) ==>
                    resp.ItemFound?)
    ensures resp.ItemFound? ==>
              var it := GetStoreItem(db.items, GetUserStore(db.stores, userId, ParseId(storeId).value).value.id,
                                     ParseId(itemId).value).value;
              && it.name == BodyField(req, "name").value
              && it.description == (if BodyField(req, "description").Some? then BodyField(req, "description")
                                    else old(it.description))
              && resp == ItemFound("success", it.Json(), 200)
    ensures forall i :: 0 <= i < |db.items| ==> db.items[i].modifiedAt == old(db.items[i].modifiedAt)
    ensures forall i :: 0 <= i < |db.items| && !(resp.ItemFound? && Some(db.items[i].id as int) == ParseId(itemId)) ==>
              db.items[i].name == old(db.items[i].name) && db.items[i].description == old(db.items[i].description)
  {
    var refused := StoreRequired(storeId);
    if refused.Some? {
      return refused.value;
    }
    if !IsJson(req) {
      return Failed(JsonRequiredMessage, 401);
    }
    var id := ParseId(itemId);
    if id.None? {
      return Failed(InvalidItemIdMessage, 202);
    }
    var store := GetUserStore(db.stores, userId, ParseId(storeId).value);
    if store.None? {
      return Failed(NoStoreMessage(storeId), 202);
    }
    var item := GetStoreItem(db.items, store.value.id, id.value);
    if item.None? {
      return Failed(ItemNotFoundMessage, 404);
    }
    if req.body.Malformed? {
      return Failed(BadRequestMessage, 400);
    }
    if req.body.fields == map[] {
      return Failed("No attributes specified in the request", 401);
    }
    var name := Field(req.body.fields, "name");
    if !Truthy(name) {
      return Failed(NoNameMessage, 401);
    }
    var it := item.value;
    it.Update(name.value, Field(req.body.fields, "description"));
    resp := ItemFound("success", it.Json(), 200);
  }

  /** `DELETE /storelists/<store_id>/items/<item_id>/`: removes the item from the user's
      store; nothing else changes. */
  method DeleteItem(db: Database, userId: nat, storeId: string, itemId: string) returns (resp: Response)
    requires db.Valid()
    modifies db
    ensures db.Valid()
    ensures ParseId(storeId).None? ==> resp == Failed("Provide a valid Store Id", 401)
    ensures ParseId(storeId).Some? && ParseId(itemId).None? ==> resp == Failed(InvalidItemIdMessage, 202)
    ensures ParseId(storeId).Some? && ParseId(itemId).Some?
            && GetUserStore(db.stores, userId, ParseId(storeId).value).None? ==>
              resp == Failed(NoStoreMessage(storeId), 202)
    ensures ParseId(storeId).Some? && ParseId(itemId).Some?
            && GetUserStore(db.stores, userId, ParseId(storeId).value).Some?
            && GetStoreItem(old(db.items), GetUserStore(db.stores, userId, ParseId(storeId).value).value.id,
                            ParseId(itemId).value).None? ==>
              resp == Failed(ItemNotFoundMessage, 404)
    ensures Code(resp) == 200 <==>
              && ParseId(storeId).Some? && ParseId(itemId).Some?
              && GetUserStore(db.stores, userId, ParseId(storeId).value).Some?
              && GetStoreItem(old(db.items), GetUserStore(db.stores, userId, ParseId(storeId).value).value.id,
                              ParseId(itemId).value).Some?
    ensures Code(resp) == 200 ==>
              && resp == Message("success", "Successfully deleted the item from store with Id " + storeId, 200)
              && db.items == RemoveKey(old(db.items), ItemKey, ParseId(itemId).value)
              && |db.items| == |old(db.items)| - 1
    ensures Code(resp) != 200 ==> db.items == old(db.items)
    ensures db.stores == old(db.stores) && db.blacklist == old(db.blacklist)
    ensures db.nextStoreId == old(db.nextStoreId) && db.nextItemId == old(db.nextItemId) && db.clock == old(db.clock)
  {
    var refused := StoreRequired(storeId);
    if refused.Some? {
      return refused.value;
    }
    var id := ParseId(itemId);
    if id.None? {
      return Failed(InvalidItemIdMessage, 202);
    }
    var store := GetUserStore(db.stores, userId, ParseId(storeId).value);
    if store.None? {
      return Failed(NoStoreMessage(storeId), 202);
    }
    var item := GetStoreItem(db.items, store.value.id, id.value);
    if item.None? {
      return Failed(ItemNotFoundMessage, 404);
    }
    db.DeleteItem(item.value);
    resp := Message("success", "Successfully deleted the item from store with Id " + storeId, 200);
  }
}
