/** The `store` blueprint: list, create, show, rename and delete the current user's stores.
    Each handler is a chain of checks, each of which can end the request with an error
    response, followed by at most one change to the database. `userId` is the user
    `token_required` has already authenticated; `now` is the clock. Its error handlers
    turn `abort(404)` into "Store resource cannot be found" and a malformed JSON body into
    "Bad Request". */
module StoreViews {
  import opened Basics
  import opened Tables
  import opened Models
  import opened Pagination
  import opened Responses
  import opened StoreUtils

  const NotFoundMessage: string := "Store resource cannot be found"
  const BadRequestMessage: string := "Bad Request"
  const InvalidIdMessage: string := "Please provide a valid Store Id"

  /** `GET /storelists/`: one page of the user's stores, searched by name when `q` is given;
      `count` is the number of matching stores, or 0 on a page that shows none. */
  method Storelist(db: Database, userId: nat, page: int, q: Option<string>) returns (resp: Response)
    requires db.Valid()
    ensures var l := PaginateStores(db.stores, userId, page, q, db.perPage);
            && resp.StoreList?
            && |resp.stores| == |l.items|
            && (forall i :: 0 <= i < |l.items| ==> resp.stores[i] == l.items[i].Json())
            && resp.previous == l.previous && resp.next == l.next
            && resp.count == if l.items == [] then 0 else |UserStores(db.stores, userId, SearchTerm(q))|
  {
    var l := PaginateStores(db.stores, userId, page, q, db.perPage);
    if l.items != [] {
      var stores := GetUserStoreJsonList(l.items);
      return StoreList(stores, l.previous, l.next, l.pagination.total);
    }
    return StoreList([], l.previous, l.next, 0);
  }

  /** `POST /storelists/`: a JSON request with a non-empty `name` creates a store under the
      lower-cased name, owned by the user, with the next key; every other request is
      refused and changes nothing. */
  method CreateStorelist(db: Database, userId: nat, req: Request, now: nat) returns (resp: Response)
    requires db.Valid()
    modifies db
    ensures db.Valid()
    ensures !IsJson(req) ==> resp == Failed("Content-type must be json", 202)
    ensures IsJson(req) && req.body.Malformed? ==> resp == Failed(BadRequestMessage, 400)
    ensures IsJson(req) && req.body.Object? && !Truthy(BodyField(req, "name")) ==>
              resp == Failed("Missing name attribute", 400)
    ensures resp.StoreCreated? <==> IsJson(req) && Truthy(BodyField(req, "name"))
    ensures resp.StoreCreated? ==>
              && |db.stores| == |old(db.stores)| + 1
              && db.stores[..|old(db.stores)|] == old(db.stores)
              && var s := db.stores[|old(db.stores)|];
              && fresh(s) && s.id == old(db.nextStoreId) && s.userId == userId
              && s.name == Lower(BodyField(req, "name").value)
              && s.createAt == now && s.modifiedAt == now
              && resp == StoreCreated(s.Json(), 201)
    ensures !resp.StoreCreated? ==> db.stores == old(db.stores) && db.nextStoreId == old(db.nextStoreId)
    ensures db.items == old(db.items) && db.blacklist == old(db.blacklist)
    ensures db.nextItemId == old(db.nextItemId) && db.clock == old(db.clock)
  {
    if !IsJson(req) {
      return Failed("Content-type must be json", 202);
    }
    if req.body.Malformed? {
      return Failed(BadRequestMessage, 400);
    }
    var name := Field(req.body.fields, "name");
    if !Truthy(name) {
      return Failed("Missing name attribute", 400);
    }
    var s := new Store(Lower(name.value), userId, now, db.nextStoreId);
    db.SaveStore(s);
    resp := StoreCreated(s.Json(), 201);
  }

  /** `GET /storelists/<store_id>`: the user's store with this id. A store is shown only to
      its owner, and the owner always finds it. */
  method GetStore(db: Database, userId: nat, storeId: string) returns (resp: Response)
    requires db.Valid()
    ensures ParseId(storeId).None? ==> resp == Failed(InvalidIdMessage, 400)
    ensures resp.StoreFound? ==> exists i :: 0 <= i < |db.stores| && db.stores[i].userId == userId
                                       && Some(db.stores[i].id as int) == ParseId(storeId)
                                       && resp.store == db.stores[i].Json()
    ensures forall i :: 0 <= i < |db.stores| && db.stores[i].userId == userId
                        && Some(db.stores[i].id as int) == ParseId(storeId) ==>
              resp == StoreFound(db.stores[i].Json())
    ensures ParseId(storeId).Some? && !resp.StoreFound? ==> resp == Failed("Store not found", 404)
  {
    var id := ParseId(storeId);
    if id.None? {
      return Failed(InvalidIdMessage, 400);
    }
    var found := FirstWith(db.stores, StoreKey, id.value, StoreOwner, userId);
    forall i | 0 <= i < |db.stores| && db.stores[i].userId == userId && db.stores[i].id == id.value
      ensures found == Some(db.stores[i])
    {
      FoundByKey(db.stores, StoreKey, StoreOwner, db.stores[i], userId);
    }
    if found.None? {
      return Failed("Store not found", 404);
    }
    var s := found.value;
    assert exists i :: 0 <= i < |db.stores| && db.stores[i] == s;
    resp := StoreFound(s.Json());
  }

  /** `PUT /storelists/<store_id>`: a JSON request with a non-empty `name` renames the
      user's store with this id to that name exactly as given (no lower-casing, and
      `modified_at` is left as it was); the checks run in the order content type, body,
      name, id, ownership, and a refused request changes nothing. */
  method EditStore(db: Database, userId: nat, storeId: string, req: Request) returns (resp: Response)
    requires db.Valid()
    modifies db.stores
    ensures !IsJson(req) ==> resp == Failed("Content-type must be json", 202)
    ensures IsJson(req) && req.body.Malformed? ==> resp == Failed(BadRequestMessage, 400)
    ensures IsJson(req) && req.body.Object? && !Truthy(BodyField(req, "name")) ==>
              resp == Failed("No attribute or value was specified, nothing was changed", 400)
    ensures IsJson(req) && Truthy(BodyField(req, "name")) && ParseId(storeId).None? ==>
              resp == Failed(InvalidIdMessage, 400)
    ensures IsJson(req) && Truthy(BodyField(req, "name")) && ParseId(storeId).Some?
            && FirstWith(db.stores, StoreKey, ParseId(storeId).value, StoreOwner, userId).None? ==>
              resp == Failed("The Store with Id " + storeId + " does not exist", 404)
    ensures resp.StoreCreated? <==>
              IsJson(req) && Truthy(BodyField(req, "name")) && ParseId(storeId).Some?
              && FirstWith(db.stores, StoreKey, ParseId(storeId).value, StoreOwner, userId).Some?
    ensures resp.StoreCreated? ==>
              var s := FirstWith(db.stores, StoreKey, ParseId(storeId).value, StoreOwner, userId).value;
              && s.name == BodyField(req, "name").value
              && resp == StoreCreated(s.Json(), 201)
    ensures forall i :: 0 <= i < |db.stores| ==> db.stores[i].modifiedAt == old(db.stores[i].modifiedAt)
    ensures forall i :: 0 <= i < |db.stores| && !(resp.StoreCreated? && Some(db.stores[i].id as int) == ParseId(storeId)) ==>
              db.stores[i].name == old(db.stores[i].name)
  {
    if !IsJson(req) {
      return Failed("Content-type must be json", 202);
    }
    if req.body.Malformed? {
      return Failed(BadRequestMessage, 400);
    }
    var name := Field(req.body.fields, "name");
    if !Truthy(name) {
      return Failed("No attribute or value was specified, nothing was changed", 400);
    }
    var id := ParseId(storeId);
    if id.None? {
      return Failed(InvalidIdMessage, 400);
    }
    var found := FirstWith(db.stores, StoreKey, id.value, StoreOwner, userId);
    if found.None? {
      return Failed("The Store with Id " + storeId + " does not exist", 404);
    }
    var s := found.value;
    forall i | 0 <= i < |db.stores| && db.stores[i] == s
      ensures db.stores[i].id == id.value
    {
    }
    s.Update(name.value);
    resp := StoreCreated(s.Json(), 201);
  }

  /** `DELETE /storelists/<store_id>`: the user's store with this id is removed; the other
      stores, the items and the blacklist are untouched. */
  method DeleteStore(db: Database, userId: nat, storeId: string) returns (resp: Response)
    requires db.Valid()
    modifies db
    ensures db.Valid()
    ensures ParseId(storeId).None? ==> resp == Failed(InvalidIdMessage, 400)
    ensures ParseId(storeId).Some? && FirstWith(old(db.stores), StoreKey, ParseId(storeId).value, StoreOwner, userId).None? ==>
              resp == Failed(NotFoundMessage, 404)
    ensures resp == Message("success", "Store Deleted successfully", 200) <==>
              ParseId(storeId).Some? && FirstWith(old(db.stores), StoreKey, ParseId(storeId).value, StoreOwner, userId).Some?
    ensures db.stores == if Code(resp) == 200 then RemoveKey(old(db.stores), StoreKey, ParseId(storeId).value)
                         else old(db.stores)
    ensures Code(resp) == 200 ==> |db.stores| == |old(db.stores)| - 1
    ensures db.items == old(db.items) && db.blacklist == old(db.blacklist)
    ensures db.nextStoreId == old(db.nextStoreId) && db.nextItemId == old(db.nextItemId) && db.clock == old(db.clock)
  {
    var id := ParseId(storeId);
    if id.None? {
      return Failed(InvalidIdMessage, 400);
    }
    var found := FirstWith(db.stores, StoreKey, id.value, StoreOwner, userId);
    if found.None? {
      return Failed(NotFoundMessage, 404);
    }
    db.DeleteStore(found.value);
    resp := Message("success", "Store Deleted successfully", 200);
  }
}
