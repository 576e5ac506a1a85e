/** What the handlers read from a request and what they send back. A response is kept as
    the JSON document `jsonify` would build together with its HTTP status code. */
module Responses {
  import opened Basics
  import opened Models
  import opened Pagination

  /** The body as `request.get_json()` sees it: not parseable as JSON (Flask answers that
      with a 400 error), or a JSON object. A member that is absent and one that is `null`
      are both `None`, as `data.get(key)` makes them. */
  datatype Body = Malformed | Object(fields: map<string, Option<string>>)

  datatype Request = Request(contentType: string, body: Body)

  const JsonContentType: string := "application/json"

  /** `data.get(key)` on a JSON object. */
  function Field(fields: map<string, Option<string>>, key: string): Option<string> {
    if key in fields then fields[key] else None
  }

  /** `request.content_type == 'application/json'`: an exact comparison, so a content type
      with parameters (`; charset=utf-8`) does not pass. */
  predicate IsJson(req: Request) {
    req.contentType == JsonContentType
  }

  /** A member of the request's JSON object; `None` when the body is not one. */
  function BodyField(req: Request, key: string): Option<string> {
    if req.body.Object? then Field(req.body.fields, key) else None
  }

  datatype Response =
    /** `response(status, message, code)`: `{"status": ..., "message": ...}`. */
    | Message(status: string, message: string, code: nat)
    /** `response_for_created_store(store, code)`: the store's fields beside `"status": "success"`. */
    | StoreCreated(store: StoreJson, code: nat)
    /** `response_for_user_store(store_json)`, answered with 200. */
    | StoreFound(store: StoreJson)
    /** `response_with_pagination` of the store listing, answered with 200. */
    | StoreList(stores: seq<StoreJson>, previous: Option<Link>, next: Option<Link>, count: nat)
    /** `response_with_store_item(status, item, code)`. */
    | ItemFound(status: string, item: ItemJson, code: nat)
    /** `response_with_pagination` of the item listing, answered with 200. */
    | ItemList(items: seq<ItemJson>, previous: Option<Link>, next: Option<Link>, count: nat)

  /** The HTTP status code of a response. */
  function Code(r: Response): nat {
    match r
    case Message(_, _, code) => code
    case StoreCreated(_, code) => code
    case StoreFound(_) => 200
    case StoreList(_, _, _, _) => 200
    case ItemFound(_, _, code) => code
    case ItemList(_, _, _, _) => 200
  }

  function Failed(message: string, code: nat): Response {
    Message("failed", message, code)
  }
}
