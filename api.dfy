/**
 * The REST client (api.ts): request headers, the user id used in URLs, response
 * classification, the storage effects of login and logout, and the requests the
 * create and update helpers make. The network is out of the model: a response is
 * an input value, and a request is the value the client would pass to `fetch`.
 */
module Api {
  import opened Wrappers
  import opened Js
  import Storage
  import Text
  import Forms

  const BaseUrl := "http://localhost:8000/api"

  /** The headers `getHeaders(isMultipart)` returns. */
  function Headers(items: map<string, string>, isMultipart: bool): (r: map<string, string>)
    ensures "Accept" in r && r["Accept"] == "application/json"
    ensures "Content-Type" in r <==> !isMultipart
    ensures "Content-Type" in r ==> r["Content-Type"] == "application/json"
    ensures "Authorization" in r <==> "token" in items && items["token"] != ""
    ensures "Authorization" in r ==> r["Authorization"] == "Bearer " + items["token"]
    ensures r.Keys <= {"Accept", "Content-Type", "Authorization"}
  {
    map["Accept" := "application/json"]
    + (if !isMultipart then map["Content-Type" := "application/json"] else map[])
    + (if "token" in items && items["token"] != "" then map["Authorization" := "Bearer " + items["token"]] else map[])
  }

  /** `getHeaders`: the header object, built by conditional assignment. */
  method GetHeaders(storage: Storage.LocalStorage, isMultipart: bool) returns (headers: map<string, string>)
    ensures headers == Headers(storage.items, isMultipart)
  {
    headers := map["Accept" := "application/json"];
    if !isMultipart {
      headers := headers["Content-Type" := "application/json"];
    }
    var token := storage.GetItem("token");
    if token.Some? && token.value != "" {
      headers := headers["Authorization" := "Bearer " + token.value];
    }
  }

  /** `getUserId`: the stored 'user-id', or '' when there is none. */
  function GetUserId(items: map<string, string>): (r: string)
    ensures "user-id" in items ==> r == items["user-id"]
    ensures "user-id" !in items ==> r == ""
  {
    Storage.Get(items, "user-id").GetOr("")
  }

  /** `userId || getUserId()`, in `getCars` and `getCarouselItems`. */
  function ResolveUserId(userId: Option<string>, items: map<string, string>): (r: string)
    ensures userId.Some? && userId.value != "" ==> r == userId.value
    ensures userId.None? || userId.value == "" ==> r == GetUserId(items)
  {
    if userId.Some? && userId.value != "" then userId.value else GetUserId(items)
  }

  function CarsUrl(userId: Option<string>, items: map<string, string>): string {
    BaseUrl + "/users/" + ResolveUserId(userId, items) + "/cars"
  }

  function CarouselItemsUrl(userId: Option<string>, items: map<string, string>): string {
    BaseUrl + "/users/" + ResolveUserId(userId, items) + "/carousel-items"
  }

  /** With no user id passed, the stored one is used; with nothing stored the segment is empty. */
  lemma UrlsFallBackToStoredId(items: map<string, string>)
    ensures CarsUrl(None, items) == BaseUrl + "/users/" + GetUserId(items) + "/cars"
    ensures "user-id" !in items ==> CarsUrl(Some(""), items) == BaseUrl + "/users//cars"
  {
  }

  /**
   * A response as `fetch` delivers it: its `ok` flag, its status and its body as
   * `response.json()` would parse it (None when the body is not JSON).
   */
  datatype HttpResponse = HttpResponse(ok: bool, status: nat, body: Option<JsValue>)

  /**
   * `String(v)`, as `new Error(v)` and `localStorage.setItem` apply it: a string is
   * kept, any other value is converted by `str`.
   */
  function AsString(v: JsValue, str: JsValue -> string): string {
    if v.Str? then v.s else str(v)
  }

  /**
   * `handleResponse`. A failed response throws an `Error` with the body's `message`
   * when it is truthy, else 'Request failed with status N' (an unparseable body
   * counts as `{}`, and a JSON `null` body makes the `message` read itself throw).
   * A successful 204 gives `null`; any other success gives the parsed body, and a
   * body that is not JSON rejects.
   */
  function HandleResponse(resp: HttpResponse, str: JsValue -> string): (r: Completion<JsValue>)
    ensures resp.ok && resp.status == 204 ==> r == Normal(Null)
    ensures resp.ok && resp.status != 204 && resp.body.Some? ==> r == Normal(resp.body.value)
    ensures resp.ok && resp.status != 204 && resp.body.None? ==> r == Thrown(SyntaxError)
    ensures !resp.ok ==> r.Thrown?
    ensures !resp.ok && (resp.body.None? || !HasTruthyMessage(resp.body.value)) && !NullishBody(resp) ==>
      r == Thrown(Error("Request failed with status " + Text.NatToString(resp.status)))
    ensures !resp.ok && resp.body.Some? && HasTruthyMessage(resp.body.value) ==>
      r == Thrown(Error(AsString(resp.body.value.fields["message"], str)))
  {
    if !resp.ok then
      var errorData := if resp.body.Some? then resp.body.value else Obj(map[]);
      match Prop(errorData, "message")
      case Thrown(e) => Thrown(e)
      case Normal(m) =>
        if Truthy(m) then Thrown(Error(AsString(m, str)))
        else Thrown(Error("Request failed with status " + Text.NatToString(resp.status)))
    else if resp.status == 204 then Normal(Null)
    else if resp.body.Some? then Normal(resp.body.value)
    else Thrown(SyntaxError)
  }

  predicate HasTruthyMessage(v: JsValue) {
    v.Obj? && "message" in v.fields && Truthy(v.fields["message"])
  }

  /** The body parsed to `null` or an absent value, on which reading `message` throws. */
  predicate NullishBody(resp: HttpResponse) {
    resp.body.Some? && (resp.body.value.Null? || resp.body.value.Undefined?)
  }

  /** Every failed response is thrown, never returned, whatever its body. */
  lemma FailedResponsesThrow(resp: HttpResponse, str: JsValue -> string)
    requires !resp.ok
    ensures HandleResponse(resp, str).Thrown?
    ensures NullishBody(resp) <==> HandleResponse(resp, str) == Thrown(TypeError)
  {
  }

  /**
   * `api.login` after the request: the token is stored exactly when the result has a
   * truthy `access_token`, and the user, serialised by `json`, only then and only
   * when it is truthy too. A failed response or a `null` result stores nothing.
   */
  method Login(storage: Storage.LocalStorage, resp: HttpResponse,
               str: JsValue -> string, json: JsValue -> string) returns (r: Completion<JsValue>)
    modifies storage
    ensures storage.items == LoginEffect(old(storage.items), HandleResponse(resp, str), str, json)
    ensures r == LoginResult(HandleResponse(resp, str))
  {
    var result := HandleResponse(resp, str);
    if result.Thrown? {
      return result;
    }
    var token := Prop(result.value, "access_token");
    if token.Thrown? {
      return Thrown(token.error);
    }
    if Truthy(token.value) {
      storage.SetItem("token", AsString(token.value, str));
      var user := Prop(result.value, "user");
      if user.Normal? && Truthy(user.value) {
        storage.SetItem("user", json(user.value));
      }
    }
    return result;
  }

  /** The value `login` resolves to: the result, unless reading its token throws. */
  function LoginResult(result: Completion<JsValue>): (r: Completion<JsValue>)
    ensures result.Thrown? ==> r == result
    ensures result.Normal? && (result.value.Null? || result.value.Undefined?) ==> r == Thrown(TypeError)
    ensures result.Normal? && !result.value.Null? && !result.value.Undefined? ==> r == result
  {
    if result.Thrown? then result
    else if result.value.Null? || result.value.Undefined? then Thrown(TypeError)
    else result
  }

  /** The storage after `login`. */
  function LoginEffect(items: map<string, string>, result: Completion<JsValue>,
                       str: JsValue -> string, json: JsValue -> string): (r: map<string, string>)
    ensures !StoresToken(result) ==> r == items
    ensures forall k :: k in items && k != "token" && k != "user" ==> k in r && r[k] == items[k]
    ensures forall k :: k in r && k != "token" && k != "user" ==> k in items
    ensures StoresToken(result) ==> "token" in r && r["token"] == AsString(result.value.fields["access_token"], str)
    ensures StoresToken(result) && StoresUser(result) ==> "user" in r && r["user"] == json(result.value.fields["user"])
    ensures StoresToken(result) && !StoresUser(result) ==> ("user" in r <==> "user" in items)
    ensures StoresToken(result) && !StoresUser(result) && "user" in items ==> r["user"] == items["user"]
  {
    if StoresToken(result) then
      var withToken := items["token" := AsString(result.value.fields["access_token"], str)];
      if StoresUser(result) then withToken["user" := json(result.value.fields["user"])] else withToken
    else items
  }

  predicate StoresToken(result: Completion<JsValue>) {
    result.Normal? && result.value.Obj? && "access_token" in result.value.fields
    && Truthy(result.value.fields["access_token"])
  }

  predicate StoresUser(result: Completion<JsValue>) {
    result.Normal? && result.value.Obj? && "user" in result.value.fields && Truthy(result.value.fields["user"])
  }

  /** A failed login leaves storage exactly as it was. */
  lemma FailedLoginStoresNothing(items: map<string, string>, resp: HttpResponse,
                                 str: JsValue -> string, json: JsValue -> string)
    requires !resp.ok
    ensures LoginEffect(items, HandleResponse(resp, str), str, json) == items
  {
    FailedResponsesThrow(resp, str);
  }

  /**
   * `api.logout` after the request: 'token' and 'user' are removed before the
   * response is classified, so even an error status clears them.
   */
  method Logout(storage: Storage.LocalStorage, resp: HttpResponse, str: JsValue -> string)
    returns (r: Completion<JsValue>)
    modifies storage
    ensures storage.items == old(storage.items) - {"token", "user"}
    ensures r == HandleResponse(resp, str)
  {
    storage.RemoveItem("token");
    storage.RemoveItem("user");
    r := HandleResponse(resp, str);
  }

  /** A request body: a multipart form, or a value sent as JSON. */
  datatype Body = FormBody(entries: seq<Forms.Entry>) | JsonBody(value: JsValue)

  datatype Request = Request(verb: string, url: string, headers: map<string, string>, body: Body)

  /** `createCar`, `updateCar`, `createCarouselItem` and `updateCarouselItem` all POST. */
  function WriteRequest(items: map<string, string>, url: string, body: Body): (r: Request)
    ensures r.verb == "POST" && r.url == url && r.body == body
    ensures "Content-Type" in r.headers <==> body.JsonBody?
    ensures "Accept" in r.headers && "Authorization" in r.headers <==> "token" in items && items["token"] != ""
  {
    Request("POST", url, Headers(items, body.FormBody?), body)
  }

  function CreateCar(items: map<string, string>, body: Body): Request {
    WriteRequest(items, BaseUrl + "/cars", body)
  }

  function UpdateCar(items: map<string, string>, id: string, body: Body): Request {
    WriteRequest(items, BaseUrl + "/cars/" + id, body)
  }

  function CreateCarouselItem(items: map<string, string>, body: Body): Request {
    WriteRequest(items, BaseUrl + "/carousel-items", body)
  }

  function UpdateCarouselItem(items: map<string, string>, id: string, body: Body): Request {
    WriteRequest(items, BaseUrl + "/carousel-items/" + id, body)
  }

  /** Multipart bodies go out without a Content-Type, so the browser sets the boundary. */
  lemma FormBodiesOmitContentType(items: map<string, string>, id: string, entries: seq<Forms.Entry>, v: JsValue)
    ensures "Content-Type" !in CreateCar(items, FormBody(entries)).headers
    ensures "Content-Type" !in UpdateCar(items, id, FormBody(entries)).headers
    ensures "Content-Type" !in CreateCarouselItem(items, FormBody(entries)).headers
    ensures "Content-Type" !in UpdateCarouselItem(items, id, FormBody(entries)).headers
    ensures CreateCar(items, JsonBody(v)).headers["Content-Type"] == "application/json"
    ensures UpdateCarouselItem(items, id, JsonBody(v)).headers["Content-Type"] == "application/json"
  {
  }
}
