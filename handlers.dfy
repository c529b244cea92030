/**
 * The decision logic inside the HTTP handlers of src/handlers/handler.rs:
 * the cookie counter of `cookie`, the result shaping of `get_content`, the
 * shared counter of `get_comp` and the cookies `logout` clears. Requests,
 * responses, templates and the CMS client appear only as the values these
 * rules read and produce.
 */
module Handlers {
  import opened Wrappers
  import Int32
  import Json

  /** A `Set-Cookie` the handler adds to its response (actix `Cookie`). */
  datatype Cookie = Cookie(name: string, value: string, httpOnly: bool, secure: bool, maxAge: Option<int>)

  /**
   * `Cookie::new(name, value)`: a session cookie with the given name and
   * value and no attributes, so the browser keeps it until it is replaced.
   */
  function NewCookie(name: string, value: string): (c: Cookie)
    ensures c.name == name && c.value == value
    ensures !c.httpOnly && !c.secure && c.maxAge.None?
  {
    Cookie(name, value, false, false, None)
  }

  // ---------------------------------------------------------------- cookie

  /**
   * The new counter of `cookie`: 0 without a `counter` cookie, otherwise its
   * value parsed as an `i32` (0 when it does not parse) plus one. The `+ 1`
   * overflows at `i32::MAX`, which the precondition excludes.
   */
  function NextCounter(counterCookie: Option<string>): (n: int)
    requires counterCookie.Some? ==> Int32.Parse(counterCookie.value) != Some(Int32.MaxI32)
    ensures Int32.InRange(n)
  {
    match counterCookie
    case None => 0
    case Some(value) =>
      (match Int32.Parse(value) case Some(v) => v case None => 0) + 1
  }

  /** A first visit, without the cookie, starts at zero. */
  lemma CounterStartsAtZero()
    ensures NextCounter(None) == 0
  {
  }

  /** Any cookie value that parses as the `i32` `v` (`+5`, `007`, ...) yields `v + 1`. */
  lemma CounterIncrementsAny(value: string, v: int)
    requires Int32.Parse(value) == Some(v) && v < Int32.MaxI32
    ensures NextCounter(Some(value)) == v + 1
  {
  }

  /** In particular the decimal of `v`, as the previous response stored it, yields `v + 1`. */
  lemma CounterIncrements(v: int)
    requires Int32.InRange(v) && v < Int32.MaxI32
    ensures NextCounter(Some(Int32.ToString(v))) == v + 1
  {
    Int32.ParseToString(v);
    CounterIncrementsAny(Int32.ToString(v), v);
  }

  /** A cookie that is not an `i32` counts as 0, so the next value is 1. */
  lemma CounterRecoversFromGarbage(value: string)
    requires Int32.Parse(value).None?
    ensures NextCounter(Some(value)) == 1
  {
  }

  /** What `cookie` sends back: the new cookie and the template's variables. */
  datatype CookiePage = CookiePage(setCookie: Cookie, name: string, lastName: string, userCounter: string)

  /**
   * `cookie`: the response cookie `counter` and the page's `user_counter` hold
   * the same text, the decimal of the new counter.
   */
  function CookieHandler(counterCookie: Option<string>): (page: CookiePage)
    requires counterCookie.Some? ==> Int32.Parse(counterCookie.value) != Some(Int32.MaxI32)
    ensures page.setCookie == NewCookie("counter", page.userCounter)
    ensures page.userCounter == Int32.ToString(NextCounter(counterCookie))
    ensures Int32.Parse(page.userCounter) == Some(NextCounter(counterCookie))
  {
    var counter := NextCounter(counterCookie);
    Int32.ParseToString(counter);
    CookiePage(NewCookie("counter", Int32.ToString(counter)), "Cookie-Andrzej", "Kowalski", Int32.ToString(counter))
  }

  // ----------------------------------------------------------- get_content

  datatype Slug = Slug(current: string, slugType: string)
  datatype Asset = Asset(reference: string, assetType: string)
  datatype Image = Image(imageType: string, asset: Asset)

  /** A CMS `Item`; only `name` reaches the response. */
  datatype Item = Item(
    itemType: string,
    question: string,
    createdAt: string,
    name: string,
    active: bool,
    description: string,
    id: string,
    updatedAt: string,
    slug: Slug,
    image: Image)

  /**
   * The CMS side of `get_content`: `get_json` on the fetched body and
   * `from_value::<Item>` on one element; errors are their display text.
   */
  datatype Cms = Cms(getJson: string -> Result<Json.Value, string>, fromValue: Json.Value -> Result<Item, string>)

  /** An HTTP response: 200 with a JSON body, or 500 with a text body (empty for `finish()`). */
  datatype Response = OkJson(json: Json.Value) | InternalServerError(body: string)

  /** Deserializes every element, all or nothing; the error is that of the first failing element. */
  function DecodeAll(values: seq<Json.Value>, fromValue: Json.Value -> Result<Item, string>): (r: Result<seq<Item>, string>)
    ensures r.Ok? <==> forall i :: 0 <= i < |values| ==> fromValue(values[i]).Ok?
    ensures r.Ok? ==> |r.value| == |values|
                      && forall i :: 0 <= i < |values| ==> fromValue(values[i]) == Ok(r.value[i])
    ensures r.Err? ==> exists k :: 0 <= k < |values| && fromValue(values[k]) == Err(r.error)
                                   && forall i :: 0 <= i < k ==> fromValue(values[i]).Ok?
    decreases |values|
  {
    if values == [] then Ok([])
    else
      assert forall i :: 0 <= i < |values| - 1 ==> values[1..][i] == values[i + 1];
      match fromValue(values[0])
      case Err(e) => Err(e)
      case Ok(item) =>
        match DecodeAll(values[1..], fromValue)
        case Err(e) => Err(e)
        case Ok(rest) => Ok([item] + rest)
  }

  /** `json!({"name": &item.name})`: an object whose only member is the item's name. */
  function NameOnly(item: Item): (v: Json.Value)
    ensures v.Object? && v.members.Keys == {"name"}
    ensures Json.Index(v, "name") == Json.String(item.name)
  {
    Json.Object(map["name" := Json.String(item.name)])
  }

  function Min(a: int, b: int): int
  {
    if a <= b then a else b
  }

  /** `.iter().map(|item| json!({"name": &item.name})).collect()`: one name object per item, in order. */
  function Project(items: seq<Item>): (r: seq<Json.Value>)
    ensures |r| == |items|
    ensures forall i :: 0 <= i < |items| ==> r[i] == NameOnly(items[i])
    decreases |items|
  {
    if items == [] then [] else [NameOnly(items[0])] + Project(items[1..])
  }

  /** `my_items[0..my_items.len().min(3)]`, projected: the first `min(3, n)` items, in order, each reduced to its name. */
  function Shape(items: seq<Item>): (r: seq<Json.Value>)
    ensures |r| == Min(3, |items|) && |r| <= 3
    ensures forall i :: 0 <= i < |r| ==> r[i] == NameOnly(items[i])
  {
    Project(items[..Min(3, |items|)])
  }

  /**
   * The response of `get_content` for the fetch outcome `fetched`: a failed
   * fetch answers 500 with its message, and a 200 lists at most three names.
   */
  function ContentOutcome(fetched: Result<string, string>, cms: Cms): (r: Response)
    ensures fetched.Err? ==> r == InternalServerError(fetched.error)
    ensures r.OkJson? ==> r.json.Array? && |r.json.items| <= 3
                          && forall i :: 0 <= i < |r.json.items| ==> r.json.items[i].Object?
  {
    match fetched
    case Err(e) => InternalServerError(e)
    case Ok(body) =>
      match cms.getJson(body)
      case Ok(Object(obj)) =>
        if "result" in obj && obj["result"].Array? then
          match DecodeAll(obj["result"].items, cms.fromValue)
          case Err(e) => InternalServerError(e)
          case Ok(items) => OkJson(Json.Array(Shape(items)))
        else InternalServerError("")
      case _ => InternalServerError("")
  }

  /**
   * `get_content`: walks the `result` array, deserializing into `my_items`
   * and returning at the first element that fails.
   */
  method GetContent(fetched: Result<string, string>, cms: Cms) returns (response: Response)
    ensures response == ContentOutcome(fetched, cms)
  {
    var myItems: seq<Item> := [];
    match fetched {
      case Err(e) =>
        return InternalServerError(e);
      case Ok(body) =>
        var parsed := cms.getJson(body);
        if !(parsed.Ok? && parsed.value.Object?) {
          return InternalServerError("");
        }
        var obj := parsed.value.members;
        if !("result" in obj && obj["result"].Array?) {
          return InternalServerError("");
        }
        var itemsValue := obj["result"].items;
        var i := 0;
        while i < |itemsValue|
          invariant 0 <= i <= |itemsValue|
          invariant |myItems| == i
          invariant forall j :: 0 <= j < i ==> cms.fromValue(itemsValue[j]) == Ok(myItems[j])
        {
          match cms.fromValue(itemsValue[i]) {
            case Ok(item) =>
              myItems := myItems + [item];
            case Err(e) =>
              return InternalServerError(e);
          }
          i := i + 1;
        }
        var all := DecodeAll(itemsValue, cms.fromValue);
        assert all.Ok? && |all.value| == |myItems|;
        assert forall j :: 0 <= j < |myItems| ==> all.value[j] == myItems[j];
        assert all.value == myItems;
        response := OkJson(Json.Array(Shape(myItems)));
    }
  }

  /**
   * `get_content` answers 200 exactly when the fetch succeeded, the body is a
   * JSON object whose `result` is an array and every element deserializes;
   * the answer then lists the first `min(3, n)` items by name, in order.
   */
  lemma ContentSucceeds(fetched: Result<string, string>, cms: Cms)
    ensures ContentOutcome(fetched, cms).OkJson? <==>
              && fetched.Ok?
              && cms.getJson(fetched.value).Ok?
              && cms.getJson(fetched.value).value.Object?
              && "result" in cms.getJson(fetched.value).value.members
              && cms.getJson(fetched.value).value.members["result"].Array?
              && forall i :: 0 <= i < |cms.getJson(fetched.value).value.members["result"].items| ==>
                   cms.fromValue(cms.getJson(fetched.value).value.members["result"].items[i]).Ok?
    ensures ContentOutcome(fetched, cms).OkJson? ==>
              var values := cms.getJson(fetched.value).value.members["result"].items;
              var out := ContentOutcome(fetched, cms).json;
              && out.Array?
              && |out.items| == Min(3, |values|)
              && forall i :: 0 <= i < |out.items| ==>
                   out.items[i] == NameOnly(cms.fromValue(values[i]).value)
  {
  }

  /** One element that does not deserialize makes the whole answer an error: no partial list. */
  lemma ContentAllOrNothing(fetched: Result<string, string>, cms: Cms, k: nat)
    requires fetched.Ok? && cms.getJson(fetched.value).Ok? && cms.getJson(fetched.value).value.Object?
    requires "result" in cms.getJson(fetched.value).value.members
    requires cms.getJson(fetched.value).value.members["result"].Array?
    requires k < |cms.getJson(fetched.value).value.members["result"].items|
    requires cms.fromValue(cms.getJson(fetched.value).value.members["result"].items[k]).Err?
    ensures ContentOutcome(fetched, cms).InternalServerError?
  {
  }

  /** A failed fetch, a body that is not an object, or a `result` that is not an array: a 500. */
  lemma ContentMalformed(fetched: Result<string, string>, cms: Cms)
    requires || fetched.Err?
             || !(cms.getJson(fetched.value).Ok? && cms.getJson(fetched.value).value.Object?)
             || "result" !in cms.getJson(fetched.value).value.members
             || !cms.getJson(fetched.value).value.members["result"].Array?
    ensures ContentOutcome(fetched, cms).InternalServerError?
    ensures fetched.Err? ==> ContentOutcome(fetched, cms).body == fetched.error
    ensures fetched.Ok? ==> ContentOutcome(fetched, cms).body == ""
  {
  }

  // -------------------------------------------------------------- get_comp

  /** The variables `get_comp` hands to its template. */
  datatype CompPage = CompPage(name: string, lastName: string, counter: int)

  /** The shared `Counter`, seen one request at a time. */
  class Counter {
    var count: int
    /** Requests served so far. */
    ghost var served: nat

    ghost predicate Valid()
      reads this
    {
      count == served
    }

    /** `Counter { count: Mutex::new(0) }`. */
    constructor ()
      ensures Valid() && served == 0
    {
      count := 0;
      served := 0;
    }

    /**
     * `get_comp`: adds one to the counter and renders the new value. The
     * `i32` addition overflows at `i32::MAX`, which the precondition excludes.
     */
    method GetComp() returns (page: CompPage)
      requires Valid() && count < Int32.MaxI32
      modifies this
      ensures Valid() && served == old(served) + 1
      ensures count == old(count) + 1
      ensures page == CompPage("Increment-Andrey", "Kowalski", served)
    {
      count := count + 1;
      served := served + 1;
      page := CompPage("Increment-Andrey", "Kowalski", count);
    }
  }

  // ---------------------------------------------------------------- logout

  /** A cookie that tells the browser to drop `name`. */
  predicate Cleared(c: Cookie, name: string)
  {
    c.name == name && c.value == "" && c.httpOnly && c.secure && c.maxAge == Some(0)
  }

  const LoggedOutForm: string :=
    "\n            <form hx-boost=\"true\" id=\"form\" hx-post=\"/login\">\n"
    + "              <input type=\"text\" name=\"email\" placeholder=\"email\" />\n"
    + "              <input type=\"password\" name=\"password\" placeholder=\"password\" />\n"
    + "              <button type=\"submit\">Login</button>\n"
    + "              <h1>Logged out</h1>\n"
    + "            </form>\n"
    + "            "

  datatype LogoutResponse = LogoutResponse(cookies: seq<Cookie>, body: string)

  /** `logout`: both token cookies cleared, then the login form. */
  function Logout(): (r: LogoutResponse)
    ensures |r.cookies| == 2
    ensures Cleared(r.cookies[0], "access_token") && Cleared(r.cookies[1], "refresh_token")
    ensures r.body == LoggedOutForm
  {
    var clear := (name: string) => Cookie(name, "", true, true, Some(0));
    LogoutResponse([clear("access_token"), clear("refresh_token")], LoggedOutForm)
  }
}
