/**
 * The frontend's HTTP helper (frontend/lib/api.ts): request header construction, the base URL, and how a
 * response becomes either parsed data or an error message. `fetch` itself and `JSON.parse` are inputs.
 */
module Api {
  import opened Wrappers
  import opened Text
  import opened Json

  const CONTENT_TYPE := "content-type"
  const AUTHORIZATION := "authorization"
  const JSON_MEDIA_TYPE := "application/json"
  const FALLBACK_ERROR := "请求失败"
  const DEFAULT_BASE_URL := "http://localhost:8000"

  /** Header initialisation data: name/value pairs in the order they are given. */
  type HeaderPairs = seq<(string, string)>

  /** Adding one pair the way `Headers.append` does: names are case-insensitive, repeats are joined with ", ". */
  function Append(m: map<string, string>, name: string, value: string): (r: map<string, string>)
    ensures r.Keys == m.Keys + {AsciiLower(name)}
    ensures forall k :: k in m && k != AsciiLower(name) ==> r[k] == m[k]
    ensures r[AsciiLower(name)] == if AsciiLower(name) in m then m[AsciiLower(name)] + ", " + value else value
  {
    var k := AsciiLower(name);
    if k in m then m[k := m[k] + ", " + value] else m[k := value]
  }

  /** The entries of `new Headers(init)`, keyed by lower-cased name. */
  function FromPairs(ps: HeaderPairs): map<string, string> {
    if ps == [] then map[] else Append(FromPairs(ps[..|ps| - 1]), ps[|ps| - 1].0, ps[|ps| - 1].1)
  }

  /** A header is present exactly when some given pair names it, in any letter case. */
  lemma {:induction false} FromPairsKeys(ps: HeaderPairs)
    ensures forall k :: k in FromPairs(ps) <==> exists i :: 0 <= i < |ps| && AsciiLower(ps[i].0) == k
  {
    if ps != [] {
      var init := ps[..|ps| - 1];
      FromPairsKeys(init);
      forall k | k in FromPairs(ps)
        ensures exists i :: 0 <= i < |ps| && AsciiLower(ps[i].0) == k
      {
        if k != AsciiLower(ps[|ps| - 1].0) {
          assert k in FromPairs(init);
          var i :| 0 <= i < |init| && AsciiLower(init[i].0) == k;
          assert ps[i] == init[i];
        }
      }
      forall k | exists i :: 0 <= i < |ps| && AsciiLower(ps[i].0) == k
        ensures k in FromPairs(ps)
      {
        var i :| 0 <= i < |ps| && AsciiLower(ps[i].0) == k;
        if i < |ps| - 1 {
          assert init[i] == ps[i];
        }
      }
    }
  }

  /** The values given under header name `k` (in any letter case), in the order they are given. */
  function ValuesFor(ps: HeaderPairs, k: string): seq<string> {
    if ps == [] then []
    else
      var rest := ValuesFor(ps[..|ps| - 1], k);
      if AsciiLower(ps[|ps| - 1].0) == k then rest + [ps[|ps| - 1].1] else rest
  }

  /** Values joined with ", ", the way a repeated header reads back. */
  function JoinComma(vs: seq<string>): string {
    if |vs| <= 1 then (if vs == [] then [] else vs[0])
    else JoinComma(vs[..|vs| - 1]) + ", " + vs[|vs| - 1]
  }

  /**
   * What `new Headers(init)` holds under each name: a name is present exactly when some pair gives it, and its
   * value is every value given under it, in order, joined with ", ".
   */
  lemma {:induction false} FromPairsValues(ps: HeaderPairs, k: string)
    ensures k in FromPairs(ps) <==> ValuesFor(ps, k) != []
    ensures k in FromPairs(ps) ==> FromPairs(ps)[k] == JoinComma(ValuesFor(ps, k))
  {
    if ps != [] {
      var init := ps[..|ps| - 1];
      FromPairsValues(init, k);
      var last := ps[|ps| - 1];
      if AsciiLower(last.0) == k {
        var vs := ValuesFor(init, k) + [last.1];
        assert vs[..|vs| - 1] == ValuesFor(init, k);
      }
    }
  }

  /** A `Headers` object: the entries it holds, keyed by lower-cased name. */
  class Headers {
    var entries: map<string, string>

    constructor (init: HeaderPairs)
      ensures entries == FromPairs(init)
      ensures forall k :: k in entries <==> ValuesFor(init, k) != []
      ensures forall k :: k in entries ==> entries[k] == JoinComma(ValuesFor(init, k))
    {
      entries := FromPairs(init);
      new;
      forall k
        ensures k in entries <==> ValuesFor(init, k) != []
        ensures k in entries ==> entries[k] == JoinComma(ValuesFor(init, k))
      {
        FromPairsValues(init, k);
      }
    }

    /** `headers.has(name)`, case-insensitive. */
    function Has(name: string): (r: bool)
      reads this
      ensures r <==> AsciiLower(name) in entries
    {
      AsciiLower(name) in entries
    }

    /** `headers.set(name, value)`: replaces any value under that name. */
    method Set(name: string, value: string)
      modifies this
      ensures entries == old(entries)[AsciiLower(name) := value]
    {
      entries := entries[AsciiLower(name) := value];
    }
  }

  lemma LowerHeaderNames()
    ensures AsciiLower("Content-Type") == CONTENT_TYPE
    ensures AsciiLower("Authorization") == AUTHORIZATION
  {
  }

  /** JavaScript truthiness of the optional token: absent and "" are both falsy. */
  predicate HasToken(token: Option<string>) {
    token.Some? && token.value != []
  }

  /** The headers `buildHeaders(token, init)` produces, as a function of its inputs. */
  function HeadersSpec(token: Option<string>, init: HeaderPairs): map<string, string> {
    var given := FromPairs(init);
    var withType := if CONTENT_TYPE in given then given else given[CONTENT_TYPE := JSON_MEDIA_TYPE];
    if HasToken(token) then withType[AUTHORIZATION := "Bearer " + token.value] else withType
  }

  /** `buildHeaders`: start from the caller's headers, default the content type, add the bearer token. */
  method BuildHeaders(token: Option<string>, init: HeaderPairs) returns (headers: Headers)
    ensures fresh(headers)
    ensures headers.entries == HeadersSpec(token, init)
  {
    LowerHeaderNames();
    headers := new Headers(init);
    if !headers.Has("Content-Type") {
      headers.Set("Content-Type", JSON_MEDIA_TYPE);
    }
    if HasToken(token) {
      headers.Set("Authorization", "Bearer " + token.value);
    }
  }

  /** The content type is the caller's when one was given, and `application/json` otherwise. */
  lemma ContentTypeRule(token: Option<string>, init: HeaderPairs)
    ensures CONTENT_TYPE in HeadersSpec(token, init)
    ensures CONTENT_TYPE in FromPairs(init) ==> HeadersSpec(token, init)[CONTENT_TYPE] == FromPairs(init)[CONTENT_TYPE]
    ensures CONTENT_TYPE !in FromPairs(init) ==> HeadersSpec(token, init)[CONTENT_TYPE] == JSON_MEDIA_TYPE
  {
  }

  /** A bearer header is set exactly when the token is non-empty; otherwise the caller's one (if any) stays. */
  lemma AuthorizationRule(token: Option<string>, init: HeaderPairs)
    ensures HasToken(token) ==>
      (AUTHORIZATION in HeadersSpec(token, init) && HeadersSpec(token, init)[AUTHORIZATION] == "Bearer " + token.value)
    ensures !HasToken(token) ==> (AUTHORIZATION in HeadersSpec(token, init) <==> AUTHORIZATION in FromPairs(init))
    ensures !HasToken(token) && AUTHORIZATION in FromPairs(init) ==>
      HeadersSpec(token, init)[AUTHORIZATION] == FromPairs(init)[AUTHORIZATION]
  {
  }

  /** Every other header the caller gave is passed through unchanged, and no other header is added. */
  lemma OtherHeadersPreserved(token: Option<string>, init: HeaderPairs)
    ensures forall k :: k != CONTENT_TYPE && k != AUTHORIZATION ==>
      (k in HeadersSpec(token, init) <==> k in FromPairs(init))
    ensures forall k :: k != CONTENT_TYPE && k != AUTHORIZATION && k in FromPairs(init) ==>
      HeadersSpec(token, init)[k] == FromPairs(init)[k]
  {
  }

  /**
   * The image upload sends a `FormData` body with no headers of its own, so it goes out labelled
   * `application/json` (the browser would otherwise have chosen a multipart type with a boundary).
   */
  lemma UploadIsLabelledJson(token: Option<string>)
    ensures HeadersSpec(token, [])[CONTENT_TYPE] == JSON_MEDIA_TYPE
  {
  }

  /** An environment variable that is set to a non-empty value, as `process.env.X ||` tests it. */
  predicate EnvTruthy(env: map<string, string>, name: string) {
    name in env && env[name] != []
  }

  /** `API_BASE_URL`: the first non-empty of the two environment variables, else the local default. */
  function BaseUrl(env: map<string, string>): (r: string)
    ensures EnvTruthy(env, "NEXT_PUBLIC_API_BASE_URL") ==> r == env["NEXT_PUBLIC_API_BASE_URL"]
    ensures !EnvTruthy(env, "NEXT_PUBLIC_API_BASE_URL") && EnvTruthy(env, "NEXT_PUBLIC_URL") ==>
      r == env["NEXT_PUBLIC_URL"]
    ensures !EnvTruthy(env, "NEXT_PUBLIC_API_BASE_URL") && !EnvTruthy(env, "NEXT_PUBLIC_URL") ==>
      r == DEFAULT_BASE_URL
    ensures r != []
  {
    if EnvTruthy(env, "NEXT_PUBLIC_API_BASE_URL") then env["NEXT_PUBLIC_API_BASE_URL"]
    else if EnvTruthy(env, "NEXT_PUBLIC_URL") then env["NEXT_PUBLIC_URL"]
    else DEFAULT_BASE_URL
  }

  /** What `fetch` resolved to: the status, its reason phrase and the body text. */
  datatype Response = Response(status: int, statusText: string, text: string) {
    predicate Ok() { 200 <= status <= 299 }
  }

  /** `safeParseJSON`: the parsed value, or the text itself when it is not JSON. */
  function SafeParseJson(payload: string, parse: string -> Option<Json>): (r: Json)
    ensures parse(payload).Some? ==> r == parse(payload).value
    ensures parse(payload).None? ==> r == JStr(payload)
  {
    match parse(payload)
    case Some(v) => v
    case None => JStr(payload)
  }

  /** The `data` of a response: `null` for an empty body, else the safely parsed text. */
  function ResponseData(text: string, parse: string -> Option<Json>): (r: Json)
    ensures text == [] ==> r == JNull
    ensures text != [] ==> r == SafeParseJson(text, parse)
  {
    if text == [] then JNull else SafeParseJson(text, parse)
  }

  /** The message of the error thrown for a failed response. */
  function ErrorMessage(data: Json, statusText: string, showNumber: real -> string): string {
    var detail := JsOr(Field(data, "detail"), Field(data, "message"));
    if detail.Some? && JsTruthy(detail.value) then JsString(detail.value, showNumber)
    else if statusText != [] then statusText
    else FALLBACK_ERROR
  }

  /** The message prefers a truthy `detail`, then a truthy `message`, then the status text, then the fixed fallback. */
  lemma ErrorMessagePriority(data: Json, statusText: string, showNumber: real -> string)
    ensures var d := Field(data, "detail");
      d.Some? && JsTruthy(d.value) ==> ErrorMessage(data, statusText, showNumber) == JsString(d.value, showNumber)
    ensures var d := Field(data, "detail"); var m := Field(data, "message");
      !(d.Some? && JsTruthy(d.value)) && m.Some? && JsTruthy(m.value) ==>
        ErrorMessage(data, statusText, showNumber) == JsString(m.value, showNumber)
    ensures var d := Field(data, "detail"); var m := Field(data, "message");
      !(d.Some? && JsTruthy(d.value)) && !(m.Some? && JsTruthy(m.value)) ==>
        ErrorMessage(data, statusText, showNumber) == (if statusText != [] then statusText else FALLBACK_ERROR)
  {
  }

  /** A body that is not a JSON object (text, an array, a string) never supplies the message. */
  lemma NonObjectBodyUsesStatus(data: Json, statusText: string, showNumber: real -> string)
    requires !data.JObj?
    ensures ErrorMessage(data, statusText, showNumber) == (if statusText != [] then statusText else FALLBACK_ERROR)
  {
  }

  /** `apiFetch`'s result once the response is in: the data for a 2xx status, else an error with its message. */
  function Outcome(resp: Response, parse: string -> Option<Json>, showNumber: real -> string): (r: Result<Json, string>)
    ensures resp.Ok() <==> r.Ok?
    ensures r.Ok? ==> r.value == ResponseData(resp.text, parse)
    ensures r.Err? ==> r.error == ErrorMessage(ResponseData(resp.text, parse), resp.statusText, showNumber)
  {
    var data := ResponseData(resp.text, parse);
    if !resp.Ok() then Err(ErrorMessage(data, resp.statusText, showNumber)) else Ok(data)
  }

  /** The URL `apiFetch` requests: the base URL followed by the path. */
  function RequestUrl(env: map<string, string>, path: string): (r: string)
    ensures StartsWith(r, BaseUrl(env)) && EndsWith(r, path)
    ensures |r| == |BaseUrl(env)| + |path|
  {
    BaseUrl(env) + path
  }
}
