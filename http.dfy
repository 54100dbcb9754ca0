/** The API client's request preparation: query parameters (defaults first,
    then the request's own non-empty values), header merging, the
    Authorization rule, and the body and content type of uploads. Objects
    and query strings are ordered lists of key/value pairs, in the order
    JavaScript enumerates and serialises them. */
module Http {
  import opened Text

  /** A JavaScript value passed as a query parameter. `Other` is any other
      object, given by what `String` makes of it. */
  datatype JsValue = Undefined | Null | Str(s: string) | Num(n: SafeInt) | Bool(b: bool) | Other(text: string)

  /** The integers a JavaScript number holds exactly and `String` prints as
      plain decimal digits: at most 2^53 - 1 in magnitude. */
  type SafeInt = n: int | -0x1F_FFFF_FFFF_FFFF <= n <= 0x1F_FFFF_FFFF_FFFF

  type Entries = seq<(string, string)>

  function DigitChar(d: nat): char
    requires d < 10
  {
    "0123456789"[d]
  }

  function NatToString(n: nat): (r: string)
    ensures |r| > 0
    decreases n
  {
    if n < 10 then [DigitChar(n)] else NatToString(n / 10) + [DigitChar(n % 10)]
  }

  /** `String(v)` */
  function JsString(v: JsValue): string {
    match v
    case Undefined => "undefined"
    case Null => "null"
    case Str(s) => s
    case Num(n) => if n < 0 then "-" + NatToString(-n) else NatToString(n)
    case Bool(b) => if b then "true" else "false"
    case Other(text) => text
  }

  /** `v !== undefined && v !== null && v !== ""` */
  predicate IsKept(v: JsValue) {
    !v.Undefined? && !v.Null? && v != Str("")
  }

  /** Only an object whose string form is empty (an empty array, say)
      survives the filter with an empty string. */
  lemma KeptStringEmptyOnlyForOther(v: JsValue)
    requires IsKept(v)
    ensures JsString(v) == "" <==> v == Other("")
  {
  }

  // -----------------------------------------------------------------------
  // ordered records

  /** The value stored under `k`: the last entry with that key. */
  function Lookup(es: Entries, k: string): Option<string> {
    if es == [] then None
    else if es[|es| - 1].0 == k then Some(es[|es| - 1].1)
    else Lookup(es[..|es| - 1], k)
  }

  predicate Has(es: Entries, k: string) {
    Lookup(es, k).Some?
  }

  lemma LookupSnoc(es: Entries, e: (string, string), k: string)
    ensures Lookup(es + [e], k) == if e.0 == k then Some(e.1) else Lookup(es, k)
  {
    assert (es + [e])[..|es|] == es;
  }

  /** `record[k] = v` on an object, or `searchParams.set(k, v)`: the first
      entry with key `k` takes the value and any later ones are dropped; a
      new key goes at the end. */
  function SetKey(es: Entries, k: string, v: string): Entries
    decreases |es|
  {
    if es == [] then [(k, v)]
    else
      var init, last := es[..|es| - 1], es[|es| - 1];
      if Has(init, k) then SetKey(init, k, v) + (if last.0 == k then [] else [last])
      else if last.0 == k then init + [(k, v)]
      else es + [(k, v)]
  }

  /** After setting, `k` holds `v` and every other key is untouched. */
  lemma {:induction false} SetKeyLookup(es: Entries, k: string, v: string, j: string)
    ensures Lookup(SetKey(es, k, v), j) == if j == k then Some(v) else Lookup(es, j)
    decreases |es|
  {
    if es != [] {
      var init, last := es[..|es| - 1], es[|es| - 1];
      assert es == init + [last];
      LookupSnoc(init, last, j);
      if Has(init, k) {
        SetKeyLookup(init, k, v, j);
        if last.0 != k {
          assert SetKey(es, k, v) == SetKey(init, k, v) + [last];
          LookupSnoc(SetKey(init, k, v), last, j);
        } else {
          assert SetKey(es, k, v) == SetKey(init, k, v) + [];
          assert SetKey(init, k, v) + [] == SetKey(init, k, v);
        }
      } else if last.0 == k {
        LookupSnoc(init, (k, v), j);
      } else {
        LookupSnoc(es, (k, v), j);
      }
    }
  }

  /** Setting a key that occurs once keeps it in its place. */
  lemma {:induction false} SetKeyInPlace(es: Entries, i: int, v: string)
    requires 0 <= i < |es|
    requires forall n :: 0 <= n < |es| && n != i ==> es[n].0 != es[i].0
    ensures SetKey(es, es[i].0, v) == es[i := (es[i].0, v)]
    decreases |es|
  {
    var k := es[i].0;
    var init, last := es[..|es| - 1], es[|es| - 1];
    if i == |es| - 1 {
      NotHas(init, k);
      assert es[i := (k, v)] == init + [(k, v)];
    } else {
      SetKeyInPlace(init, i, v);
      HasAt(init, i);
      assert es[i := (k, v)] == init[i := (k, v)] + [last];
    }
  }

  lemma {:induction false} NotHas(es: Entries, k: string)
    requires forall n :: 0 <= n < |es| ==> es[n].0 != k
    ensures !Has(es, k)
    decreases |es|
  {
    if es != [] {
      NotHas(es[..|es| - 1], k);
    }
  }

  lemma {:induction false} HasAt(es: Entries, i: int)
    requires 0 <= i < |es|
    ensures Has(es, es[i].0)
    decreases |es|
  {
    if i < |es| - 1 && es[|es| - 1].0 != es[i].0 {
      HasAt(es[..|es| - 1], i);
    }
  }

  /** Set every entry of `es` in turn: `{ ...rec, ...es }` for objects, the
      `set` loop for query parameters. */
  function Assign(rec: Entries, es: Entries): Entries {
    if es == [] then rec else SetKey(Assign(rec, es[..|es| - 1]), es[|es| - 1].0, es[|es| - 1].1)
  }

  /** Later assignments win: a key set by `es` takes its last value there,
      and every other key keeps its value from `rec`. */
  lemma {:induction false} AssignLookup(rec: Entries, es: Entries, k: string)
    ensures Lookup(Assign(rec, es), k) == if Has(es, k) then Lookup(es, k) else Lookup(rec, k)
    decreases |es|
  {
    if es != [] {
      var init, last := es[..|es| - 1], es[|es| - 1];
      AssignLookup(rec, init, k);
      SetKeyLookup(Assign(rec, init), last.0, last.1, k);
    }
  }

  lemma AssignSnoc(rec: Entries, es: Entries, e: (string, string))
    ensures Assign(rec, es + [e]) == SetKey(Assign(rec, es), e.0, e.1)
  {
    assert (es + [e])[..|es|] == es;
  }

  // -----------------------------------------------------------------------
  // cleanParams

  /** `cleanParams`: drop the entries whose value is undefined, null or "",
      and turn the others into strings, in order. */
  function CleanParams(params: seq<(string, JsValue)>): Entries {
    if params == [] then []
    else
      var last := params[|params| - 1];
      CleanParams(params[..|params| - 1]) + (if IsKept(last.1) then [(last.0, JsString(last.1))] else [])
  }

  /** One entry comes out as a string when its value is kept, and not at
      all otherwise. */
  lemma CleanParamsSingle(k: string, v: JsValue)
    ensures CleanParams([(k, v)]) == if IsKept(v) then [(k, JsString(v))] else []
  {
    assert [(k, v)][..0] == [];
  }

  /** `cleanParams` works entry by entry and keeps the order: it maps a
      concatenation to the concatenation of the results. */
  lemma {:induction false} CleanParamsConcat(p: seq<(string, JsValue)>, q: seq<(string, JsValue)>)
    ensures CleanParams(p + q) == CleanParams(p) + CleanParams(q)
    decreases |q|
  {
    if q == [] {
      assert p + q == p;
    } else {
      var init := q[..|q| - 1];
      CleanParamsConcat(p, init);
      assert (p + q)[..|p + q| - 1] == p + init;
    }
  }

  function AsStrings(es: Entries): seq<(string, JsValue)> {
    seq(|es|, i requires 0 <= i < |es| => (es[i].0, Str(es[i].1)))
  }

  /** Cleaning the output again changes nothing when no kept value turns
      into the empty string. */
  lemma {:induction false} CleanParamsIdempotent(params: seq<(string, JsValue)>)
    requires forall i :: 0 <= i < |params| ==> params[i].1 != Other("")
    ensures CleanParams(AsStrings(CleanParams(params))) == CleanParams(params)
  {
    if params != [] {
      var init := params[..|params| - 1];
      var last := params[|params| - 1];
      CleanParamsIdempotent(init);
      var tail := if IsKept(last.1) then [(last.0, JsString(last.1))] else [];
      assert AsStrings(CleanParams(params)) == AsStrings(CleanParams(init)) + AsStrings(tail);
      CleanParamsConcat(AsStrings(CleanParams(init)), AsStrings(tail));
      if IsKept(last.1) {
        KeptStringEmptyOnlyForOther(last.1);
        assert AsStrings(tail) == [(last.0, Str(JsString(last.1)))];
        CleanParamsSingle(last.0, Str(JsString(last.1)));
      }
    }
  }

  /** Without that condition it is not idempotent: an empty array is kept
      as "", which the second pass drops. */
  lemma CleanParamsOfEmptyArray()
    ensures CleanParams([("k", Other(""))]) == [("k", "")]
    ensures CleanParams(AsStrings(CleanParams([("k", Other(""))]))) == []
  {
    assert [("k", Other(""))][..0] == [];
    assert AsStrings([("k", "")]) == [("k", Str(""))];
    assert [("k", Str(""))][..0] == [];
  }

  // -----------------------------------------------------------------------
  // URL pieces

  /** `replace(/\/$/, "")` */
  function StripTrailingSlash(s: string): string {
    if s != "" && s[|s| - 1] == '/' then s[..|s| - 1] else s
  }

  /** `path.startsWith("/") ? path : "/" + path` */
  function AbsolutePath(path: string): string {
    if path != "" && path[0] == '/' then path else "/" + path
  }

  /** The base loses one trailing slash, no more, and nothing else; the path
      always starts with a slash, ends with the given path, and is left
      alone when it already has one. */
  lemma UrlPieces(base: string, path: string)
    ensures var b := StripTrailingSlash(base);
            && (b == base <==> base == "" || base[|base| - 1] != '/')
            && (b != base ==> b + "/" == base)
    ensures var p := AbsolutePath(path);
            && |p| > 0 && p[0] == '/'
            && p[|p| - |path|..] == path
            && (p == path <==> path != "" && path[0] == '/')
            && AbsolutePath(p) == p
  {
    if base != "" && base[|base| - 1] == '/' {
      assert |StripTrailingSlash(base)| < |base|;
    }
    if !(path != "" && path[0] == '/') {
      assert |AbsolutePath(path)| == |path| + 1;
    }
  }

  /** What `buildUrl` puts together before the URL is serialised. */
  datatype UrlParts = UrlParts(base: string, path: string, query: Entries)

  // -----------------------------------------------------------------------
  // client

  const DefaultUserAgent: string := "Yahoo AppID:dj00aiZpPUVkd3FZTVJFZHhWNCZzPWNvbnN1bWVyc2VjcmV0Jng9N2E-"
  const JsonType: string := "application/json"
  const FormType: string := "application/x-www-form-urlencoded"

  datatype ClientConfig = ClientConfig(
    appId: Option<string>,
    accessToken: Option<string>,
    timeout: Option<int>,
    headers: Option<Entries>,
    defaultParams: Option<Entries>)

  function DefaultHeaders(): Entries {
    [("User-Agent", DefaultUserAgent), ("Content-Type", JsonType)]
  }

  /** The base headers a client is built with. */
  function InitialHeaders(config: ClientConfig, useAuth: bool): Entries {
    var merged := Assign(DefaultHeaders(), config.headers.GetOr([]));
    if useAuth && Truthy(config.accessToken) then SetKey(merged, "Authorization", "Bearer " + config.accessToken.value)
    else merged
  }

  /** The configured headers override the defaults; the token, when used,
      overrides any configured Authorization header. */
  lemma InitialHeadersLookup(config: ClientConfig, useAuth: bool, k: string)
    ensures var h := InitialHeaders(config, useAuth);
            var configured := config.headers.GetOr([]);
            && (k == "Authorization" && useAuth && Truthy(config.accessToken) ==>
                  Lookup(h, k) == Some("Bearer " + config.accessToken.value))
            && (!(k == "Authorization" && useAuth && Truthy(config.accessToken)) ==>
                  Lookup(h, k) == if Has(configured, k) then Lookup(configured, k) else Lookup(DefaultHeaders(), k))
  {
    var merged := Assign(DefaultHeaders(), config.headers.GetOr([]));
    AssignLookup(DefaultHeaders(), config.headers.GetOr([]), k);
    SetKeyLookup(merged, "Authorization", "Bearer " + config.accessToken.GetOr(""), k);
  }

  /** With no Authorization among the configured headers, one is present
      exactly when authentication is on and the token is not empty. */
  lemma AuthorizationPresence(config: ClientConfig, useAuth: bool)
    requires !Has(config.headers.GetOr([]), "Authorization")
    ensures Lookup(InitialHeaders(config, useAuth), "Authorization").Some? <==> useAuth && Truthy(config.accessToken)
  {
    InitialHeadersLookup(config, useAuth, "Authorization");
  }

  /** The body an upload sends. */
  datatype Body = NoBody | TextBody(text: string) | FormBody(fields: Entries) | ObjectBody(json: string)

  /** The body as handed to `fetch`. */
  datatype Encoded = FormEncoded(fields: Entries) | TextEncoded(text: string)

  /** A request ready for `fetch`. */
  datatype Prepared = Prepared(verb: string, url: UrlParts, headers: Entries, body: Option<Encoded>)

  /** The `set` loop over the defaults. */
  method SetEach(query: Entries, es: Entries) returns (q: Entries)
    ensures q == Assign(query, es)
  {
    q := query;
    for i := 0 to |es|
      invariant q == Assign(query, es[..i])
    {
      AssignSnoc(query, es[..i], es[i]);
      assert es[..i + 1] == es[..i] + [es[i]];
      q := SetKey(q, es[i].0, es[i].1);
    }
    assert es[..|es|] == es;
  }

  /** The `set` loop over the request's parameters, skipping undefined,
      null and "". */
  method SetKept(query: Entries, ps: seq<(string, JsValue)>) returns (q: Entries)
    ensures q == Assign(query, CleanParams(ps))
  {
    q := query;
    for i := 0 to |ps|
      invariant q == Assign(query, CleanParams(ps[..i]))
    {
      var (k, v) := ps[i];
      assert ps[..i + 1][..i] == ps[..i];
      if v != Undefined && v != Null && v != Str("") {
        assert CleanParams(ps[..i + 1]) == CleanParams(ps[..i]) + [(k, JsString(v))];
        AssignSnoc(query, CleanParams(ps[..i]), (k, JsString(v)));
        q := SetKey(q, k, JsString(v));
      } else {
        assert CleanParams(ps[..i + 1]) == CleanParams(ps[..i]) + [];
        assert CleanParams(ps[..i]) + [] == CleanParams(ps[..i]);
      }
    }
    assert ps[..|ps|] == ps;
  }

  class HttpClient {
    const baseUrl: string
    var baseHeaders: Entries
    var defaultParams: Entries

    constructor (baseUrl: string, config: ClientConfig, useAuth: bool)
      ensures this.baseUrl == baseUrl
      ensures baseHeaders == InitialHeaders(config, useAuth)
      ensures defaultParams == config.defaultParams.GetOr([])
    {
      this.baseUrl := baseUrl;
      baseHeaders := Assign(DefaultHeaders(), config.headers.GetOr([]));
      defaultParams := config.defaultParams.GetOr([]);
      new;
      if useAuth && Truthy(config.accessToken) {
        baseHeaders := SetKey(baseHeaders, "Authorization", "Bearer " + config.accessToken.value);
      }
    }

    /** `buildUrl`: the defaults are set first, then every request
        parameter whose value is not undefined, null or "", as a string. */
    method BuildUrl(path: string, params: Option<seq<(string, JsValue)>>) returns (url: UrlParts)
      ensures url.base == StripTrailingSlash(baseUrl) && url.path == AbsolutePath(path)
      ensures url.query == Assign(Assign([], defaultParams), CleanParams(params.GetOr([])))
      ensures forall k :: Lookup(url.query, k) ==
                if Has(CleanParams(params.GetOr([])), k) then Lookup(CleanParams(params.GetOr([])), k)
                else Lookup(defaultParams, k)
    {
      var query := SetEach([], defaultParams);
      var ps := params.GetOr([]);
      if params.Some? {
        query := SetKept(query, ps);
      } else {
        assert Assign(query, CleanParams(ps)) == query;
      }
      url := UrlParts(StripTrailingSlash(baseUrl), AbsolutePath(path), query);
      forall k ensures Lookup(url.query, k) ==
                if Has(CleanParams(ps), k) then Lookup(CleanParams(ps), k) else Lookup(defaultParams, k)
      {
        AssignLookup(Assign([], defaultParams), CleanParams(ps), k);
        AssignLookup([], defaultParams, k);
      }
    }

    /** `mergeHeaders`: the base headers overridden by the extra ones, or a
        copy of the base. */
    function MergeHeaders(extra: Option<Entries>): (r: Entries)
      reads this
      ensures forall k :: Lookup(r, k) ==
                if extra.Some? && Has(extra.value, k) then Lookup(extra.value, k) else Lookup(baseHeaders, k)
    {
      if extra.Some? then
        assert forall k :: Lookup(Assign(baseHeaders, extra.value), k) ==
                 if Has(extra.value, k) then Lookup(extra.value, k) else Lookup(baseHeaders, k) by {
          forall k { AssignLookup(baseHeaders, extra.value, k); }
        }
        Assign(baseHeaders, extra.value)
      else baseHeaders
    }

    method Get(path: string, params: Option<seq<(string, JsValue)>>, headers: Option<Entries>) returns (req: Prepared)
      ensures req.url.base == StripTrailingSlash(baseUrl)
      ensures req.verb == "GET" && req.body.None?
      ensures req.headers == MergeHeaders(headers)
      ensures req.url.query == Assign(Assign([], defaultParams), CleanParams(params.GetOr([])))
      ensures req.url.path == AbsolutePath(path)
    {
      var url := BuildUrl(path, params);
      req := Prepared("GET", url, MergeHeaders(headers), None);
    }

    /** The shared body of `post` and `put`: a form body is sent as is with
        the form content type, a string as is, any other present body as its
        JSON text, each with the JSON content type unless the caller's
        headers name another; the caller's headers win over both. */
    method Upload(verb: string, path: string, body: Body, headers: Option<Entries>) returns (req: Prepared)
      ensures req.url.base == StripTrailingSlash(baseUrl)
      ensures req.verb == verb
      ensures req.url.path == AbsolutePath(path) && req.url.query == Assign([], defaultParams)
      ensures body.NoBody? <==> req.body.None?
      ensures body.FormBody? ==> req.body == Some(FormEncoded(body.fields))
      ensures body.TextBody? ==> req.body == Some(TextEncoded(body.text))
      ensures body.ObjectBody? ==> req.body == Some(TextEncoded(body.json))
      ensures Lookup(req.headers, "Content-Type") ==
                if headers.Some? && Has(headers.value, "Content-Type") then Lookup(headers.value, "Content-Type")
                else Some(if body.FormBody? then FormType else JsonType)
      ensures forall k :: k != "Content-Type" ==>
                Lookup(req.headers, k) ==
                  if headers.Some? && Has(headers.value, k) then Lookup(headers.value, k) else Lookup(baseHeaders, k)
    {
      var url := BuildUrl(path, None);
      assert CleanParams([]) == [];
      var encodedBody: Option<Encoded> := None;
      var contentType := JsonType;
      match body {
        case FormBody(fields) =>
          encodedBody := Some(FormEncoded(fields));
          contentType := FormType;
        case TextBody(text) =>
          encodedBody := Some(TextEncoded(text));
        case ObjectBody(json) =>
          encodedBody := Some(TextEncoded(json));
        case NoBody =>
      }
      var extra := Assign([("Content-Type", contentType)], headers.GetOr([]));
      forall k ensures Lookup(extra, k) ==
          if Has(headers.GetOr([]), k) then Lookup(headers.GetOr([]), k)
          else if k == "Content-Type" then Some(contentType) else None
      {
        AssignLookup([("Content-Type", contentType)], headers.GetOr([]), k);
        assert [("Content-Type", contentType)][..0] == [];
      }
      req := Prepared(verb, url, MergeHeaders(Some(extra)), encodedBody);
    }

    method Post(path: string, body: Body, headers: Option<Entries>) returns (req: Prepared)
      ensures req.url.base == StripTrailingSlash(baseUrl)
      ensures req.verb == "POST"
      ensures req.url.path == AbsolutePath(path) && req.url.query == Assign([], defaultParams)
      ensures body.NoBody? <==> req.body.None?
      ensures body.FormBody? ==> req.body == Some(FormEncoded(body.fields))
      ensures body.TextBody? ==> req.body == Some(TextEncoded(body.text))
      ensures body.ObjectBody? ==> req.body == Some(TextEncoded(body.json))
      ensures Lookup(req.headers, "Content-Type") ==
                if headers.Some? && Has(headers.value, "Content-Type") then Lookup(headers.value, "Content-Type")
                else Some(if body.FormBody? then FormType else JsonType)
      ensures forall k :: k != "Content-Type" ==>
                Lookup(req.headers, k) ==
                  if headers.Some? && Has(headers.value, k) then Lookup(headers.value, k) else Lookup(baseHeaders, k)
    {
      req := Upload("POST", path, body, headers);
    }

    method Put(path: string, body: Body, headers: Option<Entries>) returns (req: Prepared)
      ensures req.url.base == StripTrailingSlash(baseUrl)
      ensures req.verb == "PUT"
      ensures req.url.path == AbsolutePath(path) && req.url.query == Assign([], defaultParams)
      ensures body.NoBody? <==> req.body.None?
      ensures body.FormBody? ==> req.body == Some(FormEncoded(body.fields))
      ensures body.TextBody? ==> req.body == Some(TextEncoded(body.text))
      ensures body.ObjectBody? ==> req.body == Some(TextEncoded(body.json))
      ensures Lookup(req.headers, "Content-Type") ==
                if headers.Some? && Has(headers.value, "Content-Type") then Lookup(headers.value, "Content-Type")
                else Some(if body.FormBody? then FormType else JsonType)
      ensures forall k :: k != "Content-Type" ==>
                Lookup(req.headers, k) ==
                  if headers.Some? && Has(headers.value, k) then Lookup(headers.value, k) else Lookup(baseHeaders, k)
    {
      req := Upload("PUT", path, body, headers);
    }

    /** `delete`: the query as for `get`, the base headers only, and the
        JSON text of `data` as the body when it is given. */
    method Delete(path: string, params: Option<seq<(string, JsValue)>>, data: Option<string>) returns (req: Prepared)
      ensures req.url.base == StripTrailingSlash(baseUrl) && req.url.path == AbsolutePath(path)
      ensures req.verb == "DELETE"
      ensures req.headers == baseHeaders
      ensures req.url.query == Assign(Assign([], defaultParams), CleanParams(params.GetOr([])))
      ensures data.None? ==> req.body.None?
      ensures data.Some? ==> req.body == Some(TextEncoded(data.value))
    {
      var url := BuildUrl(path, params);
      req := Prepared("DELETE", url, MergeHeaders(None), None);
      if data.Some? {
        req := req.(body := Some(TextEncoded(data.value)));
      }
    }
  }
}
