/**
  The HTTP vocabulary the helpers share: the parts of an incoming request they read, header
  lists, the three states a user identity can be in, the process settings and foreign library
  calls they depend on, and the outcome of an exchange with the permissions authority.
 */
module Http {
  import opened Wrappers
  import opened JsonValues

  /** The parts of an incoming request the helpers read: `req.method` (as `verb`), `req.url`, and the
      `host`, `authorization` and `accept` headers (the last two may be absent). */
  datatype Request = Request(verb: string, url: string, host: string, authorization: Option<string>, accept: Option<string>)

  /** One header of a header object; its value is the text Node writes on the wire. */
  datatype Header = Header(name: string, value: string)

  function HeaderNames(hs: seq<Header>): (ns: seq<string>)
    ensures |ns| == |hs| && forall k :: 0 <= k < |hs| ==> ns[k] == hs[k].name
  {
    if hs == [] then [] else [hs[0].name] + HeaderNames(hs[1..])
  }

  /** `headers[name]`. */
  function HeaderValue(hs: seq<Header>, name: string): (r: Option<string>)
    ensures r.None? <==> name !in HeaderNames(hs)
  {
    if hs == [] then None
    else if hs[0].name == name then Some(hs[0].value)
    else HeaderValue(hs[1..], name)
  }

  /** `headers[name] = value`: an existing header keeps its place, a new one goes last. */
  function SetHeader(hs: seq<Header>, name: string, value: string): (r: seq<Header>)
    ensures HeaderValue(r, name) == Some(value)
    ensures forall other :: other != name ==> HeaderValue(r, other) == HeaderValue(hs, other)
  {
    if hs == [] then [Header(name, value)]
    else if hs[0].name == name then
      var r := [Header(name, value)] + hs[1..];
      assert r[1..] == hs[1..];
      r
    else
      var r := [hs[0]] + SetHeader(hs[1..], name, value);
      assert r[1..] == SetHeader(hs[1..], name, value);
      r
  }

  /** A user identity as `getUser` can return it: `null` (no usable credentials), `undefined`
      (a token whose claims carry no `user_id`), or the `user_id` string. */
  datatype User = Null | Undefined | Str(s: string)

  /** `user == null`, which is true for both `null` and `undefined`. */
  predicate IsNullish(u: User) {
    u.Null? || u.Undefined?
  }

  /** The text `'...' + user` produces. */
  function Interpolated(u: User): string {
    match u
    case Null => "null"
    case Undefined => "undefined"
    case Str(s) => s
  }

  /**
    The process environment and the foreign calls the helpers make, as parameters:
    - `protocol`: the `PROTOCOL` setting (`http:` when unset);
    - `component`: the text of the `COMPONENT` setting;
    - `parseJson`: `JSON.parse`, None when it throws;
    - `decodeUserId`: base64-decoding a token's claims segment, `JSON.parse` of the result and
      reading its `user_id`, None when that throws;
    - `numberText`: `String(n)` for a number;
    - `stringify`: `JSON.stringify` of a document;
    - `byteLength`: `Buffer.byteLength` of a text in UTF-8;
    - `toNumber`: `Number(s)` for a string, None when it is `NaN` (what `!=` compares a number
      or a boolean with, against a string).
   */
  datatype Runtime = Runtime(
    protocol: string,
    component: string,
    parseJson: string -> Option<Json>,
    decodeUserId: string -> Option<User>,
    numberText: real -> string,
    stringify: Json -> string,
    byteLength: string -> nat,
    toNumber: string -> Option<real>)

  /** A request the helpers send to the permissions authority (host and port come from the
      `INTERNAL_ROUTER` setting, which is not part of this model); `body` is the document
      posted, as serialized by `stringify`. */
  datatype Outbound = Outbound(verb: string, path: string, headers: seq<Header>, body: Option<Json>)

  /** What the authority's side of the exchange delivers: a response with its status code and
      body text, or a transport error, given by its `String()` text and its JSON form. */
  datatype Reply = Reply(status: nat, body: string) | TransportError(text: string, json: Json)

  /** One thing a helper does with the incoming request: hand a value to its continuation, write
      a response with a status and a document that is serialized as its body, or throw. */
  datatype Outcome<T> = Continue(value: T) | Respond(status: nat, body: Json) | Throw(error: string)

  /** A helper's whole effect: the request it sends to the authority, if any, and what it does
      with the incoming request, in order. */
  datatype Exchange<T> = Exchange(request: Option<Outbound>, outcomes: seq<Outcome<T>>)

  /** `if (req.headers.authorization)`: the header is forwarded when present and non-empty. */
  function ForwardedIfTruthy(req: Request): seq<Header> {
    if req.authorization.Some? && req.authorization.value != "" then [Header("authorization", req.authorization.value)] else []
  }

  /** `if (req.headers.authorization !== undefined)`: the header is forwarded whenever present. */
  function ForwardedIfPresent(req: Request): seq<Header> {
    if req.authorization.Some? then [Header("authorization", req.authorization.value)] else []
  }

  /** Appending a forwarded header adds exactly that header to an `authorization`-free list. */
  lemma {:induction false} ForwardedHeader(hs: seq<Header>, extra: seq<Header>, req: Request)
    requires "authorization" !in HeaderNames(hs)
    requires extra == ForwardedIfTruthy(req) || extra == ForwardedIfPresent(req)
    ensures HeaderValue(hs + extra, "authorization") == (if extra == [] then None else Some(req.authorization.value))
    ensures forall n :: n != "authorization" ==> HeaderValue(hs + extra, n) == HeaderValue(hs, n)
  {
    if extra == [] {
      assert hs + extra == hs;
    } else {
      var h := extra[0];
      assert extra == [h] && h.name == "authorization";
      forall n ensures HeaderValue(hs + extra, n) == if n == "authorization" then Some(req.authorization.value) else HeaderValue(hs, n) {
        HeaderAppended(hs, h, n);
      }
    }
  }

  /** Looking a name up after appending one header: an earlier header with that name wins. */
  lemma {:induction false} HeaderAppended(hs: seq<Header>, h: Header, n: string)
    ensures HeaderValue(hs + [h], n) == if HeaderValue(hs, n).Some? then HeaderValue(hs, n) else if n == h.name then Some(h.value) else None
  {
    if hs == [] {
      assert hs + [h] == [h];
    } else {
      assert (hs + [h])[0] == hs[0];
      assert (hs + [h])[1..] == hs[1..] + [h];
      if hs[0].name != n {
        HeaderAppended(hs[1..], h, n);
      }
    }
  }
}
