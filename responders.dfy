/**
  What the helpers write on the response to the incoming request: the status responders
  (`methodNotAllowed`, `notFound`, `forbidden`, `unauthorized`, `badRequest`, `internalError`,
  `duplicate`), which serialize one document as JSON, and `respond` with its front ends `found`
  and `created`, which externalize a document's URLs and serialize it as JSON or HTML.
 */
module Responders {
  import opened Wrappers
  import opened Strings
  import opened JsonValues
  import opened UrlTranslation
  import opened Http
  import opened HtmlRendering

  /** A written response: status, headers and body (None for an empty body). */
  datatype Sent = Sent(status: nat, headers: seq<Header>, body: Option<string>)

  /** The shape every status responder shares: the document serialized by `JSON.stringify`,
      labelled as JSON and with its length in bytes. */
  function JsonResponse(status: nat, doc: Json, rt: Runtime): (s: Sent)
    ensures s.status == status && s.body == Some(rt.stringify(doc))
    ensures HeaderValue(s.headers, "Content-Type") == Some("application/json")
    ensures HeaderValue(s.headers, "Content-Length") == Some(NatToString(rt.byteLength(s.body.value)))
    ensures forall n :: n != "Content-Type" && n != "Content-Length" ==> HeaderValue(s.headers, n).None?
  {
    var text := rt.stringify(doc);
    Sent(status, [Header("Content-Type", "application/json"), Header("Content-Length", NatToString(rt.byteLength(text)))], Some(text))
  }

  function MethodNotAllowedBody(req: Request): Json {
    JString("Method not allowed. request-target: " + req.url + " method: " + req.verb + "\n")
  }

  function NotFoundBody(req: Request, rt: Runtime): Json {
    JString("Not Found. component: " + rt.component + " request-target: " + req.url + " method: " + req.verb + "\n")
  }

  function ForbiddenBody(req: Request): Json {
    JString("Forbidden. request-target: " + req.url + " method: " + req.verb + "\n")
  }

  function UnauthorizedBody(req: Request): Json {
    JString("Unauthorized. request-target: " + req.url)
  }

  /** `methodNotAllowed`: 405 with the allowed methods listed in `Allow`. */
  function MethodNotAllowed(req: Request, allow: seq<string>, rt: Runtime): (s: Sent)
    ensures s.status == 405 && s.body == Some(rt.stringify(MethodNotAllowedBody(req)))
    ensures HeaderValue(s.headers, "Allow") == Some(Join(allow, ", "))
    ensures HeaderValue(s.headers, "Content-Type") == Some("application/json")
    ensures HeaderValue(s.headers, "Content-Length") == Some(NatToString(rt.byteLength(s.body.value)))
  {
    var r := JsonResponse(405, MethodNotAllowedBody(req), rt);
    Sent(r.status, SetHeader(r.headers, "Allow", Join(allow, ", ")), r.body)
  }

  function NotFound(req: Request, rt: Runtime): Sent {
    JsonResponse(404, NotFoundBody(req, rt), rt)
  }

  function Forbidden(req: Request, rt: Runtime): Sent {
    JsonResponse(403, ForbiddenBody(req), rt)
  }

  function Unauthorized(req: Request, rt: Runtime): Sent {
    JsonResponse(401, UnauthorizedBody(req), rt)
  }

  function BadRequest(err: Json, rt: Runtime): Sent {
    JsonResponse(400, err, rt)
  }

  function InternalError(err: Json, rt: Runtime): Sent {
    JsonResponse(500, err, rt)
  }

  function Duplicate(err: Json, rt: Runtime): Sent {
    JsonResponse(409, err, rt)
  }

  /** The response an outcome writes, for outcomes that write one. */
  function Written<T>(o: Outcome<T>, rt: Runtime): Option<Sent> {
    match o
    case Respond(status, body) => Some(JsonResponse(status, body, rt))
    case _ => None
  }

  /** The outcomes the helpers produce write exactly what the named responder writes. */
  lemma WrittenByResponders<T>(req: Request, err: Json, rt: Runtime)
    ensures Written(Outcome<T>.Respond(401, UnauthorizedBody(req)), rt) == Some(Unauthorized(req, rt))
    ensures Written(Outcome<T>.Respond(403, ForbiddenBody(req)), rt) == Some(Forbidden(req, rt))
    ensures Written(Outcome<T>.Respond(400, err), rt) == Some(BadRequest(err, rt))
    ensures Written(Outcome<T>.Respond(500, err), rt) == Some(InternalError(err, rt))
  {
  }

  /** The `Content-Type` test at line 195 as written: `!'Content-Type' in headers` parses as
      `(!'Content-Type') in headers`, i.e. `'false' in headers`. */
  function HeadersWithDefaultType(headers: seq<Header>): (r: seq<Header>)
    ensures HeaderValue(r, "Content-Type")
            == if "false" in HeaderNames(headers) then Some("application/json") else HeaderValue(headers, "Content-Type")
    ensures forall n :: n != "Content-Type" ==> HeaderValue(r, n) == HeaderValue(headers, n)
  {
    if "false" in HeaderNames(headers) then SetHeader(headers, "Content-Type", "application/json") else headers
  }

  /** The test as evidently intended: default the type when no `Content-Type` is given. */
  function HeadersWithDefaultTypeCorrected(headers: seq<Header>): seq<Header> {
    if "Content-Type" !in HeaderNames(headers) then SetHeader(headers, "Content-Type", "application/json") else headers
  }

  /** What a call of `respond` does: write a response, or throw before writing anything. */
  datatype Responding = Wrote(sent: Sent) | Threw(error: string)

  /** The page `toHTML` renders for a document it does not throw on. */
  function HtmlPage(doc: Json, rt: Runtime): string {
    HtmlHead + AtDepth(doc, 0, rt.numberText) + "</body></html>"
  }

  /** A response carrying `text`, with `Content-Length` set to its byte length. */
  function Measured(status: nat, headers: seq<Header>, text: string, rt: Runtime): Sent {
    Sent(status, SetHeader(headers, "Content-Length", NatToString(rt.byteLength(text))), Some(text))
  }

  /** The body text and headers `respond` writes for a document, given the header-defaulting
      step: URLs externalized in place, HTML exactly when `Content-Type` is `text/html`, a
      final newline, and `Content-Length` set to the text's byte length. Rendering HTML throws
      on a document that holds a `null`; serializing JSON never does. */
  function Serialized(req: Request, status: nat, headers: seq<Header>, doc: Json, rt: Runtime): (r: Responding)
    ensures r.Threw? <==> HeaderValue(headers, "Content-Type") == Some("text/html") && ContainsNull(doc)
    ensures r.Threw? ==> r.error == NullToObject
    ensures r.Wrote? ==> r.sent.status == status && r.sent.body.Some?
    ensures r.Wrote? ==> HeaderValue(r.sent.headers, "Content-Length") == Some(NatToString(rt.byteLength(r.sent.body.value)))
    ensures r.Wrote? ==> forall n :: n != "Content-Length" ==> HeaderValue(r.sent.headers, n) == HeaderValue(headers, n)
    ensures r.Wrote? ==>
              var ext := ExternalizedInPlace(doc, req.host, rt.protocol);
              r.sent.body.value == (if HeaderValue(headers, "Content-Type") == Some("text/html") then HtmlPage(ext, rt) else rt.stringify(ext)) + "\n"
  {
    var ext := ExternalizedInPlace(doc, req.host, rt.protocol);
    ExternalizedKeepsNulls(doc, req.host, rt.protocol);
    if HeaderValue(headers, "Content-Type") == Some("text/html") then
      match ToHtml(ext, rt.numberText)
      case None => Threw(NullToObject)
      case Some(html) => Wrote(Measured(status, headers, html + "\n", rt))
    else
      Wrote(Measured(status, headers, rt.stringify(ext) + "\n", rt))
  }

  /** `respond(req, res, status, headers, body)` as written: it throws exactly when the headers
      it ends up with say `text/html` and the document holds a `null`. */
  function RespondWith(req: Request, status: nat, headers: seq<Header>, body: Option<Json>, rt: Runtime): (s: Responding)
    ensures body.None? ==> s == Wrote(Sent(status, headers, None))
    ensures body.Some? ==> s == Serialized(req, status, HeadersWithDefaultType(headers), body.value, rt)
    ensures s.Threw? <==> body.Some? && HeaderValue(HeadersWithDefaultType(headers), "Content-Type") == Some("text/html") && ContainsNull(body.value)
  {
    match body
    case None => Wrote(Sent(status, headers, None))
    case Some(doc) => Serialized(req, status, HeadersWithDefaultType(headers), doc, rt)
  }

  /** `respond` with the `Content-Type` default working as evidently intended. */
  function RespondWithCorrected(req: Request, status: nat, headers: seq<Header>, body: Option<Json>, rt: Runtime): (s: Responding)
    ensures body.None? ==> s == Wrote(Sent(status, headers, None))
    ensures s.Threw? <==> body.Some? && HeaderValue(headers, "Content-Type") == Some("text/html") && ContainsNull(body.value)
    ensures body.Some? && s.Wrote? ==> HeaderValue(s.sent.headers, "Content-Type").Some?
    ensures body.Some? && s.Wrote? && HeaderValue(headers, "Content-Type").Some? ==> HeaderValue(s.sent.headers, "Content-Type") == HeaderValue(headers, "Content-Type")
    ensures body.Some? && s.Wrote? && HeaderValue(headers, "Content-Type").None? ==> HeaderValue(s.sent.headers, "Content-Type") == Some("application/json")
  {
    match body
    case None => Wrote(Sent(status, headers, None))
    case Some(doc) =>
      assert "Content-Type" != "Content-Length";
      Serialized(req, status, HeadersWithDefaultTypeCorrected(headers), doc, rt)
  }

  /** As written, a body sent without a `Content-Type` header (and without a header named
      `false`) goes out with no `Content-Type` at all. */
  lemma RespondNeverDefaultsType(req: Request, status: nat, headers: seq<Header>, doc: Json, rt: Runtime)
    requires HeaderValue(headers, "Content-Type").None? && "false" !in HeaderNames(headers)
    ensures RespondWith(req, status, headers, Some(doc), rt).Wrote?
    ensures HeaderValue(RespondWith(req, status, headers, Some(doc), rt).sent.headers, "Content-Type").None?
    ensures RespondWithCorrected(req, status, headers, Some(doc), rt).Wrote?
    ensures HeaderValue(RespondWithCorrected(req, status, headers, Some(doc), rt).sent.headers, "Content-Type") == Some("application/json")
  {
  }

  /** The two versions write the same response whenever a `Content-Type` is given and no header
      is named `false`. */
  lemma RespondWithCorrectedAgrees(req: Request, status: nat, headers: seq<Header>, body: Option<Json>, rt: Runtime)
    requires HeaderValue(headers, "Content-Type").Some? && "false" !in HeaderNames(headers)
    ensures RespondWith(req, status, headers, body, rt) == RespondWithCorrected(req, status, headers, body, rt)
  {
  }

  /** `req.headers.accept.lastIndexOf('text/html', 0) > -1`: the client lists HTML first. */
  predicate WantsHtml(req: Request) {
    req.accept.Some? && "text/html" <= req.accept.value
  }

  function FoundHeaders(req: Request, etag: Option<string>, location: Option<string>, rt: Runtime): (hs: seq<Header>)
    ensures HeaderValue(hs, "Content-Type") == Some(if WantsHtml(req) then "text/html" else "application/json")
    ensures HeaderValue(hs, "Content-Location") == Some(if location.Some? then location.value else rt.protocol + "//" + req.host + req.url)
    ensures HeaderValue(hs, "Etag") == etag
    ensures "false" !in HeaderNames(hs)
  {
    var ct := if WantsHtml(req) then "text/html" else "application/json";
    var cl := if location.Some? then location.value else rt.protocol + "//" + req.host + req.url;
    var h1 := [Header("Content-Type", ct)];
    assert "false"[0] != "Content-Type"[0] && "Etag"[0] != "Content-Type"[0];
    assert |"Content-Location"| != |"Content-Type"|;
    var h2 := SetHeader(h1, "Content-Location", cl);
    assert "false"[0] != "Content-Location"[0] && "Etag"[0] != "Content-Location"[0];
    assert HeaderValue(h2, "false").None? && HeaderValue(h2, "Etag").None?;
    var h3 := if etag.Some? then SetHeader(h2, "Etag", etag.value) else h2;
    assert "false"[0] != "Etag"[0] && "Content-Type"[0] != "Etag"[0] && "Content-Location"[0] != "Etag"[0];
    assert HeaderValue(h3, "false").None?;
    h3
  }

  /** `found(req, res, body, etag, location)`: 200, with the document rendered as HTML exactly
      when the client asks for HTML first, and `Content-Location` defaulting to the request's
      own absolute URL. Rendering HTML throws, and nothing is written, when the document holds
      a `null`. */
  function Found(req: Request, body: Option<Json>, etag: Option<string>, location: Option<string>, rt: Runtime): (s: Responding)
    ensures s.Threw? <==> body.Some? && WantsHtml(req) && ContainsNull(body.value)
    ensures s.Wrote? ==> s.sent.status == 200
    ensures s.Wrote? ==> HeaderValue(s.sent.headers, "Content-Type") == Some(if WantsHtml(req) then "text/html" else "application/json")
    ensures s.Wrote? ==> HeaderValue(s.sent.headers, "Content-Location") == Some(if location.Some? then location.value else rt.protocol + "//" + req.host + req.url)
    ensures s.Wrote? ==> HeaderValue(s.sent.headers, "Etag") == etag
    ensures s.Wrote? && body.Some? ==>
              var ext := ExternalizedInPlace(body.value, req.host, rt.protocol);
              s.sent.body == Some((if WantsHtml(req) then HtmlPage(ext, rt) else rt.stringify(ext)) + "\n")
    ensures body.None? ==> s.Wrote? && s.sent.body.None?
  {
    var hs := FoundHeaders(req, etag, location, rt);
    assert HeadersWithDefaultType(hs) == hs;
    assert "Content-Type" != "Content-Length" && "Content-Location" != "Content-Length" && "Etag" != "Content-Length";
    RespondWith(req, 200, hs, body, rt)
  }

  function CreatedHeaders(location: Option<string>, etag: Option<string>): (hs: seq<Header>)
    ensures HeaderValue(hs, "Location") == location && HeaderValue(hs, "Etag") == etag
    ensures forall n :: n != "Location" && n != "Etag" ==> HeaderValue(hs, n).None?
  {
    var hs := if location.Some? then [Header("Location", location.value)] else [];
    if etag.Some? then SetHeader(hs, "Etag", etag.value) else hs
  }

  /** `created(req, res, body, location, etag)`: 201 with `Location` and `Etag` when given; as
      written no `Content-Type` is ever set, so the document is serialized as JSON and the call
      never throws. */
  function Created(req: Request, body: Option<Json>, location: Option<string>, etag: Option<string>, rt: Runtime): (s: Responding)
    ensures s.Wrote? && s.sent.status == 201
    ensures HeaderValue(s.sent.headers, "Location") == location && HeaderValue(s.sent.headers, "Etag") == etag
    ensures HeaderValue(s.sent.headers, "Content-Type").None?
    ensures body.Some? ==> s.sent.body == Some(rt.stringify(ExternalizedInPlace(body.value, req.host, rt.protocol)) + "\n")
    ensures body.Some? ==> HeaderValue(s.sent.headers, "Content-Length") == Some(NatToString(rt.byteLength(s.sent.body.value)))
  {
    var hs := CreatedHeaders(location, etag);
    assert HeaderValue(hs, "false").None? && HeaderValue(hs, "Content-Type").None?;
    assert HeadersWithDefaultType(hs) == hs;
    assert "Location" != "Content-Length" && "Etag" != "Content-Length";
    var s := RespondWith(req, 201, hs, body, rt);
    assert body.Some? ==> s == Serialized(req, 201, hs, body.value, rt);
    s
  }
}
