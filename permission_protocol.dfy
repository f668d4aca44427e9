/**
  The exchanges with the permissions authority. Each helper is a function of the incoming
  request, its other arguments and what the authority's side delivers (`Reply`), and yields
  the request it sends and what it then does with the incoming request: call its continuation,
  write a response, or throw.
  - `withAllowedDo` asks `GET /is-allowed?...` and hands the answer to its continuation on 200;
  - `ifAllowedThen` asks about the request's own URL and goes on only on the answer `true`;
  - `createPermissonsFor` posts the permissions document of a new resource;
  - `withTeamsDo` fetches the teams of a user and returns them with the user appended.
 */
module PermissionProtocol {
  import opened Wrappers
  import opened Strings
  import opened JsonValues
  import opened UrlTranslation
  import opened Http
  import opened Identity
  import opened Responders
  import opened PermissionDocuments

  /** `JSON.parse` of the body, or the body text itself when it does not parse (line 382's
      `catch` leaves `body` as it was). */
  function ParsedOrRaw(body: string, rt: Runtime): Json {
    match rt.parseJson(body)
    case None => JString(body)
    case Some(v) => v
  }

  const ParseFailure: string := "SyntaxError: Unexpected token in JSON"

  // withAllowedDo

  /** `resourceURL`: one URL, or an array of them. */
  datatype ResourceArg = One(url: string) | Many(urls: seq<string>)

  function ResourceList(r: ResourceArg): seq<string> {
    if r.One? then [r.url] else r.urls
  }

  /** One `resource=` parameter per URL. */
  function ResourceParams(urls: seq<string>): (ps: seq<string>)
    ensures |ps| == |urls| && forall k :: 0 <= k < |urls| ==> ps[k] == "resource=" + urls[k]
  {
    seq(|urls|, k requires 0 <= k < |urls| => "resource=" + urls[k])
  }

  /** A parameter appended unless its value is `null`; `undefined` is appended as the text
      `undefined`. */
  function Param(name: string, v: User): seq<string> {
    if v.Null? then [] else [ParamText(name, v)]
  }

  function ParamText(name: string, v: User): string {
    name + "=" + Interpolated(v)
  }

  /** The parameters of the query, in order. */
  function QueryParams(urls: seq<string>, user: User, action: User, property: User): seq<string> {
    ResourceParams(urls) + Param("user", user) + Param("action", action) + Param("property", property)
  }

  /** What one `permissionsURL += '&name=' + value` adds. */
  function Suffix(name: string, v: User): string {
    if v.Null? then "" else "&" + ParamText(name, v)
  }

  /** Lines 351-362: the path asked for, built by joining the resource parameters and then
      growing it with `+=`. With at least one resource it is `/is-allowed?` followed by all the
      parameters joined by `&`. */
  function IsAllowedPath(urls: seq<string>, user: User, action: User, property: User): (path: string)
    ensures |urls| >= 1 ==> path == "/is-allowed?" + Join(QueryParams(urls, user, action, property), "&")
  {
    SuffixesJoined(urls, user, action, property);
    "/is-allowed?" + Join(ResourceParams(urls), "&") + Suffix("user", user) + Suffix("action", action) + Suffix("property", property)
  }

  /** Lines 351-362 as written: the resource part joined, then grown with `+=`. */
  method PermissionsURL(urls: seq<string>, user: User, action: User, property: User) returns (url: string)
    ensures url == IsAllowedPath(urls, user, action, property)
  {
    var qs := Join(ResourceParams(urls), "&");
    url := "/is-allowed?" + qs;
    ghost var path := url;
    if !user.Null? {
      Appended(url, "&user=", "user", user);
      url := url + "&user=" + Interpolated(user);
    } else {
      NotAppended(url, "user", user);
    }
    assert url == path + Suffix("user", user);
    path := url;
    if !action.Null? {
      Appended(url, "&action=", "action", action);
      url := url + "&action=" + Interpolated(action);
    } else {
      NotAppended(url, "action", action);
    }
    assert url == path + Suffix("action", action);
    path := url;
    if !property.Null? {
      Appended(url, "&property=", "property", property);
      url := url + "&property=" + Interpolated(property);
    } else {
      NotAppended(url, "property", property);
    }
    assert url == path + Suffix("property", property);
  }

  /** `url + '&name=' + value` is `url` followed by the parameter's suffix. */
  lemma Appended(url: string, literal: string, name: string, v: User)
    requires !v.Null? && literal == "&" + name + "="
    ensures url + literal + Interpolated(v) == url + Suffix(name, v)
  {
    assert url + literal + Interpolated(v) == url + ("&" + (name + "=" + Interpolated(v)));
  }

  lemma NotAppended(url: string, name: string, v: User)
    requires v.Null?
    ensures url == url + Suffix(name, v)
  {
    assert url + "" == url;
  }

  lemma Associated(a: string, b: string, c: string)
    ensures a + b + c == a + (b + c)
  {
  }

  lemma JoinParam(parts: seq<string>, name: string, v: User)
    requires |parts| >= 1
    ensures Join(parts + Param(name, v), "&") == Join(parts, "&") + Suffix(name, v)
  {
    if !v.Null? {
      JoinAppend(parts, ParamText(name, v), "&");
      Associated(Join(parts, "&"), "&", ParamText(name, v));
    } else {
      assert parts + Param(name, v) == parts;
    }
  }

  /** Appending `&name=value` for each parameter that is not `null` is joining them all, once
      there is at least one resource parameter. */
  lemma SuffixesJoined(urls: seq<string>, user: User, action: User, property: User)
    ensures |urls| >= 1 ==>
              "/is-allowed?" + Join(ResourceParams(urls), "&") + Suffix("user", user) + Suffix("action", action) + Suffix("property", property)
              == "/is-allowed?" + Join(QueryParams(urls, user, action, property), "&")
  {
    if |urls| >= 1 {
      var rp := ResourceParams(urls);
      var p1 := rp + Param("user", user);
      var p2 := p1 + Param("action", action);
      JoinParam(rp, "user", user);
      JoinParam(p1, "action", action);
      JoinParam(p2, "property", property);
      Prefixed("/is-allowed?", Join(rp, "&"), Suffix("user", user), Suffix("action", action), Suffix("property", property));
    }
  }

  lemma Prefixed(a: string, b: string, c: string, d: string, e: string)
    ensures a + (b + c + d + e) == a + b + c + d + e
  {
  }

  /** Splitting the query at `&` gives back exactly the parameters when no value contains `&`:
      one `resource=` per URL, then `user=`, `action=` and `property=` for each that is not
      `null` (so `undefined` is sent as `user=undefined`). */
  lemma QueryRoundTrip(urls: seq<string>, user: User, action: User, property: User)
    requires |urls| >= 1
    requires forall u :: u in urls ==> '&' !in u
    requires '&' !in Interpolated(user) && '&' !in Interpolated(action) && '&' !in Interpolated(property)
    ensures Split(IsAllowedPath(urls, user, action, property)[|"/is-allowed?"|..], '&') == QueryParams(urls, user, action, property)
  {
    var rp := ResourceParams(urls);
    forall k | 0 <= k < |rp| ensures '&' !in rp[k] {
      assert urls[k] in urls;
      NoAmpersand("resource=", urls[k]);
    }
    ParamNoAmpersand("user", user);
    ParamNoAmpersand("action", action);
    ParamNoAmpersand("property", property);
    var ps := QueryParams(urls, user, action, property);
    assert forall p :: p in ps ==> '&' !in p;
    var path := IsAllowedPath(urls, user, action, property);
    assert path[|"/is-allowed?"|..] == Join(ps, "&");
    assert "&" == ['&'];
    SplitOfJoin(ps, '&');
  }

  /** Reading the query back: the first parameters are one `resource=` per URL, in order, and
      the rest are the `user`, `action` and `property` parameters. */
  lemma QueryNamesResources(urls: seq<string>, user: User, action: User, property: User)
    requires |urls| >= 1
    requires forall u :: u in urls ==> '&' !in u
    requires '&' !in Interpolated(user) && '&' !in Interpolated(action) && '&' !in Interpolated(property)
    ensures var ps := Split(IsAllowedPath(urls, user, action, property)[|"/is-allowed?"|..], '&');
            |ps| >= |urls| && (forall k :: 0 <= k < |urls| ==> ps[k] == "resource=" + urls[k])
            && ps[|urls|..] == Param("user", user) + Param("action", action) + Param("property", property)
  {
    QueryRoundTrip(urls, user, action, property);
    SplitAtPrefix(ResourceParams(urls), Param("user", user), Param("action", action), Param("property", property));
  }

  /** The parts of a four-part concatenation, read back by index. */
  lemma SplitAtPrefix(front: seq<string>, a: seq<string>, b: seq<string>, c: seq<string>)
    ensures (front + a + b + c)[|front|..] == a + b + c
    ensures forall k :: 0 <= k < |front| ==> (front + a + b + c)[k] == front[k]
  {
    assert front + a + b + c == front + (a + b + c);
  }

  lemma NoAmpersand(a: string, b: string)
    requires '&' !in a && '&' !in b
    ensures '&' !in a + b
  {
  }

  lemma ParamNoAmpersand(name: string, v: User)
    requires '&' !in name && '&' !in Interpolated(v)
    ensures forall p :: p in Param(name, v) ==> '&' !in p
  {
    if !v.Null? {
      NoAmpersand(name, "=");
      NoAmpersand(name + "=", Interpolated(v));
    }
  }

  /** The request `withAllowedDo` sends. */
  function AllowedRequest(req: Request, path: string): Outbound {
    Outbound("GET", path, [Header("Host", req.host), Header("Accept", "application/json")] + ForwardedIfTruthy(req), None)
  }

  const FailurePrefix: string := "failed permissions request: "

  /** Lines 379-396: the answer goes to the continuation on 200; anything else is a 500. */
  function AllowedOutcome(path: string, reply: Reply, rt: Runtime): (o: Outcome<Json>)
    ensures o.Continue? <==> reply.Reply? && reply.status == 200
    ensures o.Continue? ==> o.value == ParsedOrRaw(reply.body, rt)
    ensures !o.Continue? ==> o.Respond? && o.status == 500 && o.body.JString? && FailurePrefix <= o.body.s
    ensures reply.Reply? && !o.Continue? ==>
              FailurePrefix + NatToString(reply.status) + " URL: " + path + " body: " <= o.body.s
    ensures reply.TransportError? ==>
              |o.body.s| >= |" URL: " + path| && o.body.s[|o.body.s| - |" URL: " + path|..] == " URL: " + path
  {
    match reply
    case Reply(status, body) =>
      if status == 200 then Continue(ParsedOrRaw(body, rt))
      else Respond(500, JString(FailurePrefix + NatToString(status) + " URL: " + path
                                + " body: " + Display(ParsedOrRaw(body, rt), rt.numberText)))
    case TransportError(text, _) => Respond(500, JString(FailurePrefix + text + " URL: " + path))
  }

  /** `withAllowedDo(req, res, resourceURL, property, action, callback)`. */
  function WithAllowedDo(req: Request, resource: ResourceArg, property: User, action: User, reply: Reply, rt: Runtime): (r: Exchange<Json>)
    ensures |r.outcomes| == 1
    ensures r.request.Some? <==> GetUser(req, rt).Resolved?
    ensures r.outcomes[0].Throw? <==> GetUser(req, rt).Raised?
    ensures r.outcomes[0].Continue? <==> GetUser(req, rt).Resolved? && reply.Reply? && reply.status == 200
    ensures r.outcomes[0].Continue? ==> r.outcomes[0].value == ParsedOrRaw(reply.body, rt)
    ensures r.outcomes[0].Respond? ==> r.outcomes[0].status == 500
    ensures GetUser(req, rt).Raised? ==> r.outcomes[0] == Throw(GetUser(req, rt).error)
    ensures r.request.Some? ==>
              var path := IsAllowedPath(ResourceList(resource), GetUser(req, rt).user, action, property);
              r.request.value == AllowedRequest(req, path) && r.outcomes[0] == AllowedOutcome(path, reply, rt)
  {
    match GetUser(req, rt)
    case Raised(e) => Exchange(None, [Throw(e)])
    case Resolved(user) =>
      var path := IsAllowedPath(ResourceList(resource), user, action, property);
      Exchange(Some(AllowedRequest(req, path)), [AllowedOutcome(path, reply, rt)])
  }

  // ifAllowedThen

  /** Line 402: the URL of the incoming request as the client addressed it. */
  function ResourceURL(req: Request, rt: Runtime): string {
    rt.protocol + "//" + req.host + req.url
  }

  /** Lines 404-412: only the answer `true` lets the request through; otherwise 403 for a
      request that carries a user (including `undefined`), 401 for one that does not. */
  function Decision(req: Request, o: Outcome<Json>, rt: Runtime): (d: Outcome<()>)
    ensures d.Continue? <==> o == Continue(JBool(true))
    ensures o.Continue? && !d.Continue? ==>
              d.Respond? && (if GetUser(req, rt) == Resolved(Null) then d.status == 401 else d.status == 403)
    ensures o.Respond? ==> d == Respond(o.status, o.body)
    ensures o.Throw? ==> d == Throw(o.error)
  {
    match o
    case Continue(allowed) =>
      if allowed == JBool(true) then Continue(())
      else if GetUser(req, rt) != Resolved(Null) then Respond(403, ForbiddenBody(req))
      else Respond(401, UnauthorizedBody(req))
    case Respond(status, body) => Respond(status, body)
    case Throw(e) => Throw(e)
  }

  /** `ifAllowedThen(req, res, property, action, callback)`. */
  function IfAllowedThen(req: Request, property: User, action: User, reply: Reply, rt: Runtime): (r: Exchange<()>)
    ensures |r.outcomes| == 1
    ensures r.outcomes[0] == Continue(()) <==>
              GetUser(req, rt).Resolved? && reply.Reply? && reply.status == 200 && ParsedOrRaw(reply.body, rt) == JBool(true)
    ensures r.outcomes[0] == Respond(403, ForbiddenBody(req)) <==>
              GetUser(req, rt).Resolved? && GetUser(req, rt).user != Null
              && reply.Reply? && reply.status == 200 && ParsedOrRaw(reply.body, rt) != JBool(true)
    ensures r.outcomes[0] == Respond(401, UnauthorizedBody(req)) <==>
              GetUser(req, rt) == Resolved(Null)
              && reply.Reply? && reply.status == 200 && ParsedOrRaw(reply.body, rt) != JBool(true)
    ensures r.outcomes[0].Respond? && r.outcomes[0].status == 500 <==> GetUser(req, rt).Resolved? && !(reply.Reply? && reply.status == 200)
  {
    var asked := WithAllowedDo(req, One(ResourceURL(req, rt)), property, action, reply, rt);
    Exchange(asked.request, [Decision(req, asked.outcomes[0], rt)])
  }

  /** `ifAllowedThen` asks about exactly the request's own URL. */
  lemma IfAllowedAsksForItself(req: Request, property: User, action: User, reply: Reply, rt: Runtime)
    requires GetUser(req, rt).Resolved?
    ensures IfAllowedThen(req, property, action, reply, rt).request
            == Some(AllowedRequest(req, IsAllowedPath([ResourceURL(req, rt)], GetUser(req, rt).user, action, property)))
    ensures Join(ResourceParams([ResourceURL(req, rt)]), "&") == "resource=" + ResourceURL(req, rt)
  {
  }

  // createPermissonsFor

  const MismatchText: string := "value of _resource must match resourceURL"

  /** The `POST /permissions` carrying the document. */
  function PermissionsPost(req: Request, doc: Json, rt: Runtime): Outbound {
    var headers := [Header("Accept", "application/json"), Header("Host", req.host), Header("Content-Type", "application/json"),
                    Header("Content-Length", NatToString(rt.byteLength(rt.stringify(doc))))];
    Outbound("POST", "/permissions", headers + ForwardedIfTruthy(req), Some(doc))
  }

  /** The 500 document for an unexpected status; `JSON.stringify(clientRes.body)` of the
      missing property is `undefined`. */
  function CreationFailure(url: string, status: nat): Json {
    JObject([Field("statusCode", JNumber(status as real)),
             Field("msg", JString("failed to create permissions for " + url + " statusCode " + NatToString(status) + " message undefined"))])
  }

  /** Lines 323-342: what the authority's answer to the post leads to. */
  function PostOutcome(req: Request, url: string, reply: Reply, rt: Runtime): (o: Outcome<(string, Json)>)
    ensures o.Continue? <==> reply.Reply? && reply.status == 201 && rt.parseJson(reply.body).Some?
    ensures o.Continue? ==> o.value.0 == url && o.value.1 == InternalizedInPlace(rt.parseJson(reply.body).value, req.host)
    ensures o.Throw? <==> reply.Reply? && reply.status == 201 && rt.parseJson(reply.body).None?
    ensures o.Respond? ==> o.status == 400 || o.status == 403 || o.status == 500
    ensures o.Respond? && reply.Reply? && (reply.status == 400 || reply.status == 403) ==> o.status == reply.status
  {
    match reply
    case Reply(status, body) =>
      if status == 201 then
        (match rt.parseJson(body)
         case None => Throw(ParseFailure)
         case Some(v) => Continue((url, InternalizedInPlace(v, req.host))))
      else if status == 400 then Respond(400, JString(body))
      else if status == 403 then Respond(403, ForbiddenBody(req))
      else Respond(500, CreationFailure(url, status))
    case TransportError(_, err) => Respond(500, err)
  }

  /** `createPermissonsFor(serverReq, serverRes, resourceURL, permissions, callback)` as written:
      a disagreeing `_resource._self` writes a 400 and the post goes ahead all the same. */
  function CreatePermissionsFor(req: Request, url: string, permissions: Option<Json>, reply: Reply, rt: Runtime): (r: Exchange<(string, Json)>)
    ensures GetUser(req, rt).Resolved? && IsNullish(GetUser(req, rt).user) ==> r == Exchange(None, [Respond(401, UnauthorizedBody(req))])
    ensures GetUser(req, rt).Raised? ==> r == Exchange(None, [Throw(GetUser(req, rt).error)])
  {
    match GetUser(req, rt)
    case Raised(e) => Exchange(None, [Throw(e)])
    case Resolved(user) =>
      if IsNullish(user) then Exchange(None, [Respond(401, UnauthorizedBody(req))])
      else
        var shaping := ShapePermissions(permissions, url, user.s, rt);
        var warned := if shaping.mismatch then [Respond(400, JString(MismatchText))] else [];
        match shaping
        case ShapeThrew(_, e) => Exchange(None, warned + [Throw(e)])
        case Shaped(_, doc) => Exchange(Some(PermissionsPost(req, doc, rt)), warned + [PostOutcome(req, url, reply, rt)])
  }

  /** `createPermissonsFor` as evidently intended: a disagreeing `_resource._self` is refused
      with the 400 and nothing is posted. */
  function CreatePermissionsForCorrected(req: Request, url: string, permissions: Option<Json>, reply: Reply, rt: Runtime): (r: Exchange<(string, Json)>)
    ensures |r.outcomes| == 1
    ensures r.request.Some? ==> GetUser(req, rt).Resolved? && !IsNullish(GetUser(req, rt).user)
                                && !ShapePermissions(permissions, url, GetUser(req, rt).user.s, rt).mismatch
  {
    match GetUser(req, rt)
    case Raised(e) => Exchange(None, [Throw(e)])
    case Resolved(user) =>
      if IsNullish(user) then Exchange(None, [Respond(401, UnauthorizedBody(req))])
      else
        var shaping := ShapePermissions(permissions, url, user.s, rt);
        if shaping.mismatch then Exchange(None, [Respond(400, JString(MismatchText))])
        else match shaping
          case ShapeThrew(_, e) => Exchange(None, [Throw(e)])
          case Shaped(_, doc) => Exchange(Some(PermissionsPost(req, doc, rt)), [PostOutcome(req, url, reply, rt)])
  }

  /** For a user, the document shaped from `permissions` is posted unchanged (its URLs are not
      internalized first), and the answer decides the one outcome: 201 continues with the URL
      and the parsed body internalized, 400 passes the authority's body on, 403 is refused as
      forbidden, and any other status is a 500 naming that status. */
  lemma CreationStatus(req: Request, url: string, permissions: Option<Json>, status: nat, body: string, rt: Runtime, user: string)
    requires GetUser(req, rt) == Resolved(Str(user))
    requires ShapePermissions(permissions, url, user, rt).Shaped? && !ShapePermissions(permissions, url, user, rt).mismatch
    ensures var r := CreatePermissionsFor(req, url, permissions, Reply(status, body), rt);
            r.request.Some? && r.request.value.verb == "POST" && r.request.value.path == "/permissions"
            && r.request.value.body == Some(ShapePermissions(permissions, url, user, rt).doc)
            && |r.outcomes| == 1
            && (status == 201 && rt.parseJson(body).Some? ==> r.outcomes[0] == Continue((url, InternalizedInPlace(rt.parseJson(body).value, req.host))))
            && (status == 201 && rt.parseJson(body).None? ==> r.outcomes[0].Throw?)
            && (status == 400 ==> r.outcomes[0] == Respond(400, JString(body)))
            && (status == 403 ==> r.outcomes[0] == Respond(403, ForbiddenBody(req)))
            && (status != 201 && status != 400 && status != 403 ==>
                  r.outcomes[0].Respond? && r.outcomes[0].status == 500 && Member(r.outcomes[0].body, "statusCode") == Some(JNumber(status as real)))
  {
  }

  /** Line 289 as written: with a disagreeing `_self` the 400 is written and the document is
      still posted, so the authority's answer is handled on a response already sent. The
      corrected version answers with the 400 alone. */
  lemma MismatchStillPosts(req: Request, url: string, permissions: Option<Json>, reply: Reply, rt: Runtime, user: string)
    requires GetUser(req, rt) == Resolved(Str(user))
    requires ShapePermissions(permissions, url, user, rt).Shaped? && ShapePermissions(permissions, url, user, rt).mismatch
    ensures var r := CreatePermissionsFor(req, url, permissions, reply, rt);
            r.request.Some? && |r.outcomes| == 2 && r.outcomes[0] == Respond(400, JString(MismatchText))
    ensures CreatePermissionsForCorrected(req, url, permissions, reply, rt) == Exchange(None, [Respond(400, JString(MismatchText))])
  {
  }

  /** A concrete input: `{_resource: {_self: other}}` posted for a resource `url` that is not
      `other`, such as `/b` for `/a`. */
  lemma MismatchExample(req: Request, reply: Reply, rt: Runtime, user: string, url: string, other: string)
    requires GetUser(req, rt) == Resolved(Str(user)) && url != other
    ensures var doc := JObject([Field("_resource", JObject([Field("_self", JString(other))]))]);
            ShapePermissions(Some(doc), url, user, rt).Shaped? && ShapePermissions(Some(doc), url, user, rt).mismatch
            && CreatePermissionsFor(req, url, Some(doc), reply, rt).request.Some?
            && |CreatePermissionsFor(req, url, Some(doc), reply, rt).outcomes| == 2
  {
    var doc := JObject([Field("_resource", JObject([Field("_self", JString(other))]))]);
    MismatchShaped(url, other, user, rt);
    MismatchStillPosts(req, url, Some(doc), reply, rt, user);
  }

  lemma MismatchShaped(url: string, other: string, user: string, rt: Runtime)
    requires url != other
    ensures var doc := JObject([Field("_resource", JObject([Field("_self", JString(other))]))]);
            ShapePermissions(Some(doc), url, user, rt).Shaped? && ShapePermissions(Some(doc), url, user, rt).mismatch
  {
    var rs := [Field("_self", JString(other))];
    var fs := [Field("_resource", JObject(rs))];
    assert Lookup(fs, "_resource") == Some(JObject(rs));
    assert Lookup(rs, "_self") == Some(JString(other));
    assert SelfDiffers(JString(other), url, rt);
    SelfPresent(fs, rs, JString(other), url, rt);
    ShapedNamesDiffer();
    assert Lookup(fs, "_permissions").None?;
    PermissionsCreated(fs, user, true);
    SuppliedObject(fs, url, user, rt);
    var shaping := WithPermissions(fs, user, true);
    assert shaping.Shaped? && shaping.mismatch;
    assert ShapePermissions(Some(JObject(fs)), url, user, rt) == shaping;
  }

  /** Without a disagreement the corrected version does exactly what the original does. */
  lemma CorrectedCreationAgrees(req: Request, url: string, permissions: Option<Json>, reply: Reply, rt: Runtime)
    requires GetUser(req, rt).Resolved? && !IsNullish(GetUser(req, rt).user)
    requires !ShapePermissions(permissions, url, GetUser(req, rt).user.s, rt).mismatch
    ensures CreatePermissionsForCorrected(req, url, permissions, reply, rt) == CreatePermissionsFor(req, url, permissions, reply, rt)
  {
    var shaping := ShapePermissions(permissions, url, GetUser(req, rt).user.s, rt);
    assert [] + [Outcome<(string, Json)>.Respond(0, JNull)] == [Outcome<(string, Json)>.Respond(0, JNull)];
    if shaping.ShapeThrew? {
      assert [] + [Outcome<(string, Json)>.Throw(shaping.error)] == [Outcome<(string, Json)>.Throw(shaping.error)];
    } else {
      assert [] + [PostOutcome(req, url, reply, rt)] == [PostOutcome(req, url, reply, rt)];
    }
  }

  // withTeamsDo

  /** `user.lastIndexOf` on `undefined`. */
  const UndefinedUser: string := "TypeError: Cannot read properties of undefined (reading 'lastIndexOf')"

  /** Line 10: `internalizeURL(user)` without an authority, so the authority is `undefined`. */
  function TeamsUser(user: string): string {
    InternalizeURL(user, "undefined")
  }

  /** The request `withTeamsDo` sends; the authorization header goes along whenever it is present. */
  function TeamsRequest(req: Request, user: string): Outbound {
    Outbound("GET", "/teams?" + TeamsUser(user), [Header("Accept", "application/json"), Header("Host", req.host)] + ForwardedIfPresent(req), None)
  }

  /** Lines 31-36 on a 200: the `contents` array, internalized for the request's host, with
      the user appended. A body that does not parse, is `null`, or whose `contents` is not an
      array throws (reading `contents`, or calling `push`). */
  function TeamsOutcome(req: Request, user: string, reply: Reply, rt: Runtime): (o: Outcome<Option<seq<Json>>>)
    ensures o.Continue? <==>
              reply.Reply? && reply.status == 200 && rt.parseJson(reply.body).Some?
              && Member(rt.parseJson(reply.body).value, "contents").Some? && Member(rt.parseJson(reply.body).value, "contents").value.JArray?
    ensures o.Continue? ==> o.value.Some? && |o.value.value| >= 1 && o.value.value[|o.value.value| - 1] == JString(TeamsUser(user))
    ensures o.Throw? <==> reply.Reply? && reply.status == 200 && !o.Continue?
    ensures o.Respond? ==> o.status == 500
  {
    match reply
    case Reply(status, body) =>
      if status == 200 then
        match rt.parseJson(body)
        case None => Throw(ParseFailure)
        case Some(v) =>
          if v.JNull? then Throw("TypeError: Cannot read properties of null (reading 'contents')")
          else match Member(v, "contents")
            case Some(JArray(es)) => Continue(Some(InternalizedTree(JArray(es), req.host).elems + [JString(TeamsUser(user))]))
            case _ => Throw("TypeError: actors.push is not a function")
      else Respond(500, JString("withTeamsDo: unable to retrieve /teams?user for user " + TeamsUser(user) + " statusCode " + NatToString(status)))
    case TransportError(_, err) => Respond(500, err)
  }

  /** `withTeamsDo(req, res, user, callback)`: `null` continues with `null` at once, `undefined`
      passes the `!== null` test and throws in `internalizeURL`. */
  function WithTeamsDo(req: Request, user: User, reply: Reply, rt: Runtime): (r: Exchange<Option<seq<Json>>>)
    ensures |r.outcomes| == 1
    ensures r.request.Some? <==> user.Str?
    ensures r.outcomes[0] == Continue(None) <==> user.Null?
    ensures r.outcomes[0].Continue? && r.outcomes[0].value.Some? <==>
              user.Str? && reply.Reply? && reply.status == 200 && rt.parseJson(reply.body).Some?
              && Member(rt.parseJson(reply.body).value, "contents").Some? && Member(rt.parseJson(reply.body).value, "contents").value.JArray?
  {
    match user
    case Null => Exchange(None, [Continue(None)])
    case Undefined => Exchange(None, [Throw(UndefinedUser)])
    case Str(u) => Exchange(Some(TeamsRequest(req, u)), [TeamsOutcome(req, u, reply, rt)])
  }

  /** The actors handed on are the teams, each internalized for the request's host, followed by
      the internalized user. */
  lemma TeamsActors(req: Request, user: string, body: string, rt: Runtime, es: seq<Json>)
    requires rt.parseJson(body).Some? && Member(rt.parseJson(body).value, "contents") == Some(JArray(es))
    ensures var o := WithTeamsDo(req, Str(user), Reply(200, body), rt).outcomes[0];
            o.Continue? && o.value.Some? && |o.value.value| == |es| + 1
            && (forall k :: 0 <= k < |es| ==> o.value.value[k] == InternalizedTree(es[k], req.host))
            && o.value.value[|es|] == JString(InternalizeURL(user, "undefined"))
  {
  }

  /** A user id that is not an `http://undefined` or `https://undefined` URL is sent and appended
      as it is. */
  lemma TeamsUserVerbatim(req: Request, user: string)
    requires !("http://undefined" <= user) && !("https://undefined" <= user)
    ensures TeamsRequest(req, user).path == "/teams?" + user
  {
  }

  /** Credentials: `withAllowedDo` and `createPermissonsFor` forward a non-empty
      `Authorization` header, `withTeamsDo` forwards any that is present, even an empty one; no
      other header depends on it. */
  lemma ForwardsCredentials(req: Request, path: string, doc: Json, user: string, rt: Runtime)
    ensures HeaderValue(AllowedRequest(req, path).headers, "authorization")
            == if req.authorization.Some? && req.authorization.value != "" then req.authorization else None
    ensures HeaderValue(PermissionsPost(req, doc, rt).headers, "authorization")
            == if req.authorization.Some? && req.authorization.value != "" then req.authorization else None
    ensures HeaderValue(TeamsRequest(req, user).headers, "authorization") == req.authorization
    ensures HeaderValue(AllowedRequest(req, path).headers, "Host") == Some(req.host)
    ensures HeaderValue(TeamsRequest(req, user).headers, "Host") == Some(req.host)
    ensures HeaderValue(PermissionsPost(req, doc, rt).headers, "Host") == Some(req.host)
  {
    AllowedForwards(req, path);
    PostForwards(req, doc, rt);
    TeamsForwards(req, user);
  }

  lemma AllowedForwards(req: Request, path: string)
    ensures HeaderValue(AllowedRequest(req, path).headers, "authorization")
            == if req.authorization.Some? && req.authorization.value != "" then req.authorization else None
    ensures HeaderValue(AllowedRequest(req, path).headers, "Host") == Some(req.host)
  {
    var a := [Header("Host", req.host), Header("Accept", "application/json")];
    assert "authorization"[0] != "Host"[0] && "authorization"[0] != "Accept"[0];
    assert HeaderNames(a) == ["Host", "Accept"];
    ForwardedHeader(a, ForwardedIfTruthy(req), req);
  }

  lemma PostForwards(req: Request, doc: Json, rt: Runtime)
    ensures HeaderValue(PermissionsPost(req, doc, rt).headers, "authorization")
            == if req.authorization.Some? && req.authorization.value != "" then req.authorization else None
    ensures HeaderValue(PermissionsPost(req, doc, rt).headers, "Host") == Some(req.host)
  {
    var p := [Header("Accept", "application/json"), Header("Host", req.host), Header("Content-Type", "application/json"),
              Header("Content-Length", NatToString(rt.byteLength(rt.stringify(doc))))];
    assert "authorization"[0] != "Host"[0] && "authorization"[0] != "Accept"[0] && "authorization"[0] != "Content-Type"[0];
    assert "authorization"[0] != "Content-Length"[0] && "Host"[0] != "Accept"[0];
    assert HeaderNames(p) == ["Accept", "Host", "Content-Type", "Content-Length"];
    ForwardedHeader(p, ForwardedIfTruthy(req), req);
  }

  lemma TeamsForwards(req: Request, user: string)
    ensures HeaderValue(TeamsRequest(req, user).headers, "authorization") == req.authorization
    ensures HeaderValue(TeamsRequest(req, user).headers, "Host") == Some(req.host)
  {
    var t := [Header("Accept", "application/json"), Header("Host", req.host)];
    assert "authorization"[0] != "Host"[0] && "authorization"[0] != "Accept"[0] && "Host"[0] != "Accept"[0];
    assert HeaderNames(t) == ["Accept", "Host"];
    ForwardedHeader(t, ForwardedIfPresent(req), req);
  }
}
