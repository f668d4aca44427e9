# http-helper-functions, modelled in Dafny

`http-helper-functions.js` is the helper layer shared by the microservices of a small
resource server. This project models its decision logic and proves properties of that model:

- **URL address-space translation.** `internalizeURL`, `internalizeURLs` and
  `externalizeURLs` swap a request's public `http(s)://<host>` prefix for the placeholder
  `protocol://authority` and back. The whole-document walks appear twice: as loop methods over
  the document, and as the tree functions that specify them.
- **JSON Merge Patch.** `mergePatch` is section 2 of RFC 7396 with the JavaScript
  behaviour of the source: `typeof null == 'object'`, and `Object.assign` copies an array
  target into index-named properties.
- **The permissions protocol.** `withAllowedDo`, `ifAllowedThen`, `createPermissonsFor` and
  `withTeamsDo` are each a function of the incoming request and the authority's reply.
  Each returns the request it would send plus what it then does: continue with a value,
  write a response, or throw.
- **Identity extraction.** `getUser` and `getUserFromToken` read a bearer token's `user_id`.
- **Response shaping.** This covers the status responders, `found`, `created`, the serializer
  choice in `respond`, and the `toHTML` renderer. `toHTML` throws on a document holding a
  `null` (`Object.keys(null)`), so `respond` throws instead of writing an HTML response for it.
- **Creation stamping.** `setStandardCreationProperties` stamps the creator, modifier and
  times on a resource object updated in place.

Module layout:

| file | module | contents |
|---|---|---|
| `wrappers.dfy` | `Wrappers` | `Option` |
| `strings.dfy` | `Strings` | whitespace tokens, `split`/`join` on a character, decimal text, ASCII lower case |
| `json.dfy` | `JsonValues` | the `Json` value, ordered property lists with first-hit lookup, JavaScript truthiness |
| `objects.dfy` | `JsObjects` | `ObjectRef`: a JavaScript object whose properties are set in place |
| `http.dfy` | `Http` | requests, header lists, the three states of a user, the runtime parameters, outbound requests and outcomes |
| `url_translation.dfy` | `UrlTranslation` | `internalizeURL`, `internalizeURLs`, `externalizeURLs` |
| `merge_patch.dfy` | `MergePatching` | `mergePatch` |
| `identity.dfy` | `Identity` | `getUser`, `getUserFromToken` |
| `html.dfy` | `HtmlRendering` | `toHTML` |
| `responders.dfy` | `Responders` | status responders, `respond`, `found`, `created` |
| `creation_properties.dfy` | `CreationProperties` | `setStandardCreationProperties` |
| `permission_documents.dfy` | `PermissionDocuments` | the permissions document `createPermissonsFor` builds |
| `permission_protocol.dfy` | `PermissionProtocol` | `withAllowedDo`, `ifAllowedThen`, `createPermissonsFor`, `withTeamsDo` |

The process settings and foreign calls are fields of `Http.Runtime`, passed as parameters:

- `PROTOCOL` and `COMPONENT`;
- `JSON.parse` and `JSON.stringify`;
- base64 decoding of the token claims;
- `Number.prototype.toString`;
- `Buffer.byteLength`;
- `Number(s)`.

The clock is the `now` parameter of the creation stamping. The authority's side of every
exchange is the `Http.Reply` parameter: a status and body text, or a transport error.

As the code is written:

- `withTeamsDo` asks for `/teams?<user>`, not `/teams?user=<user>`.
- `withTeamsDo` internalizes the actors it receives rather than externalizing them.
- `createPermissonsFor` posts the permissions document without internalizing it.
- A `_resource._self` that disagrees with the resource's URL does not stop the post (see Findings).

## Model

| member | source | states |
|---|---|---|
| UrlTranslation.InternalizeURL | http-helper-functions.js:210-220 | `internalizeURL` returns its argument or a string in internal form, and never leaves an external prefix for the authority at the front |
| UrlTranslation.ExternalizeURL | http-helper-functions.js:252-256 | a string not in internal form is left alone, and under an `http:` or `https:` scheme internalizing the externalized string gives what internalizing the original gives |
| UrlTranslation.InternalizeHttp | http-helper-functions.js:210-214 | a URL starting `http://<authority>` becomes `protocol://authority` followed by the rest of the URL |
| UrlTranslation.InternalizeHttps | http-helper-functions.js:210-216 | a URL starting `https://<authority>` becomes `protocol://authority` followed by the rest, although the `http://` test is made first |
| UrlTranslation.ForeignUnchanged | http-helper-functions.js:217-219 | a string with neither external prefix and not in internal form is left unchanged by internalizing and by externalizing |
| UrlTranslation.UrlRoundTrip | http-helper-functions.js:213-216 | externalizing an internalized `http(s)://<authority>` URL gives `PROTOCOL//<authority>` plus the same rest, which is the original URL under the default `http:` |
| UrlTranslation.InternalPrefixIsNotExternal | http-helper-functions.js:5 | a string in internal form starts with neither external prefix, for any authority |
| UrlTranslation.InternalizeURLIdempotent | http-helper-functions.js:210-220 | an internalized URL has no external prefix left, so internalizing twice is the same as once |
| UrlTranslation.InternalizedTree | http-helper-functions.js:222-238 | after `internalizeURLs` no string anywhere in the document starts with an external prefix for the authority |
| UrlTranslation.ExternalizedTree | http-helper-functions.js:240-259 | under an `http:` or `https:` scheme, internalizing the externalized document gives what internalizing the document itself gives |
| UrlTranslation.InternalizedTreeShape | http-helper-functions.js:222-238 | internalizing a document keeps its shape (array lengths and order, property names and order, numbers, booleans and nulls) and replaces each string by its internalized form |
| UrlTranslation.ExternalizedTreeShape | http-helper-functions.js:240-259 | externalizing a document keeps its shape and replaces each string leaf by its externalized form |
| UrlTranslation.TreeRoundTrip | http-helper-functions.js:222-259 | a document whose strings are `http://<authority>` URLs or foreign comes back unchanged from internalizing and then externalizing under `http:` |
| UrlTranslation.InternalizedTreeIdempotent | http-helper-functions.js:222-238 | internalizing a document twice gives the same document as internalizing it once |
| UrlTranslation.InternalizeURLs | http-helper-functions.js:222-238 | the loop that overwrites every array slot and own property computes the internalized tree |
| UrlTranslation.ExternalizeURLs | http-helper-functions.js:240-259 | the loop that overwrites every array slot and own property computes the externalized tree under the configured protocol |
| UrlTranslation.InternalizedInPlace | http-helper-functions.js:33 | when the result is dropped, an array or object comes out with the same shape and each string leaf internalized; a string, number, boolean or `null` argument is left as it was |
| UrlTranslation.ExternalizedInPlace | http-helper-functions.js:198 | when the result is dropped, an array or object comes out with the same shape and each string leaf externalized; a string, number, boolean or `null` argument is left as it was |
| UrlTranslation.RewritesKeepNulls | http-helper-functions.js:222-259 | rewriting the string leaves of a document keeps every `null` in it and adds none |
| UrlTranslation.ExternalizedKeepsNulls | http-helper-functions.js:198 | the document `respond` externalizes in place holds a `null` exactly when the original does |
| UrlTranslation.TopLevelStringNotExternalized | http-helper-functions.js:198 | an internal URL handed to `respond` as the whole body stays internal, while the same URL inside an array is externalized |
| MergePatching.Merged | http-helper-functions.js:416-439 | `mergePatch` returns an object exactly when the patch is an object or `null`, and returns any other patch as it is |
| MergePatching.MergePatch | http-helper-functions.js:416-439 | the copy-then-set-or-delete loop returns the reference merge `Merged` |
| MergePatching.MergedKeyRule | http-helper-functions.js:423-434 | for an object patch, each name ends as the RFC 7396 rule says: deleted when patched with `null`, merged when patched with another value, kept when not patched |
| MergePatching.MergedObjectPatch | http-helper-functions.js:417-435 | names patched with `null` are absent, names patched with a value hold `mergePatch(old, value)`, and names the patch does not mention keep their values |
| MergePatching.MergedReplaces | http-helper-functions.js:436-437 | an array, string, number or boolean patch is returned as it is |
| MergePatching.MergedOverNonObject | http-helper-functions.js:418-419 | an object patch over an absent, string, number or boolean target gives exactly the patch's non-null names, each merged into nothing |
| MergePatching.MergedNullPatch | http-helper-functions.js:417-422 | a top-level `null` patch returns a copy of an object target, and `{}` over an absent or scalar target |
| MergePatching.MergedArrayTarget | http-helper-functions.js:421 | an array target's element `k` survives under the name `"k"` when the patch does not name it |
| MergePatching.MergedDistinct | http-helper-functions.js:421-435 | the resulting object never holds a property name twice |
| Identity.GetUserFromToken | http-helper-functions.js:89-98 | `getUserFromToken` throws only on a three-segment token whose claims do not decode, and a user it returns is what the middle segment decodes to |
| Identity.GetUser | http-helper-functions.js:100-112 | `getUser` is `null` without a header; it throws only for a header with no token or a bearer token whose claims do not decode; a user it returns comes from the second token of a `bearer` header |
| Identity.ThreeSegmentToken | http-helper-functions.js:89-97 | a three-segment token yields what its middle segment decodes to, or throws when that segment is malformed |
| Identity.OtherSegmentCount | http-helper-functions.js:91-93 | a token without exactly two dots identifies no user and does not throw |
| Identity.BearerHeader | http-helper-functions.js:100-111 | for `<scheme> <token>`, the token is looked up exactly when the scheme is `bearer` in any letter case, and otherwise there is no user |
| Identity.BlankAuthorizationThrows | http-helper-functions.js:105-106 | an empty or all-whitespace `Authorization` header makes `getUser` throw, while the corrected version reports no user |
| Identity.GetUserCorrected | http-helper-functions.js:100-112 | the corrected `getUser` throws only when a bearer token's claims cannot be decoded |
| Identity.CorrectedAgrees | http-helper-functions.js:100-112 | the corrected `getUser` agrees with the original on every request whose header is absent or contains a token, and differs only by reporting no user where the original throws |
| HtmlRendering.ValueToHtml | http-helper-functions.js:466-482 | rendering a value fails (`Object.keys(null)` throws) exactly when the value holds a `null` somewhere |
| HtmlRendering.ToHtml | http-helper-functions.js:465-490 | `toHTML` throws exactly when the body holds a `null`; otherwise the page is the HTML head, the depth-0 rendering of the body, and the closing tags |
| HtmlRendering.RendersAtDepth | http-helper-functions.js:465-490 | rendering at indent `25d - 25` fails exactly on a value holding a `null`, and otherwise is the depth-`d` rendering: objects padded by 25 pixels per level of nesting, array elements at their array's depth |
| HtmlRendering.OpensAtDepth | http-helper-functions.js:482-483 | an object rendered at depth `d` starts with its opening tag padded by `25d` pixels |
| HtmlRendering.RootPadding | http-helper-functions.js:483-489 | the page of a body object that `toHTML` renders starts with the head and the object's opening tag padded by 0 pixels |
| HtmlRendering.ChildPadding | http-helper-functions.js:482-483 | an object rendered as a property of the body's object starts with its opening tag padded by 25 pixels |
| Responders.JsonResponse | http-helper-functions.js:123-166 | a status response (404, 403, 401, 400, 500 or 409) carries the serialized document, `Content-Type: application/json` and its byte length, and no other header |
| Responders.MethodNotAllowed | http-helper-functions.js:114-121 | 405 with the serialized message, JSON type, its byte length and `Allow` listing the methods joined by `, ` |
| Responders.WrittenByResponders | http-helper-functions.js:130-152 | the 401, 403, 400 and 500 outcomes of the protocol helpers write what `unauthorized`, `forbidden`, `badRequest` and `internalError` write |
| Responders.HeadersWithDefaultType | http-helper-functions.js:195-197 | as written the `Content-Type` becomes `application/json` only when a header named `false` is present, and otherwise, like every other header, is unchanged |
| Responders.Serialized | http-helper-functions.js:198-206 | `respond` with a body throws exactly when the type is `text/html` and the document holds a `null`; otherwise it writes the status, the other headers unchanged, the externalized document as HTML or JSON plus a newline, and its byte length |
| Responders.RespondNeverDefaultsType | http-helper-functions.js:195-197 | as written, a body sent without `Content-Type` gets none; the corrected version gives it `application/json` |
| Responders.RespondWithCorrected | http-helper-functions.js:193-208 | the corrected `respond` always sends a `Content-Type` with a body, keeping a given one and otherwise using `application/json` |
| Responders.RespondWithCorrectedAgrees | http-helper-functions.js:193-208 | when a `Content-Type` is given, the corrected and the original `respond` write the same response |
| Responders.RespondWith | http-helper-functions.js:193-208 | without a body the status and headers are written alone; with one, the headers are defaulted as written and the document is serialized as above, so `respond` throws exactly for an HTML type and a document holding a `null` |
| Responders.FoundHeaders | http-helper-functions.js:168-178 | `found`'s headers: the HTML type exactly when `Accept` starts with `text/html`, the given `Content-Location` or `PROTOCOL//host+url`, and the `Etag` when given |
| Responders.Found | http-helper-functions.js:168-180 | `found` throws exactly when the client asks for HTML and the body holds a `null`; otherwise it sends 200 with those headers, and the body is the externalized document as HTML exactly when the client asks for HTML |
| Responders.CreatedHeaders | http-helper-functions.js:182-189 | `created`'s headers are exactly `Location` and `Etag`, each when given |
| Responders.Created | http-helper-functions.js:182-191 | `created` never throws: it sends 201 with `Location` and `Etag` and no `Content-Type`, so the body is always JSON |
| CreationProperties.Stamped | http-helper-functions.js:441-463 | there is no refusal exactly when none of the four keys is truthy, and a refusal names a key that is truthy |
| CreationProperties.FirstTruthy | http-helper-functions.js:442-461 | the first creation key, from a given one on, that the resource sets to a truthy value, with every key before it falsy |
| CreationProperties.CheckAndStamp | http-helper-functions.js:442-446 | one step refuses exactly when the key is truthy, and otherwise sets that key and nothing else |
| CreationProperties.SetStandardCreationProperties | http-helper-functions.js:441-463 | the object is left with the keys before the first truthy one stamped, and the refusal of that key is returned (or none) |
| CreationProperties.StampsAll | http-helper-functions.js:441-463 | no refusal exactly when all four keys are falsy; then creator and modifier are the user, created and modified are the time, and every other property keeps its value |
| CreationProperties.RefusesFirstTruthy | http-helper-functions.js:442-461 | the refusal names the first truthy key, the keys before it are stamped, and it and the later keys keep the client's values |
| PermissionDocuments.ShapePermissions | http-helper-functions.js:266-299 | a mismatch is reported exactly for a supplied object whose `_resource._self` disagrees with the URL; the posted document is an object or an array; a supplied object keeps every property other than `_resource` and `_permissions` |
| PermissionDocuments.WithResource | http-helper-functions.js:282-291 | `_resource` shaping throws exactly when `_resource` is `null` or a scalar, reports a mismatch exactly when a present `_self` differs from the URL, and changes no other property |
| PermissionDocuments.WithPermissions | http-helper-functions.js:292-299 | `_permissions` shaping throws exactly when `_permissions` is `null` or a scalar, and changes no other property |
| PermissionDocuments.ResourceInPlace | http-helper-functions.js:282-291 | updating the caller's object in place leaves it holding the `_resource` shaping, or reports its error |
| PermissionDocuments.PermissionsInPlace | http-helper-functions.js:292-299 | updating the caller's object in place leaves it holding the `_permissions` shaping, or reports its error |
| PermissionDocuments.CompleteInPlace | http-helper-functions.js:282-299 | both steps in place give the shaping of a supplied document |
| PermissionDocuments.DefaultDocument | http-helper-functions.js:266-280 | with no document, or `null`, the default document is posted, with no mismatch |
| PermissionDocuments.DefaultResource | http-helper-functions.js:273-279 | in the default document `_resource._self` is the URL, and each of its four other properties grants the creator alone |
| PermissionDocuments.DefaultGrants | http-helper-functions.js:268-272 | in the default document only the creator may read and update the permissions |
| PermissionDocuments.ThrowsExactly | http-helper-functions.js:282-299 | shaping throws exactly when the supplied document is a scalar, or its `_resource` or `_permissions` is `null` or a scalar |
| PermissionDocuments.SelfFilledIn | http-helper-functions.js:282-286 | a missing `_resource` or `_self` is filled in with the URL, the rest of `_resource` is kept, and there is no mismatch |
| PermissionDocuments.SelfChecked | http-helper-functions.js:287-291 | a present `_self` is kept, and a mismatch is reported exactly when it differs loosely from the URL |
| PermissionDocuments.CreatorGranted | http-helper-functions.js:293-299 | without inheritance and update grants, the creator alone may update, and the document's top-level read grant (or else the creator) may read; other `_permissions` entries are kept |
| PermissionDocuments.GovernedKept | http-helper-functions.js:296 | a `_permissions` object with `inheritsPermissionsOf` or `grantsUpdateAccessTo` is posted unchanged |
| PermissionDocuments.OthersKept | http-helper-functions.js:282-299 | every property other than `_resource` and `_permissions` is posted as supplied |
| PermissionProtocol.IsAllowedPath | http-helper-functions.js:351-362 | with at least one resource, the path is `/is-allowed?` followed by all its parameters joined by `&`, a value that is `undefined` written as `undefined` |
| PermissionProtocol.PermissionsURL | http-helper-functions.js:351-362 | the path built with `+=` is `/is-allowed?` and the resource parameters, followed by `user`, `action` and `property` for each of them that is not `null` |
| PermissionProtocol.QueryRoundTrip | http-helper-functions.js:352-362 | when no URL or value contains `&`, splitting the query on `&` gives back exactly its parameters |
| PermissionProtocol.QueryNamesResources | http-helper-functions.js:351-352 | when no URL or value contains `&`, the query's first parameters are `resource=<url>` for each URL in order, and the rest are the `user`, `action` and `property` parameters |
| PermissionProtocol.AllowedOutcome | http-helper-functions.js:379-396 | the continuation runs exactly on status 200, with the parsed body; anything else is a 500 whose message starts `failed permissions request: `, followed for a reply by its status and ` URL: <path> body: `, and ending for a transport error with ` URL: <path>` |
| PermissionProtocol.WithAllowedDo | http-helper-functions.js:349-399 | a request is sent exactly when `getUser` does not throw, and it is the `GET` of the `/is-allowed` path for the resources, user, action and property, whose reply decides the outcome as above; a `getUser` that throws rethrows its error |
| PermissionProtocol.Decision | http-helper-functions.js:404-412 | only the answer `true` continues; any other answer is 401 when there is no user and 403 otherwise; a failure or exception is passed on unchanged |
| PermissionProtocol.IfAllowedThen | http-helper-functions.js:401-414 | it continues exactly when the answer is `true`; otherwise 403 for any user but `null`, 401 for `null`, and 500 when the authority fails |
| PermissionProtocol.IfAllowedAsksForItself | http-helper-functions.js:402-403 | the request asks about the incoming request's own absolute URL as its single resource |
| PermissionProtocol.PostOutcome | http-helper-functions.js:323-342 | the continuation runs exactly on 201 with a parsable body, with the URL and the body internalized in place; 201 with an unparsable body throws; otherwise 400 and 403 are relayed and anything else is 500 |
| PermissionProtocol.CreatePermissionsFor | http-helper-functions.js:261-265 | a `null` or `undefined` user is answered 401 with no request sent, and a `getUser` that throws sends nothing |
| PermissionProtocol.CreationStatus | http-helper-functions.js:301-338 | the shaped document is posted to `/permissions`; 201 continues with the URL and the internalized parsed body, 400 relays the body, 403 is forbidden, and any other status is a 500 naming it |
| PermissionProtocol.MismatchStillPosts | http-helper-functions.js:288-290 | as written, a disagreeing `_self` writes the 400 and still posts; the corrected version writes the 400 alone |
| PermissionProtocol.MismatchExample | http-helper-functions.js:288-290 | `{_resource: {_self: other}}` for a different URL is shaped with a mismatch, and two outcomes follow from one call |
| PermissionProtocol.CreatePermissionsForCorrected | http-helper-functions.js:261-347 | the corrected `createPermissonsFor` does exactly one thing per call, and posts only for a user whose document has no mismatch |
| PermissionProtocol.CorrectedCreationAgrees | http-helper-functions.js:261-347 | without a mismatch, the corrected and original `createPermissonsFor` do the same |
| PermissionProtocol.TeamsOutcome | http-helper-functions.js:29-45 | actors are handed on exactly on 200 with a body whose `contents` is an array, and the last actor is the internalized user; other 200 replies throw, and every other reply is a 500 |
| PermissionProtocol.WithTeamsDo | http-helper-functions.js:8-51 | a request is sent exactly for a string user; `null` continues with `null`; actors are handed on exactly when status 200 brings a `contents` array |
| PermissionProtocol.TeamsActors | http-helper-functions.js:31-35 | the actors handed on are the teams, each internalized for the request's host, then the user internalized against the authority `undefined` |
| PermissionProtocol.TeamsUserVerbatim | http-helper-functions.js:10-22 | a user id that is not an `http(s)://undefined` URL is appended to `/teams?` as it is |
| PermissionProtocol.ForwardsCredentials | http-helper-functions.js:15-17 | all three requests carry the incoming `Host`; the permission checks and the post (lines 308-310, 367-369) forward a non-empty `Authorization`, while the teams request forwards any that is present |
| JsonValues.Lookup | http-helper-functions.js:427 | a property is found exactly when its name is present, and then with a value stored under that name |
| JsonValues.Put | http-helper-functions.js:431 | after setting a property it holds the new value, and every other property is unchanged |
| JsonValues.Remove | http-helper-functions.js:428 | after deleting a property it is absent, every other property is unchanged, and no other name appears or disappears |
| JsonValues.PutTwice | http-helper-functions.js:431 | setting a property twice is the same as setting it once to the second value |
| Http.SetHeader | http-helper-functions.js:205 | after setting a header it has the new value, and every other header is unchanged |
| Strings.DecimalRoundTrip | http-helper-functions.js:306 | the decimal text written for a `Content-Length` reads back as the same number |
| Strings.SplitOfJoin | http-helper-functions.js:90 | splitting on a character undoes joining on it, for parts that do not contain it |

## Left out

- `getServerPostBody` and `getClientResponseBody` (lines 53-87) are not part of this model. They accumulate a streamed body and destroy oversized connections, which is I/O.
- The transport is not modelled: `http.request`, splitting `INTERNAL_ROUTER` into host and port, the error listeners, `writeHead`/`end`, and `console` logging. An outbound request is its verb, path, headers and document only.
- No foreign call is defined here. Base64 and `JSON.parse` of token claims, `JSON.stringify`, `JSON.parse`, `Buffer.byteLength`, `Number.prototype.toString` and `Number(s)` are uninterpreted `Runtime` fields. `new Date().toISOString()` is the `now` parameter.
- The environment settings `PROTOCOL`, `COMPONENT` and `INTERNAL_ROUTER` are fixed parameters. `INTERNAL_ROUTER` is not modelled at all.
- JavaScript numbers are kept as opaque `real` values, compared only for equality and zero. Floating-point arithmetic does not arise.
- Property order follows insertion order. The reordering JavaScript applies to integer-like keys (`"0"`, `"1"`, ...) in `for…in`, `Object.keys` and `JSON.stringify` is not modelled.
- Special keys such as `__proto__`, and properties inherited through the prototype chain, are not modelled. Every property is an own property.
- In-place updates of nested objects are not modelled. `InternalizeURLs`, `ExternalizeURLs`, `MergePatch` and the permission-document methods treat nested objects as values: aliasing between two references to the same nested object is not captured. The root object of `createPermissonsFor` and of `setStandardCreationProperties` is an `ObjectRef` updated in place.
- When the permissions shaping throws part-way, the state of the caller's object afterwards is not modelled. Only the exception is.
- The texts of `TypeError` and `SyntaxError` messages are representative, not the engine's exact wording.
- `getUserFromToken` treats a `user_id` claim as `undefined` or a string. Other JSON types in that claim are not distinguished.
- `toLowerCase` in `getUser` is modelled for ASCII letters only. Other Unicode case mappings are not modelled.
- The `Host` header is taken to be present on every request.
- After the 400 at line 289 the model records the later outcome as a second outcome. That Node then refuses to write a second response is not modelled.

## Findings

| source | as written | input that shows it | evidently intended | confidence | as-written member | corrected member |
|---|---|---|---|---|---|---|
| http-helper-functions.js:288-290 | `badRequest` is written on a `_self` mismatch, but the function goes on to post the document and to handle the authority's reply | `permissions = {_resource: {_self: "/b"}}` for `resourceURL = "/a"` | answer 400 and stop, sending no request | not executed | PermissionProtocol.MismatchExample | PermissionProtocol.CreatePermissionsForCorrected |
| http-helper-functions.js:195 | `!'Content-Type' in headers` parses as `(false) in headers`, so a missing `Content-Type` is never defaulted | `respond(req, res, 201, {}, {a: 1})`, as `created` does | `!('Content-Type' in headers)`: default the type to `application/json` | not executed | Responders.RespondNeverDefaultsType | Responders.RespondWithCorrected |
| http-helper-functions.js:105-106 | `auth.match(/\S+/g)` is `null` for an empty or all-whitespace header, and reading `.length` of it throws | `Authorization: ` (an empty value) | report no user | not executed | Identity.BlankAuthorizationThrows | Identity.GetUserCorrected |

In each row the corrected member is related to the as-written one by a proved agreement lemma:

- `PermissionProtocol.CorrectedCreationAgrees`: the two versions of `createPermissonsFor` agree whenever there is no mismatch.
- `Responders.RespondWithCorrectedAgrees`: the two versions of `respond` agree whenever a `Content-Type` is given.
- `Identity.CorrectedAgrees`: the two versions of `getUser` agree whenever the header is absent or contains a token.
