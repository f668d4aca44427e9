/**
  The URL address-space translator: rewriting between the external form `http(s)://<authority>...`
  that clients see and the fixed internal placeholder `protocol://authority...` used between
  services, for one URL and for every string in a JSON document.
 */
module UrlTranslation {
  import opened Wrappers
  import opened JsonValues

  /** The placeholder that stands for "the public scheme and authority" in internal form. */
  const InternalUrlPrefix: string := "protocol://authority"

  /** The configured scheme used when externalizing, when the environment does not set one. */
  const DefaultProtocol: string := "http:"

  /** `internalizeURL`: a literal, case-sensitive prefix test, `http://` tried before `https://`. */
  function InternalizeURL(url: string, authority: string): (r: string)
    ensures r == url || InternalUrlPrefix <= r
    ensures !("http://" + authority <= r) && !("https://" + authority <= r)
  {
    var httpString := "http://" + authority;
    var httpsString := "https://" + authority;
    if httpString <= url then
      InternalPrefixIsNotExternal(InternalUrlPrefix + url[|httpString|..], authority);
      InternalUrlPrefix + url[|httpString|..]
    else if httpsString <= url then
      InternalPrefixIsNotExternal(InternalUrlPrefix + url[|httpsString|..], authority);
      InternalUrlPrefix + url[|httpsString|..]
    else url
  }

  /** The string leaf rule of `externalizeURLs`. Under an `http:` or `https:` scheme it only
      changes a URL within its class: internalizing afterwards gives what internalizing the URL
      itself gives. */
  function ExternalizeURL(url: string, authority: string, protocol: string): (r: string)
    ensures !(InternalUrlPrefix <= url) ==> r == url
    ensures protocol == "http:" || protocol == "https:" ==> InternalizeURL(r, authority) == InternalizeURL(url, authority)
  {
    if InternalUrlPrefix <= url then
      var rest := url[|InternalUrlPrefix|..];
      assert url == InternalUrlPrefix + rest;
      InternalPrefixIsNotExternal(url, authority);
      if protocol == "http:" then
        InternalizeHttp(authority, rest);
        assert protocol + "//" + authority + rest == "http://" + authority + rest;
        protocol + "//" + authority + rest
      else if protocol == "https:" then
        InternalizeHttps(authority, rest);
        assert protocol + "//" + authority + rest == "https://" + authority + rest;
        protocol + "//" + authority + rest
      else protocol + "//" + authority + rest
    else url
  }

  /** A URL in external form for `authority` over plain `http`. */
  lemma InternalizeHttp(authority: string, rest: string)
    ensures InternalizeURL("http://" + authority + rest, authority) == InternalUrlPrefix + rest
  {
    assert "http://" + authority <= "http://" + authority + rest;
    assert ("http://" + authority + rest)[|"http://" + authority|..] == rest;
  }

  /** A URL in external form for `authority` over `https`: the `http://` test cannot match it. */
  lemma InternalizeHttps(authority: string, rest: string)
    ensures InternalizeURL("https://" + authority + rest, authority) == InternalUrlPrefix + rest
  {
    var u := "https://" + authority + rest;
    assert !("http://" + authority <= u) by {
      assert u[4] != ("http://" + authority)[4];
    }
    assert "https://" + authority <= u;
    assert u[|"https://" + authority|..] == rest;
  }

  /** A string that starts with no external prefix for `authority` and is not already internal. */
  predicate Foreign(s: string, authority: string) {
    !("http://" + authority <= s) && !("https://" + authority <= s) && !(InternalUrlPrefix <= s)
  }

  /** Both directions leave a string alone that belongs to neither address space. */
  lemma ForeignUnchanged(s: string, authority: string, protocol: string)
    requires Foreign(s, authority)
    ensures InternalizeURL(s, authority) == s
    ensures ExternalizeURL(s, authority, protocol) == s
  {
  }

  /** Round trip: internalizing an `http://<authority>` URL and externalizing it under the same
      authority restores the authority with the configured scheme, hence the original URL when that
      scheme is the default `http:`. An `https` URL comes back with the configured scheme instead. */
  lemma {:induction false} UrlRoundTrip(authority: string, rest: string, protocol: string)
    ensures ExternalizeURL(InternalizeURL("http://" + authority + rest, authority), authority, protocol)
            == protocol + "//" + authority + rest
    ensures ExternalizeURL(InternalizeURL("https://" + authority + rest, authority), authority, protocol)
            == protocol + "//" + authority + rest
    ensures ExternalizeURL(InternalizeURL("http://" + authority + rest, authority), authority, DefaultProtocol)
            == "http://" + authority + rest
  {
    InternalizeHttp(authority, rest);
    InternalizeHttps(authority, rest);
    assert (InternalUrlPrefix + rest)[|InternalUrlPrefix|..] == rest;
    assert DefaultProtocol + "//" + authority + rest == "http://" + authority + rest;
  }

  /** The internal placeholder never begins like an external URL. */
  lemma InternalPrefixIsNotExternal(s: string, authority: string)
    requires InternalUrlPrefix <= s
    ensures !("http://" + authority <= s) && !("https://" + authority <= s)
  {
    assert s[0] == 'p';
  }

  /** After internalizing, no external prefix for `authority` is left, so internalizing again
      changes nothing. */
  lemma {:induction false} InternalizeURLIdempotent(url: string, authority: string)
    ensures !("http://" + authority <= InternalizeURL(url, authority))
    ensures !("https://" + authority <= InternalizeURL(url, authority))
    ensures InternalizeURL(InternalizeURL(url, authority), authority) == InternalizeURL(url, authority)
  {
    var r := InternalizeURL(url, authority);
    if "http://" + authority <= url || "https://" + authority <= url {
      InternalPrefixIsNotExternal(r, authority);
    }
  }

  /** No string leaf of `j` starts with an external prefix for `authority`. */
  ghost predicate NoExternalUrls(j: Json, authority: string) {
    match j
    case JString(s) => !("http://" + authority <= s) && !("https://" + authority <= s)
    case JArray(es) => forall k :: 0 <= k < |es| ==> NoExternalUrls(es[k], authority)
    case JObject(fs) => forall k :: 0 <= k < |fs| ==> NoExternalUrls(fs[k].value, authority)
    case _ => true
  }

  /** `internalizeURLs` as a value: every string leaf translated, everything else kept, so no
      external URL for the authority is left anywhere in the document. */
  function InternalizedTree(j: Json, authority: string): (r: Json)
    ensures NoExternalUrls(r, authority)
  {
    match j
    case JString(s) => JString(InternalizeURL(s, authority))
    case JArray(es) => JArray(seq(|es|, k requires 0 <= k < |es| => InternalizedTree(es[k], authority)))
    case JObject(fs) =>
      JObject(seq(|fs|, k requires 0 <= k < |fs| => Field(fs[k].name, InternalizedTree(fs[k].value, authority))))
    case _ => j
  }

  /** `externalizeURLs` as a value. Under an `http:` or `https:` scheme, internalizing the result
      gives what internalizing the document itself gives. */
  function ExternalizedTree(j: Json, authority: string, protocol: string): (r: Json)
    ensures protocol == "http:" || protocol == "https:" ==> InternalizedTree(r, authority) == InternalizedTree(j, authority)
  {
    match j
    case JString(s) => JString(ExternalizeURL(s, authority, protocol))
    case JArray(es) => JArray(seq(|es|, k requires 0 <= k < |es| => ExternalizedTree(es[k], authority, protocol)))
    case JObject(fs) =>
      JObject(seq(|fs|, k requires 0 <= k < |fs| => Field(fs[k].name, ExternalizedTree(fs[k].value, authority, protocol))))
    case _ => j
  }

  /** `r` has the shape of `j` (same array lengths and order, same property names in the same
      order, same numbers, booleans and nulls) and each string leaf `s` of `j` is `f(s)` in `r`. */
  ghost predicate RewritesStrings(j: Json, r: Json, f: string -> string) {
    match j
    case JString(s) => r == JString(f(s))
    case JArray(es) =>
      r.JArray? && |r.elems| == |es| && forall k :: 0 <= k < |es| ==> RewritesStrings(es[k], r.elems[k], f)
    case JObject(fs) =>
      r.JObject? && |r.fields| == |fs|
      && forall k :: 0 <= k < |fs| ==> r.fields[k].name == fs[k].name && RewritesStrings(fs[k].value, r.fields[k].value, f)
    case _ => r == j
  }

  lemma {:induction false} InternalizedTreeShape(j: Json, authority: string)
    ensures RewritesStrings(j, InternalizedTree(j, authority), s => InternalizeURL(s, authority))
  {
    match j
    case JArray(es) =>
      forall k | 0 <= k < |es| { InternalizedTreeShape(es[k], authority); }
    case JObject(fs) =>
      forall k | 0 <= k < |fs| { InternalizedTreeShape(fs[k].value, authority); }
    case _ =>
  }

  lemma {:induction false} ExternalizedTreeShape(j: Json, authority: string, protocol: string)
    ensures RewritesStrings(j, ExternalizedTree(j, authority, protocol), s => ExternalizeURL(s, authority, protocol))
  {
    match j
    case JArray(es) =>
      forall k | 0 <= k < |es| { ExternalizedTreeShape(es[k], authority, protocol); }
    case JObject(fs) =>
      forall k | 0 <= k < |fs| { ExternalizedTreeShape(fs[k].value, authority, protocol); }
    case _ =>
  }

  /** Every string leaf is either an `http://<authority>` URL or belongs to neither address space. */
  ghost predicate ExternalForm(j: Json, authority: string) {
    match j
    case JString(s) => "http://" + authority <= s || Foreign(s, authority)
    case JArray(es) => forall k :: 0 <= k < |es| ==> ExternalForm(es[k], authority)
    case JObject(fs) => forall k :: 0 <= k < |fs| ==> ExternalForm(fs[k].value, authority)
    case _ => true
  }

  /** Document round trip: a document in external form survives internalizing and then
      externalizing under the same authority with the default `http:` scheme. */
  lemma {:induction false} TreeRoundTrip(j: Json, authority: string)
    requires ExternalForm(j, authority)
    ensures ExternalizedTree(InternalizedTree(j, authority), authority, DefaultProtocol) == j
  {
    match j
    case JString(s) =>
      if "http://" + authority <= s {
        var rest := s[|"http://" + authority|..];
        assert s == "http://" + authority + rest;
        UrlRoundTrip(authority, rest, DefaultProtocol);
      }
    case JArray(es) =>
      var r := ExternalizedTree(InternalizedTree(j, authority), authority, DefaultProtocol);
      forall k | 0 <= k < |es| ensures r.elems[k] == es[k] { TreeRoundTrip(es[k], authority); }
      assert r.elems == es;
    case JObject(fs) =>
      var r := ExternalizedTree(InternalizedTree(j, authority), authority, DefaultProtocol);
      forall k | 0 <= k < |fs| ensures r.fields[k] == fs[k] { TreeRoundTrip(fs[k].value, authority); }
      assert r.fields == fs;
    case _ =>
  }

  /** Internalizing a document twice is the same as once. */
  lemma {:induction false} InternalizedTreeIdempotent(j: Json, authority: string)
    ensures InternalizedTree(InternalizedTree(j, authority), authority) == InternalizedTree(j, authority)
  {
    match j
    case JString(s) =>
      InternalizeURLIdempotent(s, authority);
    case JArray(es) =>
      var once := InternalizedTree(j, authority);
      var twice := InternalizedTree(once, authority);
      forall k | 0 <= k < |es| ensures twice.elems[k] == once.elems[k] { InternalizedTreeIdempotent(es[k], authority); }
      assert twice.elems == once.elems;
    case JObject(fs) =>
      var once := InternalizedTree(j, authority);
      var twice := InternalizedTree(once, authority);
      forall k | 0 <= k < |fs| ensures twice.fields[k] == once.fields[k] { InternalizedTreeIdempotent(fs[k].value, authority); }
      assert twice.fields == once.fields;
    case _ =>
  }

  /** `internalizeURLs(jsObject, authority)`: overwrites each array slot and each own property with
      the translation of its old value, and returns the translated string for a string. */
  method InternalizeURLs(j: Json, authority: string) returns (r: Json)
    ensures r == InternalizedTree(j, authority)
    decreases j
  {
    match j {
      case JArray(es) =>
        var elems := es;
        var i := 0;
        while i < |elems|
          invariant 0 <= i <= |elems| == |es|
          invariant forall k :: 0 <= k < i ==> elems[k] == InternalizedTree(es[k], authority)
          invariant forall k :: i <= k < |es| ==> elems[k] == es[k]
        {
          assert elems[i] == es[i];
          var e := InternalizeURLs(elems[i], authority);
          elems := elems[i := e];
          i := i + 1;
        }
        r := JArray(elems);
      case JObject(fs) =>
        var fields := fs;
        var i := 0;
        while i < |fields|
          invariant 0 <= i <= |fields| == |fs|
          invariant forall k :: 0 <= k < i ==> fields[k] == Field(fs[k].name, InternalizedTree(fs[k].value, authority))
          invariant forall k :: i <= k < |fs| ==> fields[k] == fs[k]
        {
          assert fields[i] == fs[i];
          var v := InternalizeURLs(fields[i].value, authority);
          fields := fields[i := Field(fields[i].name, v)];
          i := i + 1;
        }
        r := JObject(fields);
      case JString(s) =>
        r := JString(InternalizeURL(s, authority));
      case _ =>
        r := j;
    }
  }

  /** `externalizeURLs(jsObject, authority)` with the configured `protocol`. */
  method ExternalizeURLs(j: Json, authority: string, protocol: string) returns (r: Json)
    ensures r == ExternalizedTree(j, authority, protocol)
    decreases j
  {
    match j {
      case JArray(es) =>
        var elems := es;
        var i := 0;
        while i < |elems|
          invariant 0 <= i <= |elems| == |es|
          invariant forall k :: 0 <= k < i ==> elems[k] == ExternalizedTree(es[k], authority, protocol)
          invariant forall k :: i <= k < |es| ==> elems[k] == es[k]
        {
          assert elems[i] == es[i];
          var e := ExternalizeURLs(elems[i], authority, protocol);
          elems := elems[i := e];
          i := i + 1;
        }
        r := JArray(elems);
      case JObject(fs) =>
        var fields := fs;
        var i := 0;
        while i < |fields|
          invariant 0 <= i <= |fields| == |fs|
          invariant forall k :: 0 <= k < i ==> fields[k] == Field(fs[k].name, ExternalizedTree(fs[k].value, authority, protocol))
          invariant forall k :: i <= k < |fs| ==> fields[k] == fs[k]
        {
          assert fields[i] == fs[i];
          var v := ExternalizeURLs(fields[i].value, authority, protocol);
          fields := fields[i := Field(fields[i].name, v)];
          i := i + 1;
        }
        r := JObject(fields);
      case JString(s) =>
        if InternalUrlPrefix <= s {
          var prefix := protocol + "//" + authority;
          r := JString(prefix + s[|InternalUrlPrefix|..]);
        } else {
          r := j;
        }
      case _ =>
        r := j;
    }
  }

  /** What the caller's variable holds after `internalizeURLs(x, authority)` when, as every caller
      here does, the return value is dropped: an array or object has every string leaf
      internalized in place and keeps its shape, while a string is immutable and so stays as it
      was, as does any other scalar. */
  function InternalizedInPlace(j: Json, authority: string): (r: Json)
    ensures j.JArray? || j.JObject? ==> RewritesStrings(j, r, s => InternalizeURL(s, authority))
    ensures !(j.JArray? || j.JObject?) ==> r == j
  {
    if j.JArray? || j.JObject? then
      InternalizedTreeShape(j, authority);
      InternalizedTree(j, authority)
    else j
  }

  /** What the caller's variable holds after `externalizeURLs(x, authority)` with the result
      dropped: string leaves of an array or object externalized in place, a scalar unchanged. */
  function ExternalizedInPlace(j: Json, authority: string, protocol: string): (r: Json)
    ensures j.JArray? || j.JObject? ==> RewritesStrings(j, r, s => ExternalizeURL(s, authority, protocol))
    ensures !(j.JArray? || j.JObject?) ==> r == j
  {
    if j.JArray? || j.JObject? then
      ExternalizedTreeShape(j, authority, protocol);
      ExternalizedTree(j, authority, protocol)
    else j
  }

  /** Rewriting string leaves neither adds nor removes a `null`. */
  lemma {:induction false} RewritesKeepNulls(j: Json, r: Json, f: string -> string)
    requires RewritesStrings(j, r, f)
    ensures ContainsNull(r) <==> ContainsNull(j)
  {
    match j
    case JArray(es) =>
      forall k | 0 <= k < |es| ensures ContainsNull(r.elems[k]) <==> ContainsNull(es[k]) {
        RewritesKeepNulls(es[k], r.elems[k], f);
      }
    case JObject(fs) =>
      forall k | 0 <= k < |fs| ensures ContainsNull(r.fields[k].value) <==> ContainsNull(fs[k].value) {
        RewritesKeepNulls(fs[k].value, r.fields[k].value, f);
      }
    case _ =>
  }

  /** A document holds a `null` after externalizing in place exactly when it did before. */
  lemma ExternalizedKeepsNulls(j: Json, authority: string, protocol: string)
    ensures ContainsNull(ExternalizedInPlace(j, authority, protocol)) <==> ContainsNull(j)
  {
    if j.JArray? || j.JObject? {
      RewritesKeepNulls(j, ExternalizedInPlace(j, authority, protocol), s => ExternalizeURL(s, authority, protocol));
    }
  }

  /** A top-level internal URL handed over by itself is never externalized, although the same
      string inside an array is. */
  lemma TopLevelStringNotExternalized(rest: string, authority: string, protocol: string)
    ensures ExternalizedInPlace(JString(InternalUrlPrefix + rest), authority, protocol) == JString(InternalUrlPrefix + rest)
    ensures ExternalizedInPlace(JArray([JString(InternalUrlPrefix + rest)]), authority, protocol)
            == JArray([JString(protocol + "//" + authority + rest)])
  {
    assert InternalUrlPrefix <= InternalUrlPrefix + rest;
    assert (InternalUrlPrefix + rest)[|InternalUrlPrefix|..] == rest;
    assert ExternalizeURL(InternalUrlPrefix + rest, authority, protocol) == protocol + "//" + authority + rest;
    var leaf := JString(InternalUrlPrefix + rest);
    assert ExternalizedTree(leaf, authority, protocol) == JString(protocol + "//" + authority + rest);
    var r := ExternalizedInPlace(JArray([leaf]), authority, protocol);
    assert r == ExternalizedTree(JArray([leaf]), authority, protocol);
    assert r.elems[0] == ExternalizedTree([leaf][0], authority, protocol);
    assert r.elems == [JString(protocol + "//" + authority + rest)];
  }
}
