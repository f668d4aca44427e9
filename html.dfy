/**
  `toHTML`: renders a document as nested HTML. Strings that look like links become anchors,
  arrays become ordered lists at the same indentation, and every object becomes a `div`
  indented 25 pixels further than the object it sits in, the outermost at 0. A `null` anywhere
  in the document makes it throw, because `typeof null == 'object'` sends it to `Object.keys`.
 */
module HtmlRendering {
  import opened Wrappers
  import opened Strings
  import opened JsonValues

  /** The indentation step between an object and the objects it contains. */
  const Increment: nat := 25

  /** A string rendered as an anchor: it starts with `http`, `./` or `/`. */
  predicate IsLink(s: string) {
    "http" <= s || "./" <= s || "/" <= s
  }

  /** ` resource=<_self> ` when the object has a `_self` property, otherwise nothing. */
  function SelfAttribute(fs: seq<Field>, numberText: real -> string): string {
    match Lookup(fs, "_self")
    case None => ""
    case Some(self) => "resource=" + Display(self, numberText) + " "
  }

  /** What `Object.keys(null)` throws: `typeof null == 'object'`, so `valueToHTML(null, _)` takes
      the object branch. */
  const NullToObject: string := "TypeError: Cannot convert undefined or null to object"

  /** The rendering of a string, number or boolean, which does not depend on the indentation. */
  function ScalarHtml(v: Json, numberText: real -> string): string
    requires v.JString? || v.JNumber? || v.JBool?
  {
    match v
    case JString(s) =>
      if IsLink(s) then "<a href=\"" + s + "\" datatype=\"url\">" + s + "</a>"
      else "<span datatype=\"string\">" + s + "</span>"
    case JNumber(n) => "<span datatype=\"number\">" + numberText(n) + "</span>"
    case JBool(b) => "<span datatype=\"boolean\">" + (if b then "true" else "false") + "</span>"
  }

  /** The texts of a `map` whose callback may throw: all of them, or None once one throws. */
  function AllRendered(os: seq<Option<string>>): (r: Option<seq<string>>)
    ensures r.Some? <==> forall k :: 0 <= k < |os| ==> os[k].Some?
    ensures r.Some? ==> |r.value| == |os| && forall k :: 0 <= k < |os| ==> os[k] == Some(r.value[k])
  {
    if os == [] then Some([])
    else match (os[0], AllRendered(os[1..]))
      case (Some(t), Some(ts)) => Some([t] + ts)
      case _ => None
  }

  /** `valueToHTML(value, indent)`: None when it throws, which it does exactly on a `null`
      anywhere in the value. */
  function ValueToHtml(v: Json, indent: int, numberText: real -> string): (r: Option<string>)
    requires indent >= -(Increment as int)
    ensures r.None? <==> ContainsNull(v)
    decreases v, 0
  {
    match v
    case JArray(es) =>
      var os := seq(|es|, k requires 0 <= k < |es| => ValueToHtml(es[k], indent, numberText));
      assert forall k :: 0 <= k < |es| ==> (os[k].None? <==> ContainsNull(es[k]));
      (match AllRendered(os)
       case None => None
       case Some(items) =>
         Some("<ol datatype=\"list\">"
              + Concat(seq(|items|, k requires 0 <= k < |items| => "<li>" + items[k] + "</li>"))
              + "</ol>"))
    case JObject(fs) =>
      var os := seq(|fs|, k requires 0 <= k < |fs| => PropToHtml(fs[k].name, fs[k].value, indent + Increment, numberText));
      assert forall k :: 0 <= k < |fs| ==> (os[k].None? <==> ContainsNull(fs[k].value));
      (match AllRendered(os)
       case None => None
       case Some(props) =>
         Some("<div " + SelfAttribute(fs, numberText) + "style=\"padding-left:" + NatToString(indent + Increment) + "px\">"
              + Concat(props)
              + "</div>"))
    case JNull => None
    case _ => Some(ScalarHtml(v, numberText))
  }

  /** `propToHTML(name, value, indent)`. */
  function PropToHtml(name: string, value: Json, indent: int, numberText: real -> string): (r: Option<string>)
    requires indent >= -(Increment as int)
    ensures r.None? <==> ContainsNull(value)
    decreases value, 1
  {
    match ValueToHtml(value, indent, numberText)
    case None => None
    case Some(t) => Some("<div property=\"" + name + "\">" + name + ": " + t + "</div>")
  }

  const HtmlHead: string := "<!DOCTYPE html><html><head></head><body>"

  /** `toHTML(body)`: the rendering of the body, started one step to the left of 0, inside an
      empty-headed HTML document; None when it throws. It throws exactly when the body holds a
      `null`, and otherwise renders the body's own object at depth 0. */
  function ToHtml(body: Json, numberText: real -> string): (r: Option<string>)
    ensures r.None? <==> ContainsNull(body)
    ensures r.Some? ==> r.value == HtmlHead + AtDepth(body, 0, numberText) + "</body></html>"
  {
    RendersAtDepth(body, 0, numberText);
    match ValueToHtml(body, -(Increment as int), numberText)
    case None => None
    case Some(t) => Some(HtmlHead + t + "</body></html>")
  }

  /** A reference rendering by nesting depth, for documents without `null`: an object at depth
      `d` (the body's own object has depth 0) is padded by 25 pixels per level, its properties'
      values sit at depth `d + 1`, and an array's elements stay at the array's depth. */
  function AtDepth(v: Json, d: nat, numberText: real -> string): string
    decreases v, 0
  {
    match v
    case JArray(es) =>
      "<ol datatype=\"list\">"
      + Concat(seq(|es|, k requires 0 <= k < |es| => "<li>" + AtDepth(es[k], d, numberText) + "</li>"))
      + "</ol>"
    case JObject(fs) =>
      "<div " + SelfAttribute(fs, numberText) + "style=\"padding-left:" + NatToString(Increment * d) + "px\">"
      + Concat(seq(|fs|, k requires 0 <= k < |fs| => PropAtDepth(fs[k], d + 1, numberText)))
      + "</div>"
    case JNull => ""
    case _ => ScalarHtml(v, numberText)
  }

  function PropAtDepth(f: Field, d: nat, numberText: real -> string): string
    decreases f, 1
  {
    "<div property=\"" + f.name + "\">" + f.name + ": " + AtDepth(f.value, d, numberText) + "</div>"
  }

  /** `valueToHTML` passed the indentation `25 * d - 25` throws exactly when the value holds a
      `null`, and otherwise renders exactly as the depth-`d` reference: each level of object
      nesting adds 25 pixels, arrays add none. */
  lemma {:induction false} RendersAtDepth(v: Json, d: nat, numberText: real -> string)
    ensures ValueToHtml(v, Increment * d - Increment, numberText)
            == if ContainsNull(v) then None else Some(AtDepth(v, d, numberText))
    decreases v
  {
    var indent := Increment * d - Increment;
    match v
    case JArray(es) =>
      var os := seq(|es|, k requires 0 <= k < |es| => ValueToHtml(es[k], indent, numberText));
      forall k | 0 <= k < |es|
        ensures os[k] == if ContainsNull(es[k]) then None else Some(AtDepth(es[k], d, numberText))
      {
        RendersAtDepth(es[k], d, numberText);
      }
      if !ContainsNull(v) {
        var items := AllRendered(os).value;
        var a := seq(|items|, k requires 0 <= k < |items| => "<li>" + items[k] + "</li>");
        var b := seq(|es|, k requires 0 <= k < |es| => "<li>" + AtDepth(es[k], d, numberText) + "</li>");
        assert a == b;
      }
    case JObject(fs) =>
      var os := seq(|fs|, k requires 0 <= k < |fs| => PropToHtml(fs[k].name, fs[k].value, indent + Increment, numberText));
      forall k | 0 <= k < |fs|
        ensures os[k] == if ContainsNull(fs[k].value) then None else Some(PropAtDepth(fs[k], d + 1, numberText))
      {
        assert indent + Increment == Increment * (d + 1) - Increment;
        RendersAtDepth(fs[k].value, d + 1, numberText);
      }
      if !ContainsNull(v) {
        var props := AllRendered(os).value;
        var b := seq(|fs|, k requires 0 <= k < |fs| => PropAtDepth(fs[k], d + 1, numberText));
        assert props == b;
        assert indent + Increment == Increment * d;
      }
    case _ =>
  }

  /** The opening tag of an object padded by `px` pixels. */
  function Opening(fs: seq<Field>, px: string, numberText: real -> string): string
  {
    "<div " + SelfAttribute(fs, numberText) + "style=\"padding-left:" + px + "px\">"
  }

  /** An object rendered at depth `d` starts with its opening tag, padded by 25 pixels per level. */
  lemma OpensAtDepth(fs: seq<Field>, d: nat, numberText: real -> string)
    ensures Opening(fs, NatToString(Increment * d), numberText) <= AtDepth(JObject(fs), d, numberText)
  {
  }

  /** The body's own object, which `toHTML` renders at indentation -25, is padded by 0 pixels. */
  lemma RootPadding(fs: seq<Field>, numberText: real -> string)
    ensures ToHtml(JObject(fs), numberText).Some? ==>
              HtmlHead + Opening(fs, "0", numberText) <= ToHtml(JObject(fs), numberText).value
  {
    var page := ToHtml(JObject(fs), numberText);
    if page.Some? {
      var body := AtDepth(JObject(fs), 0, numberText);
      OpensAtDepth(fs, 0, numberText);
      assert NatToString(Increment * 0) == "0";
      PrefixExtended(HtmlHead, Opening(fs, "0", numberText), body, "</body></html>");
    }
  }

  /** A prefix stays a prefix under a common head and an added tail. */
  lemma PrefixExtended(head: string, a: string, b: string, tail: string)
    requires a <= b
    ensures head + a <= head + b + tail
  {
    assert (head + b + tail)[..|head + a|] == head + a;
  }

  /** An object that is a property of the body's object (rendered at indentation 0) is padded
      by 25 pixels. */
  lemma ChildPadding(fs: seq<Field>, numberText: real -> string)
    ensures ValueToHtml(JObject(fs), 0, numberText).Some? ==>
              Opening(fs, "25", numberText) <= ValueToHtml(JObject(fs), 0, numberText).value
  {
    RendersAtDepth(JObject(fs), 1, numberText);
    OpensAtDepth(fs, 1, numberText);
    assert NatToString(25) == "25" by {
      assert 25 / 10 == 2 && 25 % 10 == 5;
      assert [DigitChar(2)] == "2" && [DigitChar(5)] == "5";
    }
  }
}
