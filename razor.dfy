/**
 * The slice of the tag-helper output object that the script tag helper uses:
 * its ordered attribute list, whether its own element is suppressed, and the
 * markup appended after the element.
 */
module Razor {

  /** How an attribute was written in the markup (`HtmlAttributeValueStyle`). */
  datatype ValueStyle = DoubleQuotes | SingleQuotes | NoQuotes | Minimized

  /** An attribute of the element; a minimised attribute's value is unused. */
  datatype Attribute = Attribute(name: string, value: string, style: ValueStyle)

  /** The attributes, in order, whose name is `name`. */
  function WithName(attrs: seq<Attribute>, name: string): (r: seq<Attribute>)
    ensures forall k :: 0 <= k < |r| ==> r[k].name == name
  {
    if |attrs| == 0 then []
    else (if attrs[0].name == name then [attrs[0]] else []) + WithName(attrs[1..], name)
  }

  /** The attributes, in order, whose name is not `name`. */
  function WithoutName(attrs: seq<Attribute>, name: string): (r: seq<Attribute>)
    ensures forall k :: 0 <= k < |r| ==> r[k].name != name
  {
    if |attrs| == 0 then []
    else (if attrs[0].name != name then [attrs[0]] else []) + WithoutName(attrs[1..], name)
  }

  /**
   * `Attributes.SetAttribute(a)`: the first attribute named like `a` is
   * replaced by `a` and every later one of that name is dropped; when none has
   * that name, `a` is added at the end.
   */
  function WithAttributeSet(attrs: seq<Attribute>, a: Attribute): seq<Attribute>
  {
    if |attrs| == 0 then [a]
    else if attrs[0].name == a.name then [a] + WithoutName(attrs[1..], a.name)
    else [attrs[0]] + WithAttributeSet(attrs[1..], a)
  }

  lemma {:induction false} WithNameOfNoneNamed(attrs: seq<Attribute>, name: string)
    requires forall k :: 0 <= k < |attrs| ==> attrs[k].name != name
    ensures WithName(attrs, name) == []
    ensures WithoutName(attrs, name) == attrs
  {
    if |attrs| > 0 {
      WithNameOfNoneNamed(attrs[1..], name);
    }
  }

  /**
   * After setting `a`, exactly one attribute carries `a`'s name and it is `a`;
   * the attributes of every other name are kept, in their order; and when no
   * attribute had that name, `a` is appended to the unchanged list.
   */
  lemma {:induction false} WithAttributeSetSpec(attrs: seq<Attribute>, a: Attribute)
    ensures WithName(WithAttributeSet(attrs, a), a.name) == [a]
    ensures WithoutName(WithAttributeSet(attrs, a), a.name) == WithoutName(attrs, a.name)
    ensures (forall k :: 0 <= k < |attrs| ==> attrs[k].name != a.name) ==>
      WithAttributeSet(attrs, a) == attrs + [a]
  {
    var r := WithAttributeSet(attrs, a);
    if |attrs| == 0 {
      assert r[1..] == [];
    } else if attrs[0].name == a.name {
      var rest := WithoutName(attrs[1..], a.name);
      WithNameOfNoneNamed(rest, a.name);
      assert r[1..] == rest;
    } else {
      WithAttributeSetSpec(attrs[1..], a);
      assert r[1..] == WithAttributeSet(attrs[1..], a);
      if forall k :: 0 <= k < |attrs| ==> attrs[k].name != a.name {
        assert forall k :: 0 <= k < |attrs[1..]| ==> attrs[1..][k].name != a.name by {
          forall k | 0 <= k < |attrs[1..]| ensures attrs[1..][k].name != a.name {
            assert attrs[1..][k] == attrs[k + 1];
          }
        }
        assert attrs == [attrs[0]] + attrs[1..];
      }
    }
  }

  /**
   * When attributes of `a`'s name exist, `a` takes the place of the first of
   * them: everything before it is kept as is, and after it only the
   * attributes of other names remain.
   */
  lemma {:induction false} WithAttributeSetReplacesFirst(attrs: seq<Attribute>, a: Attribute, p: int)
    requires 0 <= p < |attrs| && attrs[p].name == a.name
    requires forall j :: 0 <= j < p ==> attrs[j].name != a.name
    ensures WithAttributeSet(attrs, a) == attrs[..p] + [a] + WithoutName(attrs[p + 1..], a.name)
  {
    if p > 0 {
      WithAttributeSetReplacesFirst(attrs[1..], a, p - 1);
      assert attrs[1..][..p - 1] == attrs[1..p];
      assert attrs[1..][p..] == attrs[p + 1..];
      assert attrs[..p] == [attrs[0]] + attrs[1..p];
    }
  }

  /** The observable state of a `TagHelperOutput`. */
  datatype OutputState = OutputState(attributes: seq<Attribute>, suppressed: bool, postElement: seq<string>)

  /** The output of one element under processing. */
  class TagHelperOutput {
    var attributes: seq<Attribute>
    var suppressed: bool
    var postElement: seq<string>

    function State(): OutputState
      reads this
    {
      OutputState(attributes, suppressed, postElement)
    }

    constructor (attributes: seq<Attribute>)
      ensures State() == OutputState(attributes, false, [])
    {
      this.attributes := attributes;
      suppressed := false;
      postElement := [];
    }

    /** `Attributes.SetAttribute(name, value)`; a new attribute is double-quoted. */
    method SetAttribute(name: string, value: string)
      modifies this
      ensures attributes == WithAttributeSet(old(attributes), Attribute(name, value, DoubleQuotes))
      ensures suppressed == old(suppressed) && postElement == old(postElement)
    {
      attributes := WithAttributeSet(attributes, Attribute(name, value, DoubleQuotes));
    }

    /** `SuppressOutput()`: the element is not rendered and its appended markup is cleared. */
    method SuppressOutput()
      modifies this
      ensures suppressed && postElement == [] && attributes == old(attributes)
    {
      suppressed := true;
      postElement := [];
    }

    /** `PostElement.AppendHtml(html)`: markup is only ever added at the end. */
    method AppendPostElement(html: string)
      modifies this
      ensures postElement == old(postElement) + [html]
      ensures suppressed == old(suppressed) && attributes == old(attributes)
    {
      postElement := postElement + [html];
    }
  }
}
