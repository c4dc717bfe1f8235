/** XML elements as ElementTree hands them to the converter at an "end" event:
    a tag, an attribute map and the immediate children in document order. */
module Xml {

  datatype Option<+T> = None | Some(value: T)

  datatype Element = Element(tag: string, attrs: map<string, string>, children: seq<Element>)

  /** `element.get(name)`: the attribute's value, or None when the element lacks it. */
  function Get(e: Element, name: string): (v: Option<string>)
    ensures v.Some? <==> name in e.attrs
    ensures v.Some? ==> v.value == e.attrs[name]
  {
    if name in e.attrs then Some(e.attrs[name]) else None
  }

  /** `element.findall(tag)` for a plain tag name: the immediate children that carry
      that tag, in document order (grandchildren are not searched). */
  function FindAll(children: seq<Element>, tag: string): (found: seq<Element>)
    ensures |found| <= |children|
    ensures forall j :: 0 <= j < |found| ==> found[j].tag == tag
  {
    if children == [] then []
    else (if children[0].tag == tag then [children[0]] else []) + FindAll(children[1..], tag)
  }

  /** Exactly the children with that tag are found. */
  lemma {:induction false} FindAllMembers(children: seq<Element>, tag: string, c: Element)
    ensures c in FindAll(children, tag) <==> c in children && c.tag == tag
  {
    if children != [] {
      FindAllMembers(children[1..], tag, c);
      assert children == [children[0]] + children[1..];
    }
  }

  lemma {:induction false} FindAllAppend(a: seq<Element>, b: seq<Element>, tag: string)
    ensures FindAll(a + b, tag) == FindAll(a, tag) + FindAll(b, tag)
  {
    if a == [] {
      assert a + b == b;
    } else {
      assert (a + b)[1..] == a[1..] + b;
      FindAllAppend(a[1..], b, tag);
    }
  }
}
