/** An already-parsed XML document, as `xml.etree.ElementTree` presents
    it: a tag, the attributes in document order and the child elements. */
module Xml {
  import opened Common

  datatype Element = Element(tag: string, attrs: Dict<string>, children: seq<Element>)

  /** `element.get(key)`: `None` for a missing attribute. */
  function Get(e: Element, key: string): Option<string>
  {
    Lookup(e.attrs, key)
  }

  /** `element.set(key, value)`: an existing attribute keeps its place. */
  function Set(e: Element, key: string, value: string): (r: Element)
    ensures r.tag == e.tag && r.children == e.children
    ensures Get(r, key) == Some(value)
    ensures forall k | k != key :: Get(r, k) == Get(e, k)
  {
    StoreKeys(e.attrs, key, value);
    forall k ensures Lookup(Store(e.attrs, key, value), k) == if k == key then Some(value) else Lookup(e.attrs, k) {
      StoreLookup(e.attrs, key, value, k);
    }
    e.(attrs := Store(e.attrs, key, value))
  }

  /** `element.iter(tag)`: the element itself and its descendants, in
      document order, that carry `tag`. */
  function Iter(e: Element, tag: string): (r: seq<Element>)
    ensures forall i | 0 <= i < |r| :: r[i].tag == tag
    ensures e.tag == tag <==> |r| > 0 && r[0] == e
    decreases e
  {
    (if e.tag == tag then [e] else []) + IterAll(e.children, tag)
  }

  /** `Iter` over a sequence of siblings, concatenated. */
  function IterAll(cs: seq<Element>, tag: string): (r: seq<Element>)
    ensures forall i | 0 <= i < |r| :: r[i].tag == tag
    ensures forall c | c in cs && c.tag == tag :: c in r
    decreases cs
  {
    if cs == [] then [] else Iter(cs[0], tag) + IterAll(cs[1..], tag)
  }
}
