/**
 * An abstract, namespace-aware XML DOM: the tree a namespace-aware document
 * builder produces for a well-formed capability document, and the three DOM
 * queries the capability parser uses (`getElementsByTagNameNS`,
 * `getTextContent`, `getAttributeNS`).
 */
module Dom {

  /**
   * A DOM node. An element has a namespace URI (empty for none), a local
   * name, attributes keyed by (namespace URI, local name), and children in
   * document order. Character data (text and CDATA) and comments are leaves.
   */
  datatype Node =
    | Element(ns: string, name: string, attrs: map<(string, string), string>, children: seq<Node>)
    | Text(text: string)
    | Comment(data: string)

  /** An element with the given namespace URI and local name. */
  predicate IsTag(n: Node, ns: string, tag: string) {
    n.Element? && n.ns == ns && n.name == tag
  }

  /** `d` is a proper descendant of `n` (a child, a child's child, ...). */
  ghost predicate Below(d: Node, n: Node)
    decreases n
  {
    n.Element? && exists i :: 0 <= i < |n.children| && (n.children[i] == d || Below(d, n.children[i]))
  }

  /**
   * `n.getElementsByTagNameNS(ns, tag)`: the descendants of `n` (not `n`
   * itself) with that namespace and local name, in document (pre-)order.
   */
  function Matches(n: Node, ns: string, tag: string): (r: seq<Node>)
    ensures forall k :: 0 <= k < |r| ==> IsTag(r[k], ns, tag)
    decreases n, 1
  {
    if n.Element? then MatchesIn(n.children, ns, tag) else []
  }

  /** The matches among the nodes `cs` and their descendants, in document order. */
  function MatchesIn(cs: seq<Node>, ns: string, tag: string): (r: seq<Node>)
    ensures forall k :: 0 <= k < |r| ==> IsTag(r[k], ns, tag)
    decreases cs, 0
  {
    if cs == [] then []
    else (if IsTag(cs[0], ns, tag) then [cs[0]] else []) + Matches(cs[0], ns, tag) + MatchesIn(cs[1..], ns, tag)
  }

  /** `getTextContent()`: the character data of all descendants, in order; comments contribute nothing. */
  function TextContent(n: Node): string
    decreases n, 1
  {
    match n
    case Element(_, _, _, cs) => ChildrenText(cs)
    case Text(t) => t
    case Comment(_) => ""
  }

  function ChildrenText(cs: seq<Node>): string
    decreases cs, 0
  {
    if cs == [] then "" else TextContent(cs[0]) + ChildrenText(cs[1..])
  }

  /** `getAttributeNS(ns, name)`: the attribute's value, or "" when the element has no such attribute. */
  function AttributeNS(n: Node, ns: string, name: string): string
    requires n.Element?
  {
    if (ns, name) in n.attrs then n.attrs[(ns, name)] else ""
  }

  /** `"true".equalsIgnoreCase(s)`. */
  predicate IsTrueIgnoringCase(s: string) {
    |s| == 4 && s[0] in {'t', 'T'} && s[1] in {'r', 'R'} && s[2] in {'u', 'U'} && s[3] in {'e', 'E'}
  }

  /** The element children of `cs`, in document order (what an `instanceof Element` filter keeps). */
  function ElementChildren(cs: seq<Node>): (es: seq<Node>)
    ensures |es| <= |cs|
    ensures forall k :: 0 <= k < |es| ==> es[k].Element? && es[k] in cs
  {
    if cs == [] then []
    else
      var last := cs[|cs| - 1];
      var init := ElementChildren(cs[..|cs| - 1]);
      if last.Element? then init + [last] else init
  }

  /**
   * The filter works node by node and keeps document order and repeats:
   * filtering a concatenation concatenates the filtered parts.
   */
  lemma {:induction false} ElementChildrenAppend(a: seq<Node>, b: seq<Node>)
    ensures ElementChildren(a + b) == ElementChildren(a) + ElementChildren(b)
    decreases |b|
  {
    if b == [] {
      assert a + b == a;
    } else {
      var init := b[..|b| - 1];
      var last := b[|b| - 1];
      var kept := if last.Element? then [last] else [];
      ElementChildrenAppend(a, init);
      var ab := a + b;
      assert ab[..|ab| - 1] == a + init && ab[|ab| - 1] == last;
      assert ElementChildren(ab) == ElementChildren(a + init) + kept;
      assert ElementChildren(b) == ElementChildren(init) + kept;
    }
  }

  /** A single node is kept by the filter exactly when it is an element. */
  lemma ElementChildrenSingle(n: Node)
    ensures ElementChildren([n]) == (if n.Element? then [n] else [])
  {
    assert [n][..0] == [];
  }

  /** Every element among `cs` is kept by the element filter. */
  lemma {:induction false} ElementIsListed(cs: seq<Node>, i: nat)
    requires i < |cs| && cs[i].Element?
    ensures cs[i] in ElementChildren(cs)
  {
    if i < |cs| - 1 {
      var init := cs[..|cs| - 1];
      assert init[i] == cs[i];
      ElementIsListed(init, i);
    }
  }

  /** The tag search finds exactly the proper descendants with that namespace and local name. */
  lemma {:induction false} MatchesAreDescendants(n: Node, ns: string, tag: string, d: Node)
    ensures d in Matches(n, ns, tag) <==> Below(d, n) && IsTag(d, ns, tag)
    decreases n, 1
  {
    if n.Element? {
      MatchesInAreDescendants(n.children, ns, tag, d);
    }
  }

  lemma {:induction false} MatchesInAreDescendants(cs: seq<Node>, ns: string, tag: string, d: Node)
    ensures d in MatchesIn(cs, ns, tag) <==>
      IsTag(d, ns, tag) && exists i :: 0 <= i < |cs| && (cs[i] == d || Below(d, cs[i]))
    decreases cs, 0
  {
    if cs != [] {
      MatchesAreDescendants(cs[0], ns, tag, d);
      MatchesInAreDescendants(cs[1..], ns, tag, d);
      if IsTag(d, ns, tag) && exists i :: 0 <= i < |cs| && (cs[i] == d || Below(d, cs[i])) {
        var i :| 0 <= i < |cs| && (cs[i] == d || Below(d, cs[i]));
        if i > 0 {
          assert cs[1..][i - 1] == cs[i];
        }
      }
      if exists i :: 0 <= i < |cs[1..]| && (cs[1..][i] == d || Below(d, cs[1..][i])) {
        var i :| 0 <= i < |cs[1..]| && (cs[1..][i] == d || Below(d, cs[1..][i]));
        assert cs[i + 1] == cs[1..][i];
      }
    }
  }
}
