/**
 * The DOM view of a document that `xmldom` builds and that `xpath` selects from: elements with a
 * namespace URI, a local name and children, in document order.
 */
module XmlDom {

  datatype Node =
    | Element(uri: string, local: string, children: seq<Node>)
    | Text(content: string)

  /** A parsed document: its top-level nodes. */
  datatype Document = Document(nodes: seq<Node>)

  /** The nodes of a forest in document order: each node, then its descendants, then its next sibling. */
  function Preorder(ns: seq<Node>): (r: seq<Node>)
    ensures |r| >= |ns|
    ensures |ns| > 0 ==> r[0] == ns[0]
    decreases ns
  {
    if ns == [] then []
    else
      var head := ns[0];
      var below := if head.Element? then Preorder(head.children) else [];
      [head] + below + Preorder(ns[1..])
  }

  /** An element with the given expanded name `{uri}local`. */
  predicate IsNamed(n: Node, uri: string, local: string) {
    n.Element? && n.uri == uri && n.local == local
  }

  /** The nodes of `ns` with the given expanded name, in their order. */
  function Matching(ns: seq<Node>, uri: string, local: string): (r: seq<Node>)
    ensures |r| <= |ns|
    ensures forall k :: 0 <= k < |r| ==> IsNamed(r[k], uri, local)
    ensures forall n :: n in ns && IsNamed(n, uri, local) ==> n in r
    ensures forall n :: n in r ==> n in ns
  {
    if ns == [] then []
    else
      var rest := Matching(ns[1..], uri, local);
      assert forall n :: n in ns ==> n == ns[0] || n in ns[1..];
      if IsNamed(ns[0], uri, local) then [ns[0]] + rest else rest
  }

  /** XPath `//p:local` on a document: every element with that name, in document order. */
  function SelectDescendants(doc: Document, uri: string, local: string): seq<Node> {
    Matching(Preorder(doc.nodes), uri, local)
  }

  /** XPath `.//p:local` from an element: its proper descendants with that name, in document order. */
  function SelectBelow(n: Node, uri: string, local: string): seq<Node>
    requires n.Element?
  {
    Matching(Preorder(n.children), uri, local)
  }

  /** `n` is the earliest node of `ns` with the name: it is at some position and none before it is. */
  predicate FirstNamed(ns: seq<Node>, uri: string, local: string, n: Node) {
    exists k :: 0 <= k < |ns| && ns[k] == n && IsNamed(n, uri, local)
      && forall j :: 0 <= j < k ==> !IsNamed(ns[j], uri, local)
  }

  /** The first match is the earliest named node, and there is none exactly when no node has the name. */
  lemma {:induction false} FirstMatch(ns: seq<Node>, uri: string, local: string)
    ensures |Matching(ns, uri, local)| == 0 <==> forall k :: 0 <= k < |ns| ==> !IsNamed(ns[k], uri, local)
    ensures |Matching(ns, uri, local)| > 0 ==> FirstNamed(ns, uri, local, Matching(ns, uri, local)[0])
  {
    if ns != [] {
      FirstMatch(ns[1..], uri, local);
      var rest := Matching(ns[1..], uri, local);
      if IsNamed(ns[0], uri, local) {
        assert FirstNamed(ns, uri, local, ns[0]);
      } else {
        assert forall k :: 1 <= k < |ns| ==> ns[k] == ns[1..][k - 1];
        if |rest| > 0 {
          var k :| 0 <= k < |ns[1..]| && ns[1..][k] == rest[0] && IsNamed(rest[0], uri, local)
            && forall j :: 0 <= j < k ==> !IsNamed(ns[1..][j], uri, local);
          assert ns[k + 1] == rest[0];
          assert forall j :: 0 <= j < k + 1 ==> !IsNamed(ns[j], uri, local) by {
            forall j | 0 <= j < k + 1 ensures !IsNamed(ns[j], uri, local) {
              if j > 0 { assert ns[j] == ns[1..][j - 1]; }
            }
          }
        }
      }
    }
  }

  /** Only one node of a sequence is the first with a given name. */
  lemma FirstNamedUnique(ns: seq<Node>, uri: string, local: string, a: Node, b: Node)
    requires FirstNamed(ns, uri, local, a) && FirstNamed(ns, uri, local, b)
    ensures a == b
  {
    var i :| 0 <= i < |ns| && ns[i] == a && IsNamed(a, uri, local)
      && forall j :: 0 <= j < i ==> !IsNamed(ns[j], uri, local);
    var k :| 0 <= k < |ns| && ns[k] == b && IsNamed(b, uri, local)
      && forall j :: 0 <= j < k ==> !IsNamed(ns[j], uri, local);
    assert !(i < k) && !(k < i);
  }
}
