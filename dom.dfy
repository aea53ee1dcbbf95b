/** The element tree under the container, as far as the selector sees it: each element has an
    identity, a class name and its current bounding box; the container's children are a forest. */
module Dom {
  import opened Geometry
  import opened Sequences

  /** Element identity (a DOM reference). */
  type ElemId = nat

  datatype Element = Element(id: ElemId, className: string, rect: Rect)

  datatype Node = Node(elem: Element, children: seq<Node>)

  /** The class name of the selection box; the CSS module makes it an opaque constant. */
  const DraggerClass: string := "draggableDom"

  /** The elements of a list of nodes, the `children` collection of their parent. */
  function Elems(s: seq<Node>): (r: seq<Element>)
    ensures |r| == |s|
    ensures forall i :: 0 <= i < |s| ==> r[i] == s[i].elem
  {
    if s == [] then [] else [s[0].elem] + Elems(s[1..])
  }

  /** Every element below the parent of `s`, in document (pre-order) order: what
      querySelectorAll('*') returns. */
  function PreOrder(s: seq<Node>): seq<Element>
    decreases s
  {
    if s == [] then [] else [s[0].elem] + PreOrder(s[0].children) + PreOrder(s[1..])
  }

  lemma {:induction false} PreOrderConcat(a: seq<Node>, b: seq<Node>)
    ensures PreOrder(a + b) == PreOrder(a) + PreOrder(b)
  {
    if a == [] {
      assert a + b == b;
    } else {
      assert (a + b)[0] == a[0] && (a + b)[1..] == a[1..] + b;
      PreOrderConcat(a[1..], b);
    }
  }

  lemma {:induction false} ElemsConcat(a: seq<Node>, b: seq<Node>)
    ensures Elems(a + b) == Elems(a) + Elems(b)
  {
    assert |Elems(a + b)| == |Elems(a) + Elems(b)|;
    forall i | 0 <= i < |a + b|
      ensures Elems(a + b)[i] == (Elems(a) + Elems(b))[i]
    {
      if i >= |a| {
        assert (a + b)[i] == b[i - |a|];
      }
    }
  }

  /** The direct children come first among their own descendants and keep their order:
      shallow enumeration is a subsequence of deep enumeration. */
  lemma {:induction false} ElemsSubsequenceOfPreOrder(s: seq<Node>)
    ensures IsSubsequence(Elems(s), PreOrder(s))
  {
    if s != [] {
      ElemsSubsequenceOfPreOrder(s[1..]);
      SubsequenceOfLonger(Elems(s[1..]), PreOrder(s[0].children), PreOrder(s[1..]));
      var e, p := Elems(s), PreOrder(s);
      assert e[0] == p[0];
      assert e[1..] == Elems(s[1..]);
      assert p[1..] == PreOrder(s[0].children) + PreOrder(s[1..]);
    }
  }

  /** Each direct child's element is found by deep enumeration too. */
  lemma {:induction false} ChildInPreOrder(s: seq<Node>, i: nat)
    requires i < |s|
    ensures s[i].elem in PreOrder(s)
  {
    if i > 0 {
      ChildInPreOrder(s[1..], i - 1);
    }
  }

  function MaxId(s: seq<Element>): (m: ElemId)
    ensures forall e :: e in s ==> e.id <= m
  {
    if s == [] then 0
    else
      var rest := MaxId(s[1..]);
      assert forall e :: e in s ==> e == s[0] || e in s[1..];
      if s[0].id <= rest then rest else s[0].id
  }

  /** The identity document.createElement gives a new element: used by no element in the tree. */
  function FreshId(s: seq<Node>): (id: ElemId)
    ensures forall e :: e in PreOrder(s) ==> e.id != id
    ensures forall i :: 0 <= i < |s| ==> s[i].elem.id != id
  {
    forall i | 0 <= i < |s| ensures s[i].elem in PreOrder(s) {
      ChildInPreOrder(s, i);
    }
    MaxId(PreOrder(s)) + 1
  }

  /** The children after the box with identity `id` got the geometry `r` through its style. */
  function SetRect(s: seq<Node>, id: ElemId, r: Rect): seq<Node>
  {
    seq(|s|, i requires 0 <= i < |s| =>
      if s[i].elem.id == id then Node(s[i].elem.(rect := r), s[i].children) else s[i])
  }

  function NotId(id: ElemId): Node -> bool
  {
    (n: Node) => n.elem.id != id
  }

  /** removeChild: the children without the element with identity `id`. */
  function Detach(s: seq<Node>, id: ElemId): (t: seq<Node>)
    ensures forall n :: n in t <==> n in s && n.elem.id != id
    ensures IsSubsequence(t, s)
  {
    Filter(s, NotId(id))
  }
}
