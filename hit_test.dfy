/** findInsideElements: enumerate the candidate elements of the container, drop the selection
    box by its class name, and keep the ones whose bounding box overlaps the selection box. */
module HitTest {
  import opened Geometry
  import opened Dom
  import opened Sequences

  /** What one callback invocation receives: (results, elementsWithoutDragger). */
  datatype Selection = Selection(results: seq<Element>, candidates: seq<Element>)

  /** The elements enumerated: `children` in shallow mode, every descendant with `deep`. */
  function AllElements(children: seq<Node>, deep: bool): seq<Element>
  {
    if deep then PreOrder(children) else Elems(children)
  }

  predicate NotDragger(e: Element)
  {
    e.className != DraggerClass
  }

  function Overlaps(box: Rect): Element -> bool
  {
    (e: Element) => IsSelected(box, e.rect)
  }

  /** elementsWithoutDragger. */
  function Candidates(children: seq<Node>, deep: bool): (r: seq<Element>)
    ensures forall e :: e in r <==> e in AllElements(children, deep) && e.className != DraggerClass
    ensures IsSubsequence(r, AllElements(children, deep))
  {
    Filter(AllElements(children, deep), NotDragger)
  }

  /** The hit test against the selection box's current bounding box `box`. */
  function FindInsideElements(children: seq<Node>, deep: bool, box: Rect): (sel: Selection)
    ensures sel.candidates == Candidates(children, deep)
    ensures forall e :: e in sel.results <==> e in sel.candidates && IsSelected(box, e.rect)
    ensures IsSubsequence(sel.results, sel.candidates)
  {
    var candidates := Candidates(children, deep);
    Selection(Filter(candidates, Overlaps(box)), candidates)
  }

  /** A report is well formed: results keep the order of the candidates, and no candidate
      carries the selection box's class. */
  predicate WellFormed(sel: Selection)
  {
    IsSubsequence(sel.results, sel.candidates) && forall e :: e in sel.candidates ==> e.className != DraggerClass
  }

  lemma HitTestIsWellFormed(children: seq<Node>, deep: bool, box: Rect)
    ensures WellFormed(FindInsideElements(children, deep, box))
  {
  }

  /** The selection box, or any element carrying its class, is never a candidate. */
  lemma BoxIsNeverCandidate(children: seq<Node>, deep: bool, box: Element)
    requires box.className == DraggerClass
    ensures box !in Candidates(children, deep)
  {
  }

  /** Shallow candidates are deep candidates, in the same order. */
  lemma ShallowCandidatesAreDeepCandidates(children: seq<Node>)
    ensures IsSubsequence(Candidates(children, false), Candidates(children, true))
  {
    ElemsSubsequenceOfPreOrder(children);
    FilterKeepsSubsequence(Elems(children), PreOrder(children), NotDragger);
  }

  /** Appending the selection box to the container does not change the candidates. */
  lemma {:induction false} AttachingBoxKeepsCandidates(children: seq<Node>, deep: bool, box: Element)
    requires box.className == DraggerClass
    ensures Candidates(children + [Node(box, [])], deep) == Candidates(children, deep)
  {
    var n := [Node(box, [])];
    assert AllElements(children + n, deep) == AllElements(children, deep) + [box] by {
      if deep {
        PreOrderConcat(children, n);
        assert PreOrder(n) == [box] + PreOrder([]) + PreOrder([]);
      } else {
        ElemsConcat(children, n);
      }
    }
    FilterConcat(AllElements(children, deep), [box], NotDragger);
    assert Filter([box], NotDragger) == [];
  }

  /** The top-level nodes with identity `id` are selection boxes. */
  predicate OnlyBoxesWithId(s: seq<Node>, id: ElemId)
  {
    forall i :: 0 <= i < |s| && s[i].elem.id == id ==> s[i].elem.className == DraggerClass
  }

  /** What deep enumeration lists below a node besides the node itself; nothing in shallow mode. */
  function Below(n: Node, deep: bool): seq<Element>
  {
    if deep then PreOrder(n.children) else []
  }

  /** The candidates of a list of nodes: those of the first node's element, then of what lies
      below it, then of the remaining nodes. */
  lemma CandidatesCons(s: seq<Node>, deep: bool)
    requires s != []
    ensures Candidates(s, deep)
         == Filter([s[0].elem], NotDragger) + Filter(Below(s[0], deep), NotDragger) + Candidates(s[1..], deep)
  {
    var head, e := [s[0].elem], Below(s[0], deep);
    assert AllElements(s, deep) == head + e + AllElements(s[1..], deep) by {
      if !deep {
        assert head + e == head;
      }
    }
    FilterConcat(head + e, AllElements(s[1..], deep), NotDragger);
    FilterConcat(head, e, NotDragger);
  }

  /** Resizing touches the first node only where it carries identity `id`, and keeps its class
      name and children. */
  lemma SetRectCons(s: seq<Node>, id: ElemId, r: Rect)
    requires s != []
    ensures SetRect(s, id, r) != [] && SetRect(s, id, r)[1..] == SetRect(s[1..], id, r)
    ensures SetRect(s, id, r)[0].elem.className == s[0].elem.className
    ensures SetRect(s, id, r)[0].children == s[0].children
    ensures s[0].elem.id != id ==> SetRect(s, id, r)[0] == s[0]
  {
  }

  /** Resizing the selection box does not change the candidates. */
  lemma {:induction false} ResizingBoxKeepsCandidates(children: seq<Node>, deep: bool, id: ElemId, r: Rect)
    requires OnlyBoxesWithId(children, id)
    ensures Candidates(SetRect(children, id, r), deep) == Candidates(children, deep)
  {
    if children != [] {
      var t, rest := SetRect(children, id, r), children[1..];
      assert OnlyBoxesWithId(rest, id) by {
        forall i | 0 <= i < |rest| && rest[i].elem.id == id ensures rest[i].elem.className == DraggerClass {
          assert rest[i] == children[i + 1];
        }
      }
      ResizingBoxKeepsCandidates(rest, deep, id, r);
      SetRectCons(children, id, r);
      CandidatesCons(children, deep);
      CandidatesCons(t, deep);
      assert Filter([t[0].elem], NotDragger) == Filter([children[0].elem], NotDragger);
    }
  }

  /** The top-level nodes with identity `id` are childless selection boxes. */
  predicate OnlyLeafBoxesWithId(s: seq<Node>, id: ElemId)
  {
    forall i :: 0 <= i < |s| && s[i].elem.id == id ==> s[i].elem.className == DraggerClass && s[i].children == []
  }

  /** removeChild on a list of nodes drops the first node exactly when it has identity `id`. */
  lemma DetachCons(s: seq<Node>, id: ElemId)
    requires s != []
    ensures Detach(s, id) == if s[0].elem.id == id then Detach(s[1..], id) else [s[0]] + Detach(s[1..], id)
  {
    assert s == [s[0]] + s[1..];
  }

  /** Removing the selection box from the container does not change the candidates. */
  lemma {:induction false} DetachingBoxKeepsCandidates(children: seq<Node>, deep: bool, id: ElemId)
    requires OnlyLeafBoxesWithId(children, id)
    ensures Candidates(Detach(children, id), deep) == Candidates(children, deep)
  {
    if children != [] {
      var head, rest := children[0], children[1..];
      assert OnlyLeafBoxesWithId(rest, id) by {
        forall i | 0 <= i < |rest| && rest[i].elem.id == id
          ensures rest[i].elem.className == DraggerClass && rest[i].children == []
        {
          assert rest[i] == children[i + 1];
        }
      }
      DetachingBoxKeepsCandidates(rest, deep, id);
      CandidatesCons(children, deep);
      DetachCons(children, id);
      if head.elem.id == id {
        assert Below(head, deep) == [];
      } else {
        var t := [head] + Detach(rest, id);
        assert t[0] == head && t[1..] == Detach(rest, id);
        CandidatesCons(t, deep);
      }
    }
  }

  /** A selection box that covers another selects at least what the other selects, in order. */
  lemma LargerBoxSelectsMore(children: seq<Node>, deep: bool, small: Rect, big: Rect)
    requires Encloses(big, small)
    ensures IsSubsequence(FindInsideElements(children, deep, small).results, FindInsideElements(children, deep, big).results)
  {
    var c := Candidates(children, deep);
    forall e | e in c && Overlaps(small)(e) ensures Overlaps(big)(e) {
      EnclosingBoxSelectsMore(big, small, e.rect);
    }
    FilterWeaker(c, Overlaps(small), Overlaps(big));
  }

  /** A press with no movement reports every candidate under the pointer. */
  lemma PressReportsCandidatesUnderPointer(children: seq<Node>, deep: bool, p: Point, e: Element)
    requires e in Candidates(children, deep)
    requires e.rect.left <= p.x < e.rect.right && e.rect.top <= p.y < e.rect.bottom
    ensures e in FindInsideElements(children, deep, PressRect(p)).results
  {
    PressSelectsBoxUnderPointer(p, e.rect);
  }
}
