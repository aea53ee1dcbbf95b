/** The Dragger's state and the effect of each handler on it, as values. The class in
    dragger.dfy implements these transitions on its fields; the lemmas here relate several
    events to each other. */
module DragMachine {
  import opened Wrappers
  import opened Geometry
  import opened Dom
  import opened HitTest
  import opened Sequences

  datatype MouseEvent = MouseEvent(button: int, clientX: real, clientY: real)

  function Position(event: MouseEvent): Point
  {
    Point(event.clientX, event.clientY)
  }

  /** Everything a handler reads or writes. `bounds` is the container box as measured when a
      handler runs; the three flags say which handlers are subscribed; `calls` records every
      invocation of the callback, oldest first. */
  datatype DragState = DragState(
    bounds: Bounds,
    children: seq<Node>,
    box: Option<Element>,
    initPos: Point,
    mousedownBound: bool,
    mousemoveBound: bool,
    mouseupBound: bool,
    calls: seq<Selection>)

  /** `b` is a childless selection box among `children`, and the only child with its identity. */
  predicate BoxAttached(children: seq<Node>, b: Element)
  {
    && b.className == DraggerClass
    && Node(b, []) in children
    && forall i :: 0 <= i < |children| && children[i].elem.id == b.id ==> children[i] == Node(b, [])
  }

  /** The move handler is subscribed exactly while a selection box exists, and that box is a
      child of the container. So onDrag never meets a null box and removeChild never fails. */
  predicate Valid(s: DragState)
  {
    && (s.mousemoveBound <==> s.box.Some?)
    && (s.box.Some? ==> BoxAttached(s.children, s.box.value))
  }

  /** The fields as the class initialises them. */
  function Created(bounds: Bounds, children: seq<Node>): DragState
  {
    DragState(bounds, children, None, Point(0.0, 0.0), false, false, false, [])
  }

  /** init: subscribe onMousedown on the container. */
  function Init(s: DragState): DragState
  {
    s.(mousedownBound := true)
  }

  /** onMousedown: with the left button, append a new PressSize box at the press point, anchor
      there, report, and subscribe move and up. There is no guard against an existing box. */
  function OnMousedown(s: DragState, deep: bool, event: MouseEvent): DragState
  {
    if event.button != 0 then s
    else
      var box := Element(FreshId(s.children), DraggerClass, PressRect(Position(event)));
      var children := s.children + [Node(box, [])];
      s.(children := children, box := Some(box), initPos := Position(event),
         calls := s.calls + [FindInsideElements(children, deep, box.rect)],
         mousemoveBound := true, mouseupBound := true)
  }

  /** onDrag: span the box between the anchor and the clamped pointer, then report. */
  function OnDrag(s: DragState, deep: bool, event: MouseEvent): DragState
    requires s.box.Some?
  {
    var rect := RectFromCorners(s.initPos, ClampPoint(Position(event), s.bounds));
    var box := s.box.value.(rect := rect);
    var children := SetRect(s.children, box.id, rect);
    s.(children := children, box := Some(box), calls := s.calls + [FindInsideElements(children, deep, rect)])
  }

  /** onStop: with a box, report with the box still in place, then remove it; in every case
      unsubscribe the move handler. */
  function OnStop(s: DragState, deep: bool): DragState
  {
    var ended :=
      if s.box.None? then s
      else s.(calls := s.calls + [FindInsideElements(s.children, deep, s.box.value.rect)],
              children := Detach(s.children, s.box.value.id), box := None);
    ended.(mousemoveBound := false)
  }

  /** destroy: unsubscribe onMousedown and onStop; onDrag stays subscribed. */
  function Destroy(s: DragState): DragState
  {
    s.(mousedownBound := false, mouseupBound := false)
  }

  /** What can happen next: an event the browser delivers, or a call of destroy. */
  datatype Action = MouseDown(event: MouseEvent) | MouseMove(event: MouseEvent) | MouseUp | Teardown

  /** An event reaches its handler only while that handler is subscribed. */
  function Deliver(s: DragState, deep: bool, a: Action): DragState
    requires Valid(s)
  {
    match a
    case MouseDown(event) => if s.mousedownBound then OnMousedown(s, deep, event) else s
    case MouseMove(event) => if s.mousemoveBound then OnDrag(s, deep, event) else s
    case MouseUp => if s.mouseupBound then OnStop(s, deep) else s
    case Teardown => Destroy(s)
  }

  lemma InitialStateIsValid(bounds: Bounds, children: seq<Node>)
    ensures Valid(Init(Created(bounds, children)))
  {
  }

  lemma MousedownKeepsValid(s: DragState, deep: bool, event: MouseEvent)
    requires Valid(s)
    ensures Valid(OnMousedown(s, deep, event))
  {
  }

  /** Setting the geometry of an attached box keeps the resized box attached. */
  lemma ResizeKeepsAttached(children: seq<Node>, b: Element, r: Rect)
    requires BoxAttached(children, b)
    ensures BoxAttached(SetRect(children, b.id, r), b.(rect := r))
  {
    var t := SetRect(children, b.id, r);
    var i :| 0 <= i < |children| && children[i] == Node(b, []);
    assert t[i] == Node(b.(rect := r), []);
    forall j | 0 <= j < |t| && t[j].elem.id == b.id ensures t[j] == Node(b.(rect := r), []) {
      assert children[j].elem.id == b.id;
    }
  }

  lemma DragKeepsValid(s: DragState, deep: bool, event: MouseEvent)
    requires Valid(s) && s.box.Some?
    ensures Valid(OnDrag(s, deep, event))
  {
    var rect := RectFromCorners(s.initPos, ClampPoint(Position(event), s.bounds));
    ResizeKeepsAttached(s.children, s.box.value, rect);
  }

  lemma DeliverKeepsValid(s: DragState, deep: bool, a: Action)
    requires Valid(s)
    ensures Valid(Deliver(s, deep, a))
  {
    match a
    case MouseDown(event) => MousedownKeepsValid(s, deep, event);
    case MouseMove(event) => if s.mousemoveBound { DragKeepsValid(s, deep, event); }
    case _ =>
  }

  /** The state after a sequence of actions. */
  function Run(s: DragState, deep: bool, acts: seq<Action>): (t: DragState)
    requires Valid(s)
    ensures Valid(t)
    decreases |acts|
  {
    if acts == [] then s
    else
      DeliverKeepsValid(s, deep, acts[0]);
      Run(Deliver(s, deep, acts[0]), deep, acts[1..])
  }

  /** Whether the action invokes the callback. */
  predicate Fires(s: DragState, a: Action)
  {
    match a
    case MouseDown(event) => s.mousedownBound && event.button == 0
    case MouseMove(_) => s.mousemoveBound
    case MouseUp => s.mouseupBound && s.box.Some?
    case Teardown => false
  }

  /** Every action invokes the callback at most once, appends to the record and rewrites none
      of it, and what it reports is well formed. */
  lemma CallbackAtMostOnce(s: DragState, deep: bool, a: Action)
    requires Valid(s)
    ensures var t := Deliver(s, deep, a);
      && |t.calls| == |s.calls| + (if Fires(s, a) then 1 else 0)
      && t.calls[..|s.calls|] == s.calls
      && (Fires(s, a) ==> WellFormed(t.calls[|s.calls|]))
  {
    var t := Deliver(s, deep, a);
    if Fires(s, a) {
      assert t.calls[..|s.calls|] == s.calls;
    }
  }

  /** Every report of every run is well formed. */
  lemma {:induction false} RunReportsWellFormed(s: DragState, deep: bool, acts: seq<Action>)
    requires Valid(s)
    requires forall c :: c in s.calls ==> WellFormed(c)
    ensures forall c :: c in Run(s, deep, acts).calls ==> WellFormed(c)
    decreases |acts|
  {
    if acts != [] {
      var t := Deliver(s, deep, acts[0]);
      CallbackAtMostOnce(s, deep, acts[0]);
      assert forall c :: c in t.calls ==> WellFormed(c) by {
        forall c | c in t.calls ensures WellFormed(c) {
          var k :| 0 <= k < |t.calls| && t.calls[k] == c;
          if k < |s.calls| {
            assert c == t.calls[..|s.calls|][k];
          }
        }
      }
      DeliverKeepsValid(s, deep, acts[0]);
      RunReportsWellFormed(t, deep, acts[1..]);
    }
  }

  /** A press with any button but the left one changes nothing. */
  lemma NonPrimaryPressIsIgnored(s: DragState, deep: bool, event: MouseEvent)
    requires Valid(s) && event.button != 0
    ensures Deliver(s, deep, MouseDown(event)) == s
  {
  }

  /** While the anchor lies in the container, every move keeps the box in the container, and
      the box spans exactly the anchor and the clamped pointer. */
  lemma DragKeepsBoxInside(s: DragState, deep: bool, event: MouseEvent)
    requires Valid(s) && s.box.Some? && s.bounds.Contains(s.initPos)
    ensures var t := OnDrag(s, deep, event);
      && t.box.Some? && s.bounds.ContainsRect(t.box.value.rect)
      && t.box.value.rect == RectFromCorners(s.initPos, ClampPoint(Position(event), s.bounds))
  {
    CornersInsideSpanInside(s.bounds, s.initPos, ClampPoint(Position(event), s.bounds));
  }

  /** A press box at the container's right or bottom edge sticks out by PressSize. */
  lemma PressBoxCanOverhang()
    ensures var s := Init(Created(Bounds(0.0, 0.0, 10.0, 10.0), []));
      var t := Deliver(s, false, MouseDown(MouseEvent(0, 10.0, 10.0)));
      t.box.Some? && !t.bounds.ContainsRect(t.box.value.rect)
  {
  }

  /** While a box exists, the last report is the hit test of that box against the current
      children. */
  predicate Reported(s: DragState, deep: bool)
  {
    s.box.Some? ==> |s.calls| > 0 && s.calls[|s.calls| - 1] == FindInsideElements(s.children, deep, s.box.value.rect)
  }

  lemma DeliverKeepsReported(s: DragState, deep: bool, a: Action)
    requires Valid(s) && Reported(s, deep)
    ensures Reported(Deliver(s, deep, a), deep)
  {
  }

  lemma {:induction false} RunKeepsReported(s: DragState, deep: bool, acts: seq<Action>)
    requires Valid(s) && Reported(s, deep)
    ensures Reported(Run(s, deep, acts), deep)
    decreases |acts|
  {
    if acts != [] {
      DeliverKeepsValid(s, deep, acts[0]);
      DeliverKeepsReported(s, deep, acts[0]);
      RunKeepsReported(Deliver(s, deep, acts[0]), deep, acts[1..]);
    }
  }

  /** Releasing reports once more exactly what the last callback reported, then the box is
      gone from the container. */
  lemma ReleaseRepeatsLastReport(s: DragState, deep: bool)
    requires Valid(s) && Reported(s, deep) && s.box.Some? && s.mouseupBound
    ensures var t := Deliver(s, deep, MouseUp);
      && t.calls == s.calls + [s.calls[|s.calls| - 1]]
      && t.box.None? && !t.mousemoveBound
      && forall n :: n in t.children ==> n.elem.id != s.box.value.id
  {
  }

  /** As written, a second left press during a drag does not end it: a second box is appended
      and the anchor is reset, and the first box stays in the container even after release. */
  lemma SecondPressOrphansFirstBox(s: DragState, deep: bool, event: MouseEvent)
    requires Valid(s) && s.box.Some? && s.mousedownBound && event.button == 0
    ensures var t := Deliver(s, deep, MouseDown(event));
      && t.box.Some? && t.box.value.id != s.box.value.id && t.initPos == Position(event)
      && Node(s.box.value, []) in t.children
      && Node(s.box.value, []) in Deliver(t, deep, MouseUp).children
  {
    var t := Deliver(s, deep, MouseDown(event));
    assert Node(s.box.value, []) in s.children;
    assert s.box.value in PreOrder(s.children) by {
      var i :| 0 <= i < |s.children| && s.children[i] == Node(s.box.value, []);
      ChildInPreOrder(s.children, i);
    }
    MousedownKeepsValid(s, deep, event);
  }

  /** Nothing is subscribed. */
  predicate Silenced(s: DragState)
  {
    !s.mousedownBound && !s.mousemoveBound && !s.mouseupBound
  }

  /** An engine with nothing subscribed ignores everything. */
  lemma {:induction false} SilencedEngineIgnoresAll(s: DragState, deep: bool, acts: seq<Action>)
    requires Valid(s) && Silenced(s)
    ensures Run(s, deep, acts) == s
    decreases |acts|
  {
    if acts != [] {
      assert Deliver(s, deep, acts[0]) == s;
      SilencedEngineIgnoresAll(s, deep, acts[1..]);
    }
  }

  /** destroy while idle: no later press creates a box or invokes the callback. */
  lemma TeardownWhenIdleSilencesEngine(s: DragState, deep: bool, acts: seq<Action>)
    requires Valid(s) && s.box.None?
    ensures Valid(Destroy(s)) && Run(Destroy(s), deep, acts) == Destroy(s)
  {
    SilencedEngineIgnoresAll(Destroy(s), deep, acts);
  }

  function Moves(acts: seq<Action>): nat
  {
    if acts == [] then 0 else (if acts[0].MouseMove? then 1 else 0) + Moves(acts[1..])
  }

  /** destroy during a drag: the box is never removed (no release and no press reaches the
      engine any more), and every move still resizes it and invokes the callback. */
  lemma {:induction false} TeardownMidDragLeavesBox(s: DragState, deep: bool, acts: seq<Action>)
    requires Valid(s) && s.box.Some?
    ensures Valid(Destroy(s))
    ensures var t := Run(Destroy(s), deep, acts);
      && t.box.Some? && t.box.value.id == s.box.value.id
      && Node(t.box.value, []) in t.children
      && |t.calls| == |s.calls| + Moves(acts)
    decreases |acts|
  {
    if acts != [] {
      var d := Destroy(s);
      var u := Deliver(d, deep, acts[0]);
      DeliverKeepsValid(d, deep, acts[0]);
      assert Destroy(u) == u;
      TeardownMidDragLeavesBox(u, deep, acts[1..]);
      assert Run(d, deep, acts) == Run(u, deep, acts[1..]);
    }
  }

  const ItemA: Element := Element(1, "item", Rect(10.0, 10.0, 30.0, 30.0))
  const ItemB: Element := Element(2, "item", Rect(200.0, 200.0, 230.0, 230.0))
  const TwoItems: seq<Node> := [Node(ItemA, []), Node(ItemB, [])]

  /** With a selection box appended, the candidates of TwoItems are A and B. */
  lemma TwoItemsWithBox(box: Element)
    requires box.className == DraggerClass
    ensures Candidates(TwoItems + [Node(box, [])], false) == [ItemA, ItemB]
  {
    AttachingBoxKeepsCandidates(TwoItems, false, box);
    assert Elems(TwoItems) == [ItemA, ItemB];
    assert Filter([ItemA, ItemB], NotDragger) == [ItemA, ItemB];
  }

  /** Resizing the selection box appended to TwoItems. */
  lemma ResizeAfterTwoItems(box: Element, r: Rect)
    requires box.id != ItemA.id && box.id != ItemB.id
    ensures SetRect(TwoItems + [Node(box, [])], box.id, r) == TwoItems + [Node(box.(rect := r), [])]
  {
  }

  /** The state during the scenario below: the box `box` appended to TwoItems. */
  function Dragging(box: Element, calls: seq<Selection>): DragState
  {
    DragState(Bounds(0.0, 0.0, 500.0, 500.0), TwoItems + [Node(box, [])], Some(box), Point(5.0, 5.0), true, true, true, calls)
  }

  /** A move of the scenario: the box spans (5, 5) and the pointer, and A alone or A and B are
      reported. */
  lemma ScenarioMove(box: Element, calls: seq<Selection>, x: real, expected: seq<Element>)
    requires box.className == DraggerClass && box.id != ItemA.id && box.id != ItemB.id
    requires 5.0 <= x <= 500.0
    requires expected == Filter([ItemA, ItemB], Overlaps(Rect(5.0, 5.0, x, x)))
    ensures var r := Rect(5.0, 5.0, x, x);
      OnDrag(Dragging(box, calls), false, MouseEvent(0, x, x))
        == Dragging(box.(rect := r), calls + [Selection(expected, [ItemA, ItemB])])
  {
    var r := Rect(5.0, 5.0, x, x);
    ResizeAfterTwoItems(box, r);
    TwoItemsWithBox(box.(rect := r));
  }

  /** The press of the scenario below appends a fresh box at (5, 5). */
  lemma ScenarioPress()
    ensures var s1 := OnMousedown(Init(Created(Bounds(0.0, 0.0, 500.0, 500.0), TwoItems)), false, MouseEvent(0, 5.0, 5.0));
      && s1.box.Some? && s1 == Dragging(s1.box.value, s1.calls) && |s1.calls| == 1
      && s1.box.value.className == DraggerClass && s1.box.value.id != ItemA.id && s1.box.value.id != ItemB.id
  {
    ChildInPreOrder(TwoItems, 0);
    ChildInPreOrder(TwoItems, 1);
  }

  /** The release of the scenario reports with the box in place and then removes it. */
  lemma ScenarioRelease(box: Element, calls: seq<Selection>)
    requires box.className == DraggerClass && box.id != ItemA.id && box.id != ItemB.id
    ensures var s := OnStop(Dragging(box, calls), false);
      && s.calls == calls + [Selection(Filter([ItemA, ItemB], Overlaps(box.rect)), [ItemA, ItemB])]
      && s.box.None? && s.children == TwoItems
  {
    TwoItemsWithBox(box);
    FilterConcat(TwoItems, [Node(box, [])], NotId(box.id));
    assert Filter(TwoItems, NotId(box.id)) == TwoItems;
  }

  /** A 500 by 500 container at the origin with the two children A and B: a press at (5, 5)
      and a move to (35, 35) select A, moving on to (250, 250) selects both, and the release
      reports both and leaves the children as they were. */
  lemma DragAcrossTwoElements()
    ensures
      var s1 := OnMousedown(Init(Created(Bounds(0.0, 0.0, 500.0, 500.0), TwoItems)), false, MouseEvent(0, 5.0, 5.0));
      var s2 := OnDrag(s1, false, MouseEvent(0, 35.0, 35.0));
      var s3 := OnDrag(s2, false, MouseEvent(0, 250.0, 250.0));
      var s4 := OnStop(s3, false);
      && s2.calls[1] == Selection([ItemA], [ItemA, ItemB])
      && s3.calls[2] == Selection([ItemA, ItemB], [ItemA, ItemB])
      && s4.calls == s3.calls + [Selection([ItemA, ItemB], [ItemA, ItemB])]
      && s4.box.None? && s4.children == TwoItems
  {
    ScenarioPress();
    var s1 := OnMousedown(Init(Created(Bounds(0.0, 0.0, 500.0, 500.0), TwoItems)), false, MouseEvent(0, 5.0, 5.0));
    var box := s1.box.value;
    var r2, r3 := Rect(5.0, 5.0, 35.0, 35.0), Rect(5.0, 5.0, 250.0, 250.0);
    assert Filter([ItemA, ItemB], Overlaps(r2)) == [ItemA];
    assert Filter([ItemA, ItemB], Overlaps(r3)) == [ItemA, ItemB];
    ScenarioMove(box, s1.calls, 35.0, [ItemA]);
    var calls2 := s1.calls + [Selection([ItemA], [ItemA, ItemB])];
    ScenarioMove(box.(rect := r2), calls2, 250.0, [ItemA, ItemB]);
    var calls3 := calls2 + [Selection([ItemA, ItemB], [ItemA, ItemB])];
    ScenarioRelease(box.(rect := r3), calls3);
  }
}
