/** The Dragger class: construction with option defaults, and the event handlers that change
    its fields and the container's children. Each handler is proved to perform the matching
    transition of DragMachine: the DragMachine functions are the specification, on values, and
    these methods the implementation, on the objects' fields. For Init, OnMousedown, OnStop and
    Destroy the two read alike step for step; GetCurrentXY and OnDrag keep the source's branching,
    which is proved equal to ClampPoint and RectFromCorners. */
module Selector {
  import opened Wrappers
  import opened Geometry
  import opened Dom
  import opened HitTest
  import DragMachine

  /** The callback: the default highlight routine or one the caller supplies. The engine's
      side of the contract is what it passes, which the Dragger records in `calls`. */
  datatype Callback = DefaultCallback | Custom(name: string)

  /** DragSelectorOptions: an absent key is None. */
  datatype Options = Options(callback: Option<Callback>, deep: Option<bool>)

  datatype Config = Config(callback: Callback, deep: bool)

  /** `{ callback: defaultCallback, deep: false, ...options }`: a key the caller gives wins,
      a missing key takes its default. */
  function MergeOptions(options: Option<Options>): (c: Config)
    ensures options.None? ==> c == Config(DefaultCallback, false)
    ensures options.Some? && options.value.callback.Some? ==> c.callback == options.value.callback.value
    ensures options.Some? && options.value.callback.None? ==> c.callback == DefaultCallback
    ensures options.Some? && options.value.deep.Some? ==> c.deep == options.value.deep.value
    ensures options.Some? && options.value.deep.None? ==> !c.deep
  {
    match options
    case None => Config(DefaultCallback, false)
    case Some(o) =>
      Config(if o.callback.Some? then o.callback.value else DefaultCallback,
             if o.deep.Some? then o.deep.value else false)
  }

  /** The container element (parentDom): its box, which layout may change between events,
      and its children, which the Dragger appends to and removes from. */
  class Container {
    var offsetLeft: real
    var offsetTop: real
    var clientWidth: Extent
    var clientHeight: Extent
    var children: seq<Node>

    constructor (offsetLeft: real, offsetTop: real, clientWidth: Extent, clientHeight: Extent, children: seq<Node>)
      ensures Box() == Bounds(offsetLeft, offsetTop, clientWidth, clientHeight)
      ensures this.children == children
    {
      this.offsetLeft := offsetLeft;
      this.offsetTop := offsetTop;
      this.clientWidth := clientWidth;
      this.clientHeight := clientHeight;
      this.children := children;
    }

    function Box(): Bounds
      reads this
    {
      Bounds(offsetLeft, offsetTop, clientWidth, clientHeight)
    }
  }

  class Dragger {
    const parentDom: Container
    const options: Config
    /** The selection box, None for null. */
    var draggableDom: Option<Element>
    var initPos: Point
    var mousedownBound: bool
    var mousemoveBound: bool
    var mouseupBound: bool
    /** Every invocation of options.callback, oldest first. */
    var calls: seq<Selection>

    ghost function State(): DragMachine.DragState
      reads this, parentDom
    {
      DragMachine.DragState(parentDom.Box(), parentDom.children, draggableDom, initPos,
                            mousedownBound, mousemoveBound, mouseupBound, calls)
    }

    ghost predicate Valid()
      reads this, parentDom
    {
      DragMachine.Valid(State())
    }

    constructor (parentDom: Container, options: Option<Options>)
      ensures this.parentDom == parentDom && this.options == MergeOptions(options)
      ensures State() == DragMachine.Init(DragMachine.Created(parentDom.Box(), parentDom.children))
      ensures Valid()
    {
      this.parentDom := parentDom;
      this.options := MergeOptions(options);
      draggableDom := None;
      initPos := Point(0.0, 0.0);
      mousedownBound, mousemoveBound, mouseupBound := false, false, false;
      calls := [];
      new;
      Init();
    }

    /** The pointer position restricted to the container's current box. */
    method GetCurrentXY(event: DragMachine.MouseEvent) returns (x: real, y: real)
      ensures Point(x, y) == ClampPoint(DragMachine.Position(event), parentDom.Box())
    {
      x, y := event.clientX, event.clientY;
      var maxX := parentDom.offsetLeft + parentDom.clientWidth;
      var maxY := parentDom.offsetTop + parentDom.clientHeight;
      var minX := parentDom.offsetLeft;
      var minY := parentDom.offsetTop;
      if x < minX {
        x := minX;
      } else if x > maxX {
        x := maxX;
      }
      if y < minY {
        y := minY;
      } else if y > maxY {
        y := maxY;
      }
    }

    method Init()
      modifies this`mousedownBound
      ensures State() == DragMachine.Init(old(State()))
    {
      mousedownBound := true;
    }

    method OnStop()
      requires Valid()
      modifies this, parentDom`children
      ensures State() == DragMachine.OnStop(old(State()), options.deep)
      ensures Valid()
    {
      if draggableDom.Some? {
        var selection := FindInsideElements(parentDom.children, options.deep, draggableDom.value.rect);
        calls := calls + [selection];
        parentDom.children := Detach(parentDom.children, draggableDom.value.id);
        draggableDom := None;
      }
      mousemoveBound := false;
    }

    method OnMousedown(event: DragMachine.MouseEvent)
      modifies this, parentDom`children
      ensures State() == DragMachine.OnMousedown(old(State()), options.deep, event)
      ensures old(Valid()) ==> Valid()
    {
      if event.button == 0 {
        var box := Element(FreshId(parentDom.children), DraggerClass, PressRect(DragMachine.Position(event)));
        parentDom.children := parentDom.children + [Node(box, [])];
        draggableDom := Some(box);
        initPos := Point(event.clientX, event.clientY);
        var selection := FindInsideElements(parentDom.children, options.deep, box.rect);
        calls := calls + [selection];
        mousemoveBound := true;
        mouseupBound := true;
      }
      if old(Valid()) {
        DragMachine.MousedownKeepsValid(old(State()), options.deep, event);
      }
    }

    method OnDrag(event: DragMachine.MouseEvent)
      requires Valid() && draggableDom.Some?
      modifies this, parentDom`children
      ensures State() == DragMachine.OnDrag(old(State()), options.deep, event)
      ensures Valid()
    {
      ghost var before := State();
      var x, y := GetCurrentXY(event);
      var left, width, top, height;
      if x < initPos.x {
        left, width := x, initPos.x - x;
      } else {
        left, width := initPos.x, x - initPos.x;
      }
      if y < initPos.y {
        top, height := y, initPos.y - y;
      } else {
        top, height := initPos.y, y - initPos.y;
      }
      var rect := Rect(left, top, left + width, top + height);
      assert rect == RectFromCorners(initPos, Point(x, y));
      var box := draggableDom.value.(rect := rect);
      draggableDom := Some(box);
      parentDom.children := SetRect(parentDom.children, box.id, rect);
      var selection := FindInsideElements(parentDom.children, options.deep, rect);
      calls := calls + [selection];
      assert State() == DragMachine.OnDrag(before, options.deep, event);
      DragMachine.DragKeepsValid(before, options.deep, event);
    }

    method Destroy()
      modifies this
      ensures State() == DragMachine.Destroy(old(State()))
      ensures old(Valid()) ==> Valid()
    {
      mousedownBound := false;
      mouseupBound := false;
    }
  }
}
