# dragselector in Dafny

A model of the drag-selection engine of `dragselector`: the `Dragger` class and the
`defaultCallback` routine in `src/index.ts`. A left-button press on the container creates a
small selection box at the press point and reports what it touches; every pointer move
clamps the pointer to the container's box, spans the selection box between the press point
and the clamped pointer, and reports again; the release reports one last time and removes
the box. Each report is the pair `(results, elementsWithoutDragger)`: the candidate elements
(the container's children, or with `deep` all of its descendants in document order, minus
every element whose class name is the selection box's class) and, among them, those whose
bounding box strictly overlaps the selection box.

Modules, one per component:

- `Wrappers` (`wrappers.dfy`): `Option`, used for the nullable `draggableDom` and for the
  optional keys of the options object.
- `Sequences` (`sequences.dfy`): `Filter`, the order-preserving `Array.prototype.filter`, and
  `IsSubsequence`, the order relation between a filtered list and its source.
- `Geometry` (`geometry.dfy`): points, bounding boxes, the container box, the pointer clamp
  (`getCurrentXY`), the rectangle spanned by two corners (`onDrag`) and the strict overlap test
  (`isSelected`). Coordinates are exact `real`s.
- `Dom` (`dom.dfy`): the container's children as a forest of element records (identity, class
  name, current bounding box); `Elems` is the `children` collection, `PreOrder` is
  `querySelectorAll('*')`; `FreshId` is the identity `document.createElement` hands out;
  `SetRect` and `Detach` are the box's style update and `removeChild`.
- `HitTest` (`hit_test.dfy`): `findInsideElements` and what is proved about it.
- `Highlight` (`highlight.dfy`): `defaultCallback` as a method with the two loops of the
  source, over a map from element identity to the box shadow last assigned.
- `DragMachine` (`drag_machine.dfy`): the Dragger's state as a value and each handler as a
  transition; `Deliver` hands an event to its handler only while that handler is subscribed,
  and `Run` applies a sequence of events and `destroy` calls. The lemmas about several events
  in a row live here.
- `Selector` (`dragger.dfy`): the `Container` and `Dragger` classes. Each handler is a method
  that updates the fields as the source does and is proved to perform the matching
  `DragMachine` transition, keeping the invariant `Valid()`.

`Valid` says that the move handler is subscribed exactly while a selection box exists and that
this box is a childless child of the container, the only one with its identity. It is what
makes the source's unguarded uses safe: `onDrag` only runs while the move handler is
subscribed, so it never meets a null box, and `onStop`'s `removeChild` always finds its child.

Behaviour modelled as the code has it, where one might expect otherwise:

- A left press while a box already exists is not ignored: a second box is appended, the anchor
  is reset, and the first box stays in the container for good (`SecondPressOrphansFirstBox`).
- `onStop` never unsubscribes the mouseup handler; `destroy` unsubscribes mousedown and mouseup
  but not mousemove. A `destroy` during a drag leaves the box in place for ever while moves keep
  resizing it and reporting (`TeardownMidDragLeavesBox`).
- The box is contained in the container after every move only while the anchor is inside; the
  press box itself, PressSize on each side, can stick out at the right or bottom edge
  (`PressBoxCanOverhang`).
- The box is excluded from the candidates by its class name only, so any element carrying that
  exact class name is excluded as well (`BoxIsNeverCandidate` is stated for every such element).

## Model

| member | source | states |
|---|---|---|
| Sequences.Filter | src/index.ts:78-83 | the filtered list holds exactly the elements of the source list that pass the test, in their source order, and is no longer than the source |
| Sequences.FilterMultiplicity | src/index.ts:83 | filtering keeps every occurrence of a kept element and none of a dropped one |
| Sequences.FilterKeepsSubsequence | src/index.ts:78-83 | filtering two lists with the same test keeps the first a subsequence of the second |
| Sequences.FilterWeaker | src/index.ts:83 | filtering with a test implied by another keeps at least what the other keeps, in order |
| Geometry.ClampAxis | src/index.ts:54-64 | one axis of the clamp lies in [min, max], is the input itself when the input lies there, and is the point of [min, max] nearest to the input |
| Geometry.ClampPoint | src/index.ts:44-67 | the clamped pointer lies in the container box, an inside pointer is returned unchanged, and each coordinate is the input or one of the box's edges |
| Geometry.ClampIdempotent | src/index.ts:44-67 | clamping a clamped pointer changes nothing |
| Geometry.RectFromCorners | src/index.ts:132-146 | the box has its left edge at the smaller and its right edge at the larger of the anchor and pointer x (likewise for y), so it spans exactly those two corners, with width and height the absolute differences |
| Geometry.RectFromCornersSymmetric | src/index.ts:132-146 | swapping anchor and pointer gives the same box |
| Geometry.CornersInsideSpanInside | src/index.ts:130-146 | an anchor and a pointer inside the container span a box inside the container |
| Geometry.IsSelectedSymmetric | src/index.ts:81 | the overlap test gives the same answer with its arguments swapped |
| Geometry.TouchingIsNotSelected | src/index.ts:81 | boxes that only share an edge or a corner are not selected |
| Geometry.SelectedIffCommonInteriorPoint | src/index.ts:81 | for boxes with area, the test holds exactly when some point lies strictly inside both |
| Geometry.EnclosingBoxSelectsMore | src/index.ts:81 | a box covering another selects every box the other selects |
| Geometry.PressSelectsBoxUnderPointer | src/index.ts:114-118 | the box a press creates overlaps every bounding box containing the press point (left and top edges included) |
| Geometry.PressRect | src/index.ts:113-118 | definition: the box a press creates, of size PressSize at the press point; properties in Geometry.PressSelectsBoxUnderPointer and DragMachine.PressBoxCanOverhang |
| Geometry.IsSelected | src/index.ts:81 | definition: strict overlap of two boxes; properties in Geometry.IsSelectedSymmetric, Geometry.TouchingIsNotSelected, Geometry.SelectedIffCommonInteriorPoint and Geometry.EnclosingBoxSelectsMore |
| Dom.PreOrder | src/index.ts:73 | definition: the deep enumeration in document order; properties in Dom.PreOrderConcat, Dom.ElemsSubsequenceOfPreOrder and Dom.ChildInPreOrder |
| Dom.SetRect | src/index.ts:133-145 | definition: the children after the box's style geometry is set; properties in HitTest.ResizingBoxKeepsCandidates and DragMachine.DragKeepsValid |
| Dom.Elems | src/index.ts:75 | the shallow enumeration lists the children's elements one for one, in order |
| Dom.PreOrderConcat | src/index.ts:73 | the deep enumeration of two runs of children is the enumeration of the first followed by that of the second |
| Dom.ElemsSubsequenceOfPreOrder | src/index.ts:72-76 | the direct children appear in the deep enumeration in their own order |
| Dom.ChildInPreOrder | src/index.ts:72-76 | every direct child is found by the deep enumeration |
| Dom.FreshId | src/index.ts:109 | the new box's identity is used by no element of the container |
| Dom.Detach | src/index.ts:99 | removeChild leaves exactly the other children, in order |
| HitTest.AllElements | src/index.ts:71-76 | definition: the children in shallow mode, every descendant in deep mode; properties in HitTest.ShallowCandidatesAreDeepCandidates and HitTest.Candidates |
| HitTest.Candidates | src/index.ts:71-78 | an element is a candidate exactly when the enumeration lists it and its class name is not the box's class; candidates keep the enumeration's order |
| HitTest.FindInsideElements | src/index.ts:70-86 | the results are exactly the candidates whose bounding box overlaps the selection box, in candidate order, and the second list is the candidate list |
| HitTest.HitTestIsWellFormed | src/index.ts:78-85 | every report has its results as an ordered sublist of its candidates and no candidate with the box's class |
| HitTest.BoxIsNeverCandidate | src/index.ts:78 | the selection box, and any element with its class name, is never a candidate |
| HitTest.ShallowCandidatesAreDeepCandidates | src/index.ts:72-76 | the shallow candidates are an ordered sublist of the deep candidates |
| HitTest.AttachingBoxKeepsCandidates | src/index.ts:110 | appending the selection box to the container leaves the candidates unchanged |
| HitTest.ResizingBoxKeepsCandidates | src/index.ts:132-146 | updating the selection box's geometry leaves the candidates unchanged |
| HitTest.DetachingBoxKeepsCandidates | src/index.ts:99 | removing the selection box leaves the candidates unchanged |
| HitTest.LargerBoxSelectsMore | src/index.ts:83 | a selection box covering another reports at least the other's results, in the same order |
| HitTest.PressReportsCandidatesUnderPointer | src/index.ts:114-121 | a press with no movement reports every candidate whose box contains the press point |
| Highlight.Unselected | src/index.ts:15 | the candidates not among the results, in candidate order |
| Highlight.ResetIds | src/index.ts:14-16 | definition: the identities the second loop clears, those of the unselected candidates; properties in Highlight.DefaultCallback and Highlight.DistinctIdsKeepResultsHighlighted |
| Highlight.DefaultCallback | src/index.ts:9-20 | the identities of the unselected candidates end without shadow, the other results end highlighted, every other element keeps its shadow, and without a candidate list only the results change |
| Highlight.DistinctIdsKeepResultsHighlighted | src/index.ts:10-19 | when identities tell elements apart, no result is reset by the second loop, so every result stays highlighted |
| DragMachine.Created | src/index.ts:23-26 | definition: the state the constructor leaves before init, with no box, anchor (0, 0), no subscription and no report; properties in DragMachine.InitialStateIsValid |
| DragMachine.Init | src/index.ts:89-91 | definition: subscribes mousedown; properties in DragMachine.InitialStateIsValid and Selector.Dragger.Init |
| DragMachine.OnMousedown | src/index.ts:105-126 | definition: the press handler; properties in DragMachine.MousedownKeepsValid, DragMachine.NonPrimaryPressIsIgnored, DragMachine.SecondPressOrphansFirstBox and DragMachine.PressBoxCanOverhang |
| DragMachine.OnDrag | src/index.ts:129-151 | definition: the move handler; properties in DragMachine.DragKeepsValid and DragMachine.DragKeepsBoxInside |
| DragMachine.OnStop | src/index.ts:94-103 | definition: the release handler; properties in DragMachine.ReleaseRepeatsLastReport and DragMachine.DeliverKeepsValid |
| DragMachine.Destroy | src/index.ts:154-157 | definition: unsubscribes mousedown and mouseup; properties in DragMachine.TeardownWhenIdleSilencesEngine and DragMachine.TeardownMidDragLeavesBox |
| DragMachine.Deliver | src/index.ts:90-157 | definition: an event reaches its handler only while the handler is subscribed (listeners added at lines 90 and 123-124, removed at 102 and 155-156), and destroy runs at any time; properties in DragMachine.DeliverKeepsValid, DragMachine.CallbackAtMostOnce and DragMachine.SilencedEngineIgnoresAll |
| DragMachine.InitialStateIsValid | src/index.ts:23-41 | the constructed engine, with only mousedown subscribed, satisfies the invariant |
| DragMachine.MousedownKeepsValid | src/index.ts:105-126 | a press keeps the invariant |
| DragMachine.DragKeepsValid | src/index.ts:129-151 | a move keeps the invariant |
| DragMachine.DeliverKeepsValid | src/index.ts:89-157 | every event and every destroy keeps the invariant, so onDrag never meets a null box and removeChild always finds the box |
| DragMachine.Run | src/index.ts:89-157 | any sequence of events and destroy calls from a valid state ends in a valid state |
| DragMachine.CallbackAtMostOnce | src/index.ts:94-151 | each event invokes the callback exactly once when its handler is subscribed and fires (left press, move, release with a box) and otherwise not at all, never rewriting earlier reports, and its report is well formed |
| DragMachine.RunReportsWellFormed | src/index.ts:94-151 | every report of every run keeps results an ordered sublist of candidates and excludes the box's class |
| DragMachine.NonPrimaryPressIsIgnored | src/index.ts:107 | a press with a button other than the left one changes nothing |
| DragMachine.DragKeepsBoxInside | src/index.ts:130-146 | while the anchor is in the container, a move leaves the box inside the container and spanning exactly the anchor and the clamped pointer |
| DragMachine.PressBoxCanOverhang | src/index.ts:113-118 | a press at the container's bottom-right corner creates a box that is not inside the container |
| DragMachine.DeliverKeepsReported | src/index.ts:94-151 | while a box exists, the last report is the hit test of that box; every event keeps this |
| DragMachine.RunKeepsReported | src/index.ts:94-151 | the same holds after any sequence of events |
| DragMachine.ReleaseRepeatsLastReport | src/index.ts:94-103 | a release during a drag reports once more exactly what the last callback reported, computed before the box goes, then removes the box and the move subscription |
| DragMachine.SecondPressOrphansFirstBox | src/index.ts:105-126 | a second left press during a drag appends a second box with a new identity and resets the anchor, and the first box remains a child even after the release |
| DragMachine.SilencedEngineIgnoresAll | src/index.ts:89-157 | with nothing subscribed, no sequence of events changes anything |
| DragMachine.TeardownWhenIdleSilencesEngine | src/index.ts:154-157 | after destroy while idle, no later press, move or release creates a box or invokes the callback |
| DragMachine.TeardownMidDragLeavesBox | src/index.ts:154-157 | after destroy during a drag the box is never removed, and every later move still invokes the callback exactly once |
| DragMachine.DragAcrossTwoElements | src/index.ts:105-151 | in a 500 by 500 container with items A and B, a press at (5, 5) and a move to (35, 35) report [A] of [A, B], a move to (250, 250) reports [A, B], and the release reports [A, B] and restores the children |
| Selector.MergeOptions | src/index.ts:34-38 | a key the caller gives wins; a missing key takes its default: defaultCallback and deep = false |
| Selector.Dragger.constructor | src/index.ts:28-41 | the engine starts with no box, anchor (0, 0), no report, only mousedown subscribed, options merged with the defaults |
| Selector.Dragger.GetCurrentXY | src/index.ts:44-67 | the returned point is the pointer clamped to the container box as measured at call time |
| Selector.Dragger.Init | src/index.ts:89-91 | subscribes the mousedown handler and changes nothing else |
| Selector.Dragger.OnStop | src/index.ts:94-103 | with a box, one report computed with the box still attached, then the box removed and draggableDom null; without, no report and no child change; in both cases mousemove unsubscribed |
| Selector.Dragger.OnMousedown | src/index.ts:105-126 | a non-left press changes nothing; a left press appends a new box at the press point of size PressSize, sets the anchor to the press point, reports once, and subscribes move and up |
| Selector.Dragger.OnDrag | src/index.ts:129-151 | the box is set to the rectangle spanned by the anchor and the clamped pointer, in draggableDom and in the container, and reported once; the anchor and subscriptions stay |
| Selector.Dragger.Destroy | src/index.ts:154-157 | unsubscribes mousedown and mouseup and nothing else (mousemove stays) |

## Left out

- Real DOM I/O: `addEventListener`/`removeEventListener` are the three subscription flags,
  `appendChild`/`removeChild` are updates of the children sequence, `createElement` is a fresh
  identity, and `getBoundingClientRect` of an ordinary element is the box stored in its record.
- The selection box's bounding box is taken to be its style geometry (left, top, left + width,
  top + height); `index.css` is not part of this model, so the class name is an opaque constant.
- The style strings (`${x}px`, the box-shadow CSS text): positions are numbers and the shadow is
  `Glow` or `NoShadow`.
- JavaScript number arithmetic (floating point): coordinates are exact reals.
- Browser event dispatch: each handler is one atomic call; a press is delivered whenever the
  mousedown handler is subscribed, whatever element under the container it hits.
- The callback's own side effects inside the engine: every invocation is recorded with its
  arguments in `calls`; `defaultCallback` is modelled on its own in `Highlight`, and a custom
  callback that mutates the element tree during a drag is not modelled.
- Aliasing: the box element is one object in the source; here its record sits both in
  `draggableDom` and among the children, and `Valid` keeps the two equal.
- Construction with a null container: `parentDom` has a non-null type, so the failure of the
  source's `init` on null is not modelled.
- An options object whose key is present with the value `undefined`: the model treats it as a
  missing key. In the source the spread copies `callback: undefined`, so the first left press
  throws at the callback call (src/index.ts:121), after the box was appended (line 110) and
  before the move and up listeners are added (lines 123-124), which leaves that box orphaned.
  `deep: undefined` does behave as `false`.
- Changes between events made by anything other than the handlers (a scroll, a layout change of
  the container or of an element, the host adding or removing children) are not modelled: `Run`
  has no step for them and `bounds` is fixed. The source measures offsets and bounding boxes
  afresh on every call (src/index.ts:49-52, 83) so that such changes are seen.
- DragMachine.DeliverKeepsReported: holds only in a world frozen between events; after a layout
  or tree change the last report need not be the hit test of the current box.
- DragMachine.RunKeepsReported: likewise, only for runs with no layout or tree change between
  events.
- DragMachine.ReleaseRepeatsLastReport: the release repeats the last report only when nothing
  moved or changed in the tree since the last callback; otherwise the source reports the new
  hit test.
- `webpack.config.js`: build configuration, no runtime logic.
