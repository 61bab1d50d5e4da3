/**
 * The area-selection feature (src/features/area_selection.rs): a `selecting`
 * flag and an optional selected area, updated by the pointer-motion and
 * button-release handlers and read by the draw handler.
 *
 * `Step` and `Run` give the handlers' effect on values, so that event
 * sequences can be stated as lemmas; the class `AreaSelectionFeature` holds
 * the same state in fields and its methods are proved to follow `Step`.
 */
module AreaSelection {
  import opened Wrappers
  import opened Geometry

  /** The feature's state: the `selecting` flag and `selected_area`. */
  datatype Selection = Selection(selecting: bool, selectedArea: Option<Area>)

  /** `AreaSelectionFeature::default()`: not selecting, nothing selected. */
  const Initial: Selection := Selection(false, None)

  /** The events the feature's handlers receive. */
  datatype Event = Motion(position: Position) | Release

  /**
   * What a run of events leaves behind: the final state, the areas handed to
   * the completion handler in order, and the number of redraws requested.
   */
  datatype Trace = Trace(final: Selection, dispatched: seq<Area>, redraws: nat)

  /**
   * The corner a motion at `p` keeps fixed: the stored start while a drag is
   * in progress, otherwise `p` itself.
   */
  function Anchor(s: Selection, p: Position): Position {
    if !s.selecting || s.selectedArea.None? then p else s.selectedArea.value.start
  }

  /** The effect of one event on the state. */
  function Step(s: Selection, e: Event): (t: Trace)
    ensures t.redraws == 1
    ensures e.Motion? ==>
      t.final.selecting && t.dispatched == [] &&
      t.final.selectedArea.Some? && t.final.selectedArea.value.end == e.position
    ensures e.Motion? && s.selecting && s.selectedArea.Some? ==>
      t.final.selectedArea.value.start == s.selectedArea.value.start
    ensures e.Motion? && (!s.selecting || s.selectedArea.None?) ==>
      t.final.selectedArea == Some(Area(e.position, e.position))
    ensures e.Release? ==> !t.final.selecting && t.final.selectedArea == s.selectedArea
    ensures e.Release? ==> (t.dispatched != [] <==> s.selectedArea.Some?)
    ensures e.Release? && s.selectedArea.Some? ==> t.dispatched == [s.selectedArea.value]
  {
    match e
    case Motion(p) =>
      Trace(Selection(true, Some(Area(Anchor(s, p), p))), [], 1)
    case Release =>
      Trace(s.(selecting := false),
            if s.selectedArea.Some? then [s.selectedArea.value] else [],
            1)
  }

  /** The effect of a sequence of events, handled one after the other. */
  function Run(s: Selection, events: seq<Event>): Trace
    decreases |events|
  {
    if events == [] then Trace(s, [], 0)
    else
      var first := Step(s, events[0]);
      var rest := Run(first.final, events[1..]);
      Trace(rest.final, first.dispatched + rest.dispatched, first.redraws + rest.redraws)
  }

  /** One motion event per position, in order. */
  function Motions(ps: seq<Position>): (es: seq<Event>)
    ensures |es| == |ps|
    ensures forall i :: 0 <= i < |ps| ==> es[i] == Motion(ps[i])
  {
    if ps == [] then [] else [Motion(ps[0])] + Motions(ps[1..])
  }

  function CountReleases(events: seq<Event>): nat {
    if events == [] then 0
    else (if events[0].Release? then 1 else 0) + CountReleases(events[1..])
  }

  /** Running two event sequences one after the other is running their concatenation. */
  lemma {:induction false} RunConcat(s: Selection, a: seq<Event>, b: seq<Event>)
    decreases |a|
    ensures Run(s, a + b) ==
      Trace(Run(Run(s, a).final, b).final,
            Run(s, a).dispatched + Run(Run(s, a).final, b).dispatched,
            Run(s, a).redraws + Run(Run(s, a).final, b).redraws)
  {
    if a != [] {
      assert (a + b)[0] == a[0];
      assert (a + b)[1..] == a[1..] + b;
      RunConcat(Step(s, a[0]).final, a[1..], b);
    } else {
      assert a + b == b;
    }
  }

  /** Every event, motion or release, requests exactly one redraw. */
  lemma {:induction false} OneRedrawPerEvent(s: Selection, events: seq<Event>)
    ensures Run(s, events).redraws == |events|
    decreases |events|
  {
    if events != [] {
      OneRedrawPerEvent(Step(s, events[0]).final, events[1..]);
    }
  }

  /**
   * A run of motions dispatches nothing, ends selecting, keeps the anchor the
   * first motion chose and puts the moving corner at the last position.
   */
  lemma {:induction false} MotionsKeepAnchor(s: Selection, ps: seq<Position>)
    requires ps != []
    ensures Run(s, Motions(ps)) ==
      Trace(Selection(true, Some(Area(Anchor(s, ps[0]), ps[|ps| - 1]))), [], |ps|)
    decreases |ps|
  {
    var es := Motions(ps);
    var next := Step(s, es[0]).final;
    assert es[1..] == Motions(ps[1..]);
    if |ps| > 1 {
      MotionsKeepAnchor(next, ps[1..]);
      assert Anchor(next, ps[1]) == Anchor(s, ps[0]);
    }
  }

  /**
   * A drag that starts while not selecting (in particular from the initial
   * state, or after a release) and ends with a release dispatches exactly one
   * area, from the first pointer position to the last.
   */
  lemma DragThenRelease(s: Selection, ps: seq<Position>)
    requires !s.selecting || s.selectedArea.None?
    requires ps != []
    ensures Run(s, Motions(ps) + [Release]) ==
      Trace(Selection(false, Some(Area(ps[0], ps[|ps| - 1]))),
            [Area(ps[0], ps[|ps| - 1])],
            |ps| + 1)
  {
    RunConcat(s, Motions(ps), [Release]);
    MotionsKeepAnchor(s, ps);
  }

  /** Motion at a, b, c and a release complete with the area from a to c. */
  lemma ThreeMotionsThenRelease(a: Position, b: Position, c: Position)
    ensures Run(Initial, [Motion(a), Motion(b), Motion(c), Release]).dispatched == [Area(a, c)]
  {
    assert Motions([a, b, c]) + [Release] == [Motion(a), Motion(b), Motion(c), Release];
    DragThenRelease(Initial, [a, b, c]);
  }

  /** Releases with no motion before them dispatch nothing. */
  lemma {:induction false} ReleasesAloneDispatchNothing(s: Selection, events: seq<Event>)
    requires s.selectedArea.None?
    requires forall i :: 0 <= i < |events| ==> events[i].Release?
    ensures Run(s, events).dispatched == []
    ensures Run(s, events).final.selectedArea.None?
    decreases |events|
  {
    if events != [] {
      ReleasesAloneDispatchNothing(Step(s, events[0]).final, events[1..]);
    }
  }

  /**
   * Once an area is stored it is never cleared, so every later release
   * dispatches one area.
   */
  lemma {:induction false} EveryReleaseDispatchesOnceSelected(s: Selection, events: seq<Event>)
    requires s.selectedArea.Some?
    ensures Run(s, events).final.selectedArea.Some?
    ensures |Run(s, events).dispatched| == CountReleases(events)
    decreases |events|
  {
    if events != [] {
      EveryReleaseDispatchesOnceSelected(Step(s, events[0]).final, events[1..]);
    }
  }

  /**
   * A single motion followed by a release (a click) dispatches the empty
   * area whose corners coincide.
   */
  lemma ClickDispatchesEmptyArea(p: Position)
    ensures Run(Initial, [Motion(p), Release]).dispatched == [Area(p, p)]
    ensures Area(p, p).Width() == 0.0 && Area(p, p).Height() == 0.0
  {
    assert Motions([p]) + [Release] == [Motion(p), Release];
    DragThenRelease(Initial, [p]);
  }

  /** `AreaSelectionFeature`, with its handlers as methods. */
  class AreaSelectionFeature {
    var selecting: bool
    var selectedArea: Option<Area>
    /** Redraws requested so far (`queue_draw`). */
    ghost var redraws: nat

    function State(): Selection
      reads this
    {
      Selection(selecting, selectedArea)
    }

    /** `AreaSelectionFeature::default()`. */
    constructor ()
      ensures State() == Initial && redraws == 0
    {
      selecting := false;
      selectedArea := None;
      redraws := 0;
    }

    /** The motion handler (`record_area_selection`). */
    method OnMotion(p: Position)
      modifies this
      ensures State() == Step(old(State()), Motion(p)).final
      ensures redraws == old(redraws) + 1
    {
      var start := if !selecting || selectedArea.None? then p else selectedArea.value.start;
      selectedArea := Some(Area(start, p));
      selecting := true;
      redraws := redraws + 1;
    }

    /**
     * The release handler (`stop_recording_area_selection`): `completed` is
     * the area it hands to the completion event, if any.
     */
    method OnRelease() returns (completed: Option<Area>)
      modifies this
      ensures State() == Step(old(State()), Release).final
      ensures completed == old(selectedArea)
      ensures redraws == old(redraws) + 1
    {
      completed := selectedArea;
      selecting := false;
      redraws := redraws + 1;
    }

    /**
     * The outline the draw handler strokes: nothing while no area is stored,
     * otherwise the stored area's top-left corner and size.
     */
    function SelectedRectangle(): (r: Option<Rect>)
      reads this
      ensures r.None? <==> selectedArea.None?
      ensures r.Some? ==> r.value.width >= 0.0 && r.value.height >= 0.0
      ensures r.Some? ==>
        {r.value.x, r.value.x + r.value.width} == {selectedArea.value.start.x, selectedArea.value.end.x} &&
        {r.value.y, r.value.y + r.value.height} == {selectedArea.value.start.y, selectedArea.value.end.y}
    {
      if selectedArea.None? then None else Some(selectedArea.value.Bounds())
    }
  }

  /**
   * The feature driven through motions at a, b, c and a release, from its
   * default state: it completes once, with the area from a to c.
   */
  method DragScenario(a: Position, b: Position, c: Position) returns (completed: Option<Area>)
    ensures completed == Some(Area(a, c))
  {
    var feature := new AreaSelectionFeature();
    feature.OnMotion(a);
    feature.OnMotion(b);
    feature.OnMotion(c);
    completed := feature.OnRelease();
  }
}
