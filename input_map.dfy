/**
 * The input map: button axes driven by button events (a positive and an
 * optional negative event each), mouse axes driven by the mouse state, and
 * the events received from the window since the last update.
 */
module InputMap {
  import opened Outcomes
  import opened Axes

  /** A button event (a key or mouse button and its action), compared by identity. */
  datatype ButtonEvent = ButtonEvent(id: nat)

  /** `MouseBinding`. */
  datatype MouseBinding = CursorX | CursorY | ScrollX | ScrollY

  /** `MouseState`: cursor position and scroll offsets. */
  datatype MouseState = MouseState(cursorX: real, cursorY: real, scrollX: real, scrollY: real)

  /** `ButtonAxisData`. */
  datatype ButtonAxisData = ButtonAxisData(value: real, positive: ButtonEvent, negative: Option<ButtonEvent>)

  /** `MouseAxisData`. */
  datatype MouseAxisData = MouseAxisData(value: real, multiplier: real, binding: MouseBinding)

  /** The axes listed under each event. */
  type EventAxes = map<ButtonEvent, seq<nat>>

  /** The axis is bound to the event, positively or negatively. */
  predicate Binds(d: ButtonAxisData, e: ButtonEvent) {
    d.positive == e || d.negative == Some(e)
  }

  predicate ListedUnder(eventAxes: EventAxes, e: ButtonEvent, a: nat) {
    e in eventAxes && a in eventAxes[e]
  }

  predicate NoDuplicates(s: seq<nat>) {
    forall i, j :: 0 <= i < j < |s| ==> s[i] != s[j]
  }

  /** Every listed axis exists. */
  predicate ListedExist(data: map<nat, ButtonAxisData>, eventAxes: EventAxes) {
    forall e, i :: e in eventAxes && 0 <= i < |eventAxes[e]| ==> eventAxes[e][i] in data
  }

  /** Every listed axis exists and is bound to the event it is listed under. */
  predicate ListedBound(data: map<nat, ButtonAxisData>, eventAxes: EventAxes) {
    forall e, i :: e in eventAxes && 0 <= i < |eventAxes[e]| ==> eventAxes[e][i] in data && Binds(data[eventAxes[e][i]], e)
  }

  /** No list holds an axis twice. */
  predicate ListsDistinct(eventAxes: EventAxes) {
    forall e :: e in eventAxes ==> NoDuplicates(eventAxes[e])
  }

  /** Every axis is listed under its positive event and under its negative one. */
  predicate AllListed(data: map<nat, ButtonAxisData>, eventAxes: EventAxes) {
    && (forall a :: a in data ==> ListedUnder(eventAxes, data[a].positive, a))
    && (forall a :: a in data && data[a].negative.Some? ==> ListedUnder(eventAxes, data[a].negative.value, a))
  }

  /** No axis has the same event as positive and negative. */
  predicate EventsDiffer(data: map<nat, ButtonAxisData>) {
    forall a :: a in data ==> data[a].negative != Some(data[a].positive)
  }

  /**
   * The two maps agree: an axis is listed under an event exactly when it is
   * bound to that event, at most once per event, and its two events differ.
   */
  predicate Consistent(data: map<nat, ButtonAxisData>, eventAxes: EventAxes) {
    ListedBound(data, eventAxes) && ListsDistinct(eventAxes) && AllListed(data, eventAxes) && EventsDiffer(data)
  }

  lemma BoundListsExist(data: map<nat, ButtonAxisData>, eventAxes: EventAxes)
    requires ListedBound(data, eventAxes)
    ensures ListedExist(data, eventAxes)
  {
  }

  /** A member of a list is an existing axis bound to the list's event. */
  lemma MemberIsBound(data: map<nat, ButtonAxisData>, eventAxes: EventAxes, e: ButtonEvent, x: nat)
    requires ListedBound(data, eventAxes) && e in eventAxes && x in eventAxes[e]
    ensures x in data && Binds(data[x], e)
  {
    var i :| 0 <= i < |eventAxes[e]| && eventAxes[e][i] == x;
  }

  /** `myButtonEventAxes[e].emplace_back(a)`, creating the list when missing. */
  function AddListing(eventAxes: EventAxes, e: ButtonEvent, a: nat): (r: EventAxes)
    ensures r.Keys == eventAxes.Keys + {e}
    ensures r[e] == (if e in eventAxes then eventAxes[e] else []) + [a]
    ensures forall f :: f in eventAxes && f != e ==> r[f] == eventAxes[f]
  {
    eventAxes[e := (if e in eventAxes then eventAxes[e] else []) + [a]]
  }

  /** `std::ranges::remove` followed by `erase`: every occurrence of `a` goes, the rest keep their order. */
  function RemoveAll(s: seq<nat>, a: nat): (r: seq<nat>)
    ensures forall x :: x in r <==> x in s && x != a
    ensures NoDuplicates(s) ==> NoDuplicates(r)
    ensures |r| <= |s|
  {
    if |s| == 0 then []
    else if s[0] == a then RemoveAll(s[1..], a)
    else
      var rest := RemoveAll(s[1..], a);
      assert NoDuplicates(s) ==> NoDuplicates([s[0]] + rest) by {
        if NoDuplicates(s) {
          assert NoDuplicates(s[1..]) by {
            forall i, j | 0 <= i < j < |s[1..]| ensures s[1..][i] != s[1..][j] {
              assert s[1..][i] == s[i + 1] && s[1..][j] == s[j + 1];
            }
          }
          forall k | 0 <= k < |s[1..]| ensures s[1..][k] != s[0] {
            assert s[1..][k] == s[k + 1];
          }
          var r := [s[0]] + rest;
          forall i, j | 0 <= i < j < |r| ensures r[i] != r[j] {
            if i > 0 {
              assert r[i] == rest[i - 1] && r[j] == rest[j - 1];
            } else {
              assert r[j] == rest[j - 1] && rest[j - 1] in rest;
            }
          }
        }
      }
      [s[0]] + rest
  }

  /** `apply_events` for one axis and one event: a positive event raises the value by one, capped at 1; a negative one lowers it by one, floored at −1. */
  function Step(d: ButtonAxisData, e: ButtonEvent): (r: ButtonAxisData)
    ensures r.positive == d.positive && r.negative == d.negative
    ensures !Binds(d, e) ==> r == d
    ensures -1.0 <= d.value <= 1.0 ==> -1.0 <= r.value <= 1.0
  {
    var raised := if d.positive == e then (if d.value + 1.0 < 1.0 then d.value + 1.0 else 1.0) else d.value;
    var lowered := if d.negative == Some(e) then (if raised - 1.0 > -1.0 then raised - 1.0 else -1.0) else raised;
    d.(value := lowered)
  }

  /** A positive event moves an in-range value up by one step, a negative one down by one step. */
  lemma StepMovesOneNotch(d: ButtonAxisData, e: ButtonEvent)
    requires -1.0 <= d.value <= 1.0 && d.negative != Some(d.positive)
    ensures d.positive == e ==> Step(d, e).value == (if d.value <= 0.0 then d.value + 1.0 else 1.0)
    ensures d.negative == Some(e) ==> Step(d, e).value == (if d.value >= 0.0 then d.value - 1.0 else -1.0)
  {
  }

  /** Every value lies in [−1, 1]. */
  predicate InRange(data: map<nat, ButtonAxisData>) {
    forall a :: a in data ==> -1.0 <= data[a].value <= 1.0
  }

  /** The inner loop of `apply_events`: `Step` on each axis listed under the event, in list order. */
  function ApplyToAxes(data: map<nat, ButtonAxisData>, axes: seq<nat>, e: ButtonEvent): (r: map<nat, ButtonAxisData>)
    requires forall i :: 0 <= i < |axes| ==> axes[i] in data
    ensures r.Keys == data.Keys
    ensures forall a :: a in data ==> r[a].positive == data[a].positive && r[a].negative == data[a].negative
  {
    if |axes| == 0 then data
    else ApplyToAxes(data[axes[0] := Step(data[axes[0]], e)], axes[1..], e)
  }

  /** `apply_events` for one event: the axes listed under it, or nothing when none are. */
  function ApplyEvent(data: map<nat, ButtonAxisData>, eventAxes: EventAxes, e: ButtonEvent): (r: map<nat, ButtonAxisData>)
    requires ListedExist(data, eventAxes)
    ensures r.Keys == data.Keys
    ensures forall a :: a in data ==> r[a].positive == data[a].positive && r[a].negative == data[a].negative
  {
    if e in eventAxes then ApplyToAxes(data, eventAxes[e], e) else data
  }

  /** The button part of `apply_events`: the pending events in order. */
  function ApplyAll(data: map<nat, ButtonAxisData>, eventAxes: EventAxes, events: seq<ButtonEvent>): (r: map<nat, ButtonAxisData>)
    requires ListedExist(data, eventAxes)
    ensures r.Keys == data.Keys
    ensures forall a :: a in data ==> r[a].positive == data[a].positive && r[a].negative == data[a].negative
  {
    if |events| == 0 then data
    else ApplyAll(ApplyEvent(data, eventAxes, events[0]), eventAxes, events[1..])
  }

  /** An axis listed once under the event is stepped once; an axis not listed is untouched. */
  lemma {:induction false} ApplyToAxesAt(data: map<nat, ButtonAxisData>, axes: seq<nat>, e: ButtonEvent, a: nat)
    requires forall i :: 0 <= i < |axes| ==> axes[i] in data
    requires NoDuplicates(axes) && a in data
    ensures ApplyToAxes(data, axes, e)[a] == if a in axes then Step(data[a], e) else data[a]
    decreases |axes|
  {
    if |axes| > 0 {
      var next := data[axes[0] := Step(data[axes[0]], e)];
      assert forall i :: 0 <= i < |axes[1..]| ==> axes[1..][i] == axes[i + 1];
      ApplyToAxesAt(next, axes[1..], e, a);
      if a == axes[0] {
        assert a !in axes[1..];
      } else {
        assert a in axes <==> a in axes[1..];
      }
    }
  }

  /** When the maps are consistent, one event steps every axis by `Step`. */
  lemma ApplyEventSteps(data: map<nat, ButtonAxisData>, eventAxes: EventAxes, e: ButtonEvent, a: nat)
    requires Consistent(data, eventAxes) && a in data
    ensures ApplyEvent(data, eventAxes, e)[a] == Step(data[a], e)
  {
    if e in eventAxes {
      ApplyToAxesAt(data, eventAxes[e], e, a);
      if a !in eventAxes[e] {
        assert !Binds(data[a], e);
      }
    } else {
      assert !Binds(data[a], e);
    }
  }

  /** Consistency depends on the values not at all. */
  lemma ConsistentIgnoresValues(data: map<nat, ButtonAxisData>, data': map<nat, ButtonAxisData>, eventAxes: EventAxes)
    requires Consistent(data, eventAxes)
    requires data'.Keys == data.Keys
    requires forall a :: a in data ==> data'[a].positive == data[a].positive && data'[a].negative == data[a].negative
    ensures Consistent(data', eventAxes)
  {
  }

  /** The pending events in order, each stepping every axis bound to it. */
  function StepAll(d: ButtonAxisData, events: seq<ButtonEvent>): ButtonAxisData
    decreases |events|
  {
    if |events| == 0 then d else StepAll(Step(d, events[0]), events[1..])
  }

  /**
   * Under consistent maps, applying the events steps each axis on its own:
   * its new value depends only on its old value and the events.
   */
  lemma {:induction false} ApplyAllSteps(data: map<nat, ButtonAxisData>, eventAxes: EventAxes, events: seq<ButtonEvent>, a: nat)
    requires Consistent(data, eventAxes) && a in data
    ensures ApplyAll(data, eventAxes, events)[a] == StepAll(data[a], events)
    decreases |events|
  {
    if |events| > 0 {
      var next := ApplyEvent(data, eventAxes, events[0]);
      ApplyEventSteps(data, eventAxes, events[0], a);
      ConsistentIgnoresValues(data, next, eventAxes);
      ApplyAllSteps(next, eventAxes, events[1..], a);
    }
  }

  /** Stepping keeps a value in [−1, 1]; an axis bound to none of the events keeps its value. */
  lemma {:induction false} StepAllFacts(d: ButtonAxisData, events: seq<ButtonEvent>)
    ensures -1.0 <= d.value <= 1.0 ==> -1.0 <= StepAll(d, events).value <= 1.0
    ensures (forall i :: 0 <= i < |events| ==> !Binds(d, events[i])) ==> StepAll(d, events) == d
    decreases |events|
  {
    if |events| > 0 {
      StepAllFacts(Step(d, events[0]), events[1..]);
      if forall i :: 0 <= i < |events| ==> !Binds(d, events[i]) {
        assert !Binds(d, events[0]);
        assert forall i :: 0 <= i < |events[1..]| ==> events[1..][i] == events[i + 1];
      }
    }
  }

  /** Applying the events keeps every button value in [−1, 1]. */
  lemma ApplyAllKeepsRange(data: map<nat, ButtonAxisData>, eventAxes: EventAxes, events: seq<ButtonEvent>)
    requires Consistent(data, eventAxes) && InRange(data)
    ensures InRange(ApplyAll(data, eventAxes, events))
  {
    forall a | a in data ensures -1.0 <= ApplyAll(data, eventAxes, events)[a].value <= 1.0 {
      ApplyAllSteps(data, eventAxes, events, a);
      StepAllFacts(data[a], events);
    }
  }

  /** An axis bound to none of the pending events keeps its value. */
  lemma ApplyAllLeavesUnboundAxes(data: map<nat, ButtonAxisData>, eventAxes: EventAxes, events: seq<ButtonEvent>, a: nat)
    requires Consistent(data, eventAxes) && a in data
    requires forall i :: 0 <= i < |events| ==> !Binds(data[a], events[i])
    ensures ApplyAll(data, eventAxes, events)[a] == data[a]
  {
    ApplyAllSteps(data, eventAxes, events, a);
    StepAllFacts(data[a], events);
  }

  /** The mouse value for a binding: the coordinate it follows, times the multiplier. */
  function MouseValue(state: MouseState, d: MouseAxisData): real {
    match d.binding
    case CursorX => state.cursorX * d.multiplier
    case CursorY => state.cursorY * d.multiplier
    case ScrollX => state.scrollX * d.multiplier
    case ScrollY => state.scrollY * d.multiplier
  }

  /** `Map`. Axes are keyed by handle: button and mouse handles come from separate counters. */
  class Map {
    var buttonAxes: map<nat, ButtonAxisData>
    var eventAxes: EventAxes
    var mouseAxes: map<nat, MouseAxisData>
    var buttonVersion: nat
    var mouseVersion: nat
    var events: seq<ButtonEvent>
    var mouseState: MouseState

    /** The two button maps agree, and every handle in use is below its counter. */
    ghost predicate Valid()
      reads this
    {
      && Consistent(buttonAxes, eventAxes)
      && (forall a :: a in buttonAxes ==> a < buttonVersion)
      && (forall a :: a in mouseAxes ==> a < mouseVersion)
    }

    constructor ()
      ensures buttonAxes == map[] && eventAxes == map[] && mouseAxes == map[]
      ensures buttonVersion == 0 && mouseVersion == 0 && events == []
      ensures mouseState == MouseState(0.0, 0.0, 0.0, 0.0)
      ensures Valid()
    {
      buttonAxes := map[];
      eventAxes := map[];
      mouseAxes := map[];
      buttonVersion := 0;
      mouseVersion := 0;
      events := [];
      mouseState := MouseState(0.0, 0.0, 0.0, 0.0);
    }

    /**
     * `make_axis`: asserts the two events differ; the next button handle,
     * value 0, listed under its positive event and under its negative one.
     */
    method MakeAxis(positive: ButtonEvent, negative: Option<ButtonEvent>) returns (r: Result<Axis>)
      requires Valid()
      modifies this`buttonAxes, this`eventAxes, this`buttonVersion
      ensures Valid()
      ensures r.Err? <==> negative == Some(positive)
      ensures r.Err? ==> r.error == DebugAssertion && buttonAxes == old(buttonAxes) && eventAxes == old(eventAxes) && buttonVersion == old(buttonVersion)
      ensures r.Ok? ==>
        && r.value == Axis(Button, old(buttonVersion)) && r.value.handle !in old(buttonAxes)
        && buttonVersion == old(buttonVersion) + 1
        && buttonAxes == old(buttonAxes)[r.value.handle := ButtonAxisData(0.0, positive, negative)]
        && eventAxes == (var listed := AddListing(old(eventAxes), positive, r.value.handle);
                         if negative.Some? then AddListing(listed, negative.value, r.value.handle) else listed)
    {
      if negative == Some(positive) {
        return Err(DebugAssertion);
      }
      var handle := buttonVersion;
      buttonVersion := buttonVersion + 1;
      ghost var oldEventAxes := eventAxes;
      buttonAxes := buttonAxes[handle := ButtonAxisData(0.0, positive, negative)];
      eventAxes := AddListing(eventAxes, positive, handle);
      if negative.Some? {
        eventAxes := AddListing(eventAxes, negative.value, handle);
      }
      NewAxisKeepsConsistency(old(buttonAxes), oldEventAxes, handle, positive, negative);
      return Ok(Axis(Button, handle));
    }

    /** `make`: the next mouse handle, value 0, with the binding and multiplier. */
    method MakeMouseAxis(binding: MouseBinding, multiplier: real) returns (axis: Axis)
      requires Valid()
      modifies this`mouseAxes, this`mouseVersion
      ensures Valid()
      ensures axis == Axis(Mouse, old(mouseVersion)) && axis.handle !in old(mouseAxes)
      ensures mouseVersion == old(mouseVersion) + 1
      ensures mouseAxes == old(mouseAxes)[axis.handle := MouseAxisData(0.0, multiplier, binding)]
    {
      axis := Axis(Mouse, mouseVersion);
      mouseVersion := mouseVersion + 1;
      mouseAxes := mouseAxes[axis.handle := MouseAxisData(0.0, multiplier, binding)];
    }

    /** `set_value` on a button axis: `.at`, so an unknown axis is an error. */
    method SetButtonValue(axis: Axis, value: real) returns (r: Result<()>)
      requires axis.kind == Button
      modifies this`buttonAxes
      ensures r.Ok? <==> axis.handle in old(buttonAxes)
      ensures r.Err? ==> r.error == OutOfRange && buttonAxes == old(buttonAxes)
      ensures r.Ok? ==> buttonAxes == old(buttonAxes)[axis.handle := old(buttonAxes)[axis.handle].(value := value)]
    {
      if axis.handle !in buttonAxes {
        return Err(OutOfRange);
      }
      buttonAxes := buttonAxes[axis.handle := buttonAxes[axis.handle].(value := value)];
      return Ok(());
    }

    /** `set_value` on a mouse axis. */
    method SetMouseValue(axis: Axis, value: real) returns (r: Result<()>)
      requires axis.kind == Mouse
      modifies this`mouseAxes
      ensures r.Ok? <==> axis.handle in old(mouseAxes)
      ensures r.Err? ==> r.error == OutOfRange && mouseAxes == old(mouseAxes)
      ensures r.Ok? ==> mouseAxes == old(mouseAxes)[axis.handle := old(mouseAxes)[axis.handle].(value := value)]
    {
      if axis.handle !in mouseAxes {
        return Err(OutOfRange);
      }
      mouseAxes := mouseAxes[axis.handle := mouseAxes[axis.handle].(value := value)];
      return Ok(());
    }

    /** `get_value` on a button axis. */
    function GetButtonValue(axis: Axis): (r: Result<real>)
      requires axis.kind == Button
      reads this
      ensures r.Ok? <==> axis.handle in buttonAxes
      ensures r.Ok? ==> r.value == buttonAxes[axis.handle].value
      ensures r.Err? ==> r.error == OutOfRange
    {
      if axis.handle in buttonAxes then Ok(buttonAxes[axis.handle].value) else Err(OutOfRange)
    }

    /** `get_value` on a mouse axis. */
    function GetMouseValue(axis: Axis): (r: Result<real>)
      requires axis.kind == Mouse
      reads this
      ensures r.Ok? <==> axis.handle in mouseAxes
      ensures r.Ok? ==> r.value == mouseAxes[axis.handle].value
      ensures r.Err? ==> r.error == OutOfRange
    {
      if axis.handle in mouseAxes then Ok(mouseAxes[axis.handle].value) else Err(OutOfRange)
    }

    /**
     * `erase_axis` on a button axis: removed from the lists of its events and
     * from the data; an unknown axis changes nothing.
     */
    method EraseButtonAxis(axis: Axis)
      requires axis.kind == Button && Valid()
      modifies this`buttonAxes, this`eventAxes
      ensures Valid()
      ensures axis.handle !in old(buttonAxes) ==> buttonAxes == old(buttonAxes) && eventAxes == old(eventAxes)
      ensures axis.handle in old(buttonAxes) ==>
        && buttonAxes == old(buttonAxes) - {axis.handle}
        && eventAxes == Unlisted(old(eventAxes), old(buttonAxes)[axis.handle], axis.handle)
      ensures forall e :: e in eventAxes ==> axis.handle !in eventAxes[e]
    {
      if axis.handle !in buttonAxes {
        UnknownAxisUnlisted(buttonAxes, eventAxes, axis.handle);
        return;
      }
      var d := buttonAxes[axis.handle];
      ghost var oldEventAxes := eventAxes;
      eventAxes := eventAxes[d.positive := RemoveAll(eventAxes[d.positive], axis.handle)];
      if d.negative.Some? {
        eventAxes := eventAxes[d.negative.value := RemoveAll(eventAxes[d.negative.value], axis.handle)];
      }
      EraseKeepsConsistency(buttonAxes, oldEventAxes, axis.handle);
      buttonAxes := buttonAxes - {axis.handle};
    }

    /** `erase_axis` on a mouse axis. */
    method EraseMouseAxis(axis: Axis)
      requires axis.kind == Mouse && Valid()
      modifies this`mouseAxes
      ensures Valid()
      ensures mouseAxes == old(mouseAxes) - {axis.handle}
    {
      mouseAxes := mouseAxes - {axis.handle};
    }

    /**
     * `extract_events`: the window's event buffer and the pending list trade
     * places, and the window's mouse state is taken. The window is not part
     * of this model: its buffer comes in and goes out as a value.
     */
    method ExtractEvents(windowEvents: seq<ButtonEvent>, windowMouse: MouseState) returns (windowEventsAfter: seq<ButtonEvent>)
      modifies this`events, this`mouseState
      ensures events == windowEvents && windowEventsAfter == old(events)
      ensures mouseState == windowMouse
    {
      windowEventsAfter := events;
      events := windowEvents;
      mouseState := windowMouse;
    }

    /**
     * `apply_events`: steps the button axes listed under each pending event,
     * sets each mouse axis from the mouse state, and empties the pending list.
     */
    method ApplyEvents()
      requires Valid()
      modifies this`buttonAxes, this`mouseAxes, this`events
      ensures Valid()
      ensures buttonAxes == ApplyAll(old(buttonAxes), eventAxes, old(events))
      ensures mouseAxes == map a | a in old(mouseAxes) :: old(mouseAxes)[a].(value := MouseValue(mouseState, old(mouseAxes)[a]))
      ensures events == []
    {
      BoundListsExist(buttonAxes, eventAxes);
      var i := 0;
      while i < |events|
        invariant 0 <= i <= |events|
        invariant events == old(events) && mouseAxes == old(mouseAxes)
        invariant ListedExist(buttonAxes, eventAxes)
        invariant buttonAxes.Keys == old(buttonAxes).Keys
        invariant forall a :: a in buttonAxes ==> buttonAxes[a].positive == old(buttonAxes)[a].positive && buttonAxes[a].negative == old(buttonAxes)[a].negative
        invariant ApplyAll(old(buttonAxes), eventAxes, events) == ApplyAll(buttonAxes, eventAxes, events[i..])
      {
        assert events[i..][1..] == events[i + 1..];
        var e := events[i];
        if e in eventAxes {
          ApplyEventToAxes(e);
        }
        i := i + 1;
      }
      assert events[i..] == [];
      ConsistentIgnoresValues(old(buttonAxes), buttonAxes, eventAxes);
      mouseAxes := map a | a in mouseAxes :: mouseAxes[a].(value := MouseValue(mouseState, mouseAxes[a]));
      events := [];
    }

    /** The loop over the axes listed under one event. */
    method ApplyEventToAxes(e: ButtonEvent)
      requires e in eventAxes && ListedExist(buttonAxes, eventAxes)
      modifies this`buttonAxes
      ensures buttonAxes == ApplyToAxes(old(buttonAxes), eventAxes[e], e)
    {
      var axes := eventAxes[e];
      var j := 0;
      while j < |axes|
        invariant 0 <= j <= |axes|
        invariant buttonAxes.Keys == old(buttonAxes).Keys
        invariant ApplyToAxes(old(buttonAxes), axes, e) == ApplyToAxes(buttonAxes, axes[j..], e)
      {
        assert axes[j..][1..] == axes[j + 1..];
        var a := axes[j];
        buttonAxes := buttonAxes[a := Step(buttonAxes[a], e)];
        j := j + 1;
      }
    }
  }

  /** The event lists once the axis `a` with data `d` is unlisted from its events. */
  function Unlisted(eventAxes: EventAxes, d: ButtonAxisData, a: nat): EventAxes
    requires d.positive in eventAxes && (d.negative.Some? ==> d.negative.value in eventAxes)
  {
    var removed := eventAxes[d.positive := RemoveAll(eventAxes[d.positive], a)];
    if d.negative.Some? then removed[d.negative.value := RemoveAll(removed[d.negative.value], a)] else removed
  }

  /** An axis that does not exist is listed nowhere. */
  lemma UnknownAxisUnlisted(data: map<nat, ButtonAxisData>, eventAxes: EventAxes, a: nat)
    requires ListedExist(data, eventAxes) && a !in data
    ensures forall e :: e in eventAxes ==> a !in eventAxes[e]
  {
    forall e | e in eventAxes ensures a !in eventAxes[e] {
    }
  }

  /** Adding a fresh axis with two different events keeps the maps consistent. */
  lemma NewAxisKeepsConsistency(data: map<nat, ButtonAxisData>, eventAxes: EventAxes, a: nat, positive: ButtonEvent, negative: Option<ButtonEvent>)
    requires Consistent(data, eventAxes) && a !in data && negative != Some(positive)
    ensures
      var data' := data[a := ButtonAxisData(0.0, positive, negative)];
      var listed := AddListing(eventAxes, positive, a);
      var eventAxes' := if negative.Some? then AddListing(listed, negative.value, a) else listed;
      Consistent(data', eventAxes')
  {
    BoundListsExist(data, eventAxes);
    UnknownAxisUnlisted(data, eventAxes, a);
    var data' := data[a := ButtonAxisData(0.0, positive, negative)];
    var listed := AddListing(eventAxes, positive, a);
    assert ListedBound(data', eventAxes);
    AddListingKeeps(data', eventAxes, positive, a);
    forall b | b in data' ensures ListedUnder(listed, data'[b].positive, b) {
      if b != a {
        assert ListedUnder(eventAxes, data[b].positive, b);
      }
    }
    forall b | b in data' && data'[b].negative.Some? && b != a ensures ListedUnder(listed, data'[b].negative.value, b) {
      assert ListedUnder(eventAxes, data[b].negative.value, b);
    }
    if negative.Some? {
      var n := negative.value;
      assert n in listed ==> listed[n] == eventAxes[n];
      AddListingKeeps(data', listed, n, a);
      var listed' := AddListing(listed, n, a);
      forall b | b in data' ensures ListedUnder(listed', data'[b].positive, b) {
        assert ListedUnder(listed, data'[b].positive, b);
      }
      forall b | b in data' && data'[b].negative.Some? ensures ListedUnder(listed', data'[b].negative.value, b) {
        if b != a {
          assert ListedUnder(listed, data'[b].negative.value, b);
        }
      }
    }
  }

  /** Appending an axis that is bound to the event and not yet in its list keeps the lists bound and distinct. */
  lemma AddListingKeeps(data: map<nat, ButtonAxisData>, eventAxes: EventAxes, e: ButtonEvent, a: nat)
    requires ListedBound(data, eventAxes) && ListsDistinct(eventAxes)
    requires a in data && Binds(data[a], e) && (e in eventAxes ==> a !in eventAxes[e])
    ensures ListedBound(data, AddListing(eventAxes, e, a)) && ListsDistinct(AddListing(eventAxes, e, a))
    ensures forall f, b :: ListedUnder(eventAxes, f, b) ==> ListedUnder(AddListing(eventAxes, e, a), f, b)
  {
    var r := AddListing(eventAxes, e, a);
    var prior := if e in eventAxes then eventAxes[e] else [];
    forall i, j | 0 <= i < j < |r[e]| ensures r[e][i] != r[e][j] {
      if j == |prior| {
        assert r[e][i] == prior[i];
      }
    }
    forall f, b | ListedUnder(eventAxes, f, b) ensures ListedUnder(r, f, b) {
      if f == e {
        var k :| 0 <= k < |prior| && prior[k] == b;
        assert r[e][k] == b;
      }
    }
  }

  /** Erasing an axis from its events' lists and from the data keeps the maps consistent and lists it nowhere. */
  lemma EraseKeepsConsistency(data: map<nat, ButtonAxisData>, eventAxes: EventAxes, a: nat)
    requires Consistent(data, eventAxes) && a in data
    ensures Consistent(data - {a}, Unlisted(eventAxes, data[a], a))
    ensures forall e :: e in Unlisted(eventAxes, data[a], a) ==> a !in Unlisted(eventAxes, data[a], a)[e]
  {
    var d := data[a];
    var u := Unlisted(eventAxes, d, a);
    var data' := data - {a};
    assert u.Keys == eventAxes.Keys;
    forall e | e in u
      ensures a !in u[e]
      ensures forall x :: x in u[e] <==> x in eventAxes[e] && x != a
      ensures NoDuplicates(u[e])
    {
      if e != d.positive && !(d.negative == Some(e)) {
        assert u[e] == eventAxes[e];
        if a in eventAxes[e] {
          MemberIsBound(data, eventAxes, e, a);
        }
      }
    }
    forall e, i | e in u && 0 <= i < |u[e]| ensures u[e][i] in data' && Binds(data'[u[e][i]], e) {
      assert u[e][i] in u[e];
      MemberIsBound(data, eventAxes, e, u[e][i]);
    }
    forall b | b in data' ensures ListedUnder(u, data'[b].positive, b) {
      assert ListedUnder(eventAxes, data[b].positive, b);
    }
    forall b | b in data' && data'[b].negative.Some? ensures ListedUnder(u, data'[b].negative.value, b) {
      assert ListedUnder(eventAxes, data[b].negative.value, b);
    }
  }
}
