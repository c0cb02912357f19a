/**
 * The Zune game component: the orientation-aware mapping from Zune buttons to
 * game-pad buttons, button edge detection between two polled pad states, and
 * the open-drawing guard around orientation changes and drawing.
 *
 * A polled game-pad state is the set of pad buttons held down; the input
 * events the component raises are returned as a list.
 */
module ZuneDevice {
  import opened Wrappers

  /** Screen dimensions of the device in pixels. */
  const PixelRows := 320
  const PixelColumns := 240

  datatype Orientation = Portrait | Landscape | LandscapeLefty

  /** The Zune's buttons, in the order of their enum values 0 to 6. */
  datatype ZuneButton = Up | Down | Left | Right | Select | Back | PlayPause

  /** The game-pad buttons the Zune buttons are read from. */
  datatype PadButton = DPadUp | DPadDown | DPadLeft | DPadRight | A | B | BackButton

  /** A polled game-pad state: the buttons held down. */
  type PadState = set<PadButton>

  /** A width and a height. */
  datatype Vector = Vector(x: int, y: int)

  /** The enum value of a Zune button. */
  function Ord(z: ZuneButton): (r: nat)
    ensures r < 7
  {
    match z
    case Up => 0
    case Down => 1
    case Left => 2
    case Right => 3
    case Select => 4
    case Back => 5
    case PlayPause => 6
  }

  /** The cast from an enum value to a Zune button. */
  function ButtonOf(i: int): (z: ZuneButton)
    requires 0 <= i <= 6
    ensures Ord(z) == i
  {
    if i == 0 then Up
    else if i == 1 then Down
    else if i == 2 then Left
    else if i == 3 then Right
    else if i == 4 then Select
    else if i == 5 then Back
    else PlayPause
  }

  predicate IsDirection(z: ZuneButton) {
    z.Up? || z.Down? || z.Left? || z.Right?
  }

  predicate IsDPad(b: PadButton) {
    b.DPadUp? || b.DPadDown? || b.DPadLeft? || b.DPadRight?
  }

  /** The D-pad button named like a direction. */
  function SameName(z: ZuneButton): PadButton
    requires IsDirection(z)
  {
    match z
    case Up => DPadUp
    case Down => DPadDown
    case Left => DPadLeft
    case Right => DPadRight
  }

  /** The D-pad button a quarter turn clockwise from `b`. */
  function Clockwise(b: PadButton): PadButton
    requires IsDPad(b)
  {
    match b
    case DPadUp => DPadRight
    case DPadRight => DPadDown
    case DPadDown => DPadLeft
    case DPadLeft => DPadUp
  }

  /** The D-pad button opposite `b`. */
  function Opposite(b: PadButton): PadButton
    requires IsDPad(b)
  {
    match b
    case DPadUp => DPadDown
    case DPadDown => DPadUp
    case DPadLeft => DPadRight
    case DPadRight => DPadLeft
  }

  /**
   * ButtonFromZuneButton: the pad button a Zune button is read from in an
   * orientation.  The centre, Back and Play/Pause buttons do not turn with
   * the screen; the four directions do.
   */
  function ButtonFor(o: Orientation, z: ZuneButton): (b: PadButton)
    ensures z == Select ==> b == A
    ensures z == Back ==> b == BackButton
    ensures z == PlayPause ==> b == B
    ensures IsDirection(z) <==> IsDPad(b)
    ensures o == Portrait && IsDirection(z) ==> b == SameName(z)
  {
    match z
    case Up =>
      if o == Portrait then DPadUp
      else if o == Landscape then DPadRight
      else DPadLeft
    case Down =>
      if o == Portrait then DPadDown
      else if o == Landscape then DPadLeft
      else DPadRight
    case Left =>
      if o == Portrait then DPadLeft
      else if o == Landscape then DPadUp
      else DPadDown
    case Right =>
      if o == Portrait then DPadRight
      else if o == Landscape then DPadDown
      else DPadUp
    case Select => A
    case Back => BackButton
    case PlayPause => B
  }

  /** In every orientation distinct Zune buttons are read from distinct pad buttons. */
  lemma ButtonForInjective(o: Orientation, z1: ZuneButton, z2: ZuneButton)
    requires ButtonFor(o, z1) == ButtonFor(o, z2)
    ensures z1 == z2
  {
  }

  /** In every orientation each D-pad button is read for some direction. */
  lemma DPadCovered(o: Orientation, d: PadButton)
    requires IsDPad(d)
    ensures exists z :: IsDirection(z) && ButtonFor(o, z) == d
  {
    var z := if ButtonFor(o, Up) == d then Up
      else if ButtonFor(o, Down) == d then Down
      else if ButtonFor(o, Left) == d then Left
      else Right;
    assert IsDirection(z) && ButtonFor(o, z) == d;
  }

  /** Landscape turns every direction a quarter turn clockwise. */
  lemma LandscapeTurns(z: ZuneButton)
    requires IsDirection(z)
    ensures ButtonFor(Landscape, z) == Clockwise(SameName(z))
  {
  }

  /** The two landscape orientations read each direction from opposite D-pad buttons. */
  lemma LeftyMirrorsLandscape(z: ZuneButton)
    requires IsDirection(z)
    ensures ButtonFor(LandscapeLefty, z) == Opposite(ButtonFor(Landscape, z))
  {
  }

  /** The Size property: the screen's width and height as seen in an orientation. */
  function Size(o: Orientation): (r: Vector)
    ensures r.x * r.y == PixelRows * PixelColumns
    ensures o == Portrait <==> r.x < r.y
    ensures r.x == PixelColumns || r.x == PixelRows
    ensures r.y == PixelColumns || r.y == PixelRows
  {
    if o == Portrait then Vector(PixelColumns, PixelRows) else Vector(PixelRows, PixelColumns)
  }

  /** GetAllPressed's fixed query order. */
  const QueryOrder: seq<ZuneButton> := [Select, PlayPause, Back, Up, Down, Left, Right]

  /** The position of a Zune button in the query order. */
  function QueryRank(z: ZuneButton): (r: nat)
    ensures r < 7 && QueryOrder[r] == z
  {
    match z
    case Select => 0
    case PlayPause => 1
    case Back => 2
    case Up => 3
    case Down => 4
    case Left => 5
    case Right => 6
  }

  /** IsPressed: the button is held down in the polled state. */
  predicate Pressed(o: Orientation, now: PadState, z: ZuneButton) {
    ButtonFor(o, z) in now
  }

  /** IsNewPress: the button's pad state differs between the two polls and is down now. */
  predicate NewPress(o: Orientation, now: PadState, before: PadState, z: ZuneButton)
    ensures NewPress(o, now, before, z) <==> Pressed(o, now, z) && !Pressed(o, before, z)
  {
    var b := ButtonFor(o, z);
    var down1 := b in now;
    var down2 := b in before;
    down1 != down2 && down1
  }

  /** The button was down at the previous poll and is up now. */
  predicate Released(o: Orientation, now: PadState, before: PadState, z: ZuneButton) {
    !Pressed(o, now, z) && Pressed(o, before, z)
  }

  /**
   * The held buttons among the first `k` of the query order, in that order:
   * what GetAllPressed has listed after `k` of its queries.
   */
  function PressedAmong(o: Orientation, now: PadState, k: nat): seq<ZuneButton>
    requires k <= 7
  {
    if k == 0 then []
    else
      var z := QueryOrder[k - 1];
      PressedAmong(o, now, k - 1) + (if Pressed(o, now, z) then [z] else [])
  }

  /** A button is listed after `k` queries exactly when it is among the first `k` and held. */
  lemma {:induction false} InPressedAmong(o: Orientation, now: PadState, k: nat, z: ZuneButton)
    requires k <= 7
    ensures z in PressedAmong(o, now, k) <==> QueryRank(z) < k && Pressed(o, now, z)
  {
    if k > 0 {
      InPressedAmong(o, now, k - 1, z);
    }
  }

  /** The listed buttons come in query order, hence each at most once. */
  lemma {:induction false} PressedAmongOrdered(o: Orientation, now: PadState, k: nat)
    requires k <= 7
    ensures var btns := PressedAmong(o, now, k);
      (forall z :: z in btns ==> QueryRank(z) < k) &&
      (forall i, j :: 0 <= i < j < |btns| ==> QueryRank(btns[i]) < QueryRank(btns[j]))
  {
    if k > 0 {
      PressedAmongOrdered(o, now, k - 1);
      var prev := PressedAmong(o, now, k - 1);
      var btns := PressedAmong(o, now, k);
      forall i, j | 0 <= i < j < |btns|
        ensures QueryRank(btns[i]) < QueryRank(btns[j])
      {
        assert btns[i] == prev[i] && btns[i] in prev;
        if j < |prev| {
          assert btns[j] == prev[j];
        } else {
          assert btns[j] == QueryOrder[k - 1];
        }
      }
    }
  }

  datatype EventKind = ButtonDown | ButtonUp | ButtonPressed

  /** An input event raised for a Zune button. */
  datatype ButtonEvent = ButtonEvent(kind: EventKind, button: ZuneButton)

  /**
   * The events CheckInputEvents raises for one button: ButtonDown on a rising
   * edge or else ButtonUp on a falling edge, then ButtonPressed while it is
   * held, each only when it has a listener.
   */
  function Due(o: Orientation, now: PadState, before: PadState, listeners: set<EventKind>, z: ZuneButton)
    : (r: seq<ButtonEvent>)
    ensures forall e :: e in r ==> e.button == z
  {
    var isDown := Pressed(o, now, z);
    var wasDown := Pressed(o, before, z);
    (if ButtonDown in listeners && isDown && !wasDown then [ButtonEvent(ButtonDown, z)]
     else if ButtonUp in listeners && !isDown && wasDown then [ButtonEvent(ButtonUp, z)]
     else []) +
    (if ButtonPressed in listeners && isDown then [ButtonEvent(ButtonPressed, z)] else [])
  }

  /** The events raised for the first `k` buttons in enum order. */
  function DueUpTo(o: Orientation, now: PadState, before: PadState, listeners: set<EventKind>, k: nat)
    : seq<ButtonEvent>
    requires k <= 7
  {
    if k == 0 then []
    else DueUpTo(o, now, before, listeners, k - 1) + Due(o, now, before, listeners, ButtonOf(k - 1))
  }

  /** An event is raised for the first `k` buttons exactly when it is due for its own button, one of them. */
  lemma {:induction false} InDueUpTo(o: Orientation, now: PadState, before: PadState, listeners: set<EventKind>,
                                     k: nat, e: ButtonEvent)
    requires k <= 7
    ensures e in DueUpTo(o, now, before, listeners, k) <==>
      Ord(e.button) < k && e in Due(o, now, before, listeners, e.button)
  {
    if k > 0 {
      InDueUpTo(o, now, before, listeners, k - 1, e);
      var z := ButtonOf(k - 1);
      if Ord(e.button) == k - 1 {
        assert e.button == z by { OrdInjective(e.button, z); }
      }
    }
  }

  /** The events for the first `k` buttons are grouped by button, in enum order. */
  lemma {:induction false} DueUpToOrdered(o: Orientation, now: PadState, before: PadState, listeners: set<EventKind>,
                                          k: nat)
    requires k <= 7
    ensures var es := DueUpTo(o, now, before, listeners, k);
      (forall e :: e in es ==> Ord(e.button) < k) &&
      (forall i, j :: 0 <= i < j < |es| ==> Ord(es[i].button) <= Ord(es[j].button))
  {
    if k > 0 {
      DueUpToOrdered(o, now, before, listeners, k - 1);
      var prev := DueUpTo(o, now, before, listeners, k - 1);
      var d := Due(o, now, before, listeners, ButtonOf(k - 1));
      var es := prev + d;
      forall i, j | 0 <= i < j < |es|
        ensures Ord(es[i].button) <= Ord(es[j].button)
      {
        if j >= |prev| {
          assert es[j] == d[j - |prev|] && es[j] in d;
          if i < |prev| {
            assert es[i] == prev[i] && es[i] in prev;
          } else {
            assert es[i] == d[i - |prev|] && es[i] in d;
          }
        } else {
          assert es[i] == prev[i] && es[j] == prev[j];
        }
      }
    }
  }

  /** Distinct Zune buttons have distinct enum values. */
  lemma OrdInjective(y: ZuneButton, z: ZuneButton)
    requires Ord(y) == Ord(z)
    ensures y == z
  {
  }

  /**
   * Over all seven buttons: ButtonDown exactly on rising edges, ButtonUp
   * exactly on falling edges, ButtonPressed exactly while held, each only
   * with a listener, and the events grouped by button in enum order.
   */
  lemma DueEvents(o: Orientation, now: PadState, before: PadState, listeners: set<EventKind>)
    ensures var es := DueUpTo(o, now, before, listeners, 7);
      (forall z :: ButtonEvent(ButtonDown, z) in es <==> ButtonDown in listeners && NewPress(o, now, before, z)) &&
      (forall z :: ButtonEvent(ButtonUp, z) in es <==> ButtonUp in listeners && Released(o, now, before, z)) &&
      (forall z :: ButtonEvent(ButtonPressed, z) in es <==> ButtonPressed in listeners && Pressed(o, now, z)) &&
      (forall i, j :: 0 <= i < j < |es| ==> Ord(es[i].button) <= Ord(es[j].button))
  {
    var es := DueUpTo(o, now, before, listeners, 7);
    forall z
      ensures ButtonEvent(ButtonDown, z) in es <==> ButtonDown in listeners && NewPress(o, now, before, z)
      ensures ButtonEvent(ButtonUp, z) in es <==> ButtonUp in listeners && Released(o, now, before, z)
      ensures ButtonEvent(ButtonPressed, z) in es <==> ButtonPressed in listeners && Pressed(o, now, z)
    {
      InDueUpTo(o, now, before, listeners, 7, ButtonEvent(ButtonDown, z));
      InDueUpTo(o, now, before, listeners, 7, ButtonEvent(ButtonUp, z));
      InDueUpTo(o, now, before, listeners, 7, ButtonEvent(ButtonPressed, z));
    }
    DueUpToOrdered(o, now, before, listeners, 7);
  }

  class Zune {
    var orientation: Orientation
    var drawingIsOpen: bool
    /** The pad state polled by the latest Update. */
    var state1: PadState
    /** The pad state polled by the Update before it. */
    var state2: PadState
    /** The dimensions of the render target the screen is drawn into. */
    var targetSize: Vector

    constructor(orientation: Orientation)
      ensures this.orientation == orientation && !drawingIsOpen
      ensures state1 == {} && state2 == {}
      ensures targetSize == Vector(PixelColumns, PixelRows)
    {
      this.orientation := orientation;
      drawingIsOpen := false;
      state1 := {};
      state2 := {};
      targetSize := Vector(PixelColumns, PixelRows);
    }

    /** Initialize: the render target in portrait dimensions, both states from one poll. */
    method Initialize(polled: PadState)
      modifies this
      ensures targetSize == Vector(PixelColumns, PixelRows)
      ensures state1 == polled && state2 == polled
      ensures orientation == old(orientation) && drawingIsOpen == old(drawingIsOpen)
    {
      targetSize := Vector(PixelColumns, PixelRows);
      state1 := polled;
      state2 := state1;
    }

    /** The Zune buttons held down, each once, in the fixed query order. */
    method GetAllPressed() returns (btns: seq<ZuneButton>)
      ensures btns == PressedAmong(orientation, state1, 7)
      ensures forall z :: z in btns <==> Pressed(orientation, state1, z)
      ensures forall i, j :: 0 <= i < j < |btns| ==> QueryRank(btns[i]) < QueryRank(btns[j])
    {
      btns := [];
      ghost var k := 0;
      btns := AddIfPressed(btns, Select, k);
      k := k + 1;
      btns := AddIfPressed(btns, PlayPause, k);
      k := k + 1;
      btns := AddIfPressed(btns, Back, k);
      k := k + 1;
      btns := AddIfPressed(btns, Up, k);
      k := k + 1;
      btns := AddIfPressed(btns, Down, k);
      k := k + 1;
      btns := AddIfPressed(btns, Left, k);
      k := k + 1;
      btns := AddIfPressed(btns, Right, k);
      k := k + 1;
      forall z
        ensures z in btns <==> Pressed(orientation, state1, z)
      {
        InPressedAmong(orientation, state1, k, z);
      }
      PressedAmongOrdered(orientation, state1, k);
    }

    /** One query of GetAllPressed: `z`, the `k`th of the query order, is listed when held. */
    method AddIfPressed(btns: seq<ZuneButton>, z: ZuneButton, ghost k: nat) returns (r: seq<ZuneButton>)
      requires k < 7 && z == QueryOrder[k] && btns == PressedAmong(orientation, state1, k)
      ensures r == PressedAmong(orientation, state1, k + 1)
    {
      r := btns;
      if Pressed(orientation, state1, z) {
        r := r + [z];
      }
    }

    /** CheckInputEvents: the events due for each Zune button, in enum order. */
    method CheckInputEvents(listeners: set<EventKind>) returns (events: seq<ButtonEvent>)
      ensures events == DueUpTo(orientation, state1, state2, listeners, 7)
      ensures forall z :: ButtonEvent(ButtonDown, z) in events <==>
        ButtonDown in listeners && NewPress(orientation, state1, state2, z)
      ensures forall z :: ButtonEvent(ButtonUp, z) in events <==>
        ButtonUp in listeners && Released(orientation, state1, state2, z)
      ensures forall z :: ButtonEvent(ButtonPressed, z) in events <==>
        ButtonPressed in listeners && Pressed(orientation, state1, z)
      ensures forall i, j :: 0 <= i < j < |events| ==> Ord(events[i].button) <= Ord(events[j].button)
    {
      events := [];
      for i := 0 to 7
        invariant events == DueUpTo(orientation, state1, state2, listeners, i)
      {
        var z := ButtonOf(i);
        var btn := ButtonFor(orientation, z);
        var isDown := btn in state1;
        var wasDown := btn in state2;
        if ButtonDown in listeners && isDown && !wasDown {
          events := events + [ButtonEvent(ButtonDown, z)];
        } else if ButtonUp in listeners && !isDown && wasDown {
          events := events + [ButtonEvent(ButtonUp, z)];
        }
        if ButtonPressed in listeners && isDown {
          events := events + [ButtonEvent(ButtonPressed, z)];
        }
      }
      DueEvents(orientation, state1, state2, listeners);
    }

    /** Update: the latest state becomes the previous one, a new state is polled, events are raised. */
    method Update(polled: PadState, listeners: set<EventKind>) returns (events: seq<ButtonEvent>)
      modifies this
      ensures state2 == old(state1) && state1 == polled
      ensures orientation == old(orientation) && drawingIsOpen == old(drawingIsOpen)
      ensures targetSize == old(targetSize)
      ensures events == DueUpTo(orientation, polled, old(state1), listeners, 7)
    {
      state2 := state1;
      state1 := polled;
      events := CheckInputEvents(listeners);
    }

    /** AssertNotDrawing: the operation is refused while drawing is open. */
    method AssertNotDrawing() returns (o: Outcome)
      ensures o == Pass <==> !drawingIsOpen
      ensures o.Fail? ==> o.error == InvalidOperation
    {
      if drawingIsOpen {
        return Fail(InvalidOperation);
      }
      o := Pass;
    }

    /**
     * The Orientation setter: refused while drawing is open; a new orientation
     * recreates the render target in the new Size.
     */
    method SetOrientation(value: Orientation) returns (o: Outcome)
      modifies this
      ensures o == Pass <==> !old(drawingIsOpen)
      ensures o.Fail? ==> o.error == InvalidOperation && orientation == old(orientation) && targetSize == old(targetSize)
      ensures o == Pass ==> orientation == value
      ensures o == Pass && value != old(orientation) ==> targetSize == Size(value)
      ensures value == old(orientation) ==> targetSize == old(targetSize)
      ensures drawingIsOpen == old(drawingIsOpen) && state1 == old(state1) && state2 == old(state2)
    {
      o := AssertNotDrawing();
      if o.Fail? {
        return;
      }
      var previous := orientation;
      orientation := value;
      if previous != orientation {
        targetSize := Size(orientation);
      }
    }

    method BeginDrawing()
      modifies this
      ensures drawingIsOpen
      ensures orientation == old(orientation) && targetSize == old(targetSize)
      ensures state1 == old(state1) && state2 == old(state2)
    {
      drawingIsOpen := true;
    }

    method EndDrawing()
      modifies this
      ensures !drawingIsOpen
      ensures orientation == old(orientation) && targetSize == old(targetSize)
      ensures state1 == old(state1) && state2 == old(state2)
    {
      drawingIsOpen := false;
    }

    /** Draw: refused while drawing is open; the rendering itself is not modelled. */
    method Draw() returns (o: Outcome)
      ensures o == Pass <==> !drawingIsOpen
      ensures o.Fail? ==> o.error == InvalidOperation
    {
      o := AssertNotDrawing();
    }
  }
}
