/**
 * The discrete state updates of the immediate-mode widgets (src/gui.h).
 *
 * Widgets change state through pointers: `ui_picker` steps a `size_t *`
 * through its options, `ui_checkbox` flips a `bool *`, the close button of
 * a window flips `window->open`, and `ui_main` sets the per-frame mouse flags
 * of the `gui` global and clears the pressed element when the button is
 * released.  Whether the mouse hovers an element is decided by the layout
 * library and is a parameter here; layout, drawing and cursor changes are
 * left out.  The pointees are small classes so that the widgets update them
 * in place.
 */
module Gui {

  import opened Modular

  /** The object a `bool *` points to. */
  class BoolVar {
    var value: bool

    constructor (v: bool)
      ensures value == v
    {
      value := v;
    }
  }

  /** The object a `size_t *` points to. */
  class SizeVar {
    var value: nat

    constructor (v: nat)
      ensures value == v
    {
      value := v;
    }
  }

  /** `Clay_ElementId`, by its numeric id; `(Clay_ElementId){0}` is no element. */
  type ElementId = nat

  const NoElement: ElementId := 0

  /** Clay's pointer state for the left button in the current frame. */
  datatype PointerState = PressedThisFrame | Pressed | ReleasedThisFrame | Released

  /** `b ^= 1` on a `bool`: the value flips. */
  function Flip(b: bool): (r: bool)
    ensures r != b
  {
    !b
  }

  /** A flip that happens only when `clicked`. */
  function FlipIf(b: bool, clicked: bool): (r: bool)
    ensures r == b <==> !clicked
  {
    if clicked then Flip(b) else b
  }

  /** Two clicks restore the value. */
  lemma FlipIfTwice(b: bool, c1: bool, c2: bool)
    requires c1 && c2
    ensures FlipIf(FlipIf(b, c1), c2) == b
  {
  }

  /** The left arrow of `ui_picker`: `(*state == 0 ? option_count : *state) - 1`. */
  function PickLeft(state: nat, count: nat): (r: nat)
    requires state < count
    ensures r < count
    ensures (r + 1) % count == state
    ensures r == count - 1 <==> state == 0
  {
    ModFacts(state, count);
    ModFacts(count, count);
    (if state == 0 then count else state) - 1
  }

  /** The right arrow of `ui_picker`: `(*state + 1) % option_count`. */
  function PickRight(state: nat, count: nat): (r: nat)
    requires state < count
    ensures r < count
    ensures r == 0 <==> state == count - 1
    ensures r > 0 ==> r == state + 1
  {
    ModFacts(state + 1, count);
    (state + 1) % count
  }

  /** A left step undoes a right step. */
  lemma RightThenLeft(state: nat, count: nat)
    requires state < count
    ensures PickLeft(PickRight(state, count), count) == state
  {
  }

  /** A right step undoes a left step. */
  lemma LeftThenRight(state: nat, count: nat)
    requires state < count
    ensures PickRight(PickLeft(state, count), count) == state
  {
  }

  /** `ui_WabisabiWindow`: only its `open` flag is modelled. */
  class Window {
    var open: bool

    constructor (open: bool)
      ensures this.open == open
    {
      this.open := open;
    }
  }

  /** The `gui` global: the mouse flags of the frame and the element the button went down on. */
  class GuiState {
    var lmbClick: bool
    var lmbDown: bool
    var lmbDownEl: ElementId
    const optionsWindow: Window

    constructor (optionsWindow: Window)
      ensures this.optionsWindow == optionsWindow
      ensures !lmbClick && !lmbDown && lmbDownEl == NoElement
    {
      this.optionsWindow := optionsWindow;
      lmbClick, lmbDown, lmbDownEl := false, false, NoElement;
    }

    /**
     * `ui_arrow_button`: clicked when hovered in a frame where the button was
     * released.  Hovering alone, or a release elsewhere, is no click.
     */
    function ArrowButton(hovered: bool): (clicked: bool)
      reads this
      ensures clicked ==> hovered && lmbClick
      ensures hovered && lmbClick ==> clicked
    {
      hovered && lmbClick
    }

    /**
     * `ui_picker`: the left arrow, the label of the current option, then the
     * right arrow.  It reports whether either arrow was clicked.  The label is
     * read between the two steps, so `state` must name an option on entry.
     */
    method Picker(state: SizeVar, optionCount: nat, labels: seq<string>, leftHovered: bool, rightHovered: bool)
      returns (changed: bool, shown: string)
      requires 1 <= optionCount <= |labels|
      requires state.value < optionCount
      modifies state
      ensures changed == (ArrowButton(leftHovered) || ArrowButton(rightHovered))
      ensures var mid := if ArrowButton(leftHovered) then PickLeft(old(state.value), optionCount) else old(state.value);
        shown == labels[mid] &&
        state.value == if ArrowButton(rightHovered) then PickRight(mid, optionCount) else mid
      ensures state.value < optionCount
      ensures changed ==> lmbClick && (leftHovered || rightHovered)
    {
      changed := false;
      if ArrowButton(leftHovered) {
        changed := true;
        state.value := (if state.value == 0 then optionCount else state.value) - 1;
      }
      shown := labels[state.value];
      if ArrowButton(rightHovered) {
        changed := true;
        state.value := (state.value + 1) % optionCount;
      }
    }

    /** `ui_checkbox`: a click flips the value; the check mark is drawn for the new value. */
    method Checkbox(state: BoolVar, hovered: bool) returns (checkDrawn: bool)
      modifies state
      ensures state.value == FlipIf(old(state.value), hovered && lmbClick)
      ensures checkDrawn == state.value
    {
      if hovered {
        if lmbClick {
          state.value := !state.value;
        }
      }
      checkDrawn := state.value;
    }

    /**
     * `ui_wabisabi_window`: a closed window returns before emitting anything.
     * An open one records its drag bar as the pressed element when the button
     * goes down over it, and its close button flips `open`.
     */
    method WabisabiWindow(window: Window, dragBarId: ElementId, dragHovered: bool, closeHovered: bool)
      returns (emitted: bool)
      modifies window, this`lmbDownEl
      ensures emitted == old(window.open)
      ensures !old(window.open) ==> window.open == old(window.open) && lmbDownEl == old(lmbDownEl)
      ensures old(window.open) ==> window.open == FlipIf(true, closeHovered && lmbClick)
      ensures old(window.open) ==>
        lmbDownEl == if dragHovered && lmbDown then dragBarId else old(lmbDownEl)
    {
      if !window.open {
        return false;
      }
      if dragHovered && lmbDown {
        lmbDownEl := dragBarId;
      }
      if closeHovered && lmbClick {
        window.open := !window.open;
      }
      emitted := true;
    }

    /**
     * `ui_main`: sets the frame's mouse flags, lets the options toggle flip the
     * options window, runs that window, and clears the pressed element at the
     * end of a frame in which the button was released.
     */
    method UiMain(pointer: PointerState, toggleHovered: bool, dragBarId: ElementId, dragHovered: bool, closeHovered: bool)
      modifies this`lmbClick, this`lmbDown, this`lmbDownEl, optionsWindow
      ensures lmbClick == (pointer == ReleasedThisFrame)
      ensures lmbDown == (pointer == PressedThisFrame)
      ensures pointer == ReleasedThisFrame ==> lmbDownEl == NoElement
      ensures var shown := FlipIf(old(optionsWindow.open), toggleHovered && lmbClick);
        optionsWindow.open == (shown && FlipIf(true, closeHovered && lmbClick)) &&
        (pointer != ReleasedThisFrame ==>
          lmbDownEl == if shown && dragHovered && lmbDown then dragBarId else old(lmbDownEl))
    {
      var mouseUp := pointer == ReleasedThisFrame;
      lmbClick := mouseUp;
      lmbDown := pointer == PressedThisFrame;
      if toggleHovered && lmbClick {
        optionsWindow.open := !optionsWindow.open;
      }
      var _ := WabisabiWindow(optionsWindow, dragBarId, dragHovered, closeHovered);
      if mouseUp {
        lmbDownEl := NoElement;
      }
    }
  }
}
