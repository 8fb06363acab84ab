/** scene2d's Button: a Table with a checked state, a press state delivered by its click
    listener, and a three-drawable style chosen anew on every draw. */
module Buttons {
  import opened Styles
  import opened Tables

  /** What the button's ButtonGroup answers to `canCheck(button, newValue)`: whether it may
      become checked, and whether it may become unchecked. */
  datatype ButtonGroup = ButtonGroup(allowsChecked: bool, allowsUnchecked: bool)
  {
    predicate CanCheck(newValue: bool)
    {
      if newValue then allowsChecked else allowsUnchecked
    }
  }

  /** The background `setStyle` sets: `down` while pressed if there is one, else `up`. */
  function StyleBackground(style: ButtonStyle, pressed: bool): Option<Drawable>
  {
    if pressed && style.down.Some? then style.down else style.up
  }

  /** The background `draw` sets. */
  function DrawBackground(style: ButtonStyle, pressed: bool, checked: bool): Option<Drawable>
  {
    if pressed then
      (if style.down.None? then style.up else style.down)
    else if style.checked.None? then style.up
    else if checked then style.checked
    else style.up
  }

  /** The offset `draw` applies to the children: the pressed one while pressed, even when
      there is no `down` drawable. */
  function DrawOffset(style: ButtonStyle, pressed: bool): (real, real)
  {
    if pressed then (style.pressedOffsetX, style.pressedOffsetY)
    else (style.unpressedOffsetX, style.unpressedOffsetY)
  }

  /** The draw precedence: `down` counts only while pressed, `checked` only while unpressed
      and checked, and `up` is the fallback. */
  lemma DrawBackgroundPrecedence(style: ButtonStyle, pressed: bool, checked: bool)
    ensures DrawBackground(style, pressed, checked) ==
            FirstPresent([if pressed then style.down else None,
                          if !pressed && checked then style.checked else None,
                          style.up])
  {
    var c := [if pressed then style.down else None,
              if !pressed && checked then style.checked else None,
              style.up];
    assert c[1..] == [c[1], c[2]] && c[1..][1..] == [c[2]] && c[1..][1..][1..] == [];
  }

  /** `setStyle` picks the background the next `draw` picks, except when the button is
      unpressed and checked and has a `checked` drawable other than `up`. */
  lemma StyleBackgroundMatchesDraw(style: ButtonStyle, pressed: bool, checked: bool)
    ensures StyleBackground(style, pressed) == DrawBackground(style, pressed, checked) <==>
            (pressed || !checked || style.checked.None? || style.checked == style.up)
  {
  }

  /** One of `draw`'s two loops: translate every child by (dx, dy). */
  method TranslateChildren(children: seq<Actor>, dx: real, dy: real)
    requires Distinct(children)
    modifies children
    ensures forall k :: 0 <= k < |children| ==>
              children[k].x == old(children[k].x) + dx && children[k].y == old(children[k].y) + dy
    ensures forall a :: a in children ==> a.drawable == old(a.drawable) && a.scaling == old(a.scaling)
  {
    for i := 0 to |children|
      invariant forall k :: 0 <= k < i ==>
                  children[k].x == old(children[k].x) + dx && children[k].y == old(children[k].y) + dy
      invariant forall k :: i <= k < |children| ==>
                  children[k].x == old(children[k].x) && children[k].y == old(children[k].y)
      invariant forall a :: a in children ==> a.drawable == old(a.drawable) && a.scaling == old(a.scaling)
    {
      children[i].Translate(dx, dy);
    }
  }

  class Button {
    const table: Table
    var style: ButtonStyle
    var isChecked: bool
    var group: Option<ButtonGroup>
    /** `clickListener.isPressed()` */
    var pressed: bool

    ghost predicate Valid()
      reads this, table
    {
      table.Valid()
    }

    /** `Button(ButtonStyle)` */
    constructor (style: ButtonStyle)
      ensures Valid() && fresh(table) && fresh(table.layout) && fresh(table.tableBounds)
      ensures table.layout.skin.None?
      ensures this.style == style && !isChecked && group.None? && !pressed
      ensures table.background == style.up && table.children == [] && table.layout.cells == []
      ensures table.layout.PadState() == PadsFor(style.up) && table.layout.dirty
      ensures table.width == PrefWidth() && table.height == PrefHeight()
    {
      table := new Table(None);
      this.style := style;
      isChecked, group, pressed := false, None, false;
      new;
      var _ := SetStyle(Some(style));
      SizeToPref();
    }

    /** `Button(Actor, ButtonStyle)`: the child is added before the style is set. A null
        child (`None`) adds an empty cell and no child. */
    constructor WithChild(child: Option<Actor>, style: ButtonStyle)
      ensures Valid() && fresh(table) && fresh(table.layout) && fresh(table.tableBounds)
      ensures table.layout.skin.None?
      ensures this.style == style && !isChecked && group.None? && !pressed
      ensures table.background == style.up
      ensures table.children == if child.Some? then [child.value] else []
      ensures table.layout.cells == [Cell(child)] && table.layout.dirty
      ensures table.layout.PadState() == PadsFor(style.up)
      ensures table.width == PrefWidth() && table.height == PrefHeight()
    {
      table := new Table(None);
      this.style := style;
      isChecked, group, pressed := false, None, false;
      new;
      var _ := table.Add(child);
      var _ := SetStyle(Some(style));
      SizeToPref();
    }

    /** The part of `Button(ButtonStyle)` before it calls `setStyle`: the Table and the click
        listener. A subclass overriding `setStyle` takes over from here. Java's `style` field
        is still null at this point; the model's `style` already holds the argument, which
        nothing reads before `setStyle` stores it again. */
    constructor Prepare(style: ButtonStyle)
      ensures Valid() && fresh(table) && fresh(table.layout) && fresh(table.tableBounds)
      ensures this.style == style && !isChecked && group.None? && !pressed
      ensures table.background.None? && table.children == [] && table.layout.cells == []
      ensures table.layout.PadState() == Pads(None, None, None, None) && table.layout.skin.None?
    {
      table := new Table(None);
      this.style := style;
      isChecked, group, pressed := false, None, false;
    }

    /** `setChecked`: a group that refuses the value leaves the state as it is. */
    method SetChecked(value: bool)
      modifies this`isChecked
      ensures group.Some? && !group.value.CanCheck(value) ==> isChecked == old(isChecked)
      ensures group.None? || group.value.CanCheck(value) ==> isChecked == value
    {
      if group.Some? && !group.value.CanCheck(value) {
        return;
      }
      isChecked := value;
    }

    /** The click listener's `clicked`: toggle, fire one change event if the toggle took
        effect, and toggle back if a listener cancelled that event. */
    method Clicked(cancelled: bool) returns (fired: bool)
      modifies this`isChecked
      ensures fired <==> group.None? || group.value.CanCheck(!old(isChecked))
      ensures !fired ==> isChecked == old(isChecked)
      ensures fired && !cancelled ==> isChecked == !old(isChecked)
      ensures fired && cancelled ==>
                isChecked == if group.None? || group.value.CanCheck(old(isChecked))
                             then old(isChecked) else !old(isChecked)
    {
      var wasChecked := isChecked;
      SetChecked(!isChecked);
      fired := wasChecked != isChecked;
      if fired && cancelled {
        SetChecked(wasChecked);
      }
    }

    /** `setStyle`: null is refused; otherwise the style is stored, the background is set
        for the current press state, and the layout is stale. */
    method SetStyle(s: Option<ButtonStyle>) returns (r: Outcome)
      modifies this`style, table`background, table.layout
      ensures s.None? ==>
                r == Fail(IllegalArgument("style cannot be null.")) && style == old(style) &&
                table.background == old(table.background) && unchanged(table.layout)
      ensures s.Some? ==> r == Pass && style == s.value
      ensures s.Some? ==> table.background == StyleBackground(s.value, pressed)
      ensures s.Some? ==>
                table.layout.PadState() ==
                  if SameDrawable(old(table.background), table.background)
                  then old(table.layout.PadState()) else PadsFor(table.background)
      ensures s.Some? ==> table.layout.dirty
      ensures table.layout.EngineState() == old(table.layout.EngineState())
    {
      if s.None? {
        return Fail(IllegalArgument("style cannot be null."));
      }
      style := s.value;
      table.SetBackground(if pressed && style.down.Some? then style.down else style.up);
      table.Invalidate();
      r := Pass;
    }

    /** `setWidth(getPrefWidth()); setHeight(getPrefHeight())` */
    method SizeToPref()
      modifies table`width, table`height
      ensures table.width == PrefWidth() && table.height == PrefHeight()
    {
      table.width := PrefWidth();
      table.height := PrefHeight();
    }

    /** `draw`: sets the background for the press and checked state, lays out, and draws the
        children shifted by the state's offset, then shifts them back. `drawnAt` holds where
        each child was while drawn, and `drawnWith` the drawable it showed. */
    method Draw() returns (ghost drawnAt: seq<(real, real)>, ghost drawnWith: seq<Option<Drawable>>)
      requires Valid()
      modifies table`background, table.layout, table.children
      ensures Valid() && table.children == old(table.children)
      ensures table.background == DrawBackground(style, pressed, isChecked)
      ensures !table.layout.dirty && table.layout.EngineState() == old(table.layout.EngineState())
      ensures table.layout.PadState() ==
                if SameDrawable(old(table.background), table.background)
                then old(table.layout.PadState()) else PadsFor(table.background)
      ensures |drawnAt| == |table.children| && |drawnWith| == |table.children|
      ensures forall i :: 0 <= i < |table.children| ==> drawnWith[i] == old(table.children[i].drawable)
      ensures forall i :: 0 <= i < |table.children| ==>
                drawnAt[i] == (old(table.children[i].x) + DrawOffset(style, pressed).0,
                               old(table.children[i].y) + DrawOffset(style, pressed).1)
      ensures forall i :: 0 <= i < |table.children| ==>
                table.children[i].x == old(table.children[i].x) &&
                table.children[i].y == old(table.children[i].y)
      ensures forall a :: a in table.children ==> a.drawable == old(a.drawable) && a.scaling == old(a.scaling)
    {
      var offset := DrawStateBackground();
      table.Validate();
      var children := table.children;
      TranslateChildren(children, offset.0, offset.1);
      drawnAt := seq(|children|, i requires 0 <= i < |children| reads children => (children[i].x, children[i].y));
      drawnWith := seq(|children|, i requires 0 <= i < |children| reads children => children[i].drawable);
      table.Draw();
      TranslateChildren(children, -offset.0, -offset.1);
    }

    /** The first part of `draw`: set the background for the press and checked state, and
        pick the offset for the press state. */
    method DrawStateBackground() returns (offset: (real, real))
      modifies table`background, table.layout
      ensures offset == DrawOffset(style, pressed)
      ensures table.background == DrawBackground(style, pressed, isChecked)
      ensures table.layout.EngineState() == old(table.layout.EngineState())
      ensures table.layout.PadState() ==
                if SameDrawable(old(table.background), table.background)
                then old(table.layout.PadState()) else PadsFor(table.background)
    {
      if pressed {
        table.SetBackground(if style.down.None? then style.up else style.down);
        offset := (style.pressedOffsetX, style.pressedOffsetY);
      } else {
        if style.checked.None? {
          table.SetBackground(style.up);
        } else {
          table.SetBackground(if isChecked then style.checked else style.up);
        }
        offset := (style.unpressedOffsetX, style.unpressedOffsetY);
      }
    }

    /** `getPrefWidth()`: the largest of the layout's preferred width and the minimum widths
        of the style's present drawables. */
    function PrefWidth(): (w: real)
      reads this, table.layout
      ensures w >= table.layout.prefWidth
      ensures style.up.Some? ==> w >= style.up.value.minWidth
      ensures style.down.Some? ==> w >= style.down.value.minWidth
      ensures style.checked.Some? ==> w >= style.checked.value.minWidth
      ensures w == table.layout.prefWidth ||
              (style.up.Some? && w == style.up.value.minWidth) ||
              (style.down.Some? && w == style.down.value.minWidth) ||
              (style.checked.Some? && w == style.checked.value.minWidth)
    {
      var width := table.layout.prefWidth;
      var width := if style.up.Some? then Max(width, style.up.value.minWidth) else width;
      var width := if style.down.Some? then Max(width, style.down.value.minWidth) else width;
      if style.checked.Some? then Max(width, style.checked.value.minWidth) else width
    }

    /** `getPrefHeight()`, as PrefWidth for heights. */
    function PrefHeight(): (h: real)
      reads this, table.layout
      ensures h >= table.layout.prefHeight
      ensures style.up.Some? ==> h >= style.up.value.minHeight
      ensures style.down.Some? ==> h >= style.down.value.minHeight
      ensures style.checked.Some? ==> h >= style.checked.value.minHeight
      ensures h == table.layout.prefHeight ||
              (style.up.Some? && h == style.up.value.minHeight) ||
              (style.down.Some? && h == style.down.value.minHeight) ||
              (style.checked.Some? && h == style.checked.value.minHeight)
    {
      var height := table.layout.prefHeight;
      var height := if style.up.Some? then Max(height, style.up.value.minHeight) else height;
      var height := if style.down.Some? then Max(height, style.down.value.minHeight) else height;
      if style.checked.Some? then Max(height, style.checked.value.minHeight) else height
    }

    /** `getMinWidth()`: a button is never smaller than it prefers to be. */
    function MinWidth(): (w: real)
      reads this, table.layout
      ensures w == PrefWidth()
    {
      PrefWidth()
    }

    /** `getMinHeight()`: a button is never smaller than it prefers to be. */
    function MinHeight(): (h: real)
      reads this, table.layout
      ensures h == PrefHeight()
    {
      PrefHeight()
    }
  }
}
