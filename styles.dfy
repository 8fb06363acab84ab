/** Drawables and the style records of Button and ImageButton, as values, and the small
    value types the widgets share. */
module Styles {

  datatype Option<+T> = None | Some(value: T)

  /** No element occurs twice: no actor is twice among a group's children, or in the stage
      tree. */
  ghost predicate Distinct<T>(s: seq<T>)
  {
    forall i, j :: 0 <= i < j < |s| ==> s[i] != s[j]
  }

  /** The two kinds of programmer error the widgets throw. */
  datatype Error = IllegalArgument(message: string) | IllegalState(message: string)

  /** The outcome of a `void` method that may throw. */
  datatype Outcome = Pass | Fail(error: Error)

  /** The outcome of a method that returns a value or throws. */
  datatype Result<+T> = Ok(value: T) | Err(error: Error)

  /** What the widgets read of a Drawable: its identity (Java compares drawables by
      reference), its minimum size and the sizes of its four edges (its insets). A value
      holds the object's sizes at the moment it is passed; two values with the same `id`
      are the same object, possibly before and after its sizes were changed in place. */
  datatype Drawable = Drawable(
    id: nat,
    minWidth: real, minHeight: real,
    leftWidth: real, rightWidth: real, topHeight: real, bottomHeight: real)

  /** The three extra fields of an ImageButtonStyle. */
  datatype ImageDrawables = ImageDrawables(
    imageUp: Option<Drawable>, imageDown: Option<Drawable>, imageChecked: Option<Drawable>)

  /** A ButtonStyle. A null Java field is `None`. `images` is `Some` exactly when the
      style is an ImageButtonStyle, the subclass that adds the three image drawables. */
  datatype ButtonStyle = ButtonStyle(
    up: Option<Drawable>, down: Option<Drawable>, checked: Option<Drawable>,
    pressedOffsetX: real, pressedOffsetY: real,
    unpressedOffsetX: real, unpressedOffsetY: real,
    images: Option<ImageDrawables>)
  {
    /** `style instanceof ImageButtonStyle` */
    predicate IsImageButtonStyle() { images.Some? }
  }

  /** The static type ImageButtonStyle. */
  type ImageButtonStyle = s: ButtonStyle | s.IsImageButtonStyle()
    witness ButtonStyle(None, None, None, 0.0, 0.0, 0.0, 0.0, Some(ImageDrawables(None, None, None)))

  /** `new ButtonStyle()`: every field keeps its Java default. */
  function EmptyButtonStyle(): (s: ButtonStyle)
    ensures s.up.None? && s.down.None? && s.checked.None?
    ensures s.pressedOffsetX == s.pressedOffsetY == s.unpressedOffsetX == s.unpressedOffsetY == 0.0
    ensures !s.IsImageButtonStyle()
  {
    ButtonStyle(None, None, None, 0.0, 0.0, 0.0, 0.0, None)
  }

  /** `new ButtonStyle(up, down, checked, pressedOffsetX, pressedOffsetY, unpressedOffsetX, unpressedOffsetY)` */
  function NewButtonStyle(up: Option<Drawable>, down: Option<Drawable>, checked: Option<Drawable>,
                          pressedOffsetX: real, pressedOffsetY: real,
                          unpressedOffsetX: real, unpressedOffsetY: real): (s: ButtonStyle)
    ensures s.up == up && s.down == down && s.checked == checked
    ensures s.pressedOffsetX == pressedOffsetX && s.pressedOffsetY == pressedOffsetY
    ensures s.unpressedOffsetX == unpressedOffsetX && s.unpressedOffsetY == unpressedOffsetY
    ensures !s.IsImageButtonStyle()
    ensures CopyButtonStyle(s) == s
  {
    ButtonStyle(up, down, checked, pressedOffsetX, pressedOffsetY, unpressedOffsetX, unpressedOffsetY, None)
  }

  /** `new ButtonStyle(style)`: whatever the argument's class, the copy is a plain
      ButtonStyle holding the argument's seven ButtonStyle fields. */
  function CopyButtonStyle(style: ButtonStyle): (s: ButtonStyle)
    ensures s == style.(images := None)
  {
    ButtonStyle(style.up, style.down, style.checked,
                style.pressedOffsetX, style.pressedOffsetY,
                style.unpressedOffsetX, style.unpressedOffsetY, None)
  }

  /** `new ImageButtonStyle()` */
  function EmptyImageButtonStyle(): (s: ImageButtonStyle)
    ensures s.(images := None) == EmptyButtonStyle()
    ensures s.images == Some(ImageDrawables(None, None, None))
  {
    ButtonStyle(None, None, None, 0.0, 0.0, 0.0, 0.0, Some(ImageDrawables(None, None, None)))
  }

  /** The ten-argument ImageButtonStyle constructor. Its first three parameters are named
      down, up, checked but are handed on positionally to ButtonStyle(up, down, checked, ...),
      so the parameter named `down` ends up in `up` and the one named `up` in `down`. */
  function NewImageButtonStyle(down: Option<Drawable>, up: Option<Drawable>, checked: Option<Drawable>,
                               pressedOffsetX: real, pressedOffsetY: real,
                               unpressedOffsetX: real, unpressedOffsetY: real,
                               imageUp: Option<Drawable>, imageDown: Option<Drawable>,
                               imageChecked: Option<Drawable>): (s: ImageButtonStyle)
    ensures s.up == down && s.down == up && s.checked == checked
    ensures s.pressedOffsetX == pressedOffsetX && s.pressedOffsetY == pressedOffsetY
    ensures s.unpressedOffsetX == unpressedOffsetX && s.unpressedOffsetY == unpressedOffsetY
    ensures s.images.value == ImageDrawables(imageUp, imageDown, imageChecked)
  {
    var base := NewButtonStyle(down, up, checked, pressedOffsetX, pressedOffsetY, unpressedOffsetX, unpressedOffsetY);
    base.(images := Some(ImageDrawables(imageUp, imageDown, imageChecked)))
  }

  /** `new ImageButtonStyle(style)`: copies all ten fields, so the copy equals the original. */
  function CopyImageButtonStyle(style: ImageButtonStyle): (s: ImageButtonStyle)
    ensures s == style
  {
    var base := CopyButtonStyle(style);
    var images := style.images.value;
    base.(images := Some(ImageDrawables(images.imageUp, images.imageDown, images.imageChecked)))
  }

  /** The first present drawable of a precedence list, or None when none is present. The
      independent reference definition for the widgets' drawable precedence chains. */
  function FirstPresent(candidates: seq<Option<Drawable>>): (r: Option<Drawable>)
    ensures r.None? <==> forall i :: 0 <= i < |candidates| ==> candidates[i].None?
    ensures r.Some? ==> exists i :: 0 <= i < |candidates| && candidates[i] == r &&
                                   forall j :: 0 <= j < i ==> candidates[j].None?
  {
    if candidates == [] then None
    else if candidates[0].Some? then candidates[0]
    else
      var rest := FirstPresent(candidates[1..]);
      assert forall i :: 1 <= i < |candidates| ==> candidates[i] == candidates[1..][i - 1];
      rest
  }
}
