/** scene2d's ImageButton: a Button with a child Image whose drawable follows the press and
    checked state through a second, image-only precedence chain. */
module ImageButtons {
  import opened Styles
  import opened Tables
  import opened Buttons

  /** The drawable `updateImage` gives the image, or None when it leaves the image alone. */
  function ImageChoice(images: ImageDrawables, pressed: bool, checked: bool): Option<Drawable>
  {
    if pressed && images.imageDown.Some? then images.imageDown
    else if checked && images.imageChecked.Some? then images.imageChecked
    else images.imageUp
  }

  /** The image precedence: `imageDown` while pressed, then `imageChecked` while checked
      (pressed or not), then `imageUp`. */
  lemma ImageChoicePrecedence(images: ImageDrawables, pressed: bool, checked: bool)
    ensures ImageChoice(images, pressed, checked) ==
            FirstPresent([if pressed then images.imageDown else None,
                          if checked then images.imageChecked else None,
                          images.imageUp])
  {
    var c := [if pressed then images.imageDown else None,
              if checked then images.imageChecked else None,
              images.imageUp];
    assert c[1..] == [c[1], c[2]] && c[1..][1..] == [c[2]] && c[1..][1..][1..] == [];
  }

  /** Unlike the background chain, the image chain falls through to the checked drawable
      while pressed: a pressed, checked button without `imageDown` and `down` shows its
      `imageChecked` image over its `up` background. */
  lemma ImageAndBackgroundChainsDiffer(style: ImageButtonStyle)
    requires style.down.None? && style.images.value.imageDown.None?
    requires style.images.value.imageChecked.Some?
    ensures ImageChoice(style.images.value, true, true) == style.images.value.imageChecked
    ensures DrawBackground(style, true, true) == style.up
  {
  }

  /** The image's drawable after `updateImage`. */
  function UpdatedImage(current: Option<Drawable>, images: ImageDrawables,
                        pressed: bool, checked: bool): Option<Drawable>
  {
    var d := ImageChoice(images, pressed, checked);
    if d.Some? then d else current
  }

  /** `updateImage` gives the image the first present of the three image drawables the
      state admits, and leaves it with its current drawable when none of them is present. */
  lemma UpdatedImagePrecedence(current: Option<Drawable>, images: ImageDrawables,
                               pressed: bool, checked: bool)
    ensures UpdatedImage(current, images, pressed, checked) ==
            FirstPresent([if pressed then images.imageDown else None,
                          if checked then images.imageChecked else None,
                          images.imageUp, current])
  {
    var c := [if pressed then images.imageDown else None,
              if checked then images.imageChecked else None,
              images.imageUp, current];
    assert c[1..] == [c[1], c[2], c[3]] && c[1..][1..] == [c[2], c[3]] &&
           c[1..][1..][1..] == [c[3]] && c[1..][1..][1..][1..] == [];
  }

  class ImageButton {
    const button: Button
    var image: Actor?
    var style: ImageButtonStyle

    ghost predicate Valid()
      reads this, button, button.table
    {
      button.Valid() && image != null && image in button.table.children &&
      image.kind == Image && button.style == style
    }

    /** `ImageButton(ImageButtonStyle)`. The Button constructor's `setStyle` call reaches the
        override below while `image` is still null; the image is then created, added, and
        the style set again. */
    constructor (style: ImageButtonStyle)
      ensures Valid() && fresh(button) && fresh(button.table) && fresh(button.table.layout)
      ensures button.table.layout.skin.None?
      ensures fresh(image) && image.scaling == Fit
      ensures image.drawable == style.images.value.imageUp
      ensures this.style == style && !button.isChecked && !button.pressed && button.group.None?
      ensures button.table.children == [image] && button.table.layout.cells == [Cell(Some(image))]
      ensures button.table.background == style.up && button.table.layout.dirty
      ensures button.table.layout.PadState() == PadsFor(style.up)
      ensures button.table.width == button.PrefWidth() && button.table.height == button.PrefHeight()
    {
      button := new Button.Prepare(style);
      this.style := style;
      image := null;
      new;
      ApplyStyle(style);
      AttachImage();
      ApplyStyle(style);
    }

    /** `setStyle(style); setWidth(getPrefWidth()); setHeight(getPrefHeight());`, which ends
        both the Button constructor and this one. */
    method ApplyStyle(s: ImageButtonStyle)
      modifies this`style, button`style, button.table`background, button.table.layout, image
      modifies button.table`width, button.table`height
      ensures style == s && button.style == s
      ensures button.table.background == StyleBackground(s, button.pressed) && button.table.layout.dirty
      ensures button.table.layout.PadState() ==
                if SameDrawable(old(button.table.background), button.table.background)
                then old(button.table.layout.PadState()) else PadsFor(button.table.background)
      ensures button.table.layout.EngineState() == old(button.table.layout.EngineState())
      ensures image != null ==>
                image.drawable == UpdatedImage(old(image.drawable), s.images.value,
                                               button.pressed, button.isChecked) &&
                image.x == old(image.x) && image.y == old(image.y) &&
                image.scaling == old(image.scaling)
      ensures button.table.width == button.PrefWidth() && button.table.height == button.PrefHeight()
    {
      var _ := SetStyle(Some(s));
      button.SizeToPref();
    }

    /** The constructor's `image = new Image(); image.setScaling(Scaling.fit); add(image);` */
    method AttachImage()
      requires button.Valid()
      modifies this`image, button.table`children, button.table.layout
      ensures button.Valid() && fresh(image) && image.kind == Image && button.table.layout.dirty
      ensures image.scaling == Fit && image.drawable.None?
      ensures button.table.children == old(button.table.children) + [image]
      ensures button.table.layout.cells == old(button.table.layout.cells) + [Cell(Some(image))]
      ensures button.table.layout.PadState() == old(button.table.layout.PadState())
      ensures button.table.layout.EngineState() ==
                old(button.table.layout.EngineState()).(cells := button.table.layout.cells)
    {
      image := new Actor(Image);
      image.scaling := Fit;
      var _ := button.table.Add(Some(image));
    }

    /** `setStyle`: anything but an ImageButtonStyle (null included) is refused before any
        field changes. Otherwise the Button part takes the style, this part stores it, and
        the image is updated unless it does not exist yet. */
    method SetStyle(s: Option<ButtonStyle>) returns (r: Outcome)
      modifies this`style, button`style, button.table`background, button.table.layout, image
      ensures s.None? || !s.value.IsImageButtonStyle() ==>
                r == Fail(IllegalArgument("style must be an ImageButtonStyle.")) &&
                style == old(style) && button.style == old(button.style) &&
                button.table.background == old(button.table.background) &&
                unchanged(button.table.layout) && (image != null ==> unchanged(image))
      ensures s.Some? && s.value.IsImageButtonStyle() ==>
                r == Pass && style == s.value && button.style == s.value &&
                button.table.background == StyleBackground(s.value, button.pressed) &&
                button.table.layout.dirty
      ensures s.Some? && s.value.IsImageButtonStyle() ==>
                button.table.layout.PadState() ==
                  if SameDrawable(old(button.table.background), button.table.background)
                  then old(button.table.layout.PadState()) else PadsFor(button.table.background)
      ensures s.Some? && s.value.IsImageButtonStyle() && image != null ==>
                image.drawable == UpdatedImage(old(image.drawable), s.value.images.value,
                                               button.pressed, button.isChecked)
      ensures image != null ==> image.x == old(image.x) && image.y == old(image.y) &&
                                image.scaling == old(image.scaling)
      ensures button.table.layout.EngineState() == old(button.table.layout.EngineState())
    {
      if s.None? || !s.value.IsImageButtonStyle() {
        return Fail(IllegalArgument("style must be an ImageButtonStyle."));
      }
      var _ := button.SetStyle(s);
      style := s.value;
      if image != null {
        UpdateImage();
      }
      r := Pass;
    }

    /** `updateImage`: the image shows the first present of `imageDown` (while pressed),
        `imageChecked` (while checked) and `imageUp`, and keeps its drawable when none is. */
    method UpdateImage()
      requires image != null
      modifies image`drawable
      ensures image.drawable == UpdatedImage(old(image.drawable), style.images.value,
                                             button.pressed, button.isChecked)
    {
      var isPressed := button.pressed;
      if isPressed && style.images.value.imageDown.Some? {
        image.drawable := style.images.value.imageDown;
      } else if button.isChecked && style.images.value.imageChecked.Some? {
        image.drawable := style.images.value.imageChecked;
      } else if style.images.value.imageUp.Some? {
        image.drawable := style.images.value.imageUp;
      }
    }

    /** `draw`: the image is updated first, so Button's draw shows the updated image. */
    method Draw() returns (ghost drawnAt: seq<(real, real)>, ghost drawnWith: seq<Option<Drawable>>)
      requires Valid()
      modifies image`drawable, button.table`background, button.table.layout, button.table.children
      ensures Valid() && button.table.children == old(button.table.children)
      ensures image.drawable == UpdatedImage(old(image.drawable), style.images.value,
                                             button.pressed, button.isChecked)
      ensures button.table.background == DrawBackground(style, button.pressed, button.isChecked)
      ensures !button.table.layout.dirty
      ensures button.table.layout.EngineState() == old(button.table.layout.EngineState())
      ensures button.table.layout.PadState() ==
                if SameDrawable(old(button.table.background), button.table.background)
                then old(button.table.layout.PadState()) else PadsFor(button.table.background)
      ensures forall a :: a in button.table.children ==> a.scaling == old(a.scaling)
      ensures forall a :: a in button.table.children && a != image ==> a.drawable == old(a.drawable)
      ensures |drawnAt| == |button.table.children| && |drawnWith| == |button.table.children|
      ensures forall i :: 0 <= i < |button.table.children| && button.table.children[i] == image ==>
                drawnWith[i] == UpdatedImage(old(image.drawable), style.images.value,
                                             button.pressed, button.isChecked)
      ensures forall i :: 0 <= i < |button.table.children| && button.table.children[i] != image ==>
                drawnWith[i] == old(button.table.children[i].drawable)
      ensures forall i :: 0 <= i < |button.table.children| ==>
                drawnAt[i] == (old(button.table.children[i].x) + DrawOffset(style, button.pressed).0,
                               old(button.table.children[i].y) + DrawOffset(style, button.pressed).1)
      ensures forall i :: 0 <= i < |button.table.children| ==>
                button.table.children[i].x == old(button.table.children[i].x) &&
                button.table.children[i].y == old(button.table.children[i].y)
    {
      UpdateImage();
      drawnAt, drawnWith := button.Draw();
    }
  }
}
