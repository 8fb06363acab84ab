# scene2d Button, ImageButton and Table container logic in Dafny

This project models three widgets of libgdx's scene2d UI layer and proves properties about them.

- **Table** (`tablelayout/Table.java`) is a container that hands layout to a TableLayout solver. It contributes these rules:
  - a background drawable sets the table's four paddings from its insets, cast to `int`;
  - the background sets a floor under the preferred (not the minimum) size;
  - the clip rectangle is the table inset by its paddings;
  - `add(String)` needs a skin;
  - a static debug walk visits every table of the stage.
- **Button** (`Button.java`) is a Table with a checked state. The checked state is gated by a ButtonGroup. A click toggles it, fires one change event, and rolls the toggle back when a listener cancels that event. Each draw picks one of three backgrounds (up/down/checked) and a pressed or unpressed offset. The children are shifted by that offset while they are drawn, then shifted back.
- **ImageButton** (`ImageButton.java`) is a Button with a child Image. A second precedence chain picks the image's drawable. Its `setStyle` accepts only an ImageButtonStyle.

Java's `extends` becomes composition, because Dafny classes do not inherit:
- a `Buttons.Button` holds its Table part in `table`;
- an `ImageButtons.ImageButton` holds its Button part in `button`.

State the source updates in place is a class field: checked state, style, background, paddings, children's positions, the image's drawable and the clip rectangle. Styles and drawables are values. The `(int)` cast is Java's truncation toward zero, saturating at the `int` range (`Tables.JavaIntCast`). Sizes and coordinates are `real`.

Collaborators that are not shown are replaced as follows:
- `TableLayout` is a small class holding:
  - four paddings (`None` is an unset padding);
  - the preferred and minimum sizes it reports;
  - a dirty flag;
  - the skin;
  - the cells.
- `ClickListener.isPressed()` is the field `Button.pressed`.
- `ButtonGroup.canCheck(button, value)` is a value `ButtonGroup(allowsChecked, allowsUnchecked)`: the group's answers for this button. The predicate `Buttons.ButtonGroup.CanCheck` picks the answer for a value.
- `Actor.setX(getX() + offset)` and the matching `setY` are `Tables.Actor.Translate`, which moves one actor by the given distance.
- The result of `fire(new ChangeEvent())` is the `cancelled` input of `Clicked`.
- `LibgdxToolkit.drawDebug` is the `drawDebug` input of `TableDebug.DrawDebug`.
- The toolkit's width conversion of a padding is the padding's value, and 0 when the padding is unset.

The stage's actor tree for the debug walk is a value (`TableDebug.ActorNode`). A table drawing its debug lines is recorded as the walk visiting it.

Points of the code's behaviour that are easy to miss:
- While pressed, `Button.draw` uses `down` and otherwise `up`, never `checked` (Button.java:119-122). A pressed, checked button without `down` shows `up`.
- ImageButton's image chain differs from the background chain: while pressed it still uses `imageChecked` when there is no `imageDown` (ImageButton.java:77-80, `ImageButtons.ImageAndBackgroundChainsDiffer`).
- `setBackground(null)` clears the paddings without calling `invalidate()`. Only a non-null background invalidates (Table.java:155-163).
- `setBackground` compares drawables by reference (Table.java:153). Setting the same object again does nothing, even if its insets were changed in the meantime. The model gives each drawable an `id` for its identity and compares those (`Tables.SameDrawable`).
- The ten-argument ImageButtonStyle constructor names its first three parameters `down, up, checked`. It passes them on positionally to `ButtonStyle(up, down, checked, …)`, so the parameter named `down` fills `up` (ImageButton.java:106-108).

## Model

| member | source | states |
|---|---|---|
| Styles.EmptyButtonStyle | gdx/src/com/badlogic/gdx/scenes/scene2d/ui/Button.java:174-175 | every drawable is absent, every offset is 0, and the style is a plain ButtonStyle |
| Styles.NewButtonStyle | gdx/src/com/badlogic/gdx/scenes/scene2d/ui/Button.java:177-186 | each of the seven arguments lands in its own field, the style is a plain ButtonStyle, and the copy constructor reproduces it exactly |
| Styles.CopyButtonStyle | gdx/src/com/badlogic/gdx/scenes/scene2d/ui/Button.java:188-196 | the copy has the argument's seven ButtonStyle fields and is a plain ButtonStyle, even when the argument is an ImageButtonStyle |
| Styles.EmptyImageButtonStyle | gdx/src/com/badlogic/gdx/scenes/scene2d/ui/ImageButton.java:103-104 | its ButtonStyle part is the empty ButtonStyle and all three image drawables are absent |
| Styles.NewImageButtonStyle | gdx/src/com/badlogic/gdx/scenes/scene2d/ui/ImageButton.java:106-112 | the first argument (named `down`) lands in `up` and the second (named `up`) in `down`; `checked`, the four offsets and the three image drawables land in their own fields |
| Styles.CopyImageButtonStyle | gdx/src/com/badlogic/gdx/scenes/scene2d/ui/ImageButton.java:114-119 | the copy equals the original in all ten fields |
| Tables.JavaIntCast | gdx/src/com/badlogic/gdx/scenes/scene2d/ui/tablelayout/Table.java:158-161 | the `(int)` cast stays in the `int` range, rounds toward zero within it (never more than 1 away from the argument), and saturates outside it |
| Tables.JavaIntCastOfInt | gdx/src/com/badlogic/gdx/scenes/scene2d/ui/tablelayout/Table.java:132 | casting a float that holds an `int` value returns that value |
| Tables.Table.constructor | gdx/src/com/badlogic/gdx/scenes/scene2d/ui/tablelayout/Table.java:73-79 | a new table has a fresh layout holding the skin, no background, no children, no cells and no paddings |
| Tables.Table.Invalidate | gdx/src/com/badlogic/gdx/scenes/scene2d/ui/tablelayout/Table.java:126-129 | afterwards the layout's sizes are stale |
| Tables.Table.PrefWidth | gdx/src/com/badlogic/gdx/scenes/scene2d/ui/tablelayout/Table.java:131-134 | without a background this is the layout's preferred width; with one, it is the larger of that width and the background's minimum width cast to `int`, so it is never below the layout's value |
| Tables.Table.PrefHeight | gdx/src/com/badlogic/gdx/scenes/scene2d/ui/tablelayout/Table.java:136-139 | the same as PrefWidth for heights |
| Tables.Table.MinWidth | gdx/src/com/badlogic/gdx/scenes/scene2d/ui/tablelayout/Table.java:141-143 | exactly the layout's minimum width, whatever the background |
| Tables.Table.MinHeight | gdx/src/com/badlogic/gdx/scenes/scene2d/ui/tablelayout/Table.java:145-147 | exactly the layout's minimum height, whatever the background |
| Tables.Table.SetBackground | gdx/src/com/badlogic/gdx/scenes/scene2d/ui/tablelayout/Table.java:152-164 | the same drawable object again (by identity, whatever its current sizes) changes nothing: no new paddings, no invalidation. Null clears all four paddings and does not invalidate. Any other drawable sets bottom/top/left/right padding to its int-cast edge sizes and invalidates. The stored background is always the argument, and the layout's sizes, skin and cells do not change |
| Tables.Table.CalculateScissors | gdx/src/com/badlogic/gdx/scenes/scene2d/ui/tablelayout/Table.java:112-122 | without a background the clip rectangle is (0, 0, width, height). With one, its left and bottom edges sit at padLeft and padBottom, and its right and top edges sit padRight and padTop inside the table's |
| Tables.Table.Clear | gdx/src/com/badlogic/gdx/scenes/scene2d/ui/tablelayout/Table.java:188-192 | no children and no cells remain, and the layout is stale; paddings, skin and reported sizes are kept |
| Tables.Table.Add | gdx/src/com/badlogic/gdx/scenes/scene2d/ui/tablelayout/Table.java:211-213 | a cell holding the actor (or a placeholder) is appended, the actor becomes a child, and the layout is stale; paddings, skin and reported sizes are kept |
| Tables.Table.AddText | gdx/src/com/badlogic/gdx/scenes/scene2d/ui/tablelayout/Table.java:198-201 | without a skin: an illegal-state error, and children and layout unchanged. With a skin: a fresh Label with the text is appended as a cell and as a child, the layout is stale, and paddings, skin and reported sizes are kept |
| Tables.Table.SetSkin | gdx/src/com/badlogic/gdx/scenes/scene2d/ui/tablelayout/Table.java:557-559 | the layout holds the new skin |
| Tables.Table.Draw | gdx/src/com/badlogic/gdx/scenes/scene2d/ui/tablelayout/Table.java:81-82 | drawing validates: afterwards the layout is not stale |
| TableDebug.DrawDebug | gdx/src/com/badlogic/gdx/scenes/scene2d/ui/tablelayout/Table.java:568-571 | with the global flag off nothing is visited; with it on, the tables of the stage tree are visited in pre-order |
| TableDebug.DrawDebugActors | gdx/src/com/badlogic/gdx/scenes/scene2d/ui/tablelayout/Table.java:573-579 | the loop-and-recursion walk visits exactly the tables among all actors of the forest, in pre-order |
| TableDebug.VisitsEachTableOnce | gdx/src/com/badlogic/gdx/scenes/scene2d/ui/tablelayout/Table.java:573-579 | when no actor appears twice in the stage tree, each table of the tree is visited exactly once, and nothing else is visited |
| TableDebug.TableBeforeItsDescendants | gdx/src/com/badlogic/gdx/scenes/scene2d/ui/tablelayout/Table.java:573-579 | each visited table is followed at once by the tables below it: tables come before their descendants |
| TableDebug.WalkStep | gdx/src/com/badlogic/gdx/scenes/scene2d/ui/tablelayout/Table.java:575-577 | one more actor adds to the walk itself if it is a table, then the tables among its descendants if it is a group |
| TableDebug.SubtreeIsContiguous | gdx/src/com/badlogic/gdx/scenes/scene2d/ui/tablelayout/Table.java:576-577 | in the walk order every actor is followed at once by all its descendants |
| TableDebug.SubtreeWithin | gdx/src/com/badlogic/gdx/scenes/scene2d/ui/tablelayout/Table.java:576-577 | the same holds inside one actor's subtree |
| Buttons.Button.constructor | gdx/src/com/badlogic/gdx/scenes/scene2d/ui/Button.java:36-41 | a new button is unchecked, unpressed and in no group, has no skin (the Table is built without one, so `add(String)` fails on it), no children and no cells, stores the style, shows the `up` background with the paddings derived from it, and is sized to its preferred size |
| Buttons.Button.WithChild | gdx/src/com/badlogic/gdx/scenes/scene2d/ui/Button.java:43-49 | as the constructor, with the child added before the style is set: one cell holding the child (empty for a null child), the child as the only child (none for a null child), the paddings of `up`, and no skin |
| Buttons.Button.Prepare | gdx/src/com/badlogic/gdx/scenes/scene2d/ui/Button.java:36-37 | the button before its constructor calls `setStyle`: its Table part and listener state, unchecked, unpressed |
| Buttons.Button.SetChecked | gdx/src/com/badlogic/gdx/scenes/scene2d/ui/Button.java:91-94 | a group that refuses the value leaves the checked state as it was; otherwise the state becomes the value |
| Buttons.Button.Clicked | gdx/src/com/badlogic/gdx/scenes/scene2d/ui/Button.java:51-59 | a change event is fired exactly when the toggle took effect (no group, or the group allows the new value). A refused toggle fires nothing and changes nothing. An uncancelled event leaves the state flipped. A cancelled one restores the old state unless the group refuses the rollback; without a group it always restores it |
| Buttons.Button.SetStyle | gdx/src/com/badlogic/gdx/scenes/scene2d/ui/Button.java:104-109 | null gives an illegal-argument error and changes nothing. Otherwise the style is stored, the background becomes `down` when pressed and present and `up` otherwise (with the paddings that implies: unchanged when it is the same drawable object), and the layout is stale |
| Buttons.Button.SizeToPref | gdx/src/com/badlogic/gdx/scenes/scene2d/ui/Button.java:39-40 | the width and height are the preferred width and height |
| Buttons.Button.DrawStateBackground | gdx/src/com/badlogic/gdx/scenes/scene2d/ui/Button.java:118-130 | the background becomes the draw precedence's choice with the paddings `setBackground` gives it, the layout's sizes, skin and cells are kept, and the offset is the pressed one while pressed and the unpressed one otherwise |
| Buttons.Button.Draw | gdx/src/com/badlogic/gdx/scenes/scene2d/ui/Button.java:117-138 | the background is the draw precedence's choice, the paddings follow it as in `setBackground`, and the layout is valid afterwards with its reported sizes, skin and cells kept. Every child is drawn at its position plus the state's offset, showing the drawable it had when the draw began. Afterwards every child is back at exactly its position before the draw, with its drawable and scaling kept |
| Buttons.TranslateChildren | gdx/src/com/badlogic/gdx/scenes/scene2d/ui/Button.java:132-137 | each of the (distinct) children moves by exactly the offset, and its drawable and scaling do not change |
| Buttons.DrawBackgroundPrecedence | gdx/src/com/badlogic/gdx/scenes/scene2d/ui/Button.java:118-130 | the background is the first present of: `down` (only while pressed), `checked` (only while unpressed and checked), `up` |
| Buttons.StyleBackgroundMatchesDraw | gdx/src/com/badlogic/gdx/scenes/scene2d/ui/Button.java:104-130 | `setStyle`'s background equals the next draw's exactly unless the button is unpressed and checked with a `checked` drawable different from `up` |
| Buttons.Button.PrefWidth | gdx/src/com/badlogic/gdx/scenes/scene2d/ui/Button.java:140-146 | at least the layout's preferred width and at least the minimum width of each present up/down/checked drawable, and equal to one of these |
| Buttons.Button.PrefHeight | gdx/src/com/badlogic/gdx/scenes/scene2d/ui/Button.java:148-154 | the same as PrefWidth for heights |
| Buttons.Button.MinWidth | gdx/src/com/badlogic/gdx/scenes/scene2d/ui/Button.java:156-158 | equals the preferred width, so it shares its floors |
| Buttons.Button.MinHeight | gdx/src/com/badlogic/gdx/scenes/scene2d/ui/Button.java:160-162 | equals the preferred height, so it shares its floors |
| ImageButtons.ImageChoicePrecedence | gdx/src/com/badlogic/gdx/scenes/scene2d/ui/ImageButton.java:75-83 | the image drawable is the first present of: `imageDown` (only while pressed), `imageChecked` (only while checked), `imageUp` |
| ImageButtons.UpdatedImagePrecedence | gdx/src/com/badlogic/gdx/scenes/scene2d/ui/ImageButton.java:75-83 | the new drawable is the first present of `imageDown` (while pressed), `imageChecked` (while checked), `imageUp`, and the current drawable, so the image keeps its drawable when none of the three applies |
| ImageButtons.ImageAndBackgroundChainsDiffer | gdx/src/com/badlogic/gdx/scenes/scene2d/ui/ImageButton.java:77-80 | a pressed, checked button without `down` and `imageDown` shows `imageChecked` on an `up` background |
| ImageButtons.ImageButton.constructor | gdx/src/com/badlogic/gdx/scenes/scene2d/ui/ImageButton.java:26-34 | the first `setStyle` (from the Button constructor) runs while the image is null. The image is then created with fit scaling and added as the only child and cell, and it shows `imageUp` (unpressed, unchecked). The background is `up` with the paddings derived from it, and the layout has no skin |
| ImageButtons.ImageButton.AttachImage | gdx/src/com/badlogic/gdx/scenes/scene2d/ui/ImageButton.java:28-30 | a fresh Image with fit scaling and no drawable is appended as a child and as a cell, and the layout is stale; paddings, skin and reported sizes are kept |
| ImageButtons.ImageButton.ApplyStyle | gdx/src/com/badlogic/gdx/scenes/scene2d/ui/ImageButton.java:31-33 | both style fields hold the style, the background and paddings follow Button's `setStyle`, an existing image is updated and keeps its position and scaling, and the button is sized to its preferred size |
| ImageButtons.ImageButton.SetStyle | gdx/src/com/badlogic/gdx/scenes/scene2d/ui/ImageButton.java:64-69 | null or a plain ButtonStyle gives an illegal-argument error before any field changes. Otherwise both style fields hold the style, the background and paddings follow Button's `setStyle`, and the image is updated only if it exists |
| ImageButtons.ImageButton.UpdateImage | gdx/src/com/badlogic/gdx/scenes/scene2d/ui/ImageButton.java:75-83 | the image shows the image precedence's choice, or keeps its drawable when none is present |
| ImageButtons.ImageButton.Draw | gdx/src/com/badlogic/gdx/scenes/scene2d/ui/ImageButton.java:85-88 | the image is updated before Button's draw: while drawn, the image shows the drawable `updateImage` chose, and every other child shows the drawable it had. Only the image's drawable changes, and every child keeps its scaling. The background, paddings, offsets and restored positions are as for Button, and the layout's reported sizes, skin and cells are kept |

## Left out

- Rendering is not modelled: SpriteBatch colour and alpha, `drawBackground`, `drawChildren`, `applyTransform`/`resetTransform`, `setClip`, and `ScissorStack` with the camera. `Tables.Table.Draw` keeps only the validation.
- The TableLayout solver's internals are not modelled: how it computes sizes, how `layout()` places children, rows, column and cell defaults, `getRow`, the named registries (`register`, `getWidget(s)`, `getCell`, `getAllCells`, `getCells`, `setWidget`), `parse`, `stack`, `row`, `columnDefaults`, `defaults`, `reset` and `newTable`. Its reported sizes are fields that adding or clearing cells leaves as they are.
- The one-line forwarding setters and getters are not modelled: `size`, `width`, `height`, `pad*`, `align`, `center`/`top`/`left`/`bottom`/`right`, `debug`, `getDebug`, `getPad*`, `getAlign`, `getBackground`, `getTableLayout`, `setAssetManager`, `getStyle`, `isChecked()`, `isPressed()`, `getImage`, `getImageCell`.
- `getLayoutWidth` and `getLayoutHeight` are not modelled. `getLayoutWidth` returns the layout's height.
- `Tables.Table.Validate`: the placement of children by `layout()` is not modelled, so `validate` only clears the dirty flag. `Buttons.Button.Draw`'s restore property is therefore stated against the positions at the start of the draw.
- `Tables.Table.Add`: how TableLayout makes an actor a child is not shown. The model appends it to the children unless it already is one, and does not move it from another parent.
- One dirty flag stands for both the layout's cached sizes and WidgetGroup's needs-layout flag. `invalidateHierarchy` does not reach the ancestors, which are not modelled.
- `Buttons.ButtonGroup`: the group's members and min/max counts are not modelled. Its answer for each value is fixed during one call: it does not change between the click handler's toggle and its rollback, nor can event listeners change it.
- The click listener's pointer tracking and event dispatch are not modelled. Pressing is the field `pressed`, and a listener's cancellation is an input.
- Constructors that take a Skin, TextureRegion or NinePatch are not modelled (`Button(Skin)`, `Button(Actor, Skin)`, `ImageButton(Skin)` and the region/patch convenience constructors). They wrap collaborators that are not shown.
- Drawables and styles are values. A drawable's sizes can change in place in Java; the model sees that only as a new value with the same `id`, and does not track which other holders see the change. A ButtonStyle shared between buttons and modified in place (which `setStyle`'s documentation allows, Button.java:111-112) is not modelled: each button holds the style value it was last given.
- constructor: `Button(null)` throws IllegalArgumentException through `setStyle`, and `ImageButton(null)` throws it through the ImageButtonStyle check. The model's `Buttons.Button.constructor` and `ImageButtons.ImageButton.constructor` take a non-null style, because a Dafny constructor cannot fail. The same null-style refusal is modelled in `Buttons.Button.SetStyle` and `ImageButtons.ImageButton.SetStyle`.
- WithChild: `Button(Actor, ButtonStyle)` with a null style is not modelled, for the same reason. A null child is modelled.
- The style copy constructors take a non-null argument. Java's NullPointerException for a null argument is not modelled.
- Floating point is not modelled. Java's NaN-to-0 cast, the precision lost in the int-to-float conversion inside `Math.max`, and the rounding in translate-then-untranslate are all absent. Restoring the children's positions is exact only over the reals.
- The Image widget is reduced to its drawable and scaling. The Label widget is reduced to its text.
