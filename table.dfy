/** The container logic of scene2d's tablelayout Table: background-derived padding, the
    background floor on the preferred size, the clip rectangle, and the table's cells. The
    layout solver (TableLayout) is a stand-in that holds what Table reads and writes of it. */
module Tables {
  import opened Styles

  const IntMax: int := 0x7fff_ffff
  const IntMin: int := -0x8000_0000

  /** Java's `(int)` cast of a float: truncation toward zero, saturating at the bounds of
      `int`. */
  function JavaIntCast(x: real): (r: int)
    ensures IntMin <= r <= IntMax
    ensures 0.0 <= x <= IntMax as real ==> r as real <= x < r as real + 1.0
    ensures IntMin as real <= x <= 0.0 ==> r as real - 1.0 < x <= r as real
    ensures x >= IntMax as real ==> r == IntMax
    ensures x <= IntMin as real ==> r == IntMin
  {
    if x >= IntMax as real then IntMax
    else if x <= IntMin as real then IntMin
    else if x >= 0.0 then x.Floor
    else -((-x).Floor)
  }

  /** Casting a float that holds an `int` value gives that value back. */
  lemma JavaIntCastOfInt(n: int)
    requires IntMin <= n <= IntMax
    ensures JavaIntCast(n as real) == n
  {
  }

  /** The value of a padding as the toolkit converts it to a width: an unset padding is 0. */
  function ToolkitWidth(pad: Option<int>): real
  {
    if pad.Some? then pad.value as real else 0.0
  }

  /** The four table paddings of a TableLayout, top, left, bottom, right. */
  datatype Pads = Pads(top: Option<int>, left: Option<int>, bottom: Option<int>, right: Option<int>)

  /** The paddings `setBackground` derives from a background: none for null, otherwise the
      drawable's four edge sizes cast to `int`. */
  function PadsFor(background: Option<Drawable>): (p: Pads)
  {
    if background.None? then Pads(None, None, None, None)
    else
      var d := background.value;
      Pads(Some(JavaIntCast(d.topHeight)), Some(JavaIntCast(d.leftWidth)),
           Some(JavaIntCast(d.bottomHeight)), Some(JavaIntCast(d.rightWidth)))
  }

  datatype Scaling = Stretch | Fit

  /** The kinds of actor the model creates: a Label holds its text, an Image shows a drawable. */
  datatype ActorKind = Widget | Label(text: string) | Image

  /** An actor's position, and for an Image, its drawable and scaling. */
  class Actor {
    const kind: ActorKind
    var x: real
    var y: real
    var drawable: Option<Drawable>
    var scaling: Scaling

    constructor (kind: ActorKind)
      ensures this.kind == kind && x == 0.0 && y == 0.0
      ensures drawable.None? && scaling == Stretch
    {
      this.kind := kind;
      x, y := 0.0, 0.0;
      drawable := None;
      scaling := Stretch;
    }

    method Translate(dx: real, dy: real)
      modifies this`x, this`y
      ensures x == old(x) + dx && y == old(y) + dy
    {
      x := x + dx;
      y := y + dy;
    }
  }

  /** Java's `==` on two drawable references: both null, or the same object. */
  predicate SameDrawable(a: Option<Drawable>, b: Option<Drawable>)
  {
    if a.Some? && b.Some? then a.value.id == b.value.id else a.None? && b.None?
  }

  /** A libgdx Rectangle. */
  class Rect {
    var x: real
    var y: real
    var width: real
    var height: real

    constructor ()
      ensures x == 0.0 && y == 0.0 && width == 0.0 && height == 0.0
    {
      x, y, width, height := 0.0, 0.0, 0.0, 0.0;
    }
  }

  /** A skin, known only by its identity. */
  datatype Skin = Skin(id: nat)

  /** A cell of the table, holding its actor or nothing (a placeholder). */
  datatype Cell = Cell(actor: Option<Actor>)

  /** What the layout solver reports and keeps, apart from its paddings. */
  datatype Engine = Engine(prefWidth: real, prefHeight: real, minWidth: real, minHeight: real,
                           skin: Option<Skin>, cells: seq<Cell>)

  /** The table's layout solver: its paddings, the sizes it computed, whether those are
      stale, the skin, and the cells. How the sizes are computed is not modelled. */
  class TableLayout {
    var padTop: Option<int>
    var padLeft: Option<int>
    var padBottom: Option<int>
    var padRight: Option<int>
    var prefWidth: real
    var prefHeight: real
    var minWidth: real
    var minHeight: real
    var dirty: bool
    var skin: Option<Skin>
    var cells: seq<Cell>

    constructor (skin: Option<Skin>)
      ensures PadState() == Pads(None, None, None, None)
      ensures this.skin == skin && cells == [] && dirty
    {
      padTop, padLeft, padBottom, padRight := None, None, None, None;
      prefWidth, prefHeight, minWidth, minHeight := 0.0, 0.0, 0.0, 0.0;
      dirty := true;
      this.skin := skin;
      cells := [];
    }

    function PadState(): Pads
      reads this
    {
      Pads(padTop, padLeft, padBottom, padRight)
    }

    function EngineState(): Engine
      reads this
    {
      Engine(prefWidth, prefHeight, minWidth, minHeight, skin, cells)
    }

    method Invalidate()
      modifies this`dirty
      ensures dirty
    {
      dirty := true;
    }

    /** `pad(String)` with null, and the four per-side setters with ints. */
    method SetPads(p: Pads)
      modifies this`padTop, this`padLeft, this`padBottom, this`padRight
      ensures PadState() == p
    {
      padTop, padLeft, padBottom, padRight := p.top, p.left, p.bottom, p.right;
    }

    /** Lays the cells out; the computed sizes are fresh again. */
    method Layout()
      modifies this`dirty
      ensures !dirty
    {
      dirty := false;
    }
  }

  class Table {
    const layout: TableLayout
    const tableBounds: Rect
    var background: Option<Drawable>
    var children: seq<Actor>
    var width: real
    var height: real

    ghost predicate Valid()
      reads this
    {
      Distinct(children)
    }

    /** `Table(skin, null)`: a fresh layout holding the skin. */
    constructor (skin: Option<Skin>)
      ensures Valid() && fresh(layout) && fresh(tableBounds)
      ensures background.None? && children == [] && width == 0.0 && height == 0.0
      ensures layout.PadState() == Pads(None, None, None, None)
      ensures layout.skin == skin && layout.cells == [] && layout.dirty
    {
      layout := new TableLayout(skin);
      tableBounds := new Rect();
      background := None;
      children := [];
      width, height := 0.0, 0.0;
    }

    /** `invalidate()`: the layout's sizes are stale. */
    method Invalidate()
      modifies layout`dirty
      ensures layout.dirty
    {
      layout.Invalidate();
    }

    /** `validate()`: lays the table out when it is stale. */
    method Validate()
      modifies layout`dirty
      ensures !layout.dirty
    {
      if layout.dirty {
        layout.Layout();
      }
    }

    /** `draw`, of which only the validation touches the model's state. */
    method Draw()
      modifies layout`dirty
      ensures !layout.dirty
    {
      Validate();
    }

    /** `getPrefWidth()`: the layout's preferred width, floored by the background's
        minimum width (cast to `int`) when there is a background. */
    function PrefWidth(): (w: real)
      reads this, layout
      ensures w >= layout.prefWidth
      ensures background.None? ==> w == layout.prefWidth
      ensures background.Some? ==>
                w >= JavaIntCast(background.value.minWidth) as real &&
                (w == layout.prefWidth || w == JavaIntCast(background.value.minWidth) as real)
    {
      if background.Some? then Max(layout.prefWidth, JavaIntCast(background.value.minWidth) as real)
      else layout.prefWidth
    }

    /** `getPrefHeight()`, as PrefWidth for heights. */
    function PrefHeight(): (h: real)
      reads this, layout
      ensures h >= layout.prefHeight
      ensures background.None? ==> h == layout.prefHeight
      ensures background.Some? ==>
                h >= JavaIntCast(background.value.minHeight) as real &&
                (h == layout.prefHeight || h == JavaIntCast(background.value.minHeight) as real)
    {
      if background.Some? then Max(layout.prefHeight, JavaIntCast(background.value.minHeight) as real)
      else layout.prefHeight
    }

    /** `getMinWidth()`: the background puts no floor under the minimum width. */
    function MinWidth(): (w: real)
      reads this, layout
      ensures w == layout.minWidth
    {
      layout.minWidth
    }

    /** `getMinHeight()`: the background puts no floor under the minimum height. */
    function MinHeight(): (h: real)
      reads this, layout
      ensures h == layout.minHeight
    {
      layout.minHeight
    }

    /** `setBackground`: nothing happens when the drawable is the object already set, even
        if its sizes changed since. Otherwise the drawable is stored and the paddings are
        derived from it; only a non-null drawable invalidates. */
    method SetBackground(bg: Option<Drawable>)
      modifies this`background, layout
      ensures background == bg
      ensures layout.EngineState() == old(layout.EngineState())
      ensures SameDrawable(old(background), bg) ==>
                layout.PadState() == old(layout.PadState()) && layout.dirty == old(layout.dirty)
      ensures !SameDrawable(old(background), bg) ==> layout.PadState() == PadsFor(bg)
      ensures !SameDrawable(old(background), bg) && bg.None? ==> layout.dirty == old(layout.dirty)
      ensures !SameDrawable(old(background), bg) && bg.Some? ==> layout.dirty
    {
      if SameDrawable(background, bg) {
        // The same object: the field already refers to it, in its current state `bg`.
        background := bg;
        return;
      }
      background := bg;
      if bg.None? {
        layout.SetPads(Pads(None, None, None, None));
      } else {
        var d := bg.value;
        layout.SetPads(Pads(Some(JavaIntCast(d.topHeight)), Some(JavaIntCast(d.leftWidth)),
                            Some(JavaIntCast(d.bottomHeight)), Some(JavaIntCast(d.rightWidth))));
        Invalidate();
      }
    }

    /** The `tableBounds` part of `calculateScissors`: the whole table without a background,
        otherwise the table inset by its four paddings. */
    method CalculateScissors()
      modifies tableBounds
      ensures background.None? ==>
                tableBounds.x == 0.0 && tableBounds.y == 0.0 &&
                tableBounds.width == width && tableBounds.height == height
      ensures background.Some? ==>
                tableBounds.x == ToolkitWidth(layout.padLeft) &&
                tableBounds.y == ToolkitWidth(layout.padBottom) &&
                tableBounds.x + tableBounds.width == width - ToolkitWidth(layout.padRight) &&
                tableBounds.y + tableBounds.height == height - ToolkitWidth(layout.padTop)
    {
      tableBounds.x := 0.0;
      tableBounds.y := 0.0;
      tableBounds.width := width;
      tableBounds.height := height;
      if background.Some? {
        tableBounds.x := tableBounds.x + ToolkitWidth(layout.padLeft);
        tableBounds.y := tableBounds.y + ToolkitWidth(layout.padBottom);
        tableBounds.width := tableBounds.width - (tableBounds.x + ToolkitWidth(layout.padRight));
        tableBounds.height := tableBounds.height - (tableBounds.y + ToolkitWidth(layout.padTop));
      }
    }

    /** `clear()`: no children and no cells; the layout is stale. */
    method Clear()
      requires Valid()
      modifies this`children, layout
      ensures Valid() && children == [] && layout.cells == [] && layout.dirty
      ensures layout.PadState() == old(layout.PadState())
      ensures layout.EngineState() == old(layout.EngineState()).(cells := [])
    {
      children := [];
      layout.cells := [];
      Invalidate();
    }

    /** `add(Actor)`: appends a cell holding the actor (none for a placeholder) and makes the
        actor a child of the table; the layout is stale. */
    method Add(actor: Option<Actor>) returns (cell: Cell)
      requires Valid()
      modifies this`children, layout
      ensures Valid() && cell.actor == actor && layout.cells == old(layout.cells) + [cell]
      ensures children == if actor.Some? && actor.value !in old(children)
                          then old(children) + [actor.value] else old(children)
      ensures layout.dirty && layout.PadState() == old(layout.PadState())
      ensures layout.EngineState() == old(layout.EngineState()).(cells := layout.cells)
    {
      cell := Cell(actor);
      layout.cells := layout.cells + [cell];
      if actor.Some? && actor.value !in children {
        children := children + [actor.value];
      }
      Invalidate();
    }

    /** `add(String)`: without a skin, an illegal-state error and no change; otherwise a new
        Label with the text is added. */
    method AddText(text: string) returns (r: Result<Cell>)
      requires Valid()
      modifies this`children, layout
      ensures Valid()
      ensures layout.skin.None? ==>
                r == Err(IllegalState("Table must have a skin set to use this method.")) &&
                children == old(children) && unchanged(layout)
      ensures layout.skin.Some? ==>
                r.Ok? && r.value.actor.Some? && fresh(r.value.actor.value) &&
                r.value.actor.value.kind == Label(text) &&
                layout.cells == old(layout.cells) + [r.value] &&
                children == old(children) + [r.value.actor.value] && layout.dirty &&
                layout.PadState() == old(layout.PadState()) &&
                layout.EngineState() == old(layout.EngineState()).(cells := layout.cells)
    {
      if layout.skin.None? {
        return Err(IllegalState("Table must have a skin set to use this method."));
      }
      var created := new Actor(Label(text));
      var cell := Add(Some(created));
      r := Ok(cell);
    }

    /** `setSkin` */
    method SetSkin(skin: Option<Skin>)
      modifies layout`skin
      ensures layout.skin == skin
    {
      layout.skin := skin;
    }
  }

  function Max(a: real, b: real): real
  {
    if a >= b then a else b
  }
}
