/** The static `Table.drawDebug(Stage)` walk: when debugging was ever turned on, every Table in
    the stage's actor tree draws its debug lines, each before the tables below it. The stage's
    tree is read as a value; drawing a table's debug lines is recorded as visiting it. */
module TableDebug {
  import opened Styles

  /** An actor of the stage tree, as the debug walk sees it: its identity and, for a Group,
      its children. A Table is a Group. (`Tables.Actor` is the view of an actor that the
      Table and Button code move and redraw; the walk reads neither positions nor drawables.) */
  datatype ActorNode =
    | LeafActor(id: nat)
    | GroupActor(id: nat, children: seq<ActorNode>)
    | TableActor(id: nat, children: seq<ActorNode>)
  {
    predicate IsGroup() { GroupActor? || TableActor? }
  }

  /** Every actor of a forest, each one followed by its descendants (pre-order). */
  function AllActors(forest: seq<ActorNode>): seq<ActorNode>
  {
    if forest == [] then []
    else Subtree(forest[0]) + AllActors(forest[1..])
  }

  /** An actor followed by all its descendants. */
  function Subtree(actor: ActorNode): seq<ActorNode>
  {
    match actor
    case LeafActor(_) => [actor]
    case GroupActor(_, children) => [actor] + AllActors(children)
    case TableActor(_, children) => [actor] + AllActors(children)
  }

  /** The tables of a sequence of actors, in order. */
  function TablesOf(actors: seq<ActorNode>): (r: seq<ActorNode>)
  {
    if actors == [] then []
    else (if actors[0].TableActor? then [actors[0]] else []) + TablesOf(actors[1..])
  }

  lemma {:induction false} TablesOfAppend(a: seq<ActorNode>, b: seq<ActorNode>)
    ensures TablesOf(a + b) == TablesOf(a) + TablesOf(b)
  {
    if a != [] {
      assert (a + b)[0] == a[0] && (a + b)[1..] == a[1..] + b;
      TablesOfAppend(a[1..], b);
      var head := if a[0].TableActor? then [a[0]] else [];
      assert TablesOf(a + b) == head + (TablesOf(a[1..]) + TablesOf(b));
    } else {
      assert a + b == b;
    }
  }

  lemma {:induction false} AllActorsAppend(a: seq<ActorNode>, b: seq<ActorNode>)
    ensures AllActors(a + b) == AllActors(a) + AllActors(b)
  {
    if a != [] {
      assert (a + b)[0] == a[0] && (a + b)[1..] == a[1..] + b;
      AllActorsAppend(a[1..], b);
      assert AllActors(a + b) == Subtree(a[0]) + (AllActors(a[1..]) + AllActors(b));
    } else {
      assert a + b == b;
    }
  }

  /** Table.drawDebug(Stage): nothing when the toolkit's global debug flag is off, otherwise
      the walk of the stage's actors. */
  method DrawDebug(stageActors: seq<ActorNode>, drawDebug: bool) returns (visited: seq<ActorNode>)
    ensures !drawDebug ==> visited == []
    ensures drawDebug ==> visited == TablesOf(AllActors(stageActors))
  {
    if !drawDebug {
      return [];
    }
    visited := DrawDebugActors(stageActors);
  }

  /** The private drawDebug(Array<Actor>, SpriteBatch): for each actor in order, a table draws
      its debug lines, and a group's children are walked. */
  method DrawDebugActors(actors: seq<ActorNode>) returns (visited: seq<ActorNode>)
    ensures visited == TablesOf(AllActors(actors))
  {
    visited := [];
    for i := 0 to |actors|
      invariant visited == TablesOf(AllActors(actors[..i]))
    {
      var actor := actors[i];
      ghost var before := visited;
      if actor.TableActor? {
        visited := visited + [actor];
      }
      assert visited == before + (if actor.TableActor? then [actor] else []);
      if actor.IsGroup() {
        var inner := DrawDebugActors(actor.children);
        visited := visited + inner;
      }
      WalkStep(actors, i);
    }
    assert actors[..|actors|] == actors;
  }

  /** What one more actor adds to the walk: itself if it is a table, then the tables below it. */
  lemma {:induction false} WalkStep(actors: seq<ActorNode>, i: nat)
    requires i < |actors|
    ensures TablesOf(AllActors(actors[..i + 1])) ==
            TablesOf(AllActors(actors[..i])) +
            (if actors[i].TableActor? then [actors[i]] else []) +
            (if actors[i].IsGroup() then TablesOf(AllActors(actors[i].children)) else [])
  {
    var actor, before := actors[i], actors[..i];
    var below := if actor.IsGroup() then AllActors(actor.children) else [];
    var own := if actor.TableActor? then [actor] else [];
    assert actors[..i + 1] == before + [actor];
    AllActorsAppend(before, [actor]);
    assert AllActors([actor]) == Subtree(actor) by {
      assert [actor][1..] == [];
    }
    assert Subtree(actor) == [actor] + below;
    TablesOfAppend([actor], below);
    assert TablesOf([actor]) == own by {
      assert [actor][1..] == [];
    }
    TablesOfAppend(AllActors(before), Subtree(actor));
    assert TablesOf(AllActors(actors[..i + 1])) == TablesOf(AllActors(before)) + (own + TablesOf(below));
  }

  /** How often `x` occurs in `s`. */
  function Occurrences(s: seq<ActorNode>, x: ActorNode): nat
  {
    if s == [] then 0 else (if s[0] == x then 1 else 0) + Occurrences(s[1..], x)
  }

  lemma {:induction false} OccurrencesOfTablesOf(s: seq<ActorNode>, x: ActorNode)
    ensures Occurrences(TablesOf(s), x) == if x.TableActor? then Occurrences(s, x) else 0
  {
    if s != [] {
      OccurrencesOfTablesOf(s[1..], x);
      OccurrencesAppend(if s[0].TableActor? then [s[0]] else [], TablesOf(s[1..]), x);
    }
  }

  lemma {:induction false} OccurrencesAppend(a: seq<ActorNode>, b: seq<ActorNode>, x: ActorNode)
    ensures Occurrences(a + b, x) == Occurrences(a, x) + Occurrences(b, x)
  {
    if a != [] {
      assert (a + b)[0] == a[0] && (a + b)[1..] == a[1..] + b;
      OccurrencesAppend(a[1..], b, x);
    } else {
      assert a + b == b;
    }
  }

  lemma {:induction false} OccursOnce(s: seq<ActorNode>, x: ActorNode)
    requires Distinct(s) && x in s
    ensures Occurrences(s, x) == 1
  {
    if s[0] == x {
      NotOccurring(s[1..], x);
    } else {
      OccursOnce(s[1..], x);
    }
  }

  lemma {:induction false} NotOccurring(s: seq<ActorNode>, x: ActorNode)
    requires x !in s
    ensures Occurrences(s, x) == 0
  {
    if s != [] {
      NotOccurring(s[1..], x);
    }
  }

  /** When no actor occurs twice in the stage tree, the walk visits every table exactly once
      and visits nothing that is not a table of the tree. */
  lemma VisitsEachTableOnce(stageActors: seq<ActorNode>, x: ActorNode)
    requires Distinct(AllActors(stageActors))
    ensures Occurrences(TablesOf(AllActors(stageActors)), x) ==
            if x.TableActor? && x in AllActors(stageActors) then 1 else 0
  {
    var all := AllActors(stageActors);
    OccurrencesOfTablesOf(all, x);
    if x in all {
      OccursOnce(all, x);
    } else {
      NotOccurring(all, x);
    }
  }

  /** Every actor of the tree, with all its descendants right after it: the walk's order
      splits around the actor's subtree. */
  lemma {:induction false} SubtreeIsContiguous(forest: seq<ActorNode>, x: ActorNode)
    returns (pre: seq<ActorNode>, post: seq<ActorNode>)
    requires x in AllActors(forest)
    ensures AllActors(forest) == pre + Subtree(x) + post
  {
    var head, rest := forest[0], AllActors(forest[1..]);
    assert AllActors(forest) == Subtree(head) + rest;
    if x in Subtree(head) {
      var p, q := SubtreeWithin(head, x);
      pre, post := p, q + rest;
    } else {
      var p, q := SubtreeIsContiguous(forest[1..], x);
      pre, post := Subtree(head) + p, q;
      assert AllActors(forest) == (Subtree(head) + p) + Subtree(x) + q;
    }
  }

  /** The same within one actor's subtree. */
  lemma {:induction false} SubtreeWithin(actor: ActorNode, x: ActorNode)
    returns (pre: seq<ActorNode>, post: seq<ActorNode>)
    requires x in Subtree(actor)
    ensures Subtree(actor) == pre + Subtree(x) + post
  {
    if x == actor {
      pre, post := [], [];
    } else {
      assert actor.IsGroup() && Subtree(actor) == [actor] + AllActors(actor.children);
      var p, q := SubtreeIsContiguous(actor.children, x);
      pre, post := [actor] + p, q;
      assert Subtree(actor) == ([actor] + p) + Subtree(x) + q;
    }
  }

  /** Pre-order: each table the walk visits is followed at once by the tables below it. */
  lemma TableBeforeItsDescendants(stageActors: seq<ActorNode>, t: ActorNode)
    requires t.TableActor? && t in AllActors(stageActors)
    ensures exists pre, post ::
              TablesOf(AllActors(stageActors)) == pre + [t] + TablesOf(AllActors(t.children)) + post
  {
    var pre, post := SubtreeIsContiguous(stageActors, t);
    var below := TablesOf(AllActors(t.children));
    assert TablesOf(Subtree(t)) == [t] + below by {
      assert Subtree(t) == [t] + AllActors(t.children);
      TablesOfAppend([t], AllActors(t.children));
      assert TablesOf([t]) == [t] by {
        assert [t][1..] == [];
      }
    }
    TablesOfAppend(pre + Subtree(t), post);
    TablesOfAppend(pre, Subtree(t));
    assert TablesOf(AllActors(stageActors)) == TablesOf(pre) + ([t] + below) + TablesOf(post);
    assert TablesOf(AllActors(stageActors)) == TablesOf(pre) + [t] + below + TablesOf(post);
  }
}
