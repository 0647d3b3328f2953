/** Placing primitives on the canvas. Coordinates are integers. */
module TemplateLayout {
  import opened Common
  import opened ConnectivityTemplate

  const X_INITIAL := 290
  const Y_INITIAL := 80
  const X_SPACING := 200
  const Y_SPACING := 70

  type Positions = map<ObjectId, Position>

  datatype Layout = Layout(positions: Positions, width: nat)

  datatype LayoutError = NoId

  /** positions(): a primitive stands above its children, which stand side by side. */
  function Place(p: Primitive, x: int, y: int): Result<Layout, LayoutError>
    decreases p, 1
  {
    if p.id.None? then Err(NoId) else
    var below :- PlaceAll(p.subpolicies, x, y + Y_SPACING);
    Ok(Layout(map[p.id.value := Position(x, y, 1)] + below.positions, if below.width == 0 then 1 else below.width))
  }

  function PlaceAll(ps: seq<Primitive>, x: int, y: int): Result<Layout, LayoutError>
    decreases ps, 0
  {
    if ps == [] then Ok(Layout(map[], 0)) else
    var head :- Place(ps[0], x, y);
    Beside(head, PlaceAll(ps[1..], x + head.width * X_SPACING, y))
  }

  /** The loop of positions(), which merges the children's maps one by one. */
  method PositionsOf(p: Primitive, x: int, y: int) returns (r: Result<Layout, LayoutError>)
    ensures r == Place(p, x, y)
  {
    if p.id.None? {
      return Err(NoId);
    }
    var width: nat := 0;
    var positions := map[p.id.value := Position(x, y, 1)];
    ghost var row := Beside(Layout(positions, 0), PlaceAll(p.subpolicies, x, y + Y_SPACING));
    for i := 0 to |p.subpolicies|
      invariant Remains(row, Layout(positions, width), p.subpolicies[i..], x + width * X_SPACING, y + Y_SPACING)
    {
      var sub := PositionsOf(p.subpolicies[i], x + width * X_SPACING, y + Y_SPACING);
      PlaceNext(row, Layout(positions, width), p.subpolicies, i, x + width * X_SPACING, y + Y_SPACING, sub);
      if sub.Err? {
        return Err(sub.error);
      }
      positions := positions + sub.value.positions;
      width := width + sub.value.width;
    }
    Merging(positions, Ok(Layout(map[], 0)));
    if width == 0 {
      width := width + 1;
    }
    r := Ok(Layout(positions, width));
  }

  /** A row is what has been placed and, beside it, what is still to be placed. */
  ghost predicate Remains(row: Result<Layout, LayoutError>, left: Layout, rest: seq<Primitive>, x: int, y: int) {
    row == Beside(left, PlaceAll(rest, x, y))
  }

  lemma PlaceNext(row: Result<Layout, LayoutError>, left: Layout, ps: seq<Primitive>, i: nat, x: int, y: int,
                  one: Result<Layout, LayoutError>)
    requires i < |ps| && Remains(row, left, ps[i..], x, y) && one == Place(ps[i], x, y)
    ensures one.Err? ==> row == Err(one.error)
    ensures one.Ok? ==>
              Remains(row, Layout(left.positions + one.value.positions, left.width + one.value.width), ps[i + 1..],
                      x + one.value.width * X_SPACING, y)
  {
    assert ps[i..][1..] == ps[i + 1..];
    if one.Ok? {
      BesideAssociates(left, one.value, PlaceAll(ps[i + 1..], x + one.value.width * X_SPACING, y));
    }
  }

  /** A layout with another to its right, if that one could be made. */
  function Beside(left: Layout, right: Result<Layout, LayoutError>): Result<Layout, LayoutError> {
    if right.Err? then right
    else Ok(Layout(left.positions + right.value.positions, left.width + right.value.width))
  }

  lemma BesideAssociates(a: Layout, b: Layout, c: Result<Layout, LayoutError>)
    ensures Beside(a, Beside(b, c)) == Beside(Layout(a.positions + b.positions, a.width + b.width), c)
  {
    if c.Ok? {
      assert a.positions + (b.positions + c.value.positions) == a.positions + b.positions + c.value.positions;
    }
  }

  lemma Merging(left: Positions, right: Result<Layout, LayoutError>)
    ensures Beside(Layout(map[], 0), right) == right
    ensures left + map[] == left
  {
    assert right.Ok? ==> map[] + right.value.positions == right.value.positions;
  }

  // ----- no two primitives in one place -----

  ghost function Ids(p: Primitive): set<ObjectId> {
    (if p.id.Some? then {p.id.value} else {}) + IdsIn(p.subpolicies)
  }

  ghost function IdsIn(ps: seq<Primitive>): set<ObjectId> {
    if ps == [] then {} else Ids(ps[0]) + IdsIn(ps[1..])
  }

  /** Every primitive has an ID, and no two have the same. */
  ghost predicate Named(p: Primitive) {
    p.id.Some? && p.id.value !in IdsIn(p.subpolicies) && AllNamed(p.subpolicies)
  }

  ghost predicate AllNamed(ps: seq<Primitive>) {
    ps != [] ==> Named(ps[0]) && Ids(ps[0]) !! IdsIn(ps[1..]) && AllNamed(ps[1..])
  }

  function Leaves(p: Primitive): nat {
    if p.subpolicies == [] then 1 else LeavesIn(p.subpolicies)
  }

  function LeavesIn(ps: seq<Primitive>): nat {
    if ps == [] then 0 else Leaves(ps[0]) + LeavesIn(ps[1..])
  }

  ghost predicate NoOverlap(m: Positions) {
    forall a, b | a in m && b in m && a != b :: !SamePlace(m, a, b)
  }

  lemma {:induction false} AtLeastOneLeaf(p: Primitive)
    ensures Leaves(p) >= 1
  {
    if p.subpolicies != [] {
      AtLeastOneLeaf(p.subpolicies[0]);
    }
  }

  /** Exactly the IDs of the tree are placed, in as many columns as it has leaves. */
  lemma {:induction false} Placed(p: Primitive, x: int, y: int)
    requires Named(p)
    ensures Place(p, x, y).Ok?
    ensures var l := Place(p, x, y).value;
            l.positions.Keys == Ids(p) && l.width == Leaves(p) && l.positions[p.id.value] == Position(x, y, 1)
    decreases p, 1
  {
    AllPlaced(p.subpolicies, x, y + Y_SPACING);
    if p.subpolicies != [] {
      AtLeastOneLeaf(p.subpolicies[0]);
    }
  }

  lemma {:induction false} AllPlaced(ps: seq<Primitive>, x: int, y: int)
    requires AllNamed(ps)
    ensures PlaceAll(ps, x, y).Ok?
    ensures var l := PlaceAll(ps, x, y).value; l.positions.Keys == IdsIn(ps) && l.width == LeavesIn(ps)
    decreases ps, 0
  {
    if ps != [] {
      Placed(ps[0], x, y);
      AllPlaced(ps[1..], x + Leaves(ps[0]) * X_SPACING, y);
    }
  }

  lemma PlacedBelow(p: Primitive, x: int, y: int, a: ObjectId)
    requires Named(p) && a in Ids(p) && a != p.id.value
    ensures Place(p, x, y).Ok? && PlaceAll(p.subpolicies, x, y + Y_SPACING).Ok?
    ensures var below := PlaceAll(p.subpolicies, x, y + Y_SPACING).value.positions;
            && a in IdsIn(p.subpolicies) && a in below
            && a in Place(p, x, y).value.positions && Place(p, x, y).value.positions[a] == below[a]
  {
    AllPlaced(p.subpolicies, x, y + Y_SPACING);
  }

  lemma PlaceAllUnfolds(ps: seq<Primitive>, x: int, y: int, head: Layout, tail: Layout)
    requires ps != [] && Place(ps[0], x, y) == Ok(head)
    requires PlaceAll(ps[1..], x + head.width * X_SPACING, y) == Ok(tail)
    ensures PlaceAll(ps, x, y) == Ok(Layout(head.positions + tail.positions, head.width + tail.width))
  {
  }

  lemma Merged(head: Positions, tail: Positions, a: ObjectId)
    ensures a in head && a !in tail ==> a in head + tail && (head + tail)[a] == head[a]
    ensures a in tail ==> a in head + tail && (head + tail)[a] == tail[a]
  {
  }

  ghost predicate IsAt(l: Result<Layout, LayoutError>, a: ObjectId, at: Position) {
    l.Ok? && a in l.value.positions && l.value.positions[a] == at
  }

  /** A row is its first tree and, beside it, the rest of the row. */
  lemma RowSplits(ps: seq<Primitive>, x: int, y: int, next: int) returns (head: Layout, tail: Layout)
    requires AllNamed(ps) && ps != [] && next == x + Leaves(ps[0]) * X_SPACING
    ensures Place(ps[0], x, y) == Ok(head) && head.positions.Keys == Ids(ps[0])
    ensures PlaceAll(ps[1..], next, y) == Ok(tail) && tail.positions.Keys == IdsIn(ps[1..])
    ensures PlaceAll(ps, x, y) == Ok(Layout(head.positions + tail.positions, head.width + tail.width))
  {
    Placed(ps[0], x, y);
    AllPlaced(ps[1..], next, y);
    head, tail := Place(ps[0], x, y).value, PlaceAll(ps[1..], next, y).value;
    PlaceAllUnfolds(ps, x, y, head, tail);
  }

  lemma PlacedInFirst(ps: seq<Primitive>, x: int, y: int, a: ObjectId) returns (at: Position)
    requires AllNamed(ps) && ps != [] && a in Ids(ps[0])
    ensures IsAt(PlaceAll(ps, x, y), a, at) && IsAt(Place(ps[0], x, y), a, at)
  {
    var head, tail := RowSplits(ps, x, y, x + Leaves(ps[0]) * X_SPACING);
    Merged(head.positions, tail.positions, a);
    at := head.positions[a];
  }

  lemma PlacedInRest(ps: seq<Primitive>, x: int, y: int, a: ObjectId) returns (at: Position)
    requires AllNamed(ps) && ps != [] && a in IdsIn(ps[1..])
    ensures IsAt(PlaceAll(ps, x, y), a, at) && IsAt(PlaceAll(ps[1..], x + Leaves(ps[0]) * X_SPACING, y), a, at)
  {
    var head, tail := RowSplits(ps, x, y, x + Leaves(ps[0]) * X_SPACING);
    Merged(head.positions, tail.positions, a);
    at := tail.positions[a];
  }

  /** Where an ID is in a row is where it is in the first tree or in the rest of the row. */
  lemma PlacedIn(ps: seq<Primitive>, x: int, y: int, a: ObjectId) returns (at: Position)
    requires AllNamed(ps) && a in IdsIn(ps)
    ensures IsAt(PlaceAll(ps, x, y), a, at)
    ensures if a in Ids(ps[0]) then IsAt(Place(ps[0], x, y), a, at)
            else a in IdsIn(ps[1..]) && IsAt(PlaceAll(ps[1..], x + Leaves(ps[0]) * X_SPACING, y), a, at)
  {
    if a in Ids(ps[0]) {
      at := PlacedInFirst(ps, x, y, a);
    } else {
      at := PlacedInRest(ps, x, y, a);
    }
  }

  /** Each primitive is inside the columns of its tree, and only the root is in the top row. */
  lemma {:induction false} InColumns(p: Primitive, x: int, y: int, a: ObjectId)
    requires Named(p) && a in Ids(p)
    ensures Place(p, x, y).Ok? && a in Place(p, x, y).value.positions
    ensures var at := Place(p, x, y).value.positions[a];
            && x <= at.x < x + Leaves(p) * X_SPACING && at.y >= y
            && (a != p.id.value ==> at.y > y)
    decreases p, 1
  {
    AtLeastOneLeaf(p);
    if a == p.id.value {
      Placed(p, x, y);
    } else {
      PlacedBelow(p, x, y, a);
      AllInColumns(p.subpolicies, x, y + Y_SPACING, a);
    }
  }

  lemma {:induction false} AllInColumns(ps: seq<Primitive>, x: int, y: int, a: ObjectId)
    requires AllNamed(ps) && a in IdsIn(ps)
    ensures PlaceAll(ps, x, y).Ok? && a in PlaceAll(ps, x, y).value.positions
    ensures var at := PlaceAll(ps, x, y).value.positions[a];
            x <= at.x < x + LeavesIn(ps) * X_SPACING && at.y >= y
    decreases ps, 0
  {
    var at := PlacedIn(ps, x, y, a);
    if a in Ids(ps[0]) {
      InColumns(ps[0], x, y, a);
    } else {
      AllInColumns(ps[1..], x + Leaves(ps[0]) * X_SPACING, y, a);
    }
  }

  ghost predicate SamePlace(m: Positions, a: ObjectId, b: ObjectId)
    requires a in m && b in m
  {
    m[a].x == m[b].x && m[a].y == m[b].y
  }

  /** No two primitives of a tree are in one place. */
  lemma {:induction false} PlacedApart(p: Primitive, x: int, y: int, a: ObjectId, b: ObjectId)
    returns (at: Position, bt: Position)
    requires Named(p) && a in Ids(p) && b in Ids(p) && a != b
    ensures IsAt(Place(p, x, y), a, at) && IsAt(Place(p, x, y), b, bt)
    ensures at.x != bt.x || at.y != bt.y
    decreases p, 1
  {
    Placed(p, x, y);
    at, bt := Place(p, x, y).value.positions[a], Place(p, x, y).value.positions[b];
    if a == p.id.value {
      InColumns(p, x, y, b);
    } else if b == p.id.value {
      InColumns(p, x, y, a);
    } else {
      PlacedBelow(p, x, y, a);
      PlacedBelow(p, x, y, b);
      at, bt := AllPlacedApart(p.subpolicies, x, y + Y_SPACING, a, b);
    }
  }

  lemma {:induction false} AllPlacedApart(ps: seq<Primitive>, x: int, y: int, a: ObjectId, b: ObjectId)
    returns (at: Position, bt: Position)
    requires AllNamed(ps) && a in IdsIn(ps) && b in IdsIn(ps) && a != b
    ensures IsAt(PlaceAll(ps, x, y), a, at) && IsAt(PlaceAll(ps, x, y), b, bt)
    ensures at.x != bt.x || at.y != bt.y
    decreases ps, 0
  {
    var next := x + Leaves(ps[0]) * X_SPACING;
    at := PlacedIn(ps, x, y, a);
    bt := PlacedIn(ps, x, y, b);
    if a in Ids(ps[0]) && b in Ids(ps[0]) {
      var at', bt' := PlacedApart(ps[0], x, y, a, b);
    } else if a in Ids(ps[0]) {
      InColumns(ps[0], x, y, a);
      AllInColumns(ps[1..], next, y, b);
    } else if b in Ids(ps[0]) {
      InColumns(ps[0], x, y, b);
      AllInColumns(ps[1..], next, y, a);
    } else {
      var at', bt' := AllPlacedApart(ps[1..], next, y, a, b);
    }
  }

  /** The layout of one tree: a place for each ID of the tree and for no other, no two in one
      place, in as many columns as the tree has leaves. */
  lemma LayoutOfTree(p: Primitive, x: int, y: int)
    requires Named(p)
    ensures Place(p, x, y).Ok?
    ensures var l := Place(p, x, y).value;
            l.positions.Keys == Ids(p) && l.width == Leaves(p) && NoOverlap(l.positions)
  {
    Placed(p, x, y);
    forall a, b | a in Ids(p) && b in Ids(p) && a != b
      ensures !SamePlace(Place(p, x, y).value.positions, a, b)
    {
      var at, bt := PlacedApart(p, x, y, a, b);
    }
  }

  // ----- each primitive's place -----

  /** A primitive's place in a tree: which child to go to, level by level. */
  predicate InTree(p: Primitive, path: seq<nat>)
    decreases |path|
  {
    path == [] || (path[0] < |p.subpolicies| && InTree(p.subpolicies[path[0]], path[1..]))
  }

  function At(p: Primitive, path: seq<nat>): Primitive
    requires InTree(p, path)
    decreases |path|
  {
    if path == [] then p else At(p.subpolicies[path[0]], path[1..])
  }

  /** How many leaves of the tree are to the left of it. */
  function LeavesLeft(p: Primitive, path: seq<nat>): nat
    requires InTree(p, path)
    decreases |path|
  {
    if path == [] then 0
    else LeavesIn(p.subpolicies[..path[0]]) + LeavesLeft(p.subpolicies[path[0]], path[1..])
  }

  lemma {:induction false} OfRow(ps: seq<Primitive>, i: nat)
    requires AllNamed(ps) && i < |ps|
    ensures Named(ps[i]) && Ids(ps[i]) <= IdsIn(ps)
  {
    if i > 0 {
      OfRow(ps[1..], i - 1);
    }
  }

  lemma {:induction false} OfTree(p: Primitive, path: seq<nat>)
    requires Named(p) && InTree(p, path)
    ensures At(p, path).id.Some? && At(p, path).id.value in Ids(p)
    decreases |path|
  {
    if path != [] {
      OfRow(p.subpolicies, path[0]);
      OfTree(p.subpolicies[path[0]], path[1..]);
    }
  }

  /** A tree in a row is placed as it would be alone, past the leaves of those before it. */
  lemma {:induction false} OfRowPlaced(ps: seq<Primitive>, x: int, y: int, i: nat, a: ObjectId, at: Position)
    requires AllNamed(ps) && i < |ps| && a in Ids(ps[i])
    requires IsAt(Place(ps[i], x + LeavesIn(ps[..i]) * X_SPACING, y), a, at)
    ensures IsAt(PlaceAll(ps, x, y), a, at)
  {
    if i == 0 {
      var at' := PlacedInFirst(ps, x, y, a);
    } else {
      assert ps[..i][0] == ps[0] && ps[..i][1..] == ps[1..][..i - 1];
      var next := x + Leaves(ps[0]) * X_SPACING;
      assert next + LeavesIn(ps[1..][..i - 1]) * X_SPACING == x + LeavesIn(ps[..i]) * X_SPACING;
      OfRow(ps[1..], i - 1);
      OfRowPlaced(ps[1..], next, y, i - 1, a, at);
      var at' := PlacedInRest(ps, x, y, a);
    }
  }

  /** Every primitive of a tree stands to the right of the root by 200 for each leaf to its left, and
      below it by 70 for each level. */
  lemma {:induction false} PlacedByPath(p: Primitive, x: int, y: int, path: seq<nat>)
    requires Named(p) && InTree(p, path)
    ensures At(p, path).id.Some?
    ensures IsAt(Place(p, x, y), At(p, path).id.value, Position(x + 200 * LeavesLeft(p, path), y + 70 * |path|, 1))
    decreases |path|
  {
    OfTree(p, path);
    Placed(p, x, y);
    if path != [] {
      var i, a := path[0], At(p, path).id.value;
      OfRow(p.subpolicies, i);
      OfTree(p.subpolicies[i], path[1..]);
      var left := x + LeavesIn(p.subpolicies[..i]) * X_SPACING;
      PlacedByPath(p.subpolicies[i], left, y + Y_SPACING, path[1..]);
      OfRowPlaced(p.subpolicies, x, y + Y_SPACING, i, a,
                  Position(x + 200 * LeavesLeft(p, path), y + 70 * |path|, 1));
      PlacedBelow(p, x, y, a);
    }
  }

  // ----- the top level -----

  /** SetUserData() from a given width on: a primitive no wider than all that stands to its
      left does not move the next one along. */
  function PlaceTop(ps: seq<Primitive>, width: nat): Result<Layout, LayoutError> {
    if ps == [] then Ok(Layout(map[], 0)) else
    var head :- Place(ps[0], X_INITIAL + width * X_SPACING, Y_INITIAL);
    Beside(head, PlaceTop(ps[1..], Advance(width, head.width)))
  }

  function Advance(width: nat, subpolicyWidth: nat): nat {
    if subpolicyWidth > width then width + subpolicyWidth else width
  }

  ghost predicate RemainsTop(row: Result<Layout, LayoutError>, left: Layout, rest: seq<Primitive>, width: nat) {
    row == Beside(left, PlaceTop(rest, width))
  }

  lemma PlaceNextTop(row: Result<Layout, LayoutError>, left: Layout, ps: seq<Primitive>, i: nat, width: nat,
                     one: Result<Layout, LayoutError>)
    requires i < |ps| && RemainsTop(row, left, ps[i..], width)
    requires one == Place(ps[i], X_INITIAL + width * X_SPACING, Y_INITIAL)
    ensures one.Err? ==> row == Err(one.error)
    ensures one.Ok? ==>
              RemainsTop(row, Layout(left.positions + one.value.positions, left.width + one.value.width), ps[i + 1..],
                         Advance(width, one.value.width))
  {
    assert ps[i..][1..] == ps[i + 1..];
    if one.Ok? {
      BesideAssociates(left, one.value, PlaceTop(ps[i + 1..], Advance(width, one.value.width)));
    }
  }

  /** The loop of SetUserData(). */
  method PlaceSubpolicies(ps: seq<Primitive>) returns (r: Result<Positions, LayoutError>)
    ensures PlaceTop(ps, 0).Err? ==> r == Err(PlaceTop(ps, 0).error)
    ensures PlaceTop(ps, 0).Ok? ==> r == Ok(PlaceTop(ps, 0).value.positions)
  {
    var positions: Positions := map[];
    var width: nat := 0;
    ghost var total: nat := 0;
    ghost var row := PlaceTop(ps, 0);
    Merging(map[], row);
    for i := 0 to |ps|
      invariant RemainsTop(row, Layout(positions, total), ps[i..], width)
    {
      var sub := PositionsOf(ps[i], X_INITIAL + width * X_SPACING, Y_INITIAL);
      PlaceNextTop(row, Layout(positions, total), ps, i, width, sub);
      if sub.Err? {
        return Err(sub.error);
      }
      positions := positions + sub.value.positions;
      total := total + sub.value.width;
      if sub.value.width > width {
        width := width + sub.value.width;
      }
    }
    Merging(positions, Ok(Layout(map[], 0)));
    r := Ok(positions);
  }

  method SetUserData(t: Template) returns (r: Result<Template, LayoutError>)
    ensures PlaceTop(t.subpolicies, 0).Err? ==> r == Err(PlaceTop(t.subpolicies, 0).error)
    ensures PlaceTop(t.subpolicies, 0).Ok? ==>
              r == Ok(t.(userData := Some(UserData(true, Some(PlaceTop(t.subpolicies, 0).value.positions)))))
  {
    var positions := PlaceSubpolicies(t.subpolicies);
    r := if positions.Err? then Err(positions.error)
         else Ok(t.(userData := Some(UserData(true, Some(positions.value)))));
  }

  /** Each primitive but the last is wider than all that stands to its left. */
  ghost predicate Widening(ps: seq<Primitive>, width: nat) {
    |ps| > 1 ==> Leaves(ps[0]) > width && Widening(ps[1..], width + Leaves(ps[0]))
  }

  lemma {:induction false} TopPlaced(ps: seq<Primitive>, width: nat)
    requires AllNamed(ps)
    ensures PlaceTop(ps, width).Ok?
    ensures PlaceTop(ps, width).value.positions.Keys == IdsIn(ps)
    ensures ps != [] ==>
              PlaceTop(ps, width).value.positions[ps[0].id.value]
              == Position(X_INITIAL + width * X_SPACING, Y_INITIAL, 1)
  {
    if ps != [] {
      Placed(ps[0], X_INITIAL + width * X_SPACING, Y_INITIAL);
      TopPlaced(ps[1..], Advance(width, Leaves(ps[0])));
    }
  }

  lemma {:induction false} TopInColumns(ps: seq<Primitive>, width: nat, a: ObjectId)
    requires AllNamed(ps) && a in IdsIn(ps) && Widening(ps, width)
    requires PlaceTop(ps, width).Ok? && a in PlaceTop(ps, width).value.positions
    ensures PlaceTop(ps, width).value.positions[a].x >= X_INITIAL + width * X_SPACING
  {
    Placed(ps[0], X_INITIAL + width * X_SPACING, Y_INITIAL);
    TopPlaced(ps[1..], Advance(width, Leaves(ps[0])));
    if a in Ids(ps[0]) {
      InColumns(ps[0], X_INITIAL + width * X_SPACING, Y_INITIAL, a);
    } else {
      TopInColumns(ps[1..], Advance(width, Leaves(ps[0])), a);
    }
  }

  lemma {:induction false} WideningPlacedApart(ps: seq<Primitive>, width: nat, a: ObjectId, b: ObjectId)
    requires AllNamed(ps) && Widening(ps, width) && a in IdsIn(ps) && b in IdsIn(ps) && a != b
    ensures PlaceTop(ps, width).Ok? && PlaceTop(ps, width).value.positions.Keys == IdsIn(ps)
    ensures !SamePlace(PlaceTop(ps, width).value.positions, a, b)
  {
    TopPlaced(ps, width);
    var x := X_INITIAL + width * X_SPACING;
    var next := Advance(width, Leaves(ps[0]));
    Placed(ps[0], x, Y_INITIAL);
    TopPlaced(ps[1..], next);
    if a in Ids(ps[0]) {
      InColumns(ps[0], x, Y_INITIAL, a);
      if b in Ids(ps[0]) {
        var at, bt := PlacedApart(ps[0], x, Y_INITIAL, a, b);
      } else {
        TopInColumns(ps[1..], next, b);
      }
    } else {
      TopInColumns(ps[1..], next, a);
      if b in Ids(ps[0]) {
        InColumns(ps[0], x, Y_INITIAL, b);
      } else {
        WideningPlacedApart(ps[1..], next, a, b);
      }
    }
  }

  lemma OverlapInPart(head: Positions, tail: Positions)
    requires head.Keys !! tail.Keys && !NoOverlap(tail)
    ensures !NoOverlap(head + tail)
  {
    var a, b :| a in tail && b in tail && a != b && SamePlace(tail, a, b);
    assert SamePlace(head + tail, a, b);
  }

  /** The top-level layout keeps primitives apart exactly when each of them but the last is wider
      than all those to its left: the guard on advancing the width. */
  lemma {:induction false} TopApartIffWidening(ps: seq<Primitive>, width: nat)
    requires AllNamed(ps)
    ensures PlaceTop(ps, width).Ok?
    ensures NoOverlap(PlaceTop(ps, width).value.positions) <==> Widening(ps, width)
  {
    TopPlaced(ps, width);
    if Widening(ps, width) {
      forall a, b | a in IdsIn(ps) && b in IdsIn(ps) && a != b
        ensures !SamePlace(PlaceTop(ps, width).value.positions, a, b)
      {
        WideningPlacedApart(ps, width, a, b);
      }
    } else {
      var x := X_INITIAL + width * X_SPACING;
      Placed(ps[0], x, Y_INITIAL);
      var next := Advance(width, Leaves(ps[0]));
      TopPlaced(ps[1..], next);
      var head, tail := Place(ps[0], x, Y_INITIAL).value.positions, PlaceTop(ps[1..], next).value.positions;
      if next == width {
        SameStart(head, tail, ps[0].id.value, ps[1].id.value);
      } else {
        TopApartIffWidening(ps[1..], next);
        OverlapInPart(head, tail);
      }
    }
  }

  lemma SameStart(head: Positions, tail: Positions, a: ObjectId, b: ObjectId)
    requires head.Keys !! tail.Keys && a in head && b in tail && head[a] == tail[b]
    ensures !NoOverlap(head + tail)
  {
    var m := head + tail;
    assert SamePlace(m, a, b);
  }

  /** Three leaves side by side: the third is drawn on top of the second. */
  lemma ThreeLeavesOverlap(ps: seq<Primitive>)
    requires AllNamed(ps) && |ps| == 3 && forall p <- ps :: p.subpolicies == []
    ensures PlaceTop(ps, 0).Ok? && !NoOverlap(PlaceTop(ps, 0).value.positions)
  {
    assert ps[0] in ps && ps[1] in ps;
    assert Leaves(ps[1..][0]) == 1;
    assert !Widening(ps[1..], 1);
    TopApartIffWidening(ps, 0);
  }

  /** The column in which a top-level tree begins: each tree wider than the columns so far adds its own
      width to them, and no other moves the next along. */
  function StartOf(ps: seq<Primitive>, i: nat): nat
    requires i <= |ps|
  {
    if i == 0 then 0 else
    var before := StartOf(ps, i - 1);
    if Leaves(ps[i - 1]) > before then before + Leaves(ps[i - 1]) else before
  }

  lemma TopPart(ps: seq<Primitive>, width: nat, a: ObjectId, at: Position)
    requires AllNamed(ps) && ps != []
    requires (a in Ids(ps[0]) && IsAt(Place(ps[0], X_INITIAL + width * X_SPACING, Y_INITIAL), a, at))
             || (a in IdsIn(ps[1..]) && IsAt(PlaceTop(ps[1..], Advance(width, Leaves(ps[0]))), a, at))
    ensures IsAt(PlaceTop(ps, width), a, at)
  {
    Placed(ps[0], X_INITIAL + width * X_SPACING, Y_INITIAL);
    TopPlaced(ps[1..], Advance(width, Leaves(ps[0])));
    TopPlaced(ps, width);
    Merged(Place(ps[0], X_INITIAL + width * X_SPACING, Y_INITIAL).value.positions,
           PlaceTop(ps[1..], Advance(width, Leaves(ps[0]))).value.positions, a);
  }

  lemma {:induction false} TopPlacedFrom(ps: seq<Primitive>, j: nat, i: nat, a: ObjectId, at: Position)
    requires j <= i < |ps| && AllNamed(ps[j..]) && Named(ps[i]) && a in Ids(ps[i])
    requires IsAt(Place(ps[i], 290 + 200 * StartOf(ps, i), 80), a, at)
    ensures a in IdsIn(ps[j..]) && IsAt(PlaceTop(ps[j..], StartOf(ps, j)), a, at)
    decreases i - j
  {
    assert ps[j..][0] == ps[j] && ps[j..][1..] == ps[j + 1..];
    if j < i {
      TopPlacedFrom(ps, j + 1, i, a, at);
    }
    TopPart(ps[j..], StartOf(ps, j), a, at);
  }

  /** SetUserData() puts every primitive 70 lower for each level, from 80, and 200 further right for each
      column before its tree and for each leaf to its left in the tree, from 290. */
  lemma TopPlacedByPath(ps: seq<Primitive>, i: nat, path: seq<nat>)
    requires AllNamed(ps) && i < |ps| && InTree(ps[i], path)
    ensures At(ps[i], path).id.Some?
    ensures IsAt(PlaceTop(ps, 0), At(ps[i], path).id.value,
                 Position(290 + 200 * (StartOf(ps, i) + LeavesLeft(ps[i], path)), 80 + 70 * |path|, 1))
  {
    OfRow(ps, i);
    OfTree(ps[i], path);
    PlacedByPath(ps[i], 290 + 200 * StartOf(ps, i), 80, path);
    assert ps[0..] == ps;
    TopPlacedFrom(ps, 0, i, At(ps[i], path).id.value,
                  Position(290 + 200 * (StartOf(ps, i) + LeavesLeft(ps[i], path)), 80 + 70 * |path|, 1));
  }
}
