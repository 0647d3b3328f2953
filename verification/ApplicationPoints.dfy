/** Which connectivity templates are used at which application points: the tree the API answers
    with, page by page, folded into a map of maps. */
module ApplicationPoints {
  import opened Common

  datatype PolicyState = UsedDirectly | Unused | UnknownState(text: string)

  datatype ChildPolicy = ChildPolicy(policy: ObjectId, state: PolicyState)

  datatype Point = Point(id: ObjectId, policies: seq<ChildPolicy>, children: seq<Point>)

  /** A point without its children. */
  datatype Node = Node(id: ObjectId, policies: seq<ChildPolicy>)

  type Inner = map<ObjectId, bool>
  type Usage = map<ObjectId, Inner>

  datatype FillError =
    | NilMap
    | UnknownPolicyState(state: string, policy: ObjectId, point: ObjectId)
    | ServerError
    | Cancelled

  /** What a filling leaves behind; the counts are zero when it failed. */
  datatype Filling = Filling(usage: Usage, m: nat, n: nat, error: Option<FillError>)

  const PAGE_SIZE := 1000

  class UsageMap {
    var usage: Usage

    constructor (usage: Usage)
      ensures this.usage == usage
    {
      this.usage := usage;
    }
  }

  // ----- the flat fold -----

  function Preorder(point: Point): seq<Node>
    decreases point, 0
  {
    [Node(point.id, point.policies)] + PreorderAll(point.children)
  }

  function PreorderAll(points: seq<Point>): seq<Node>
    decreases points, 1
  {
    if points == [] then [] else Preorder(points[0]) + PreorderAll(points[1..])
  }

  /** An inner map after a point's policies, up to the first whose state is unknown. */
  function Noted(inner: Inner, policies: seq<ChildPolicy>): Inner
    decreases |policies|
  {
    if policies == [] || policies[0].state.UnknownState? then inner
    else Noted(inner[policies[0].policy := policies[0].state.UsedDirectly?], policies[1..])
  }

  function FirstUnknown(point: ObjectId, policies: seq<ChildPolicy>): Option<FillError> {
    if policies == [] then None
    else if policies[0].state.UnknownState? then
      Some(UnknownPolicyState(policies[0].state.text, policies[0].policy, point))
    else FirstUnknown(point, policies[1..])
  }

  /** The inner map that a visit of the node adds to, if the point is of interest. */
  function EntryFor(usage: Usage, node: Node, force: bool): Option<Inner> {
    if node.id in usage then Some(usage[node.id])
    else if node.policies != [] && force then Some(map[])
    else None
  }

  function Visit(usage: Usage, node: Node, force: bool): Filling {
    var n := if node.policies != [] then 1 else 0;
    match EntryFor(usage, node, force)
    case None => Filling(usage, 0, n, None)
    case Some(inner) =>
      var noted := usage[node.id := Noted(inner, node.policies)];
      var error := FirstUnknown(node.id, node.policies);
      if error.Some? then Filling(noted, 0, 0, error)
      else Filling(noted, if inner == map[] then 1 else 0, n, None)
  }

  function Then(first: Filling, rest: Filling): Filling {
    if first.error.Some? then first
    else if rest.error.Some? then Filling(rest.usage, 0, 0, rest.error)
    else Filling(rest.usage, first.m + rest.m, first.n + rest.n, None)
  }

  function Fold(usage: Usage, nodes: seq<Node>, force: bool): Filling
    decreases |nodes|
  {
    if nodes == [] then Filling(usage, 0, 0, None) else
    var first := Visit(usage, nodes[0], force);
    if first.error.Some? then first else Then(first, Fold(first.usage, nodes[1..], force))
  }

  // ----- the recursive walk of the tree -----

  /** applicationPoint.fillMap: writes into the caller's map as it goes down the tree. */
  method FillMap(point: Point, into: UsageMap?, force: bool) returns (m: nat, n: nat, error: Option<FillError>)
    modifies into
    ensures into == null ==> m == 0 && n == 0 && error == Some(NilMap)
    ensures into != null ==> Filling(into.usage, m, n, error) == Fold(old(into.usage), Preorder(point), force)
    decreases point, 0
  {
    if into == null {
      return 0, 0, Some(NilMap);
    }
    ghost var start := into.usage;
    ghost var node := Node(point.id, point.policies);
    m, n := 0, 0;
    if point.policies != [] {
      n := n + 1;
      if point.id !in into.usage && force {
        into.usage := into.usage[point.id := map[]];
      }
    }
    if point.id in into.usage {
      if into.usage[point.id] == map[] {
        m := m + 1;
      }
      error := NotePolicies(point, into);
      if error.Some? {
        assert Visit(start, node, force) == Filling(into.usage, 0, 0, error);
        return 0, 0, error;
      }
    }
    assert Visit(start, node, force) == Filling(into.usage, m, n, None);
    var cm, cn;
    cm, cn, error := FillChildren(point.children, into, force);
    if error.Some? {
      return 0, 0, error;
    }
    m, n := m + cm, n + cn;
  }

  /** The loop over a point's policies. */
  method NotePolicies(point: Point, into: UsageMap) returns (error: Option<FillError>)
    requires point.id in into.usage
    modifies into
    ensures into.usage == old(into.usage)[point.id := Noted(old(into.usage[point.id]), point.policies)]
    ensures error == FirstUnknown(point.id, point.policies)
  {
    for i := 0 to |point.policies|
      invariant point.id in into.usage && into.usage == old(into.usage)[point.id := into.usage[point.id]]
      invariant Noted(old(into.usage[point.id]), point.policies) == Noted(into.usage[point.id], point.policies[i..])
      invariant FirstUnknown(point.id, point.policies) == FirstUnknown(point.id, point.policies[i..])
    {
      var info := point.policies[i];
      match info.state {
        case UnknownState(text) => return Some(UnknownPolicyState(text, info.policy, point.id));
        case UsedDirectly => into.usage := into.usage[point.id := into.usage[point.id][info.policy := true]];
        case Unused => into.usage := into.usage[point.id := into.usage[point.id][info.policy := false]];
      }
    }
    error := None;
  }

  /** The loop over children, which is also objPolicyApplicationPointsApiResponse.fillMap. */
  method FillChildren(points: seq<Point>, into: UsageMap?, force: bool)
    returns (m: nat, n: nat, error: Option<FillError>)
    modifies into
    ensures into == null ==> m == 0 && n == 0 && error == (if points == [] then None else Some(NilMap))
    ensures into != null ==> Filling(into.usage, m, n, error) == Fold(old(into.usage), PreorderAll(points), force)
    decreases points, 1
  {
    m, n, error := 0, 0, None;
    for i := 0 to |points|
      invariant error == None
      invariant into == null ==> i == 0 && m == 0 && n == 0
      invariant into != null ==>
        Fold(old(into.usage), PreorderAll(points), force)
        == Then(Filling(into.usage, m, n, None), Fold(into.usage, PreorderAll(points[i..]), force))
    {
      ghost var before := if into == null then map[] else into.usage;
      var cm, cn;
      cm, cn, error := FillMap(points[i], into, force);
      if into != null {
        FoldAppend(before, Preorder(points[i]), PreorderAll(points[i + 1..]), force);
      }
      if error.Some? {
        return 0, 0, error;
      }
      m, n := m + cm, n + cn;
    }
  }

  lemma {:induction false} FoldAppend(usage: Usage, a: seq<Node>, b: seq<Node>, force: bool)
    ensures Fold(usage, a + b, force)
         == Then(Fold(usage, a, force), Fold(Fold(usage, a, force).usage, b, force))
    decreases |a|
  {
    if a == [] {
      assert a + b == b;
    } else {
      assert (a + b)[0] == a[0] && (a + b)[1..] == a[1..] + b;
      var first := Visit(usage, a[0], force);
      if first.error.None? {
        FoldAppend(first.usage, a[1..], b, force);
        var rest := Fold(first.usage, a[1..], force);
        ThenAssociates(first, rest, Fold(rest.usage, b, force));
      }
    }
  }

  lemma ThenAssociates(a: Filling, b: Filling, c: Filling)
    ensures Then(a, Then(b, c)) == Then(Then(a, b), c)
  {
  }

  // ----- where points are in the tree -----

  /** A point's place: which it is among its siblings, on every level from the top down. */
  type Path = seq<nat>

  predicate InForest(points: seq<Point>, path: Path)
    decreases |path|
  {
    path != [] && path[0] < |points| && (|path| == 1 || InForest(points[path[0]].children, path[1..]))
  }

  function PointAt(points: seq<Point>, path: Path): Point
    requires InForest(points, path)
    decreases |path|
  {
    if |path| == 1 then points[path[0]] else PointAt(points[path[0]].children, path[1..])
  }

  /** A point comes ahead of those below it and of those that stand to the right. */
  predicate Precedes(a: Path, b: Path)
    decreases |a|
  {
    b != [] && (a == [] || a[0] < b[0] || (a[0] == b[0] && Precedes(a[1..], b[1..])))
  }

  predicate IsAt(points: seq<Point>, path: Path, node: Node) {
    InForest(points, path) && PointAt(points, path).id == node.id && PointAt(points, path).policies == node.policies
  }

  /** The paths of the points visited. */
  ghost predicate AllAt(paths: seq<Path>, points: seq<Point>, nodes: seq<Node>) {
    |paths| == |nodes| && forall i :: 0 <= i < |paths| ==> IsAt(points, paths[i], nodes[i])
  }

  ghost predicate InOrder(paths: seq<Path>) {
    forall i, j :: 0 <= i < j < |paths| ==> Precedes(paths[i], paths[j])
  }

  ghost predicate Complete(paths: seq<Path>, points: seq<Point>) {
    forall path :: InForest(points, path) ==> path in paths
  }

  function Under(path: Path): Path {
    [0] + path
  }

  function Beside(path: Path): Path {
    if path == [] then [] else [path[0] + 1] + path[1..]
  }

  lemma UnderFirst(points: seq<Point>, path: Path)
    requires points != [] && InForest(points[0].children, path)
    ensures InForest(points, Under(path)) && PointAt(points, Under(path)) == PointAt(points[0].children, path)
  {
    assert Under(path)[1..] == path;
  }

  lemma BesideFirst(points: seq<Point>, path: Path)
    requires points != [] && InForest(points[1..], path)
    ensures InForest(points, Beside(path)) && PointAt(points, Beside(path)) == PointAt(points[1..], path)
  {
    assert Beside(path)[1..] == path[1..];
  }

  lemma SameOrder(a: Path, b: Path)
    requires Precedes(a, b)
    ensures Precedes(Under(a), Under(b)) && (a != [] ==> Precedes(Beside(a), Beside(b)))
  {
    assert Under(a)[1..] == a && Under(b)[1..] == b;
    assert Beside(b)[1..] == b[1..] && (a != [] ==> Beside(a)[1..] == a[1..]);
  }

  /** A place in a forest is the first root, or under it, or beside it. */
  lemma IsUnder(points: seq<Point>, path: Path)
    requires InForest(points, path) && path[0] == 0 && path != [0]
    ensures InForest(points[0].children, path[1..]) && path == Under(path[1..])
  {
  }

  lemma IsBeside(points: seq<Point>, path: Path) returns (rest: Path)
    requires InForest(points, path) && path[0] > 0
    ensures InForest(points[1..], rest) && path == Beside(rest)
  {
    rest := [path[0] - 1] + path[1..];
    assert rest[1..] == path[1..];
  }

  function FirstAndRest(under: seq<Path>, beside: seq<Path>): (paths: seq<Path>)
    ensures |paths| == 1 + |under| + |beside| && paths[0] == [0]
    ensures forall i :: 0 <= i < |under| ==> paths[i + 1] == Under(under[i])
    ensures forall i :: 0 <= i < |beside| ==> paths[i + 1 + |under|] == Beside(beside[i])
  {
    [[0]] + seq(|under|, i requires 0 <= i < |under| => Under(under[i]))
    + seq(|beside|, i requires 0 <= i < |beside| => Beside(beside[i]))
  }

  lemma AllUnder(points: seq<Point>, under: seq<Path>, nodes: seq<Node>, i: nat)
    requires points != [] && AllAt(under, points[0].children, nodes) && i < |under|
    ensures IsAt(points, Under(under[i]), nodes[i])
  {
    assert IsAt(points[0].children, under[i], nodes[i]);
    UnderFirst(points, under[i]);
  }

  lemma AllBeside(points: seq<Point>, beside: seq<Path>, nodes: seq<Node>, i: nat)
    requires points != [] && AllAt(beside, points[1..], nodes) && i < |beside|
    ensures IsAt(points, Beside(beside[i]), nodes[i])
  {
    assert IsAt(points[1..], beside[i], nodes[i]);
    BesideFirst(points, beside[i]);
  }

  lemma FirstAndRestAt(points: seq<Point>, under: seq<Path>, below: seq<Node>, beside: seq<Path>, right: seq<Node>)
    requires points != [] && AllAt(under, points[0].children, below) && AllAt(beside, points[1..], right)
    ensures AllAt(FirstAndRest(under, beside), points, [Node(points[0].id, points[0].policies)] + below + right)
  {
    var paths, n := FirstAndRest(under, beside), |under| + 1;
    var nodes := [Node(points[0].id, points[0].policies)] + below + right;
    forall i | 0 <= i < |paths| ensures IsAt(points, paths[i], nodes[i]) {
      if 0 < i < n {
        AllUnder(points, under, below, i - 1);
      } else if i >= n {
        AllBeside(points, beside, right, i - n);
      }
    }
  }

  lemma FirstAndRestInOrder(under: seq<Path>, beside: seq<Path>)
    requires InOrder(under) && InOrder(beside) && [] !in under && [] !in beside
    ensures InOrder(FirstAndRest(under, beside))
  {
    var paths, n := FirstAndRest(under, beside), |under| + 1;
    forall i, j | 0 <= i < j < |paths| ensures Precedes(paths[i], paths[j]) {
      if 0 < i && j < n {
        SameOrder(under[i - 1], under[j - 1]);
      } else if i >= n {
        assert beside[i - n] in beside;
        SameOrder(beside[i - n], beside[j - n]);
      } else if j >= n {
        assert beside[j - n] in beside;
        assert paths[j][0] > 0 == paths[i][0];
      } else {
        assert under[j - 1] in under;
        assert paths[j][1..] == under[j - 1] && paths[i][1..] == [];
      }
    }
  }

  lemma FirstAndRestComplete(points: seq<Point>, under: seq<Path>, beside: seq<Path>)
    requires points != [] && Complete(under, points[0].children) && Complete(beside, points[1..])
    ensures Complete(FirstAndRest(under, beside), points)
  {
    var paths := FirstAndRest(under, beside);
    forall path | InForest(points, path) ensures path in paths {
      if path == [0] {
        assert paths[0] == path;
      } else if path[0] == 0 {
        IsUnder(points, path);
        var i :| 0 <= i < |under| && under[i] == path[1..];
        assert paths[i + 1] == path;
      } else {
        var rest := IsBeside(points, path);
        var i :| 0 <= i < |beside| && beside[i] == rest;
        assert paths[i + 1 + |under|] == path;
      }
    }
  }

  /** The walk visits every point of the forest, each place once: a point ahead of what is below it, and
      siblings in order. */
  lemma {:induction false} PreorderVisits(points: seq<Point>) returns (paths: seq<Path>)
    ensures AllAt(paths, points, PreorderAll(points)) && InOrder(paths) && Complete(paths, points)
  {
    if points == [] {
      paths := [];
    } else {
      var under := PreorderVisits(points[0].children);
      var beside := PreorderVisits(points[1..]);
      FirstAndRestAt(points, under, PreorderAll(points[0].children), beside, PreorderAll(points[1..]));
      FirstAndRestInOrder(under, beside);
      FirstAndRestComplete(points, under, beside);
      paths := FirstAndRest(under, beside);
    }
  }

  lemma {:induction false} PreorderAppend(a: seq<Point>, b: seq<Point>)
    ensures PreorderAll(a + b) == PreorderAll(a) + PreorderAll(b)
  {
    if a == [] {
      assert a + b == b;
    } else {
      assert (a + b)[1..] == a[1..] + b;
      PreorderAppend(a[1..], b);
    }
  }

  // ----- what the fold means -----

  predicate Known(policies: seq<ChildPolicy>) {
    forall p <- policies :: !p.state.UnknownState?
  }

  /** The last word on a policy, if there is any. */
  function LastState(policies: seq<ChildPolicy>, policy: ObjectId): Option<bool> {
    if policies == [] then None else
    var last := policies[|policies| - 1];
    if last.policy == policy then Some(last.state.UsedDirectly?) else LastState(policies[..|policies| - 1], policy)
  }

  lemma {:induction false} NotedAppend(inner: Inner, a: seq<ChildPolicy>, b: seq<ChildPolicy>)
    requires Known(a)
    ensures Noted(inner, a + b) == Noted(Noted(inner, a), b)
    decreases |a|
  {
    if a == [] {
      assert a + b == b;
    } else {
      assert a[0] in a && (a + b)[0] == a[0] && (a + b)[1..] == a[1..] + b;
      NotedAppend(inner[a[0].policy := a[0].state.UsedDirectly?], a[1..], b);
    }
  }

  /** The last mention of a policy wins; a policy that is not mentioned keeps what it had. */
  lemma {:induction false} LastMentionWins(inner: Inner, policies: seq<ChildPolicy>, policy: ObjectId)
    requires Known(policies)
    ensures policy in Noted(inner, policies) <==> policy in inner || LastState(policies, policy).Some?
    ensures var last := LastState(policies, policy);
            policy in Noted(inner, policies) ==>
              Noted(inner, policies)[policy] == if last.Some? then last.value else inner[policy]
    decreases |policies|
  {
    if policies != [] {
      var n := |policies| - 1;
      var before := policies[..n];
      assert policies == before + [policies[n]] && policies[n] in policies;
      LastMentionWins(inner, before, policy);
      NotedAppend(inner, before, [policies[n]]);
      assert Noted(Noted(inner, before), [policies[n]])
          == Noted(inner, before)[policies[n].policy := policies[n].state.UsedDirectly?];
    }
  }

  /** All that the tree says about a point, in the order it says it. */
  function Said(nodes: seq<Node>, id: ObjectId): seq<ChildPolicy> {
    if nodes == [] then [] else
    (if nodes[0].id == id then nodes[0].policies else []) + Said(nodes[1..], id)
  }

  predicate Wanted(usage: Usage, id: ObjectId, force: bool) {
    force || id in usage
  }

  lemma KnownIff(point: ObjectId, policies: seq<ChildPolicy>)
    ensures FirstUnknown(point, policies).None? <==> Known(policies)
  {
    if policies != [] {
      assert policies == [policies[0]] + policies[1..];
    }
  }

  /** A filling fails exactly when the tree gives a wanted point a policy in an unknown state. */
  lemma {:induction false} FailsExactly(usage: Usage, nodes: seq<Node>, force: bool)
    ensures Fold(usage, nodes, force).error.None?
       <==> forall node <- nodes :: Wanted(usage, node.id, force) ==> Known(node.policies)
    decreases |nodes|
  {
    if nodes != [] {
      var first := Visit(usage, nodes[0], force);
      KnownIff(nodes[0].id, nodes[0].policies);
      assert nodes[0] in nodes && nodes == [nodes[0]] + nodes[1..];
      if first.error.None? {
        assert !force ==> first.usage.Keys == usage.Keys;
        FailsExactly(first.usage, nodes[1..], force);
      }
    }
  }

  /** The error names a policy in an unknown state, its point and the state. */
  lemma {:induction false} FailureNames(usage: Usage, nodes: seq<Node>, force: bool)
    requires Fold(usage, nodes, force).error.Some?
    ensures exists i, k :: 0 <= i < |nodes| && 0 <= k < |nodes[i].policies|
                           && nodes[i].policies[k].state.UnknownState?
                           && Fold(usage, nodes, force).error
                              == Some(UnknownPolicyState(nodes[i].policies[k].state.text, nodes[i].policies[k].policy,
                                                         nodes[i].id))
    decreases |nodes|
  {
    var first := Visit(usage, nodes[0], force);
    if first.error.Some? {
      var k := UnknownAt(nodes[0].id, nodes[0].policies);
    } else {
      FailureNames(first.usage, nodes[1..], force);
    }
  }

  lemma {:induction false} UnknownAt(point: ObjectId, policies: seq<ChildPolicy>) returns (k: nat)
    requires FirstUnknown(point, policies).Some?
    ensures k < |policies| && policies[k].state.UnknownState?
    ensures FirstUnknown(point, policies).value
         == UnknownPolicyState(policies[k].state.text, policies[k].policy, point)
  {
    k := 0;
    if !policies[0].state.UnknownState? {
      k := UnknownAt(point, policies[1..]);
      k := k + 1;
    }
  }

  /** What a filling makes of one point: it is in the map if it was, or if forced and the tree gives
      it any policies; and its entry has been told, in order, everything the tree says about it. */
  lemma {:induction false} FoldMeans(usage: Usage, nodes: seq<Node>, force: bool, id: ObjectId)
    requires Fold(usage, nodes, force).error.None?
    ensures var after := Fold(usage, nodes, force).usage;
            && (id in after <==> id in usage || (force && Said(nodes, id) != []))
            && (id in after ==> after[id] == Noted(if id in usage then usage[id] else map[], Said(nodes, id)))
    decreases |nodes|
  {
    if nodes != [] {
      var first := Visit(usage, nodes[0], force);
      FoldMeans(first.usage, nodes[1..], force, id);
      if nodes[0].id == id && EntryFor(usage, nodes[0], force).Some? {
        KnownIff(id, nodes[0].policies);
        NotedAppend(EntryFor(usage, nodes[0], force).value, nodes[0].policies, Said(nodes[1..], id));
      } else {
        assert [] + Said(nodes[1..], id) == Said(nodes[1..], id);
      }
    }
  }

  /** Without force no point enters or leaves the map, even when the filling fails. */
  lemma {:induction false} UnforcedKeepsPoints(usage: Usage, nodes: seq<Node>)
    ensures Fold(usage, nodes, false).usage.Keys == usage.Keys
    decreases |nodes|
  {
    if nodes != [] {
      UnforcedKeepsPoints(Visit(usage, nodes[0], false).usage, nodes[1..]);
    }
  }

  // ----- the counts -----

  function CountWithPolicies(nodes: seq<Node>): nat {
    if nodes == [] then 0 else (if nodes[0].policies != [] then 1 else 0) + CountWithPolicies(nodes[1..])
  }

  lemma {:induction false} CountAppend(a: seq<Node>, b: seq<Node>)
    ensures CountWithPolicies(a + b) == CountWithPolicies(a) + CountWithPolicies(b)
  {
    if a == [] {
      assert a + b == b;
    } else {
      assert (a + b)[1..] == a[1..] + b;
      CountAppend(a[1..], b);
    }
  }

  lemma {:induction false} CountIsSize(nodes: seq<Node>)
    ensures CountWithPolicies(nodes) == |set i | 0 <= i < |nodes| && nodes[i].policies != []|
  {
    if nodes != [] {
      var n := |nodes| - 1;
      CountIsSize(nodes[..n]);
      CountAppend(nodes[..n], [nodes[n]]);
      assert nodes == nodes[..n] + [nodes[n]] && [nodes[n]][1..] == [];
      var before := set i | 0 <= i < n && nodes[..n][i].policies != [];
      assert (set i | 0 <= i < |nodes| && nodes[i].policies != [])
          == before + if nodes[n].policies != [] then {n} else {};
    }
  }

  /** n counts the points with policies, of interest or not. */
  lemma {:induction false} CountsCandidates(usage: Usage, nodes: seq<Node>, force: bool)
    requires Fold(usage, nodes, force).error.None?
    ensures Fold(usage, nodes, force).n == CountWithPolicies(nodes)
    decreases |nodes|
  {
    if nodes != [] {
      CountsCandidates(Visit(usage, nodes[0], force).usage, nodes[1..], force);
    }
  }

  /** The points that have been told something. */
  function Filled(usage: Usage): set<ObjectId> {
    set id <- usage | usage[id] != map[]
  }

  /** How often a point without policies is met while its entry is still empty. */
  function Idle(usage: Usage, nodes: seq<Node>, force: bool): nat
    decreases |nodes|
  {
    if nodes == [] then 0 else
    (if nodes[0].policies == [] && EntryFor(usage, nodes[0], force) == Some(map[]) then 1 else 0)
    + Idle(Visit(usage, nodes[0], force).usage, nodes[1..], force)
  }

  lemma NotedIsEmpty(inner: Inner, policies: seq<ChildPolicy>)
    requires Known(policies)
    ensures Noted(inner, policies) == map[] <==> inner == map[] && policies == []
  {
    if policies != [] {
      LastMentionWins(inner, policies, policies[|policies| - 1].policy);
    }
  }

  /** m counts the points that were filled, and besides them the idle visits. */
  lemma {:induction false} CountsFilled(usage: Usage, nodes: seq<Node>, force: bool)
    requires Fold(usage, nodes, force).error.None?
    ensures Fold(usage, nodes, force).m
         == |Filled(Fold(usage, nodes, force).usage)| - |Filled(usage)| + Idle(usage, nodes, force)
    decreases |nodes|
  {
    if nodes != [] {
      var node, first := nodes[0], Visit(usage, nodes[0], force);
      CountsFilled(first.usage, nodes[1..], force);
      VisitFills(usage, node, force);
    }
  }

  lemma VisitFills(usage: Usage, node: Node, force: bool)
    requires Visit(usage, node, force).error.None?
    ensures Visit(usage, node, force).m
         == |Filled(Visit(usage, node, force).usage)| - |Filled(usage)|
            + if node.policies == [] && EntryFor(usage, node, force) == Some(map[]) then 1 else 0
  {
    var entry, after := EntryFor(usage, node, force), Visit(usage, node, force).usage;
    if entry.Some? {
      KnownIff(node.id, node.policies);
      NotedIsEmpty(entry.value, node.policies);
      if entry.value == map[] && node.policies != [] {
        assert node.id !in Filled(usage) && Filled(after) == Filled(usage) + {node.id};
      } else {
        assert Filled(after) == Filled(usage);
      }
    }
  }

  /** So m is the number of points filled exactly when each wanted point with an empty entry is given
      policies before it is met without any. */
  lemma {:induction false} NoIdleVisitsIff(usage: Usage, nodes: seq<Node>, force: bool)
    requires Fold(usage, nodes, force).error.None?
    ensures Idle(usage, nodes, force) == 0
       <==> forall i :: 0 <= i < |nodes| ==> !IdleAt(usage, nodes, i)
    decreases |nodes|
  {
    if nodes != [] {
      var node, first := nodes[0], Visit(usage, nodes[0], force);
      var rest := nodes[1..];
      NoIdleVisitsIff(first.usage, rest, force);
      if EntryFor(usage, node, force).Some? {
        KnownIff(node.id, node.policies);
        NotedIsEmpty(EntryFor(usage, node, force).value, node.policies);
      }
      assert IdleAt(usage, nodes, 0) <==> node.policies == [] && EntryFor(usage, node, force) == Some(map[]) by {
        assert nodes[..0] == [];
      }
      forall i | 0 <= i < |rest| ensures IdleAt(first.usage, rest, i) <==> IdleAt(usage, nodes, i + 1) {
        IdleInRest(usage, nodes, force, i);
      }
      if forall i :: 0 <= i < |nodes| ==> !IdleAt(usage, nodes, i) {
        assert forall i :: 0 <= i < |rest| ==> !IdleAt(first.usage, rest, i);
      } else {
        var i :| 0 <= i < |nodes| && IdleAt(usage, nodes, i);
        assert i > 0 ==> IdleAt(first.usage, rest, i - 1);
      }
    }
  }

  predicate IdleAt(usage: Usage, nodes: seq<Node>, i: nat)
    requires i < |nodes|
  {
    nodes[i].policies == [] && nodes[i].id in usage && usage[nodes[i].id] == map[]
    && Said(nodes[..i], nodes[i].id) == []
  }

  lemma IdleInRest(usage: Usage, nodes: seq<Node>, force: bool, i: nat)
    requires nodes != [] && i < |nodes| - 1 && Visit(usage, nodes[0], force).error.None?
    ensures IdleAt(Visit(usage, nodes[0], force).usage, nodes[1..], i) <==> IdleAt(usage, nodes, i + 1)
  {
    var id := nodes[i + 1].id;
    assert nodes[..i + 1][0] == nodes[0] && nodes[..i + 1][1..] == nodes[1..][..i];
    var entry := EntryFor(usage, nodes[0], force);
    if entry.Some? && nodes[0].id == id {
      KnownIff(id, nodes[0].policies);
      NotedIsEmpty(entry.value, nodes[0].policies);
    }
  }

  /** Filling an empty map by force counts exactly its points: m is their number, and n the number of
      tree nodes with policies, which is larger when a point occurs more than once. */
  lemma ForcedCountsPoints(nodes: seq<Node>)
    requires Fold(map[], nodes, true).error.None?
    ensures Fold(map[], nodes, true).m == |Fold(map[], nodes, true).usage|
    ensures Fold(map[], nodes, true).n == CountWithPolicies(nodes) >= Fold(map[], nodes, true).m
  {
    CountsFilled(map[], nodes, true);
    CountsCandidates(map[], nodes, true);
    NoIdleVisitsIff(map[], nodes, true);
    ForcedFillsAll(map[], nodes);
    var after := Fold(map[], nodes, true).usage;
    assert Filled(after) == after.Keys;
  }

  lemma {:induction false} ForcedFillsAll(usage: Usage, nodes: seq<Node>)
    requires forall id <- usage :: usage[id] != map[]
    requires Fold(usage, nodes, true).error.None?
    ensures forall id <- Fold(usage, nodes, true).usage :: Fold(usage, nodes, true).usage[id] != map[]
    ensures Fold(usage, nodes, true).m <= Fold(usage, nodes, true).n
    decreases |nodes|
  {
    if nodes != [] {
      var node := nodes[0];
      var entry := EntryFor(usage, node, true);
      if entry.Some? {
        KnownIff(node.id, node.policies);
        NotedIsEmpty(entry.value, node.policies);
      }
      ForcedFillsAll(Visit(usage, node, true).usage, nodes[1..]);
    }
  }

  // ----- the pages -----

  datatype Reply = Page(points: seq<Point>) | Fails

  /** Page after page into one map, up to the first page with fewer candidates than a page can hold. */
  function Collect(usage: Usage, replies: seq<Reply>, force: bool): Result<Usage, FillError>
    decreases |replies|
  {
    if replies == [] then Err(Cancelled) else
    if replies[0].Fails? then Err(ServerError) else
    var filling := Fold(usage, PreorderAll(replies[0].points), force);
    if filling.error.Some? then Err(filling.error.value)
    else if filling.n < PAGE_SIZE then Ok(filling.usage)
    else Collect(filling.usage, replies[1..], force)
  }

  method ReadPages(into: UsageMap, replies: seq<Reply>, force: bool) returns (r: Result<(), FillError>)
    modifies into
    ensures r.Err? ==> Collect(old(into.usage), replies, force) == Err(r.error)
    ensures r.Ok? ==> Collect(old(into.usage), replies, force) == Ok(into.usage)
  {
    var iterationCount := 0;
    while true
      invariant iterationCount <= |replies|
      invariant Collect(old(into.usage), replies, force) == Collect(into.usage, replies[iterationCount..], force)
      decreases |replies| - iterationCount
    {
      if iterationCount == |replies| {
        return Err(Cancelled);
      }
      if replies[iterationCount].Fails? {
        return Err(ServerError);
      }
      var _, n, error := FillChildren(replies[iterationCount].points, into, force);
      if error.Some? {
        return Err(error.value);
      }
      if n < PAGE_SIZE {
        return Ok(());
      }
      iterationCount := iterationCount + 1;
    }
  }

  function Pages(replies: seq<Reply>): seq<Node> {
    if replies == [] then []
    else (if replies[0].Page? then PreorderAll(replies[0].points) else []) + Pages(replies[1..])
  }

  predicate IsFull(reply: Reply) {
    reply.Page? && CountWithPolicies(PreorderAll(reply.points)) >= PAGE_SIZE
  }

  /** Full pages and then a short one are read to the end and no further, and come to the same as one
      tree with everything that is in them. */
  lemma {:induction false} PagesComeTogether(usage: Usage, replies: seq<Reply>, short: nat, force: bool)
    requires short < |replies| && replies[short].Page? && !IsFull(replies[short])
    requires forall i :: 0 <= i < short ==> IsFull(replies[i])
    ensures var whole := Fold(usage, Pages(replies[..short + 1]), force);
            Collect(usage, replies, force) == if whole.error.Some? then Err(whole.error.value) else Ok(whole.usage)
    decreases |replies|
  {
    var nodes := PreorderAll(replies[0].points);
    var filling := Fold(usage, nodes, force);
    assert replies[..short + 1][0] == replies[0] && replies[..short + 1][1..] == replies[1..][..short];
    FoldAppend(usage, nodes, Pages(replies[1..][..short]), force);
    if filling.error.None? {
      CountsCandidates(usage, nodes, force);
      if short > 0 {
        PagesComeTogether(filling.usage, replies[1..], short - 1, force);
      } else {
        assert replies[1..][..0] == [];
      }
    }
  }

  // ----- the client's calls -----

  function EmptyFor(apIds: seq<ObjectId>): Usage {
    map id <- apIds :: map[]
  }

  method GetByPoints(apIds: seq<ObjectId>, replies: seq<Reply>) returns (r: Result<Usage, FillError>)
    ensures r == Collect(EmptyFor(apIds), replies, false)
  {
    var result := new UsageMap(map[]);
    for i := 0 to |apIds|
      invariant fresh(result) && result.usage == EmptyFor(apIds[..i])
    {
      result.usage := result.usage[apIds[i] := map[]];
      assert forall id :: id in apIds[..i + 1] <==> id in apIds[..i] || id == apIds[i];
    }
    assert apIds[..|apIds|] == apIds;
    var read := ReadPages(result, replies, false);
    r := if read.Ok? then Ok(result.usage) else Err(read.error);
  }

  method GetForPoint(apId: ObjectId, replies: seq<Reply>) returns (r: Result<Inner, FillError>)
    ensures Collect(EmptyFor([apId]), replies, false).Err? <==> r.Err?
    ensures r.Err? ==> r.error == Collect(EmptyFor([apId]), replies, false).error
    ensures r.Ok? ==> Collect(EmptyFor([apId]), replies, false) == Ok(map[apId := r.value])
  {
    CollectKeepsPoints(EmptyFor([apId]), replies);
    var all := GetByPoints([apId], replies);
    if all.Err? {
      return Err(all.error);
    }
    assert all.value.Keys == {apId};
    r := Ok(all.value[apId]);
    assert all.value == map[apId := r.value];
  }

  /** The entry asked for is always there: "not found" is never answered. */
  lemma {:induction false} CollectKeepsPoints(usage: Usage, replies: seq<Reply>)
    ensures Collect(usage, replies, false).Ok? ==> Collect(usage, replies, false).value.Keys == usage.Keys
    decreases |replies|
  {
    if replies != [] && replies[0].Page? {
      var nodes := PreorderAll(replies[0].points);
      UnforcedKeepsPoints(usage, nodes);
      CollectKeepsPoints(Fold(usage, nodes, false).usage, replies[1..]);
    }
  }

  function Only(inner: Inner, ctId: ObjectId): Inner {
    map p <- inner | p == ctId :: inner[p]
  }

  function OnlyCt(usage: Usage, ctId: Option<ObjectId>): Usage {
    if ctId.None? then usage else map id <- usage :: Only(usage[id], ctId.value)
  }

  method GetByCt(ctId: Option<ObjectId>, replies: seq<Reply>) returns (r: Result<Usage, FillError>)
    ensures r == match Collect(map[], replies, true)
                 case Ok(usage) => Ok(OnlyCt(usage, ctId))
                 case Err(error) => Err(error)
  {
    var result := new UsageMap(map[]);
    var read := ReadPages(result, replies, true);
    if read.Err? {
      return Err(read.error);
    }
    if ctId.Some? {
      DeleteOthers(result, ctId.value);
    }
    r := Ok(result.usage);
  }

  /** Deletes from every entry the templates that were not asked for. */
  method DeleteOthers(result: UsageMap, ctId: ObjectId)
    modifies result
    ensures result.usage == OnlyCt(old(result.usage), Some(ctId))
  {
    var todo := result.usage.Keys;
    while todo != {}
      invariant todo <= result.usage.Keys == old(result.usage).Keys
      invariant forall k <- result.usage ::
        result.usage[k] == if k in todo then old(result.usage)[k] else Only(old(result.usage)[k], ctId)
      decreases todo
    {
      var k1 :| k1 in todo;
      todo := todo - {k1};
      var inner := result.usage[k1];
      var keys := inner.Keys;
      while keys != {}
        invariant keys <= inner.Keys
        invariant Only(inner, ctId) == Only(result.usage[k1], ctId)
        invariant forall k2 <- inner :: k2 == ctId || k2 in keys
        decreases keys
      {
        var k2 :| k2 in keys;
        keys := keys - {k2};
        if k2 != ctId {
          inner := inner - {k2};
        }
      }
      result.usage := result.usage[k1 := inner];
      assert inner == Only(inner, ctId);
    }
  }

  // ----- what the caller is told -----

  /** About the points asked for: exactly those, each with every template that the pages mention for
      it, as last mentioned. */
  lemma AnswerByPoints(apIds: seq<ObjectId>, replies: seq<Reply>, short: nat, id: ObjectId)
    requires short < |replies| && replies[short].Page? && !IsFull(replies[short])
    requires forall i :: 0 <= i < short ==> IsFull(replies[i])
    requires Collect(EmptyFor(apIds), replies, false).Ok?
    ensures var answer := Collect(EmptyFor(apIds), replies, false).value;
            && (id in answer <==> id in apIds)
            && (id in apIds ==> answer[id] == Noted(map[], Said(Pages(replies[..short + 1]), id)))
  {
    PagesComeTogether(EmptyFor(apIds), replies, short, false);
    FoldMeans(EmptyFor(apIds), Pages(replies[..short + 1]), false, id);
  }

  /** About one template: every point the pages give policies to, whether or not the template is among
      them. The entry has just the template when it is, and nothing when it is not. */
  lemma AnswerByCt(ctId: ObjectId, replies: seq<Reply>, short: nat, id: ObjectId)
    requires short < |replies| && replies[short].Page? && !IsFull(replies[short])
    requires forall i :: 0 <= i < short ==> IsFull(replies[i])
    requires Collect(map[], replies, true).Ok?
    ensures var answer := OnlyCt(Collect(map[], replies, true).value, Some(ctId));
            var said := Said(Pages(replies[..short + 1]), id);
            && (id in answer <==> said != [])
            && (id in answer ==>
                  answer[id] == match LastState(said, ctId)
                                case Some(used) => map[ctId := used]
                                case None => map[])
  {
    var nodes := Pages(replies[..short + 1]);
    PagesComeTogether(map[], replies, short, true);
    FoldMeans(map[], nodes, true, id);
    FailsExactly(map[], nodes, true);
    SaidIsKnown(nodes, id);
    LastMentionWins(map[], Said(nodes, id), ctId);
  }

  // ----- what is said about a point, by its places in the tree -----

  /** The k-th policy of the point at a place. */
  datatype Mention = Mention(path: Path, k: nat)

  predicate IsMention(points: seq<Point>, id: ObjectId, policy: ObjectId, m: Mention) {
    && InForest(points, m.path) && PointAt(points, m.path).id == id
    && m.k < |PointAt(points, m.path).policies| && PointAt(points, m.path).policies[m.k].policy == policy
  }

  function StateAt(points: seq<Point>, m: Mention): PolicyState
    requires InForest(points, m.path) && m.k < |PointAt(points, m.path).policies|
  {
    PointAt(points, m.path).policies[m.k].state
  }

  ghost predicate IsLastMention(points: seq<Point>, id: ObjectId, policy: ObjectId, m: Mention) {
    IsMention(points, id, policy, m)
    && forall other :: IsMention(points, id, policy, other) ==>
         other == m || Precedes(other.path, m.path) || (other.path == m.path && other.k < m.k)
  }

  ghost predicate SaidAt(nodes: seq<Node>, id: ObjectId, policy: ObjectId, i: int, k: int) {
    0 <= i < |nodes| && nodes[i].id == id && 0 <= k < |nodes[i].policies| && nodes[i].policies[k].policy == policy
  }

  lemma {:induction false} LastStateAppend(a: seq<ChildPolicy>, b: seq<ChildPolicy>, policy: ObjectId)
    ensures LastState(a + b, policy)
         == if LastState(b, policy).Some? then LastState(b, policy) else LastState(a, policy)
    decreases |b|
  {
    if b == [] {
      assert a + b == a;
    } else {
      assert (a + b)[..|a + b| - 1] == a + b[..|b| - 1];
      LastStateAppend(a, b[..|b| - 1], policy);
    }
  }

  lemma {:induction false} LastOf(policies: seq<ChildPolicy>, policy: ObjectId) returns (k: nat)
    ensures LastState(policies, policy).None? <==> forall p <- policies :: p.policy != policy
    ensures LastState(policies, policy).Some? ==>
              && k < |policies| && policies[k].policy == policy
              && LastState(policies, policy) == Some(policies[k].state == UsedDirectly)
              && forall l :: k < l < |policies| ==> policies[l].policy != policy
  {
    k := 0;
    if policies != [] {
      var n := |policies| - 1;
      assert policies == policies[..n] + [policies[n]];
      k := LastOf(policies[..n], policy);
      if policies[n].policy == policy {
        k := n;
      }
    }
  }

  lemma {:induction false} LastSaid(nodes: seq<Node>, id: ObjectId, policy: ObjectId) returns (i: nat, k: nat)
    ensures var last := LastState(Said(nodes, id), policy);
            && (last.None? ==> forall j, l :: !SaidAt(nodes, id, policy, j, l))
            && (last.Some? ==>
                  && SaidAt(nodes, id, policy, i, k) && last == Some(nodes[i].policies[k].state == UsedDirectly)
                  && forall j, l :: SaidAt(nodes, id, policy, j, l) ==> j < i || (j == i && l <= k))
  {
    i, k := 0, 0;
    if nodes != [] {
      var rest := nodes[1..];
      var here := if nodes[0].id == id then nodes[0].policies else [];
      LastStateAppend(here, Said(rest, id), policy);
      k := LastOf(here, policy);
      var i', k' := LastSaid(rest, id, policy);
      forall j, l | SaidAt(nodes, id, policy, j, l) && j > 0 ensures SaidAt(rest, id, policy, j - 1, l) {
      }
      if LastState(Said(rest, id), policy).Some? {
        i, k := i' + 1, k';
      }
    }
  }

  /** What a point's entry says about a policy is the state in the last mention, where the tree has one:
      the last in the order of places, wherever in the tree the point occurs. */
  lemma LastMentionInForest(points: seq<Point>, id: ObjectId, policy: ObjectId)
    ensures var last := LastState(Said(PreorderAll(points), id), policy);
            && (last.None? <==> forall m :: !IsMention(points, id, policy, m))
            && (last.Some? ==> exists m :: IsLastMention(points, id, policy, m)
                                           && last == Some(StateAt(points, m) == UsedDirectly))
  {
    var nodes := PreorderAll(points);
    var paths := PreorderVisits(points);
    var i, k := LastSaid(nodes, id, policy);
    forall m | IsMention(points, id, policy, m)
      ensures exists j :: 0 <= j < |paths| && paths[j] == m.path && SaidAt(nodes, id, policy, j, m.k)
    {
      var j :| 0 <= j < |paths| && paths[j] == m.path;
      assert IsAt(points, paths[j], nodes[j]);
      assert SaidAt(nodes, id, policy, j, m.k);
    }
    if LastState(Said(nodes, id), policy).Some? {
      assert IsAt(points, paths[i], nodes[i]);
      assert IsLastMention(points, id, policy, Mention(paths[i], k));
    }
  }

  lemma {:induction false} SaidIff(nodes: seq<Node>, id: ObjectId)
    ensures Said(nodes, id) != [] <==> exists node <- nodes :: node.id == id && node.policies != []
  {
    if nodes != [] {
      SaidIff(nodes[1..], id);
      assert nodes == [nodes[0]] + nodes[1..];
    }
  }

  /** The point occurs at the place, and has policies there. */
  predicate HasPolicies(points: seq<Point>, id: ObjectId, path: Path) {
    InForest(points, path) && PointAt(points, path).id == id && PointAt(points, path).policies != []
  }

  lemma HasPoliciesIff(points: seq<Point>, id: ObjectId)
    ensures Said(PreorderAll(points), id) != [] <==> exists path :: HasPolicies(points, id, path)
  {
    var nodes := PreorderAll(points);
    var paths := PreorderVisits(points);
    SaidIff(nodes, id);
    if node :| node in nodes && node.id == id && node.policies != [] {
      var i :| 0 <= i < |nodes| && nodes[i] == node;
      assert IsAt(points, paths[i], nodes[i]);
      assert HasPolicies(points, id, paths[i]);
    }
    if path :| HasPolicies(points, id, path) {
      var i :| 0 <= i < |paths| && paths[i] == path;
      assert IsAt(points, paths[i], nodes[i]);
      assert nodes[i] in nodes;
    }
  }

  /** All the points of some pages side by side. */
  function PointsOf(replies: seq<Reply>): seq<Point> {
    if replies == [] then []
    else (if replies[0].Page? then replies[0].points else []) + PointsOf(replies[1..])
  }

  lemma {:induction false} PagesAreForest(replies: seq<Reply>)
    ensures Pages(replies) == PreorderAll(PointsOf(replies))
  {
    if replies != [] {
      PagesAreForest(replies[1..]);
      PreorderAppend(if replies[0].Page? then replies[0].points else [], PointsOf(replies[1..]));
    }
  }

  /** About the points asked for, by the places in the pages' trees: a point, on whatever level it is, is
      told of each policy mentioned there, by the last mention. */
  lemma PointsAreTold(apIds: seq<ObjectId>, replies: seq<Reply>, short: nat, id: ObjectId, policy: ObjectId)
    requires short < |replies| && replies[short].Page? && !IsFull(replies[short])
    requires forall i :: 0 <= i < short ==> IsFull(replies[i])
    requires Collect(EmptyFor(apIds), replies, false).Ok? && id in apIds
    ensures var answer := Collect(EmptyFor(apIds), replies, false).value;
            var points := PointsOf(replies[..short + 1]);
            && id in answer
            && (policy in answer[id] <==> exists m :: IsMention(points, id, policy, m))
            && (policy in answer[id] ==>
                  exists m :: IsLastMention(points, id, policy, m)
                              && answer[id][policy] == (StateAt(points, m) == UsedDirectly))
  {
    var pages := replies[..short + 1];
    AnswerByPoints(apIds, replies, short, id);
    PagesAreForest(pages);
    LastMentionInForest(PointsOf(pages), id, policy);
    FailsExactly(EmptyFor(apIds), Pages(pages), false);
    PagesComeTogether(EmptyFor(apIds), replies, short, false);
    SaidIsKnown(Pages(pages), id);
    LastMentionWins(map[], Said(Pages(pages), id), policy);
  }

  lemma {:induction false} SaidIsKnown(nodes: seq<Node>, id: ObjectId)
    requires forall node <- nodes :: node.id == id ==> Known(node.policies)
    ensures Known(Said(nodes, id))
  {
    if nodes != [] {
      assert nodes[0] in nodes;
      SaidIsKnown(nodes[1..], id);
    }
  }

  /** About one template, likewise: every point that has policies somewhere in the trees, with what the
      last mention of the template says, or nothing. */
  lemma TemplateIsTold(ctId: ObjectId, replies: seq<Reply>, short: nat, id: ObjectId)
    requires short < |replies| && replies[short].Page? && !IsFull(replies[short])
    requires forall i :: 0 <= i < short ==> IsFull(replies[i])
    requires Collect(map[], replies, true).Ok?
    ensures var answer := OnlyCt(Collect(map[], replies, true).value, Some(ctId));
            var points := PointsOf(replies[..short + 1]);
            && (id in answer <==> exists path :: HasPolicies(points, id, path))
            && (id in answer ==> answer[id].Keys <= {ctId})
            && (id in answer ==> (ctId in answer[id] <==> exists m :: IsMention(points, id, ctId, m)))
            && (id in answer && ctId in answer[id] ==>
                  exists m :: IsLastMention(points, id, ctId, m)
                              && answer[id][ctId] == (StateAt(points, m) == UsedDirectly))
  {
    var pages := replies[..short + 1];
    AnswerByCt(ctId, replies, short, id);
    PagesAreForest(pages);
    LastMentionInForest(PointsOf(pages), id, ctId);
    HasPoliciesIff(PointsOf(pages), id);
  }

  // ----- examples -----

  /** A point asked for, which the tree gives no policies, is counted as filled and is not. */
  lemma UnfilledPointIsCounted(id: ObjectId)
    ensures var after := Fold(map[id := map[]], PreorderAll([Point(id, [], [])]), false);
            after.error == None && after.m == 1 && Filled(after.usage) == {}
  {
    var point := Point(id, [], []);
    assert [point][1..] == [] && PreorderAll([]) == [];
    assert PreorderAll(point.children) == [] && Preorder(point) == [Node(id, [])];
    assert PreorderAll([point]) == [Node(id, [])];
    assert [Node(id, [])][1..] == [];
  }

  /** A point that has policies, but not the template asked about, is answered with an empty entry. */
  lemma OtherTemplateLeavesEmptyEntry(point: ObjectId, ctId: ObjectId, other: ObjectId)
    requires ctId != other
    ensures var replies := [Page([Point(point, [ChildPolicy(other, UsedDirectly)], [])])];
            Collect(map[], replies, true).Ok?
            && OnlyCt(Collect(map[], replies, true).value, Some(ctId)) == map[point := map[]]
  {
    var policies := [ChildPolicy(other, UsedDirectly)];
    var tree := Point(point, policies, []);
    assert policies[1..] == [] && [tree][1..] == [];
    assert PreorderAll([]) == [] && Preorder(tree) == [Node(point, policies)];
    assert PreorderAll([tree]) == [Node(point, policies)];
    assert [Node(point, policies)][1..] == [];
    assert Noted(map[], policies) == map[other := true];
    assert FirstUnknown(point, policies) == None;
    var visited := Visit(map[], Node(point, policies), true);
    assert visited == Filling(map[point := map[other := true]], 1, 1, None);
    assert Fold(visited.usage, [], true) == Filling(visited.usage, 0, 0, None);
    assert Fold(map[], [Node(point, policies)], true) == Filling(map[point := map[other := true]], 1, 1, None);
  }
}
