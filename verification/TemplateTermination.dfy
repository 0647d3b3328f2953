/** When rebuilding a template from an export ends. The code follows IDs without a depth bound, so a
    run that is out of fuel at every depth stands for a call that never returns. */
module TemplateTermination {
  import opened Common
  import opened CtAttributes
  import opened ConnectivityTemplate

  /** The pipelines that rebuilding this one goes on to. */
  function ChildrenOf(id: ObjectId, policies: PolicyMap): seq<ObjectId> {
    if id in policies then Children(PipelineSubpolicies(policies[id].attributes).1, policies) else []
  }

  /** The pipeline gets past every refusal that comes before its children are looked at. */
  predicate Entered(id: ObjectId, policies: PolicyMap) {
    && id in policies && policies[id].policyType == Pipeline
    && var (first, second) := PipelineSubpolicies(policies[id].attributes);
       && first in policies && !policies[first].policyType.Unknown?
       && (second.Some? && second.value in policies ==> policies[second.value].policyType == Batch)
  }

  /** And its attributes can be read as well. */
  predicate WellFormed(id: ObjectId, policies: PolicyMap) {
    Entered(id, policies)
    && var actual := policies[PipelineSubpolicies(policies[id].attributes).0];
       Decode(actual.policyType, actual.attributes).Ok?
  }

  ghost predicate IsPath(path: seq<ObjectId>, policies: PolicyMap) {
    path != [] && forall i :: 0 <= i < |path| - 1 ==> path[i + 1] in ChildrenOf(path[i], policies)
  }

  /** Everything that the pipeline leads to is well-formed, and nothing in a circle. */
  ghost predicate Fine(id: ObjectId, policies: PolicyMap) {
    forall path :: IsPath(path, policies) && path[0] == id ==>
      NoDuplicates(path) && WellFormed(path[|path| - 1], policies)
  }

  ghost predicate FineBefore(ids: seq<ObjectId>, j: nat, policies: PolicyMap)
    requires j <= |ids|
  {
    forall k :: 0 <= k < j ==> Fine(ids[k], policies)
  }

  /** The list is worked through as far as this member: those before it are all fine. */
  ghost predicate Reaches(ids: seq<ObjectId>, child: ObjectId, policies: PolicyMap) {
    exists j :: 0 <= j < |ids| && ids[j] == child && FineBefore(ids, j, policies)
  }

  ghost predicate Visits(id: ObjectId, child: ObjectId, policies: PolicyMap) {
    Entered(id, policies) && Reaches(ChildrenOf(id, policies), child, policies)
  }

  ghost predicate IsVisit(path: seq<ObjectId>, policies: PolicyMap) {
    path != [] && forall i :: 0 <= i < |path| - 1 ==> Visits(path[i], path[i + 1], policies)
  }

  ghost predicate Ends(id: ObjectId, policies: PolicyMap, fuel: nat) {
    Parse(id, policies, fuel) != Err(OutOfFuel)
  }

  ghost predicate ParsesOrRunsOut(id: ObjectId, policies: PolicyMap, fuel: nat) {
    Parse(id, policies, fuel).Ok? || !Ends(id, policies, fuel)
  }

  // ----- one level -----

  lemma ParseEntered(id: ObjectId, policies: PolicyMap, fuel: nat)
    requires Entered(id, policies) && fuel > 0
    ensures var below := ParseAll(ChildrenOf(id, policies), policies, fuel - 1);
            && (below.Err? ==> Parse(id, policies, fuel) == Err(below.error))
            && (below.Ok? ==> Ends(id, policies, fuel) && (Parse(id, policies, fuel).Ok? <==> WellFormed(id, policies)))
            && (Parse(id, policies, fuel).Ok? ==> Parse(id, policies, fuel).value.subpolicies == below.value)
  {
  }

  lemma ParseRefused(id: ObjectId, policies: PolicyMap, fuel: nat)
    requires !Entered(id, policies) && fuel > 0
    ensures Parse(id, policies, fuel).Err? && Ends(id, policies, fuel)
  {
  }

  lemma {:induction false} AllParsed(ids: seq<ObjectId>, policies: PolicyMap, fuel: nat, j: nat)
    requires ParseAll(ids, policies, fuel).Ok? && j < |ids|
    ensures Parse(ids[j], policies, fuel).Ok?
    ensures Height(Parse(ids[j], policies, fuel).value) <= HeightOfAll(ParseAll(ids, policies, fuel).value)
  {
    if j > 0 {
      AllParsed(ids[1..], policies, fuel, j - 1);
    }
  }

  /** A list runs out of fuel in one of its members, the ones before it being done. */
  lemma {:induction false} RunsOutIn(ids: seq<ObjectId>, policies: PolicyMap, fuel: nat) returns (j: nat)
    requires ParseAll(ids, policies, fuel) == Err(OutOfFuel)
    ensures j < |ids| && !Ends(ids[j], policies, fuel)
    ensures forall k :: 0 <= k < j ==> Parse(ids[k], policies, fuel).Ok?
  {
    if !Ends(ids[0], policies, fuel) {
      j := 0;
    } else {
      j := RunsOutIn(ids[1..], policies, fuel);
      j := j + 1;
    }
  }

  lemma {:induction false} RunsOut(ids: seq<ObjectId>, policies: PolicyMap, fuel: nat, j: nat)
    requires j < |ids| && !Ends(ids[j], policies, fuel)
    requires forall k :: 0 <= k < j ==> ParsesOrRunsOut(ids[k], policies, fuel)
    ensures ParseAll(ids, policies, fuel) == Err(OutOfFuel)
  {
    if j > 0 && Ends(ids[0], policies, fuel) {
      RunsOut(ids[1..], policies, fuel, j - 1);
    }
  }

  // ----- what is rebuilt is fine -----

  /** Along a path the rebuilt trees get lower. */
  lemma {:induction false} PathDescends(path: seq<ObjectId>, policies: PolicyMap, fuel: nat, k: nat)
    returns (left: nat)
    requires IsPath(path, policies) && k < |path| && Parse(path[0], policies, fuel).Ok?
    ensures Parse(path[k], policies, left).Ok? && WellFormed(path[k], policies)
    ensures Height(Parse(path[k], policies, left).value) + k <= Height(Parse(path[0], policies, fuel).value)
  {
    if !Entered(path[0], policies) {
      ParseRefused(path[0], policies, fuel);
    }
    ParseEntered(path[0], policies, fuel);
    if k == 0 {
      left := fuel;
    } else {
      var ids := ChildrenOf(path[0], policies);
      var j :| 0 <= j < |ids| && ids[j] == path[1];
      AllParsed(ids, policies, fuel - 1, j);
      left := PathDescends(path[1..], policies, fuel - 1, k - 1);
    }
  }

  lemma {:induction false} OkIsFine(id: ObjectId, policies: PolicyMap, fuel: nat)
    requires Parse(id, policies, fuel).Ok?
    ensures Fine(id, policies)
  {
    forall path | IsPath(path, policies) && path[0] == id
      ensures NoDuplicates(path) && WellFormed(path[|path| - 1], policies)
    {
      var _ := PathDescends(path, policies, fuel, |path| - 1);
      forall i, j | 0 <= i < j < |path| ensures path[i] != path[j] {
        var a := PathDescends(path, policies, fuel, i);
        var b := PathDescends(path[i..], policies, a, j - i);
        if path[i] == path[j] {
          MoreFuelAgrees(path[i], policies, a, if a > b then a else b);
          MoreFuelAgrees(path[i], policies, b, if a > b then a else b);
        }
      }
    }
  }

  lemma PathFrom(id: ObjectId, path: seq<ObjectId>, policies: PolicyMap) returns (longer: seq<ObjectId>)
    requires IsPath(path, policies) && path[0] in ChildrenOf(id, policies)
    ensures longer == [id] + path && IsPath(longer, policies) && longer[|longer| - 1] == path[|path| - 1]
  {
    longer := [id] + path;
    forall i | 0 <= i < |longer| - 1 ensures longer[i + 1] in ChildrenOf(longer[i], policies) {
      if i > 0 {
        assert longer[i] == path[i - 1] && longer[i + 1] == path[i - 1 + 1];
      }
    }
  }

  ghost predicate LeadsTo(id: ObjectId, other: ObjectId, policies: PolicyMap) {
    exists path :: IsPath(path, policies) && path[0] == id && path[|path| - 1] == other
  }

  /** Everything that the pipeline leads to is well-formed, in a circle or not. */
  ghost predicate SoundBelow(id: ObjectId, policies: PolicyMap) {
    forall other :: LeadsTo(id, other, policies) ==> WellFormed(other, policies)
  }

  lemma LeadsOn(id: ObjectId, policies: PolicyMap, child: ObjectId, other: ObjectId)
    requires child in ChildrenOf(id, policies) && LeadsTo(child, other, policies)
    ensures LeadsTo(id, other, policies)
  {
    var path :| IsPath(path, policies) && path[0] == child && path[|path| - 1] == other;
    var longer := PathFrom(id, path, policies);
  }

  lemma SoundBelowChild(id: ObjectId, policies: PolicyMap, child: ObjectId)
    requires SoundBelow(id, policies) && child in ChildrenOf(id, policies)
    ensures SoundBelow(child, policies)
  {
    forall other | LeadsTo(child, other, policies) ensures WellFormed(other, policies) {
      LeadsOn(id, policies, child, other);
    }
  }

  lemma SoundIsWellFormed(id: ObjectId, policies: PolicyMap)
    requires SoundBelow(id, policies)
    ensures WellFormed(id, policies)
  {
    assert IsPath([id], policies);
    assert LeadsTo(id, id, policies);
  }

  /** What is sound is rebuilt, or out of fuel. */
  lemma {:induction false} SoundParsesOrRunsOut(id: ObjectId, policies: PolicyMap, fuel: nat)
    requires SoundBelow(id, policies)
    ensures ParsesOrRunsOut(id, policies, fuel)
    decreases fuel
  {
    SoundIsWellFormed(id, policies);
    if fuel > 0 {
      var ids := ChildrenOf(id, policies);
      forall j | 0 <= j < |ids| ensures ParsesOrRunsOut(ids[j], policies, fuel - 1) {
        SoundBelowChild(id, policies, ids[j]);
        SoundParsesOrRunsOut(ids[j], policies, fuel - 1);
      }
      WellFormedStep(id, policies, fuel);
    }
  }

  lemma WellFormedStep(id: ObjectId, policies: PolicyMap, fuel: nat)
    requires WellFormed(id, policies) && fuel > 0
    requires var ids := ChildrenOf(id, policies);
             forall j :: 0 <= j < |ids| ==> ParsesOrRunsOut(ids[j], policies, fuel - 1)
    ensures ParsesOrRunsOut(id, policies, fuel)
  {
    AllParsedOrRunsOut(ChildrenOf(id, policies), policies, fuel - 1);
    ParseEntered(id, policies, fuel);
  }

  ghost predicate AllParseOrRunOut(ids: seq<ObjectId>, policies: PolicyMap, fuel: nat) {
    ParseAll(ids, policies, fuel).Ok? || ParseAll(ids, policies, fuel) == Err(OutOfFuel)
  }

  lemma {:induction false} AllParsedOrRunsOut(ids: seq<ObjectId>, policies: PolicyMap, fuel: nat)
    requires forall j :: 0 <= j < |ids| ==> ParsesOrRunsOut(ids[j], policies, fuel)
    ensures AllParseOrRunOut(ids, policies, fuel)
  {
    if ids != [] {
      AllParsedOrRunsOut(ids[1..], policies, fuel);
    }
  }

  // ----- running out means a long way -----

  lemma RunsOutBelow(id: ObjectId, policies: PolicyMap, fuel: nat) returns (child: ObjectId)
    requires fuel > 0 && !Ends(id, policies, fuel)
    ensures id in policies && Visits(id, child, policies) && !Ends(child, policies, fuel - 1)
  {
    if !Entered(id, policies) {
      ParseRefused(id, policies, fuel);
    }
    ParseEntered(id, policies, fuel);
    var ids := ChildrenOf(id, policies);
    var j := RunsOutIn(ids, policies, fuel - 1);
    forall k | 0 <= k < j ensures Fine(ids[k], policies) {
      OkIsFine(ids[k], policies, fuel - 1);
    }
    assert FineBefore(ids, j, policies);
    child := ids[j];
  }

  lemma {:induction false} LongVisit(id: ObjectId, policies: PolicyMap, fuel: nat) returns (path: seq<ObjectId>)
    requires !Ends(id, policies, fuel)
    ensures |path| == fuel + 1 && path[0] == id && IsVisit(path, policies)
    ensures forall i :: 0 <= i < fuel ==> path[i] in policies
    decreases fuel
  {
    if fuel == 0 {
      path := [id];
    } else {
      var child := RunsOutBelow(id, policies, fuel);
      var rest := LongVisit(child, policies, fuel - 1);
      path := [id] + rest;
    }
  }

  lemma {:induction false} DistinctFit(s: seq<ObjectId>, members: set<ObjectId>)
    requires NoDuplicates(s) && forall x <- s :: x in members
    ensures |s| <= |members|
  {
    if s != [] {
      var n := |s| - 1;
      DistinctFit(s[..n], members - {s[n]});
    }
  }

  /** A run that is out of fuel after as many steps as there are policies has been in a circle. */
  lemma RunsInCircle(id: ObjectId, policies: PolicyMap) returns (path: seq<ObjectId>)
    requires !Ends(id, policies, |policies| + 1)
    ensures IsVisit(path, policies) && path[0] == id && !NoDuplicates(path)
  {
    path := LongVisit(id, policies, |policies| + 1);
    if NoDuplicates(path) {
      DistinctFit(path[..|policies| + 1], policies.Keys);
    }
  }

  lemma VisitIsPath(path: seq<ObjectId>, policies: PolicyMap)
    requires IsVisit(path, policies)
    ensures IsPath(path, policies)
  {
    forall i | 0 <= i < |path| - 1 ensures path[i + 1] in ChildrenOf(path[i], policies) {
      assert Visits(path[i], path[i + 1], policies);
    }
  }

  // ----- and a circle means running out -----

  /** The least fuel with which the pipeline ends. */
  ghost predicate IsLeast(id: ObjectId, policies: PolicyMap, least: nat) {
    Ends(id, policies, least) && (least > 0 ==> !Ends(id, policies, least - 1))
  }

  lemma {:induction false} HasLeast(id: ObjectId, policies: PolicyMap, fuel: nat) returns (least: nat)
    requires Ends(id, policies, fuel)
    ensures IsLeast(id, policies, least) && least <= fuel
  {
    least := fuel;
    if fuel > 0 && Ends(id, policies, fuel - 1) {
      least := HasLeast(id, policies, fuel - 1);
    }
  }

  lemma LeastIsUnique(id: ObjectId, policies: PolicyMap, a: nat, b: nat)
    requires IsLeast(id, policies, a) && IsLeast(id, policies, b)
    ensures a == b
  {
    if a < b { MoreFuelAgrees(id, policies, a, b - 1); }
    if b < a { MoreFuelAgrees(id, policies, b, a - 1); }
  }

  lemma VisitRunsOut(ids: seq<ObjectId>, child: ObjectId, policies: PolicyMap, fuel: nat)
    requires Reaches(ids, child, policies)
    requires !Ends(child, policies, fuel)
    ensures ParseAll(ids, policies, fuel) == Err(OutOfFuel)
  {
    var j :| 0 <= j < |ids| && ids[j] == child && FineBefore(ids, j, policies);
    forall k | 0 <= k < j ensures ParsesOrRunsOut(ids[k], policies, fuel) {
      FineIsSound(ids[k], policies);
      SoundParsesOrRunsOut(ids[k], policies, fuel);
    }
    RunsOut(ids, policies, fuel, j);
  }

  lemma FineIsSound(id: ObjectId, policies: PolicyMap)
    requires Fine(id, policies)
    ensures SoundBelow(id, policies)
  {
  }

  lemma EndsBelow(id: ObjectId, policies: PolicyMap, fuel: nat)
    requires Entered(id, policies) && Ends(id, policies, fuel)
    ensures fuel > 0 && ParseAll(ChildrenOf(id, policies), policies, fuel - 1) != Err(OutOfFuel)
  {
    if fuel > 0 {
      ParseEntered(id, policies, fuel);
    }
  }

  lemma VisitEnds(ids: seq<ObjectId>, child: ObjectId, policies: PolicyMap, fuel: nat)
    requires Reaches(ids, child, policies) && ParseAll(ids, policies, fuel) != Err(OutOfFuel)
    ensures Ends(child, policies, fuel)
  {
    if !Ends(child, policies, fuel) {
      VisitRunsOut(ids, child, policies, fuel);
    }
  }

  lemma VisitTakesFuel(id: ObjectId, child: ObjectId, policies: PolicyMap, fuel: nat)
    requires Visits(id, child, policies) && Ends(id, policies, fuel)
    ensures fuel > 0 && Ends(child, policies, fuel - 1)
  {
    EndsBelow(id, policies, fuel);
    VisitEnds(ChildrenOf(id, policies), child, policies, fuel - 1);
  }

  /** Along a visit the least fuel falls. */
  lemma {:induction false} VisitDescends(path: seq<ObjectId>, policies: PolicyMap, least: nat, k: nat)
    returns (left: nat)
    requires IsVisit(path, policies) && k < |path| && IsLeast(path[0], policies, least)
    ensures IsLeast(path[k], policies, left) && left + k <= least
  {
    left := least;
    if k > 0 {
      VisitTakesFuel(path[0], path[1], policies, least);
      left := HasLeast(path[1], policies, least - 1);
      left := VisitDescends(path[1..], policies, left, k - 1);
    }
  }

  lemma EndsWithoutCircle(path: seq<ObjectId>, policies: PolicyMap, fuel: nat)
    requires IsVisit(path, policies) && Ends(path[0], policies, fuel)
    ensures NoDuplicates(path)
  {
    var least := HasLeast(path[0], policies, fuel);
    forall i, j | 0 <= i < j < |path| ensures path[i] != path[j] {
      var a := VisitDescends(path, policies, least, i);
      var b := VisitDescends(path[i..], policies, a, j - i);
      if path[i] == path[j] {
        LeastIsUnique(path[i], policies, a, b);
      }
    }
  }

  // ----- exactly when -----

  ghost predicate NoCircle(id: ObjectId, policies: PolicyMap) {
    forall path :: IsVisit(path, policies) && path[0] == id ==> NoDuplicates(path)
  }

  /** For every export whatever, rebuilding from a pipeline ends exactly when no way of visiting
      pipelines from there comes back to one it has passed. If it ends, a depth of one more than
      there are policies is enough. */
  lemma EndsIff(id: ObjectId, policies: PolicyMap)
    ensures (exists fuel: nat :: Ends(id, policies, fuel)) <==> NoCircle(id, policies)
    ensures NoCircle(id, policies) ==> Ends(id, policies, |policies| + 1)
  {
    if fuel: nat :| Ends(id, policies, fuel) {
      forall path | IsVisit(path, policies) && path[0] == id ensures NoDuplicates(path) {
        EndsWithoutCircle(path, policies, fuel);
      }
    }
    if !Ends(id, policies, |policies| + 1) {
      var path := RunsInCircle(id, policies);
    }
  }

  /** And it ends with a tree exactly when everything the pipeline leads to is well-formed and nothing
      leads back to itself. */
  lemma ParsesIff(id: ObjectId, policies: PolicyMap)
    ensures (exists fuel: nat :: Parse(id, policies, fuel).Ok?) <==> Fine(id, policies)
    ensures Fine(id, policies) ==> Parse(id, policies, |policies| + 1).Ok?
  {
    if fuel: nat :| Parse(id, policies, fuel).Ok? {
      OkIsFine(id, policies, fuel);
    }
    if Fine(id, policies) {
      FineIsSound(id, policies);
      SoundParsesOrRunsOut(id, policies, |policies| + 1);
      if !Ends(id, policies, |policies| + 1) {
        var path := RunsInCircle(id, policies);
        VisitIsPath(path, policies);
      }
    }
  }

  /** Where all is well-formed, the way is every path: rebuilding ends exactly when no path from the
      pipeline comes back to a pipeline it has passed. */
  lemma WellFormedEndsIff(id: ObjectId, policies: PolicyMap)
    requires SoundBelow(id, policies)
    ensures (exists fuel: nat :: Ends(id, policies, fuel))
       <==> forall path :: IsPath(path, policies) && path[0] == id ==> NoDuplicates(path)
  {
    ParsesIff(id, policies);
    if fuel: nat :| Ends(id, policies, fuel) {
      SoundParsesOrRunsOut(id, policies, fuel);
      OkIsFine(id, policies, fuel);
    }
    if forall path :: IsPath(path, policies) && path[0] == id ==> NoDuplicates(path) {
      forall path | IsPath(path, policies) && path[0] == id ensures WellFormed(path[|path| - 1], policies) {
        assert LeadsTo(id, path[|path| - 1], policies);
      }
      assert Fine(id, policies);
      assert Ends(id, policies, |policies| + 1);
    }
  }

  // ----- a whole template -----

  /** Where polish() starts its recursion, if it gets that far. */
  ghost function Recursion(policies: seq<Policy>, id: ObjectId): Option<(seq<ObjectId>, PolicyMap)> {
    var byId := MapOf(policies);
    if policies == [] || id !in byId || byId[id].userData.None? || byId[id].policyType != Batch
       || byId[id].userData.value.Malformed? then None
    else Some((BatchSubpolicies(byId[id].attributes), byId - {byId[id].id}))
  }

  ghost predicate AllNoCircle(ids: seq<ObjectId>, policies: PolicyMap) {
    forall j :: 0 <= j < |ids| && FineBefore(ids, j, policies) ==> NoCircle(ids[j], policies)
  }

  ghost predicate AllEnd(ids: seq<ObjectId>, policies: PolicyMap, fuel: nat) {
    ParseAll(ids, policies, fuel) != Err(OutOfFuel)
  }

  lemma AllEndWithoutCircle(ids: seq<ObjectId>, policies: PolicyMap, fuel: nat, j: nat)
    requires AllEnd(ids, policies, fuel) && j < |ids| && FineBefore(ids, j, policies)
    ensures NoCircle(ids[j], policies)
  {
    if !Ends(ids[j], policies, fuel) {
      assert Reaches(ids, ids[j], policies);
      VisitRunsOut(ids, ids[j], policies, fuel);
    }
    EndsIff(ids[j], policies);
  }

  lemma NoCircleMeansAllEnd(ids: seq<ObjectId>, policies: PolicyMap)
    requires AllNoCircle(ids, policies)
    ensures AllEnd(ids, policies, |policies| + 1)
  {
    var bound := |policies| + 1;
    if !AllEnd(ids, policies, bound) {
      var j := RunsOutIn(ids, policies, bound);
      forall k | 0 <= k < j ensures Fine(ids[k], policies) {
        OkIsFine(ids[k], policies, bound);
      }
      assert FineBefore(ids, j, policies);
      EndsIff(ids[j], policies);
    }
  }

  lemma AllEndIff(ids: seq<ObjectId>, policies: PolicyMap)
    ensures (exists fuel: nat :: AllEnd(ids, policies, fuel)) <==> AllNoCircle(ids, policies)
  {
    if fuel: nat :| AllEnd(ids, policies, fuel) {
      forall j | 0 <= j < |ids| && FineBefore(ids, j, policies) ensures NoCircle(ids[j], policies) {
        AllEndWithoutCircle(ids, policies, fuel, j);
      }
    }
    if AllNoCircle(ids, policies) {
      NoCircleMeansAllEnd(ids, policies);
    }
  }

  ghost predicate NoCircleBelow(policies: seq<Policy>, id: ObjectId) {
    var start := Recursion(policies, id);
    start.None? || AllNoCircle(start.value.0, start.value.1)
  }

  ghost predicate PolishEnds(policies: seq<Policy>, id: ObjectId, fuel: nat) {
    Polish(policies, id, fuel) != Err(OutOfFuel)
  }

  lemma PolishEndsWith(policies: seq<Policy>, id: ObjectId, fuel: nat)
    ensures var start := Recursion(policies, id);
            PolishEnds(policies, id, fuel) <==> start.None? || AllEnd(start.value.0, start.value.1, fuel)
  {
  }

  /** Polishing a template ends exactly when it refuses the root, or when no subpolicy that it gets to
      leads back into what was passed on the way. */
  lemma PolishEndsIff(policies: seq<Policy>, id: ObjectId)
    ensures (exists fuel: nat :: PolishEnds(policies, id, fuel)) <==> NoCircleBelow(policies, id)
  {
    var start := Recursion(policies, id);
    if fuel: nat :| PolishEnds(policies, id, fuel) {
      PolishEndsWith(policies, id, fuel);
    }
    if start.None? {
      PolishEndsWith(policies, id, 0);
    } else {
      AllEndIff(start.value.0, start.value.1);
      if fuel: nat :| AllEnd(start.value.0, start.value.1, fuel) {
        PolishEndsWith(policies, id, fuel);
      }
    }
  }

  // ----- examples -----

  /** A pipeline whose batch lists another one and then itself never ends, as little as one whose
      batch lists only itself. */
  lemma SecondChildCircle(p: ObjectId, q: ObjectId, a: ObjectId, b: ObjectId) returns (policies: PolicyMap)
    requires NoDuplicates([p, q, a, b])
    ensures Fine(q, policies)
    ensures forall fuel: nat :: !Ends(p, policies, fuel)
  {
    assert [p, q, a, b][0] == p && [p, q, a, b][1] == q && [p, q, a, b][2] == a && [p, q, a, b][3] == b;
    var pipeline := Policy(p, "", Text(""), [], None, false, Pipeline, RawPipeline(a, Some(b)));
    var leaf := Policy(q, "", Text(""), [], None, false, Pipeline, RawPipeline(a, None));
    var actual := Policy(a, "", Text(""), [], None, false, AttachExistingRoutingPolicy, RawExistingRoutingPolicy(None));
    var batch := Policy(b, "", Text(""), [], None, false, Batch, RawBatch([q, p]));
    policies := map[p := pipeline, q := leaf, a := actual, b := batch];
    LeafIsFine(q, a, policies);
    assert ChildrenOf(p, policies) == [q, p];
    CircleNeverEnds([p, p], policies);
  }

  lemma LeafIsFine(q: ObjectId, a: ObjectId, policies: PolicyMap)
    requires WellFormed(q, policies) && policies[q].attributes == RawPipeline(a, None)
    ensures Fine(q, policies)
  {
    ParseEntered(q, policies, 1);
    OkIsFine(q, policies, 1);
  }

  lemma CircleNeverEnds(path: seq<ObjectId>, policies: PolicyMap)
    requires |path| >= 2 && path[0] == path[|path| - 1]
    requires forall i :: 0 <= i < |path| - 1 ==> Visits(path[i], path[i + 1], policies)
    ensures forall fuel: nat :: !Ends(path[0], policies, fuel)
  {
    EndsIff(path[0], policies);
    assert IsVisit(path, policies) && !NoDuplicates(path);
  }

  /** The smallest such export: a pipeline whose batch lists the pipeline itself. */
  lemma CircularExportExists(p: ObjectId, a: ObjectId, b: ObjectId) returns (policies: PolicyMap)
    requires NoDuplicates([p, a, b])
    ensures forall fuel: nat :: !Ends(p, policies, fuel)
  {
    assert [p, a, b][0] == p && [p, a, b][1] == a && [p, a, b][2] == b;
    var pipeline := Policy(p, "", Text(""), [], None, false, Pipeline, RawPipeline(a, Some(b)));
    var actual := Policy(a, "", Text(""), [], None, false, AttachExistingRoutingPolicy, RawExistingRoutingPolicy(None));
    var batch := Policy(b, "", Text(""), [], None, false, Batch, RawBatch([p]));
    policies := map[p := pipeline, a := actual, b := batch];
    assert ChildrenOf(p, policies) == [p];
    CircleNeverEnds([p, p], policies);
  }
}
