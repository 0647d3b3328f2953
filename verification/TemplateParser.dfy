/** Reading an export back: the loops over policies and IDs, each computing the function that
    ConnectivityTemplate gives for it, and what they recover from an export of compiled templates. */
module TemplateParser {
  import opened Common
  import opened CtAttributes
  import opened ConnectivityTemplate

  /** policyMap() */
  method PolicyMapOf(policies: seq<Policy>) returns (byId: PolicyMap)
    ensures byId == MapOf(policies)
  {
    byId := map[];
    for i := 0 to |policies|
      invariant byId == MapOf(policies[..i])
    {
      byId := byId[policies[i].id := policies[i]];
      assert policies[..i + 1][..i] == policies[..i];
    }
    assert policies[..|policies|] == policies;
  }

  /** rootBatchIds() */
  method RootBatchIds(policies: seq<Policy>) returns (ids: seq<ObjectId>)
    ensures ids == Roots(policies)
  {
    ids := [];
    for i := 0 to |policies|
      invariant ids == Roots(policies[..i])
    {
      RootsAppend(policies[..i], [policies[i]]);
      assert policies[..i] + [policies[i]] == policies[..i + 1];
      assert Roots([policies[i]]) == if policies[i].visible then [policies[i].id] else [];
      if policies[i].visible {
        ids := ids + [policies[i].id];
      }
    }
    assert policies[..|policies|] == policies;
  }

  lemma {:induction false} ParseAllSplit(a: seq<ObjectId>, b: seq<ObjectId>, policies: PolicyMap, fuel: nat)
    ensures var f := ParseAll(a, policies, fuel);
            ParseAll(a + b, policies, fuel)
            == if f.Err? then f
               else var g := ParseAll(b, policies, fuel); if g.Err? then g else Ok(f.value + g.value)
  {
    if a == [] {
      assert a + b == b;
      var g := ParseAll(b, policies, fuel);
      assert g.Ok? ==> [] + g.value == g.value;
    } else {
      assert (a + b)[0] == a[0] && (a + b)[1..] == a[1..] + b;
      ParseAllSplit(a[1..], b, policies, fuel);
      var f := ParseAll(a, policies, fuel);
      var g := ParseAll(b, policies, fuel);
      if f.Ok? && g.Ok? {
        var head := Parse(a[0], policies, fuel).value;
        var tail := ParseAll(a[1..], policies, fuel).value;
        assert [head] + (tail + g.value) == ([head] + tail) + g.value;
      }
    }
  }

  lemma ParseOneMore(ids: seq<ObjectId>, i: nat, policies: PolicyMap, fuel: nat)
    requires i < |ids| && ParseAll(ids[..i], policies, fuel).Ok?
    ensures var one := Parse(ids[i], policies, fuel);
            && (one.Ok? ==> ParseAll(ids[..i + 1], policies, fuel)
                            == Ok(ParseAll(ids[..i], policies, fuel).value + [one.value]))
            && (one.Err? ==> ParseAll(ids, policies, fuel) == Err(one.error))
  {
    var one := Parse(ids[i], policies, fuel);
    assert [ids[i]][1..] == [];
    if one.Ok? {
      assert ParseAll([], policies, fuel) == Ok([]);
      assert [one.value] + [] == [one.value];
      assert ParseAll([ids[i]], policies, fuel) == Ok([one.value]);
    }
    ParseAllSplit(ids[..i], [ids[i]], policies, fuel);
    assert ids[..i] + [ids[i]] == ids[..i + 1];
    ParseAllSplit(ids[..i + 1], ids[i + 1..], policies, fuel);
    assert ids == ids[..i + 1] + ids[i + 1..];
  }

  /** The loop over a batch's subpolicies. */
  method ParseTrees(ids: seq<ObjectId>, policies: PolicyMap, fuel: nat)
    returns (r: Result<seq<Primitive>, CtError>)
    ensures r == ParseAll(ids, policies, fuel)
    decreases fuel, 1
  {
    var trees := [];
    for i := 0 to |ids|
      invariant ParseAll(ids[..i], policies, fuel) == Ok(trees)
    {
      ParseOneMore(ids, i, policies, fuel);
      var tree := ParseTree(ids[i], policies, fuel);
      if tree.Err? {
        return Err(tree.error);
      }
      trees := trees + [tree.value];
    }
    assert ids[..|ids|] == ids;
    r := Ok(trees);
  }

  /** parsePrimitiveTreeByPipelineId() */
  method ParseTree(id: ObjectId, policies: PolicyMap, fuel: nat) returns (r: Result<Primitive, CtError>)
    ensures r == Parse(id, policies, fuel)
    decreases fuel, 0
  {
    if fuel == 0 {
      return Err(OutOfFuel);
    }
    if id !in policies {
      return Err(NoSuchPolicy(id));
    }
    var pipeline := policies[id];
    if pipeline.policyType != Pipeline {
      return Err(WrongType(pipeline.id));
    }
    var (first, second) := PipelineSubpolicies(pipeline.attributes);
    if first !in policies {
      return Err(NoSuchPolicy(first));
    }
    var actual := policies[first];
    if actual.policyType.Unknown? {
      return Err(UnknownType(actual.policyType.name));
    }
    var batchId: Option<ObjectId>, subpolicies: seq<Primitive> := None, [];
    assert ParseAll([], policies, fuel - 1) == Ok([]);
    if second.Some? && second.value in policies {
      var batch := policies[second.value];
      if batch.policyType != Batch {
        return Err(WrongType(batch.id));
      }
      batchId := Some(batch.id);
      var below := ParseTrees(BatchSubpolicies(batch.attributes), policies, fuel - 1);
      if below.Err? {
        return Err(below.error);
      }
      subpolicies := below.value;
    }
    var attributes := Decode(actual.policyType, actual.attributes);
    if attributes.Err? {
      return Err(attributes.error);
    }
    r := Ok(Primitive(Some(actual.id), actual.labelText, Some(attributes.value), subpolicies, batchId,
                      Some(pipeline.id)));
  }

  /** polish() */
  method PolishTemplate(policies: seq<Policy>, id: ObjectId, fuel: nat) returns (r: Result<Template, CtError>)
    ensures r == Polish(policies, id, fuel)
  {
    if |policies| == 0 {
      return Err(NoPolicies);
    }
    var byId := PolicyMapOf(policies);
    if id !in byId {
      return Err(NoSuchRoot(id));
    }
    var root := byId[id];
    if root.userData.None? {
      return Err(NoUserData);
    }
    if root.policyType != Batch {
      return Err(WrongType(id));
    }
    byId := byId - {root.id};
    if root.userData.value.Malformed? {
      return Err(BadUserData);
    }
    var userData := if root.userData.value.JsonNull? then UserData(false, None) else root.userData.value.userData;
    var subpolicies := ParseTrees(BatchSubpolicies(root.attributes), byId, fuel);
    if subpolicies.Err? {
      return Err(subpolicies.error);
    }
    r := Ok(Template(Some(root.id), root.labelText, root.description, subpolicies.value, Some(root.tags),
                     Some(userData)));
  }

  /** GetAllConnectivityTemplates(), given the server's answer. */
  method AllTemplates(policies: seq<Policy>, fuel: nat) returns (r: Result<seq<Template>, CtError>)
    ensures r.Ok? ==>
              && |r.value| == |Roots(policies)|
              && forall i :: 0 <= i < |r.value| ==> Polish(policies, Roots(policies)[i], fuel) == Ok(r.value[i])
    ensures r.Err? ==> exists id <- Roots(policies) :: Polish(policies, id, fuel) == Err(r.error)
  {
    var ids := RootBatchIds(policies);
    var result := [];
    for i := 0 to |ids|
      invariant |result| == i
      invariant forall j :: 0 <= j < i ==> Polish(policies, ids[j], fuel) == Ok(result[j])
    {
      var polished := PolishTemplate(policies, ids[i], fuel);
      if polished.Err? {
        assert ids[i] in Roots(policies);
        return Err(polished.error);
      }
      result := result + [polished.value];
    }
    r := Ok(result);
  }

  /** Whoever lists the templates of a blueprint gets all of them, each as it was compiled, and
      nothing else, in whatever order the server sends the policies. */
  lemma ListingRecoversAll(ts: seq<Template>, policies: seq<Policy>, fuel: nat, i: nat)
    requires forall t <- ts :: FilledTemplate(t) && Flatten(t).Ok?
    requires DistinctIds(FlattenAll(ts))
    requires multiset(policies) == multiset(FlattenAll(ts))
    requires forall t <- ts :: fuel >= HeightOfAll(t.subpolicies)
    requires i < |Roots(policies)|
    ensures |Roots(policies)| == |ts|
    ensures exists t <- ts ::
              && Roots(policies)[i] == t.id.value
              && (forall p <- t.subpolicies :: HasAttributes(p))
              && Polish(policies, Roots(policies)[i], fuel) == Ok(CanonicalTemplate(t))
  {
    ExportRoundTrip(ts, policies);
    var k := RootIsListed(ts, Roots(policies), i);
    assert ts[k] in ts;
  }

  lemma RootIsListed(ts: seq<Template>, roots: seq<ObjectId>, i: nat) returns (k: nat)
    requires forall t <- ts :: FilledTemplate(t)
    requires multiset(roots) == multiset(TemplateIds(ts)) && i < |roots|
    ensures |roots| == |ts| && k < |ts| && ts[k].id == Some(roots[i])
  {
    TemplateIdsIn(ts);
    assert |multiset(roots)| == |multiset(TemplateIds(ts))|;
    assert roots[i] in multiset(TemplateIds(ts));
    k :| 0 <= k < |ts| && TemplateIds(ts)[k] == roots[i];
  }

  lemma {:induction false} TemplateIdsIn(ts: seq<Template>)
    requires forall t <- ts :: FilledTemplate(t)
    ensures |TemplateIds(ts)| == |ts|
    ensures forall k :: 0 <= k < |ts| ==> ts[k].id == Some(TemplateIds(ts)[k])
  {
    if ts != [] {
      assert FilledTemplate(ts[0]);
      TemplateIdsIn(ts[1..]);
    }
  }
}
