/** Connectivity templates as trees of primitives, the flat list of policies they are
    compiled to, and the parser that rebuilds the tree from the list. */
module ConnectivityTemplate {
  import opened Common
  import opened CtAttributes

  datatype Position = Position(x: int, y: int, z: int)

  datatype UserData = UserData(isSausage: bool, positions: Option<map<ObjectId, Position>>)

  /** A user_data text: the JSON of a nil pointer, of a UserData, or something else. */
  datatype UserDataText = JsonNull | JsonUserData(userData: UserData) | Malformed

  datatype Primitive = Primitive(
    id: Option<ObjectId>,
    labelText: string,
    attributes: Option<Attributes>,
    subpolicies: seq<Primitive>,
    batchId: Option<ObjectId>,
    pipelineId: Option<ObjectId>)

  datatype Template = Template(
    id: Option<ObjectId>,
    labelText: string,
    description: Description,
    subpolicies: seq<Primitive>,
    tags: Option<seq<string>>,
    userData: Option<UserData>)

  datatype Policy = Policy(
    id: ObjectId,
    labelText: string,
    description: Description,
    tags: seq<string>,
    userData: Option<UserDataText>,
    visible: bool,
    policyType: PolicyType,
    attributes: RawAttributes)

  /** The ten fixed texts that describe the kinds of primitive are named by their kind. */
  datatype Description = KindText(policyType: PolicyType) | Text(text: string)

  type PolicyMap = map<ObjectId, Policy>

  // ----- flattening -----

  /** Every ID that the flat form needs is set; a leaf needs no batch ID. */
  ghost predicate Filled(p: Primitive) {
    && p.id.Some?
    && p.pipelineId.Some?
    && (p.subpolicies != [] ==> p.batchId.Some?)
    && AllFilled(p.subpolicies)
  }

  ghost predicate AllFilled(ps: seq<Primitive>) {
    forall p <- ps :: Filled(p)
  }

  ghost function PipelineIds(ps: seq<Primitive>): (ids: seq<ObjectId>)
    requires AllFilled(ps)
    ensures |ids| == |ps|
  {
    if ps == [] then [] else assert Filled(ps[0]); [ps[0].pipelineId.value] + PipelineIds(ps[1..])
  }

  function PipelinePolicy(p: Primitive): Policy
    requires p.id.Some? && p.pipelineId.Some? && p.attributes.Some?
  {
    Policy(p.pipelineId.value, p.labelText + " (pipeline)", KindText(TypeOf(p.attributes.value)), [], None, false,
           Pipeline, RawPipeline(p.id.value, if p.subpolicies == [] then None else p.batchId))
  }

  function ActualPolicy(p: Primitive, raw: RawAttributes): Policy
    requires p.id.Some? && p.attributes.Some?
  {
    Policy(p.id.value, p.labelText, KindText(TypeOf(p.attributes.value)), [], None, false,
           TypeOf(p.attributes.value), raw)
  }

  function BatchPolicy(id: ObjectId, description: Description, labelText: string, subpolicyIds: seq<ObjectId>): Policy {
    Policy(id, labelText + " (batch)", description, [], None, false, Batch, RawBatch(subpolicyIds))
  }

  /** rawPipeline() of a primitive whose IDs are set. */
  ghost function FlattenPipeline(p: Primitive): Result<seq<Policy>, CtError>
    requires Filled(p)
    decreases p, 1
  {
    if p.attributes.None? then Err(NilAttributes) else
    var raw :- Encode(p.attributes.value);
    var head := [PipelinePolicy(p), ActualPolicy(p, raw)];
    if p.subpolicies == [] then Ok(head) else
    var batch :- FlattenBatch(p.batchId.value, KindText(TypeOf(p.attributes.value)), p.labelText, p.subpolicies);
    Ok(head + batch)
  }

  ghost function FlattenPipelines(ps: seq<Primitive>): Result<seq<Policy>, CtError>
    requires AllFilled(ps)
    decreases ps, 0
  {
    if ps == [] then Ok([]) else
    var head :- FlattenPipeline(ps[0]);
    var tail :- FlattenPipelines(ps[1..]);
    Ok(head + tail)
  }

  ghost function FlattenBatch(id: ObjectId, description: Description, labelText: string, ps: seq<Primitive>)
    : Result<seq<Policy>, CtError>
    requires AllFilled(ps)
    decreases ps, 1
  {
    var pipelines :- FlattenPipelines(ps);
    Ok([BatchPolicy(id, description, labelText, PipelineIds(ps))] + pipelines)
  }

  ghost predicate FilledTemplate(t: Template) {
    t.id.Some? && AllFilled(t.subpolicies)
  }

  function TagsOf(t: Template): seq<string> {
    if t.tags.None? then [] else t.tags.value
  }

  function RootPolicy(t: Template, batch: Policy): Policy {
    batch.(
      description := t.description,
      labelText := t.labelText,
      visible := true,
      tags := TagsOf(t),
      userData := Some(if t.userData.None? then JsonNull else JsonUserData(t.userData.value)))
  }

  /** ConnectivityTemplate.raw() of a template whose IDs are set. */
  ghost function Flatten(t: Template): Result<seq<Policy>, CtError>
    requires FilledTemplate(t)
  {
    var policies :- FlattenBatch(t.id.value, Text(""), "", t.subpolicies);
    Ok([RootPolicy(t, policies[0])] + policies[1..])
  }

  // ----- rebuilding -----

  /** policyMap(): a later policy replaces an earlier one with the same ID. */
  ghost function MapOf(policies: seq<Policy>): PolicyMap {
    if policies == [] then map[]
    else var last := policies[|policies| - 1]; MapOf(policies[..|policies| - 1])[last.id := last]
  }

  /** Reading a policy's JSON as a batch or as a pipeline leaves absent fields empty. */
  function BatchSubpolicies(raw: RawAttributes): seq<ObjectId> {
    if raw.RawBatch? then raw.subpolicies else []
  }

  function PipelineSubpolicies(raw: RawAttributes): (ObjectId, Option<ObjectId>) {
    if raw.RawPipeline? then (raw.firstSubpolicy, raw.secondSubpolicy) else (ObjectId(""), None)
  }

  /** parsePrimitiveTreeByPipelineId(). The recursion follows IDs, so it ends on its own only
      where they do not lead in a circle; the fuel bounds its depth. */
  ghost function Parse(id: ObjectId, policies: PolicyMap, fuel: nat): Result<Primitive, CtError>
    decreases fuel, 0
  {
    if fuel == 0 then Err(OutOfFuel) else
    if id !in policies then Err(NoSuchPolicy(id)) else
    var pipeline := policies[id];
    if pipeline.policyType != Pipeline then Err(WrongType(pipeline.id)) else
    var (first, second) := PipelineSubpolicies(pipeline.attributes);
    if first !in policies then Err(NoSuchPolicy(first)) else
    var actual := policies[first];
    if actual.policyType.Unknown? then Err(UnknownType(actual.policyType.name)) else
    if second.Some? && second.value in policies && policies[second.value].policyType != Batch then
      Err(WrongType(policies[second.value].id))
    else
    var subpolicies :- ParseAll(Children(second, policies), policies, fuel - 1);
    var attributes :- Decode(actual.policyType, actual.attributes);
    Ok(Primitive(Some(actual.id), actual.labelText, Some(attributes), subpolicies,
                 if second.Some? && second.value in policies then Some(policies[second.value].id) else None,
                 Some(pipeline.id)))
  }

  /** The pipelines listed by a pipeline's batch, if it names one that is present. */
  function Children(second: Option<ObjectId>, policies: PolicyMap): seq<ObjectId> {
    if second.Some? && second.value in policies then BatchSubpolicies(policies[second.value].attributes) else []
  }

  ghost function ParseAll(ids: seq<ObjectId>, policies: PolicyMap, fuel: nat): Result<seq<Primitive>, CtError>
    decreases fuel, |ids|
  {
    if ids == [] then Ok([]) else
    var head :- Parse(ids[0], policies, fuel);
    var tail :- ParseAll(ids[1..], policies, fuel);
    Ok([head] + tail)
  }

  /** rawConnectivityTemplate.polish() */
  ghost function Polish(policies: seq<Policy>, id: ObjectId, fuel: nat): Result<Template, CtError> {
    if policies == [] then Err(NoPolicies) else
    var byId := MapOf(policies);
    if id !in byId then Err(NoSuchRoot(id)) else
    var root := byId[id];
    if root.userData.None? then Err(NoUserData) else
    if root.policyType != Batch then Err(WrongType(id)) else
    if root.userData.value.Malformed? then Err(BadUserData) else
    var subpolicies :- ParseAll(BatchSubpolicies(root.attributes), byId - {root.id}, fuel);
    Ok(Template(Some(root.id), root.labelText, root.description, subpolicies, Some(root.tags),
                Some(if root.userData.value.JsonNull? then UserData(false, None) else root.userData.value.userData)))
  }

  /** rootBatchIds() */
  ghost function Roots(policies: seq<Policy>): seq<ObjectId> {
    if policies == [] then []
    else (if policies[0].visible then [policies[0].id] else []) + Roots(policies[1..])
  }

  // ----- the round trip -----

  /** What a primitive is after a trip through the flat form: the attributes' own label, and a
      batch ID preset on a leaf, are gone. */
  ghost function CanonicalPrimitive(p: Primitive): Primitive
    requires HasAttributes(p)
  {
    Primitive(p.id, p.labelText, Some(Canonical(p.attributes.value)), CanonicalPrimitives(p.subpolicies),
              if p.subpolicies == [] then None else p.batchId, p.pipelineId)
  }

  ghost function CanonicalPrimitives(ps: seq<Primitive>): seq<Primitive>
    requires forall p <- ps :: HasAttributes(p)
  {
    if ps == [] then [] else assert ps[0] in ps; [CanonicalPrimitive(ps[0])] + CanonicalPrimitives(ps[1..])
  }

  ghost predicate HasAttributes(p: Primitive) {
    p.attributes.Some? && forall q <- p.subpolicies :: HasAttributes(q)
  }

  ghost function Height(p: Primitive): nat {
    1 + HeightOfAll(p.subpolicies)
  }

  ghost function HeightOfAll(ps: seq<Primitive>): nat {
    if ps == [] then 0
    else var h, t := Height(ps[0]), HeightOfAll(ps[1..]); if h >= t then h else t
  }

  ghost function CanonicalTemplate(t: Template): Template
    requires forall p <- t.subpolicies :: HasAttributes(p)
  {
    Template(t.id, t.labelText, t.description, CanonicalPrimitives(t.subpolicies),
             Some(TagsOf(t)),
             Some(if t.userData.None? then UserData(false, None) else t.userData.value))
  }

  ghost predicate Holds(policies: PolicyMap, part: seq<Policy>) {
    forall policy <- part :: policy.id in policies && policies[policy.id] == policy
  }

  /** Only primitives with attributes are flattened. */
  lemma {:induction false} FlattenedHasAttributes(p: Primitive)
    requires Filled(p) && FlattenPipeline(p).Ok?
    ensures HasAttributes(p)
    decreases p, 1
  {
    FlattenedAllHaveAttributes(p.subpolicies);
  }

  lemma {:induction false} FlattenedAllHaveAttributes(ps: seq<Primitive>)
    requires AllFilled(ps) && FlattenPipelines(ps).Ok?
    ensures forall p <- ps :: HasAttributes(p)
    decreases ps, 0
  {
    if ps != [] {
      FlattenedHasAttributes(ps[0]);
      FlattenedAllHaveAttributes(ps[1..]);
    }
  }

  /** One level of parsing, given what the parser finds in the map. */
  lemma ParseNode(p: Primitive, policies: PolicyMap, fuel: nat, batch: Policy)
    requires Filled(p) && HasAttributes(p) && Encode(p.attributes.value).Ok? && fuel > 0
    requires Holds(policies, [PipelinePolicy(p), ActualPolicy(p, Encode(p.attributes.value).value)])
    requires p.subpolicies != [] ==>
      && Holds(policies, [batch])
      && batch == BatchPolicy(p.batchId.value, batch.description, p.labelText, PipelineIds(p.subpolicies))
    requires ParseAll(PipelineIds(p.subpolicies), policies, fuel - 1) == Ok(CanonicalPrimitives(p.subpolicies))
    ensures Parse(p.pipelineId.value, policies, fuel) == Ok(CanonicalPrimitive(p))
  {
    var raw := Encode(p.attributes.value).value;
    AttributesRoundTrip(p.attributes.value);
    assert PipelinePolicy(p) in [PipelinePolicy(p), ActualPolicy(p, raw)];
    assert ActualPolicy(p, raw) in [PipelinePolicy(p), ActualPolicy(p, raw)];
    assert p.subpolicies != [] ==> batch in [batch];
    var second := PipelinePolicy(p).attributes.secondSubpolicy;
    assert Children(second, policies) == PipelineIds(p.subpolicies);
  }

  /** Where the policies of a primitive and of its subtree are in the flat list. */
  lemma FlattenShape(p: Primitive)
    requires Filled(p) && FlattenPipeline(p).Ok?
    ensures p.attributes.Some? && Encode(p.attributes.value).Ok? && FlattenPipelines(p.subpolicies).Ok?
    ensures var node := [PipelinePolicy(p), ActualPolicy(p, Encode(p.attributes.value).value)];
            FlattenPipeline(p).value ==
            if p.subpolicies == [] then node
            else node + [NodeBatch(p)] + FlattenPipelines(p.subpolicies).value
  {
    if p.subpolicies != [] {
      var node := [PipelinePolicy(p), ActualPolicy(p, Encode(p.attributes.value).value)];
      var pipelines := FlattenPipelines(p.subpolicies).value;
      assert node + ([NodeBatch(p)] + pipelines) == node + [NodeBatch(p)] + pipelines;
    }
  }

  ghost function NodeBatch(p: Primitive): Policy
    requires Filled(p) && p.attributes.Some? && p.subpolicies != []
  {
    BatchPolicy(p.batchId.value, KindText(TypeOf(p.attributes.value)), p.labelText, PipelineIds(p.subpolicies))
  }

  /** Whatever else a policy map holds, a flattened primitive is rebuilt from it. */
  lemma {:induction false} ParseFlattened(p: Primitive, policies: PolicyMap, fuel: nat)
    requires Filled(p) && FlattenPipeline(p).Ok?
    requires Holds(policies, FlattenPipeline(p).value)
    requires fuel >= Height(p)
    ensures HasAttributes(p)
    ensures Parse(p.pipelineId.value, policies, fuel) == Ok(CanonicalPrimitive(p))
    decreases p, 1
  {
    FlattenedHasAttributes(p);
    FlattenShape(p);
    if p.subpolicies == [] {
      ParseNode(p, policies, fuel, PipelinePolicy(p));
    } else {
      ParseAllFlattened(p.subpolicies, policies, fuel - 1);
      ParseNode(p, policies, fuel, NodeBatch(p));
    }
  }

  lemma {:induction false} ParseAllFlattened(ps: seq<Primitive>, policies: PolicyMap, fuel: nat)
    requires AllFilled(ps) && FlattenPipelines(ps).Ok?
    requires Holds(policies, FlattenPipelines(ps).value)
    requires fuel >= HeightOfAll(ps)
    ensures forall p <- ps :: HasAttributes(p)
    ensures ParseAll(PipelineIds(ps), policies, fuel) == Ok(CanonicalPrimitives(ps))
    decreases ps, 0
  {
    if ps != [] {
      ParseFlattened(ps[0], policies, fuel);
      ParseAllFlattened(ps[1..], policies, fuel);
      assert PipelineIds(ps)[1..] == PipelineIds(ps[1..]);
    }
  }

  // ----- exports of several templates -----

  ghost function FlattenAll(ts: seq<Template>): seq<Policy>
    requires forall t <- ts :: FilledTemplate(t) && Flatten(t).Ok?
  {
    if ts == [] then [] else assert ts[0] in ts; Flatten(ts[0]).value + FlattenAll(ts[1..])
  }

  ghost function TemplateIds(ts: seq<Template>): seq<ObjectId>
    requires forall t <- ts :: FilledTemplate(t)
  {
    if ts == [] then [] else assert FilledTemplate(ts[0]); [ts[0].id.value] + TemplateIds(ts[1..])
  }

  function IdsOf(policies: seq<Policy>): (ids: seq<ObjectId>)
    ensures |ids| == |policies| && forall i :: 0 <= i < |ids| ==> ids[i] == policies[i].id
  {
    seq(|policies|, i requires 0 <= i < |policies| => policies[i].id)
  }

  ghost predicate DistinctIds(policies: seq<Policy>) {
    NoDuplicates(IdsOf(policies))
  }

  ghost function RootOf(t: Template): Policy
    requires FilledTemplate(t)
  {
    RootPolicy(t, BatchPolicy(t.id.value, Text(""), "", PipelineIds(t.subpolicies)))
  }

  lemma FlattenTemplateShape(t: Template)
    requires FilledTemplate(t) && Flatten(t).Ok?
    ensures FlattenPipelines(t.subpolicies).Ok?
    ensures Flatten(t).value == [RootOf(t)] + FlattenPipelines(t.subpolicies).value
  {
  }

  /** Which policy a map holds for an ID does not depend on the order of a list without
      repeated IDs. */
  lemma {:induction false} MapOfDistinct(policies: seq<Policy>)
    requires DistinctIds(policies)
    ensures Holds(MapOf(policies), policies)
    ensures forall id :: id in MapOf(policies) ==> id in IdsOf(policies)
  {
    if policies != [] {
      var init := policies[..|policies| - 1];
      assert IdsOf(init) == IdsOf(policies)[..|policies| - 1];
      MapOfDistinct(init);
      forall policy <- policies
        ensures policy.id in MapOf(policies) && MapOf(policies)[policy.id] == policy
      {
        if policy in init {
          var i :| 0 <= i < |init| && init[i] == policy;
          assert IdsOf(policies)[i] != IdsOf(policies)[|policies| - 1];
        }
      }
    }
  }

  lemma DistinctIdsOfPermutation(a: seq<Policy>, b: seq<Policy>)
    requires multiset(a) == multiset(b) && DistinctIds(a)
    ensures DistinctIds(b)
  {
    assert NoDuplicates(a) by {
      forall i, j | 0 <= i < j < |a| ensures a[i] != a[j] {
        assert IdsOf(a)[i] != IdsOf(a)[j];
      }
    }
    NoDuplicatesAsMultiset(a);
    NoDuplicatesAsMultiset(b);
    forall i, j | 0 <= i < j < |b| ensures IdsOf(b)[i] != IdsOf(b)[j] {
      assert b[i] in multiset(a) && b[j] in multiset(a);
      var k, l :| 0 <= k < |a| && 0 <= l < |a| && a[k] == b[i] && a[l] == b[j];
      assert k != l;
      assert IdsOf(a)[k] != IdsOf(a)[l];
    }
  }

  lemma {:induction false} RootsAppend(a: seq<Policy>, b: seq<Policy>)
    ensures Roots(a + b) == Roots(a) + Roots(b)
  {
    if a == [] {
      assert a + b == b;
    } else {
      assert (a + b)[1..] == a[1..] + b && (a + b)[0] == a[0];
      RootsAppend(a[1..], b);
      var head := if a[0].visible then [a[0].id] else [];
      assert head + (Roots(a[1..]) + Roots(b)) == head + Roots(a[1..]) + Roots(b);
    }
  }

  lemma RootsOfThree(front: seq<Policy>, middle: Policy, back: seq<Policy>)
    ensures Roots(front + [middle] + back) == Roots(front) + Roots([middle]) + Roots(back)
  {
    RootsAppend(front + [middle], back);
    RootsAppend(front, [middle]);
  }

  lemma SplitAt(b: seq<Policy>, k: nat)
    requires k < |b|
    ensures b == b[..k] + [b[k]] + b[k + 1..]
  {
  }

  lemma RootsWithout(b: seq<Policy>, k: nat)
    requires k < |b|
    ensures multiset(Roots(b)) == multiset(Roots([b[k]])) + multiset(Roots(Without(b, k)))
  {
    SplitAt(b, k);
    RootsOfThree(b[..k], b[k], b[k + 1..]);
    RootsAppend(b[..k], b[k + 1..]);
  }

  lemma {:induction false} RootsOfPermutation(a: seq<Policy>, b: seq<Policy>)
    requires multiset(a) == multiset(b)
    ensures multiset(Roots(a)) == multiset(Roots(b))
    decreases |a|
  {
    if a == [] {
      assert |multiset(b)| == 0;
    } else {
      assert a[0] in multiset(a);
      var j := FindAndRemove(a[0], a);
      var k := FindAndRemove(a[0], b);
      RootsOfPermutation(Without(a, j), Without(b, k));
      RootsWithout(a, j);
      RootsWithout(b, k);
    }
  }

  /** Nothing below a root batch is visible. */
  lemma {:induction false} NoRootsInPipeline(p: Primitive)
    requires Filled(p) && FlattenPipeline(p).Ok?
    ensures Roots(FlattenPipeline(p).value) == []
    decreases p, 1
  {
    FlattenShape(p);
    NoRootsInPipelines(p.subpolicies);
    var node := [PipelinePolicy(p), ActualPolicy(p, Encode(p.attributes.value).value)];
    assert node[1..][1..] == [];
    assert Roots(node[1..]) == [] && Roots(node) == [];
    if p.subpolicies != [] {
      assert Roots([NodeBatch(p)]) == [];
      RootsAppend(node, [NodeBatch(p)]);
      RootsAppend(node + [NodeBatch(p)], FlattenPipelines(p.subpolicies).value);
    }
  }

  lemma {:induction false} NoRootsInPipelines(ps: seq<Primitive>)
    requires AllFilled(ps) && FlattenPipelines(ps).Ok?
    ensures Roots(FlattenPipelines(ps).value) == []
    decreases ps, 0
  {
    if ps != [] {
      NoRootsInPipeline(ps[0]);
      NoRootsInPipelines(ps[1..]);
      RootsAppend(FlattenPipeline(ps[0]).value, FlattenPipelines(ps[1..]).value);
    }
  }

  lemma {:induction false} RootsOfFlattened(ts: seq<Template>)
    requires forall t <- ts :: FilledTemplate(t) && Flatten(t).Ok?
    ensures Roots(FlattenAll(ts)) == TemplateIds(ts)
  {
    if ts != [] {
      var t := ts[0];
      FlattenTemplateShape(t);
      NoRootsInPipelines(t.subpolicies);
      RootsOfFlattened(ts[1..]);
      RootsAppend(Flatten(t).value, FlattenAll(ts[1..]));
    }
  }

  lemma {:induction false} FlattenAllIncludes(ts: seq<Template>, t: Template)
    requires forall t <- ts :: FilledTemplate(t) && Flatten(t).Ok?
    requires t in ts
    ensures forall policy <- Flatten(t).value :: policy in FlattenAll(ts)
  {
    if ts[0] != t {
      FlattenAllIncludes(ts[1..], t);
    }
  }

  /** A template is recovered from any list that has its policies and no repeated ID. */
  lemma PolishFrom(t: Template, policies: seq<Policy>, fuel: nat)
    requires FilledTemplate(t) && Flatten(t).Ok?
    requires forall policy <- Flatten(t).value :: policy in policies
    requires DistinctIds(policies)
    requires DistinctIds(Flatten(t).value)
    requires fuel >= HeightOfAll(t.subpolicies)
    ensures forall p <- t.subpolicies :: HasAttributes(p)
    ensures Polish(policies, t.id.value, fuel) == Ok(CanonicalTemplate(t))
  {
    FlattenTemplateShape(t);
    MapOfDistinct(policies);
    var flat, pipelines := Flatten(t).value, FlattenPipelines(t.subpolicies).value;
    assert flat[0] == RootOf(t) && flat[0] in flat;
    assert Holds(MapOf(policies) - {t.id.value}, pipelines) by {
      forall policy <- pipelines ensures policy.id != t.id.value && policy in flat {
        var i :| 0 <= i < |pipelines| && pipelines[i] == policy;
        assert flat[i + 1] == policy;
        assert IdsOf(flat)[0] != IdsOf(flat)[i + 1];
      }
    }
    ParseAllFlattened(t.subpolicies, MapOf(policies) - {t.id.value}, fuel);
  }

  lemma {:induction false} DistinctIdsOfPart(ts: seq<Template>, t: Template)
    requires forall t <- ts :: FilledTemplate(t) && Flatten(t).Ok?
    requires t in ts && DistinctIds(FlattenAll(ts))
    ensures DistinctIds(Flatten(t).value)
  {
    var all, head, tail := FlattenAll(ts), Flatten(ts[0]).value, FlattenAll(ts[1..]);
    assert IdsOf(head) == IdsOf(all)[..|head|];
    assert IdsOf(tail) == IdsOf(all)[|head|..];
    if ts[0] != t {
      DistinctIdsOfPart(ts[1..], t);
    }
  }

  /** Several templates, flattened, concatenated and shuffled into one export: the visible roots
      are their IDs, and each is recovered whole, whatever the others are. */
  lemma ExportRoundTrip(ts: seq<Template>, policies: seq<Policy>)
    requires forall t <- ts :: FilledTemplate(t) && Flatten(t).Ok?
    requires DistinctIds(FlattenAll(ts))
    requires multiset(policies) == multiset(FlattenAll(ts))
    ensures multiset(Roots(policies)) == multiset(TemplateIds(ts))
    ensures forall t <- ts :: forall p <- t.subpolicies :: HasAttributes(p)
    ensures forall t <- ts, fuel: nat | fuel >= HeightOfAll(t.subpolicies) ::
              Polish(policies, t.id.value, fuel) == Ok(CanonicalTemplate(t))
  {
    RootsOfPermutation(policies, FlattenAll(ts));
    RootsOfFlattened(ts);
    DistinctIdsOfPermutation(FlattenAll(ts), policies);
    forall t <- ts, fuel: nat | fuel >= HeightOfAll(t.subpolicies)
      ensures forall p <- t.subpolicies :: HasAttributes(p)
      ensures Polish(policies, t.id.value, fuel) == Ok(CanonicalTemplate(t))
    {
      DistinctIdsOfPart(ts, t);
      FlattenAllIncludes(ts, t);
      forall policy <- Flatten(t).value ensures policy in policies {
        assert policy in multiset(FlattenAll(ts));
      }
      PolishFrom(t, policies, fuel);
    }
    forall t <- ts ensures forall p <- t.subpolicies :: HasAttributes(p) {
      FlattenTemplateShape(t);
      FlattenedAllHaveAttributes(t.subpolicies);
    }
  }

  // ----- what is on the wire -----

  /** q is one of the primitives or below one of them. */
  ghost predicate Within(q: Primitive, ps: seq<Primitive>) {
    exists p <- ps :: q == p || Within(q, p.subpolicies)
  }

  ghost predicate ListsPipelines(ids: seq<ObjectId>, ps: seq<Primitive>) {
    |ids| == |ps| && forall i :: 0 <= i < |ps| ==> ps[i].pipelineId == Some(ids[i])
  }

  /** The policy is one of the three that stand for a primitive: its pipeline, which leads to the
      primitive itself and to its batch; the primitive itself; and its batch, which leads to the
      pipelines of those below it, in order, and is there only if there are any. */
  ghost predicate StandsFor(policy: Policy, q: Primitive) {
    && q.id.Some? && q.pipelineId.Some? && q.attributes.Some? && Encode(q.attributes.value).Ok?
    && policy.description == KindText(TypeOf(q.attributes.value))
    && policy.tags == [] && policy.userData == None && !policy.visible
    && (|| (policy.id == q.pipelineId.value && policy.labelText == q.labelText + " (pipeline)"
            && policy.policyType == Pipeline
            && policy.attributes == RawPipeline(q.id.value, if q.subpolicies == [] then None else q.batchId))
        || (policy.id == q.id.value && policy.labelText == q.labelText
            && policy.policyType == TypeOf(q.attributes.value)
            && policy.attributes == Encode(q.attributes.value).value)
        || (q.subpolicies != [] && q.batchId == Some(policy.id) && policy.labelText == q.labelText + " (batch)"
            && policy.policyType == Batch && policy.attributes.RawBatch?
            && ListsPipelines(policy.attributes.subpolicies, q.subpolicies)))
  }

  lemma {:induction false} PipelineIdsListed(ps: seq<Primitive>, ids: seq<ObjectId>)
    requires AllFilled(ps)
    ensures ListsPipelines(ids, ps) <==> ids == PipelineIds(ps)
  {
    if ps != [] {
      assert Filled(ps[0]);
      if ids != [] {
        PipelineIdsListed(ps[1..], ids[1..]);
        assert ListsPipelines(ids, ps) <==> ps[0].pipelineId == Some(ids[0]) && ListsPipelines(ids[1..], ps[1..]) by {
          if ps[0].pipelineId == Some(ids[0]) && ListsPipelines(ids[1..], ps[1..]) {
            assert forall i :: 0 < i < |ps| ==> ps[1..][i - 1] == ps[i] && ids[1..][i - 1] == ids[i];
          }
        }
      }
    }
  }

  lemma NodeOnWire(p: Primitive, policy: Policy)
    requires Filled(p) && FlattenPipeline(p).Ok?
    ensures p.attributes.Some? && Encode(p.attributes.value).Ok?
    ensures StandsFor(policy, p)
       <==> policy == PipelinePolicy(p) || policy == ActualPolicy(p, Encode(p.attributes.value).value)
            || (p.subpolicies != [] && policy == NodeBatch(p))
  {
    FlattenShape(p);
    if policy.attributes.RawBatch? {
      PipelineIdsListed(p.subpolicies, policy.attributes.subpolicies);
    }
    PipelineIdsListed(p.subpolicies, PipelineIds(p.subpolicies));
  }

  lemma {:induction false} PipelineOnWire(p: Primitive, policy: Policy)
    requires Filled(p) && FlattenPipeline(p).Ok?
    ensures policy in FlattenPipeline(p).value
       <==> StandsFor(policy, p) || exists q | Within(q, p.subpolicies) :: StandsFor(policy, q)
    decreases p, 1
  {
    FlattenShape(p);
    NodeOnWire(p, policy);
    PipelinesOnWire(p.subpolicies, policy);
  }

  lemma {:induction false} PipelinesOnWire(ps: seq<Primitive>, policy: Policy)
    requires AllFilled(ps) && FlattenPipelines(ps).Ok?
    ensures policy in FlattenPipelines(ps).value <==> exists q | Within(q, ps) :: StandsFor(policy, q)
    decreases ps, 0
  {
    if ps != [] {
      PipelineOnWire(ps[0], policy);
      PipelinesOnWire(ps[1..], policy);
      forall q ensures Within(q, ps) <==> q == ps[0] || Within(q, ps[0].subpolicies) || Within(q, ps[1..]) {
        assert ps == [ps[0]] + ps[1..];
      }
    }
  }

  /** A compiled template is its root, the one visible policy, which comes first, and the policies that
      stand for the primitives in it, and nothing else. */
  lemma TemplateOnWire(t: Template, policy: Policy)
    requires FilledTemplate(t) && Flatten(t).Ok?
    ensures var flat := Flatten(t).value;
            && (policy in flat <==> policy == flat[0] || exists q | Within(q, t.subpolicies) :: StandsFor(policy, q))
            && flat[0].id == t.id.value && flat[0].labelText == t.labelText && flat[0].description == t.description
            && flat[0].tags == (if t.tags.None? then [] else t.tags.value) && flat[0].visible
            && flat[0].userData == Some(if t.userData.None? then JsonNull else JsonUserData(t.userData.value))
            && flat[0].policyType == Batch && flat[0].attributes.RawBatch?
            && ListsPipelines(flat[0].attributes.subpolicies, t.subpolicies)
  {
    FlattenTemplateShape(t);
    PipelinesOnWire(t.subpolicies, policy);
    PipelineIdsListed(t.subpolicies, PipelineIds(t.subpolicies));
  }

  // ----- what is rebuilt, from any export -----

  /** The export has, for each primitive of the tree, a pipeline that leads to it and to a batch that
      lists the pipelines of those below; a batch that is not there counts as no batch. */
  ghost predicate Describes(policies: PolicyMap, id: ObjectId, p: Primitive)
    decreases p
  {
    && id in policies && policies[id].policyType == Pipeline && p.pipelineId == Some(policies[id].id)
    && var (first, second) := PipelineSubpolicies(policies[id].attributes);
       && first in policies && p.id == Some(policies[first].id) && p.labelText == policies[first].labelText
       && p.attributes.Some?
       && Decode(policies[first].policyType, policies[first].attributes) == Ok(p.attributes.value)
       && if second.Some? && second.value in policies then
            && policies[second.value].policyType == Batch && p.batchId == Some(policies[second.value].id)
            && DescribesAll(policies, BatchSubpolicies(policies[second.value].attributes), p.subpolicies)
          else
            p.batchId == None && p.subpolicies == []
  }

  ghost predicate DescribesAll(policies: PolicyMap, ids: seq<ObjectId>, ps: seq<Primitive>)
    decreases ps
  {
    |ids| == |ps| && forall i :: 0 <= i < |ps| ==> Describes(policies, ids[i], ps[i])
  }

  lemma DescribesMore(policies: PolicyMap, ids: seq<ObjectId>, ps: seq<Primitive>)
    requires ids != [] && ps != []
    ensures DescribesAll(policies, ids, ps)
       <==> Describes(policies, ids[0], ps[0]) && DescribesAll(policies, ids[1..], ps[1..])
  {
    if Describes(policies, ids[0], ps[0]) && DescribesAll(policies, ids[1..], ps[1..]) {
      forall i | 0 <= i < |ps| ensures Describes(policies, ids[i], ps[i]) {
        assert i > 0 ==> Describes(policies, ids[1..][i - 1], ps[1..][i - 1]);
      }
    }
  }

  lemma {:induction false} ParsedIsDescribed(id: ObjectId, policies: PolicyMap, fuel: nat, p: Primitive)
    requires Parse(id, policies, fuel) == Ok(p)
    ensures Describes(policies, id, p)
    decreases fuel, 0
  {
    var second := PipelineSubpolicies(policies[id].attributes).1;
    ParsedAllAreDescribed(Children(second, policies), policies, fuel - 1, p.subpolicies);
  }

  lemma {:induction false} ParsedAllAreDescribed(ids: seq<ObjectId>, policies: PolicyMap, fuel: nat,
                                                 ps: seq<Primitive>)
    requires ParseAll(ids, policies, fuel) == Ok(ps)
    ensures DescribesAll(policies, ids, ps)
    decreases fuel, |ids| + 1
  {
    if ids != [] {
      ParsedIsDescribed(ids[0], policies, fuel, ps[0]);
      ParsedAllAreDescribed(ids[1..], policies, fuel, ps[1..]);
      DescribesMore(policies, ids, ps);
    }
  }

  lemma {:induction false} DescribedIsParsed(id: ObjectId, policies: PolicyMap, fuel: nat, p: Primitive)
    requires Describes(policies, id, p) && fuel >= Height(p)
    ensures Parse(id, policies, fuel) == Ok(p)
    decreases p, 1
  {
    var second := PipelineSubpolicies(policies[id].attributes).1;
    DescribedAllAreParsed(Children(second, policies), policies, fuel - 1, p.subpolicies);
  }

  lemma {:induction false} DescribedAllAreParsed(ids: seq<ObjectId>, policies: PolicyMap, fuel: nat,
                                                 ps: seq<Primitive>)
    requires DescribesAll(policies, ids, ps) && fuel >= HeightOfAll(ps)
    ensures ParseAll(ids, policies, fuel) == Ok(ps)
    decreases ps, 0
  {
    if ps != [] {
      DescribesMore(policies, ids, ps);
      DescribedIsParsed(ids[0], policies, fuel, ps[0]);
      DescribedAllAreParsed(ids[1..], policies, fuel, ps[1..]);
      assert ps == [ps[0]] + ps[1..];
    }
  }

  /** From any export whatever, a pipeline is rebuilt as a tree exactly when the export describes that
      tree; so an export describes no more than one for each pipeline. */
  lemma RebuiltIff(id: ObjectId, policies: PolicyMap, p: Primitive)
    ensures (exists fuel: nat :: Parse(id, policies, fuel) == Ok(p)) <==> Describes(policies, id, p)
    ensures Describes(policies, id, p) ==> Parse(id, policies, Height(p)) == Ok(p)
  {
    if fuel: nat :| Parse(id, policies, fuel) == Ok(p) {
      ParsedIsDescribed(id, policies, fuel, p);
    }
    if Describes(policies, id, p) {
      DescribedIsParsed(id, policies, Height(p), p);
    }
  }

  /** Of several policies with one ID the last is in the map. */
  lemma {:induction false} LastWins(policies: seq<Policy>, k: nat)
    requires k < |policies| && forall j :: k < j < |policies| ==> policies[j].id != policies[k].id
    ensures policies[k].id in MapOf(policies) && MapOf(policies)[policies[k].id] == policies[k]
  {
    if k < |policies| - 1 {
      LastWins(policies[..|policies| - 1], k);
    }
  }

  /** And a template is polished exactly when the last policy with its ID is a batch with user data, and
      the other policies describe what that batch lists. */
  lemma PolishedIff(policies: seq<Policy>, k: nat, t: Template)
    requires k < |policies| && forall j :: k < j < |policies| ==> policies[j].id != policies[k].id
    ensures var root := policies[k];
            (exists fuel: nat :: Polish(policies, root.id, fuel) == Ok(t))
            <==> && root.policyType == Batch && root.userData.Some?
                 && (match root.userData.value
                     case JsonNull => t.userData == Some(UserData(false, None))
                     case JsonUserData(userData) => t.userData == Some(userData)
                     case Malformed => false)
                 && t.id == Some(root.id) && t.labelText == root.labelText && t.description == root.description
                 && t.tags == Some(root.tags)
                 && DescribesAll(MapOf(policies) - {root.id}, BatchSubpolicies(root.attributes), t.subpolicies)
  {
    LastWins(policies, k);
    var root, others := policies[k], MapOf(policies) - {policies[k].id};
    var ids := BatchSubpolicies(root.attributes);
    if fuel: nat :| Polish(policies, root.id, fuel) == Ok(t) {
      ParsedAllAreDescribed(ids, others, fuel, t.subpolicies);
    }
    if DescribesAll(others, ids, t.subpolicies) {
      DescribedAllAreParsed(ids, others, HeightOfAll(t.subpolicies), t.subpolicies);
      assert root.policyType == Batch && root.userData.Some? && !root.userData.value.Malformed? ==>
               Polish(policies, root.id, HeightOfAll(t.subpolicies)).Ok?;
    }
  }

  // ----- when a template comes back just as it was -----

  /** Nothing of the primitive is lost on the way: its attributes are read back as themselves, and there
      is no batch ID on a leaf. */
  ghost predicate Keeps(p: Primitive) {
    && p.attributes.Some? && Canonical(p.attributes.value) == p.attributes.value
    && (p.subpolicies == [] ==> p.batchId == None)
    && KeepAll(p.subpolicies)
  }

  ghost predicate KeepAll(ps: seq<Primitive>) {
    forall p <- ps :: Keeps(p)
  }

  lemma {:induction false} CanonicalIff(p: Primitive)
    requires HasAttributes(p)
    ensures CanonicalPrimitive(p) == p <==> Keeps(p)
    decreases p, 1
  {
    CanonicalAllIff(p.subpolicies);
  }

  lemma {:induction false} CanonicalAllIff(ps: seq<Primitive>)
    requires forall p <- ps :: HasAttributes(p)
    ensures CanonicalPrimitives(ps) == ps <==> KeepAll(ps)
    decreases ps, 0
  {
    if ps != [] {
      CanonicalIff(ps[0]);
      CanonicalAllIff(ps[1..]);
      assert ps == [ps[0]] + ps[1..];
      assert CanonicalPrimitives(ps) == [CanonicalPrimitive(ps[0])] + CanonicalPrimitives(ps[1..]);
      assert CanonicalPrimitives(ps) == ps ==> CanonicalPrimitives(ps)[1..] == ps[1..];
    }
  }

  /** A template is rebuilt exactly as it was compiled if and only if it has tags and user data, and
      nothing in it is lost on the way. */
  lemma RebuiltSameIff(t: Template, policies: seq<Policy>, fuel: nat)
    requires FilledTemplate(t) && Flatten(t).Ok?
    requires forall policy <- Flatten(t).value :: policy in policies
    requires DistinctIds(policies) && DistinctIds(Flatten(t).value)
    requires fuel >= HeightOfAll(t.subpolicies)
    ensures Polish(policies, t.id.value, fuel) == Ok(t)
       <==> t.tags.Some? && t.userData.Some? && KeepAll(t.subpolicies)
  {
    PolishFrom(t, policies, fuel);
    CanonicalAllIff(t.subpolicies);
  }

  // ----- when the recursion ends -----

  /** A result that the recursion reaches is the result at every greater depth. */
  lemma {:induction false} MoreFuelAgrees(id: ObjectId, policies: PolicyMap, fuel: nat, more: nat)
    requires Parse(id, policies, fuel) != Err(OutOfFuel) && fuel <= more
    ensures Parse(id, policies, more) == Parse(id, policies, fuel)
    decreases fuel, 0
  {
    if id in policies && policies[id].policyType == Pipeline {
      var ids := Children(PipelineSubpolicies(policies[id].attributes).1, policies);
      if ParseAll(ids, policies, fuel - 1) != Err(OutOfFuel) {
        MoreFuelAgreesOnAll(ids, policies, fuel - 1, more - 1);
      }
    }
  }

  lemma {:induction false} MoreFuelAgreesOnAll(ids: seq<ObjectId>, policies: PolicyMap, fuel: nat, more: nat)
    requires ParseAll(ids, policies, fuel) != Err(OutOfFuel) && fuel <= more
    ensures ParseAll(ids, policies, more) == ParseAll(ids, policies, fuel)
    decreases fuel, |ids|
  {
    if ids != [] {
      MoreFuelAgrees(ids[0], policies, fuel, more);
      if Parse(ids[0], policies, fuel).Ok? {
        MoreFuelAgreesOnAll(ids[1..], policies, fuel, more);
      }
    }
  }
}
