/** Templates as the caller holds them: records reached through pointers, whose missing IDs are
    written in place by SetIds and raw. A record may be reached by more than one pointer. */
module TemplateObjects {
  import opened Common
  import opened CtAttributes
  import opened ConnectivityTemplate
  import opened TemplateIds

  /** Where UUIDs come from; asking an exhausted source is an error. */
  class UuidSource {
    var supply: seq<ObjectId>

    method Next() returns (uuid: Option<ObjectId>)
      modifies this
      ensures old(supply) == [] ==> uuid == None && supply == []
      ensures old(supply) != [] ==> uuid == Some(old(supply)[0]) && supply == old(supply)[1..]
    {
      if supply == [] {
        return None;
      }
      uuid := Some(supply[0]);
      supply := supply[1..];
    }
  }

  /** What can be reached from a record by following its pointers, which never lead in a circle, and
      the records in it. Filling IDs never changes it. */
  datatype Shape = Shape(node: PrimitiveNode, children: seq<Shape>, nodes: set<PrimitiveNode>)

  ghost function NodesIn(ss: seq<Shape>): set<PrimitiveNode> {
    set i, n | 0 <= i < |ss| && n in ss[i].nodes :: n
  }

  ghost predicate Fits(s: Shape)
    decreases s, 1
  {
    s.nodes == {s.node} + NodesIn(s.children) && FitsIn(s.node.subpolicies, s.children)
  }

  ghost predicate FitsIn(nodes: seq<PrimitiveNode>, ss: seq<Shape>)
    decreases ss, 0
  {
    |nodes| == |ss| && forall i :: 0 <= i < |ss| ==> nodes[i] == ss[i].node && Fits(ss[i])
  }

  // ----- the IDs of all records -----

  datatype Ids = Ids(id: Option<ObjectId>, pipelineId: Option<ObjectId>, batchId: Option<ObjectId>)

  type Store = map<PrimitiveNode, Ids>

  ghost function StoreOf(nodes: set<PrimitiveNode>): Store
    reads nodes
  {
    map n <- nodes :: Ids(n.id, n.pipelineId, n.batchId)
  }

  ghost predicate Holds(st: Store, ss: seq<Shape>) {
    forall i :: 0 <= i < |ss| ==> ss[i].nodes <= st.Keys
  }

  /** The tree of values that a caller sees; a shared record is seen more than once. */
  ghost function ValueIn(s: Shape, st: Store): Primitive
    requires Fits(s) && s.nodes <= st.Keys
    decreases s, 1
  {
    Record(s.node, st[s.node], ValuesIn(s.node.subpolicies, s.children, st))
  }

  ghost function ValuesIn(nodes: seq<PrimitiveNode>, ss: seq<Shape>, st: Store): (ps: seq<Primitive>)
    requires FitsIn(nodes, ss) && Holds(st, ss)
    ensures |ps| == |ss| && forall i :: 0 <= i < |ss| ==> ps[i] == ValueIn(ss[i], st)
    decreases ss, 0
  {
    if ss == [] then [] else [ValueIn(ss[0], st)] + ValuesIn(nodes[1..], ss[1..], st)
  }

  ghost function Record(node: PrimitiveNode, ids: Ids, below: seq<Primitive>): Primitive {
    Primitive(ids.id, node.labelText, node.attributes, below, ids.batchId, ids.pipelineId)
  }

  /** What filling leaves behind. */
  datatype Filling = Filling(ok: bool, store: Store, rest: seq<ObjectId>)

  function FillOwn(ids: Ids, leaf: bool, supply: seq<ObjectId>): Fill<Ids> {
    var a := FillField(ids.id, true, supply);
    if !a.ok then Fill(false, ids, a.rest) else
    var b := FillField(ids.pipelineId, true, a.rest);
    if !b.ok then Fill(false, ids.(id := a.value), b.rest) else
    var c := FillField(ids.batchId, !leaf, b.rest);
    Fill(c.ok, Ids(a.value, b.value, c.value), c.rest)
  }

  /** setIds(), on the IDs of all records. */
  ghost function FillStore(s: Shape, st: Store, supply: seq<ObjectId>): (f: Filling)
    requires Fits(s) && s.nodes <= st.Keys
    ensures f.store.Keys == st.Keys
    decreases s, 1
  {
    var own := FillOwn(st[s.node], s.node.subpolicies == [], supply);
    var st' := st[s.node := own.value];
    if own.ok then FillStoreAll(s.node.subpolicies, s.children, st', own.rest) else Filling(false, st', own.rest)
  }

  ghost function FillStoreAll(nodes: seq<PrimitiveNode>, ss: seq<Shape>, st: Store, supply: seq<ObjectId>): (f: Filling)
    requires FitsIn(nodes, ss) && Holds(st, ss)
    ensures f.store.Keys == st.Keys
    decreases ss, 0
  {
    if ss == [] then Filling(true, st, supply) else
    var head := FillStore(ss[0], st, supply);
    if head.ok then FillStoreAll(nodes[1..], ss[1..], head.store, head.rest) else head
  }

  // ----- what filling does, records being shared or not -----

  /** No ID that is set changes, and no record outside changes at all. */
  ghost predicate Extended(st: Store, after: Store, nodes: set<PrimitiveNode>) {
    && after.Keys == st.Keys
    && (forall n <- st.Keys :: n !in nodes ==> after[n] == st[n])
    && (forall n <- st.Keys ::
          && (st[n].id.Some? ==> after[n].id == st[n].id)
          && (st[n].pipelineId.Some? ==> after[n].pipelineId == st[n].pipelineId)
          && (st[n].batchId.Some? ==> after[n].batchId == st[n].batchId))
  }

  ghost predicate HasIds(node: PrimitiveNode, ids: Ids) {
    ids.id.Some? && ids.pipelineId.Some? && (node.subpolicies != [] ==> ids.batchId.Some?)
  }

  ghost predicate AllHaveIds(nodes: set<PrimitiveNode>, st: Store) {
    forall n <- nodes :: n in st && HasIds(n, st[n])
  }

  lemma OwnFilled(node: PrimitiveNode, ids: Ids, supply: seq<ObjectId>)
    ensures var own := FillOwn(ids, node.subpolicies == [], supply);
            && (ids.id.Some? ==> own.value.id == ids.id)
            && (ids.pipelineId.Some? ==> own.value.pipelineId == ids.pipelineId)
            && (ids.batchId.Some? ==> own.value.batchId == ids.batchId)
            && (own.ok ==> HasIds(node, own.value))
            && (HasIds(node, ids) ==> own == Fill(true, ids, supply))
  {
  }

  /** Even when it stops half way, filling changes no ID that is set; when it does not, every record
      that can be reached has all the IDs it needs. */
  lemma {:induction false} FillStoreExtends(s: Shape, st: Store, supply: seq<ObjectId>)
    requires Fits(s) && s.nodes <= st.Keys
    ensures var f := FillStore(s, st, supply);
            Extended(st, f.store, s.nodes) && (f.ok ==> AllHaveIds(s.nodes, f.store))
    decreases s, 1
  {
    var own := FillOwn(st[s.node], s.node.subpolicies == [], supply);
    OwnFilled(s.node, st[s.node], supply);
    if own.ok {
      FillAllExtends(s.node.subpolicies, s.children, st[s.node := own.value], own.rest);
    }
  }

  lemma {:induction false} FillAllExtends(nodes: seq<PrimitiveNode>, ss: seq<Shape>, st: Store, supply: seq<ObjectId>)
    requires FitsIn(nodes, ss) && Holds(st, ss)
    ensures var f := FillStoreAll(nodes, ss, st, supply);
            Extended(st, f.store, NodesIn(ss)) && (f.ok ==> AllHaveIds(NodesIn(ss), f.store))
    decreases ss, 0
  {
    if ss != [] {
      assert NodesIn(ss) == ss[0].nodes + NodesIn(ss[1..]);
      FillStoreExtends(ss[0], st, supply);
      var head := FillStore(ss[0], st, supply);
      if head.ok {
        FillAllExtends(nodes[1..], ss[1..], head.store, head.rest);
      }
    }
  }

  /** What has all its IDs is left alone, and no ID is asked for. */
  lemma {:induction false} FilledIsLeftAlone(s: Shape, st: Store, supply: seq<ObjectId>)
    requires Fits(s) && s.nodes <= st.Keys && AllHaveIds(s.nodes, st)
    ensures FillStore(s, st, supply) == Filling(true, st, supply)
    decreases s, 1
  {
    OwnFilled(s.node, st[s.node], supply);
    assert st[s.node := st[s.node]] == st;
    AllFilledAreLeftAlone(s.node.subpolicies, s.children, st, supply);
  }

  lemma {:induction false} AllFilledAreLeftAlone(nodes: seq<PrimitiveNode>, ss: seq<Shape>, st: Store,
                                                 supply: seq<ObjectId>)
    requires FitsIn(nodes, ss) && Holds(st, ss) && AllHaveIds(NodesIn(ss), st)
    ensures FillStoreAll(nodes, ss, st, supply) == Filling(true, st, supply)
    decreases ss, 0
  {
    if ss != [] {
      assert NodesIn(ss) == ss[0].nodes + NodesIn(ss[1..]);
      FilledIsLeftAlone(ss[0], st, supply);
      AllFilledAreLeftAlone(nodes[1..], ss[1..], st, supply);
    }
  }

  /** A caller sees a filled tree exactly when every record has its IDs. */
  lemma {:induction false} FilledIff(s: Shape, st: Store)
    requires Fits(s) && s.nodes <= st.Keys
    ensures Filled(ValueIn(s, st)) <==> AllHaveIds(s.nodes, st)
    decreases s, 1
  {
    AllFilledIff(s.node.subpolicies, s.children, st);
  }

  lemma {:induction false} AllFilledIff(nodes: seq<PrimitiveNode>, ss: seq<Shape>, st: Store)
    requires FitsIn(nodes, ss) && Holds(st, ss)
    ensures AllFilled(ValuesIn(nodes, ss, st)) <==> AllHaveIds(NodesIn(ss), st)
    decreases ss, 0
  {
    if ss != [] {
      assert NodesIn(ss) == ss[0].nodes + NodesIn(ss[1..]);
      FilledIff(ss[0], st);
      AllFilledIff(nodes[1..], ss[1..], st);
      var ps := ValuesIn(nodes, ss, st);
      assert ps[0] in ps && ps == [ps[0]] + ps[1..] && ps[1..] == ValuesIn(nodes[1..], ss[1..], st);
    }
  }

  // ----- and when no record is shared -----

  ghost predicate Tree(s: Shape)
    decreases s, 1
  {
    s.node !in NodesIn(s.children) && Trees(s.children)
  }

  ghost predicate Trees(ss: seq<Shape>)
    decreases ss, 0
  {
    ss != [] ==> Tree(ss[0]) && ss[0].nodes !! NodesIn(ss[1..]) && Trees(ss[1..])
  }

  ghost predicate SameOn(nodes: set<PrimitiveNode>, a: Store, b: Store) {
    forall n <- nodes :: n in a && n in b && a[n] == b[n]
  }

  lemma {:induction false} SameValue(s: Shape, a: Store, b: Store)
    requires Fits(s) && SameOn(s.nodes, a, b)
    ensures ValueIn(s, a) == ValueIn(s, b)
    decreases s, 1
  {
    SameValues(s.node.subpolicies, s.children, a, b);
  }

  lemma {:induction false} SameValues(nodes: seq<PrimitiveNode>, ss: seq<Shape>, a: Store, b: Store)
    requires FitsIn(nodes, ss) && SameOn(NodesIn(ss), a, b)
    ensures Holds(a, ss) && Holds(b, ss) && ValuesIn(nodes, ss, a) == ValuesIn(nodes, ss, b)
    decreases ss, 0
  {
    if ss != [] {
      assert NodesIn(ss) == ss[0].nodes + NodesIn(ss[1..]);
      SameValue(ss[0], a, b);
      SameValues(nodes[1..], ss[1..], a, b);
    }
  }

  /** Where each record is reached once, filling the records is filling the tree of values. */
  lemma {:induction false} TreeFillsAsValue(s: Shape, st: Store, supply: seq<ObjectId>)
    requires Fits(s) && Tree(s) && s.nodes <= st.Keys
    ensures var f := FillStore(s, st, supply);
            FillIds(ValueIn(s, st), supply) == Fill(f.ok, ValueIn(s, f.store), f.rest)
    decreases s, 1
  {
    var own := FillOwn(st[s.node], s.node.subpolicies == [], supply);
    var st' := st[s.node := own.value];
    SameValues(s.node.subpolicies, s.children, st, st');
    if own.ok {
      TreesFillAsValues(s.node.subpolicies, s.children, st', own.rest);
      FillAllExtends(s.node.subpolicies, s.children, st', own.rest);
    }
  }

  lemma {:induction false} TreesFillAsValues(nodes: seq<PrimitiveNode>, ss: seq<Shape>, st: Store,
                                             supply: seq<ObjectId>)
    requires FitsIn(nodes, ss) && Trees(ss) && Holds(st, ss)
    ensures var f := FillStoreAll(nodes, ss, st, supply);
            FillAll(ValuesIn(nodes, ss, st), supply) == Fill(f.ok, ValuesIn(nodes, ss, f.store), f.rest)
    decreases ss, 0
  {
    if ss != [] {
      assert NodesIn(ss) == ss[0].nodes + NodesIn(ss[1..]);
      TreeFillsAsValue(ss[0], st, supply);
      FillStoreExtends(ss[0], st, supply);
      var head := FillStore(ss[0], st, supply);
      SameValues(nodes[1..], ss[1..], st, head.store);
      if head.ok {
        TreesFillAsValues(nodes[1..], ss[1..], head.store, head.rest);
        FillAllExtends(nodes[1..], ss[1..], head.store, head.rest);
        var f := FillStoreAll(nodes[1..], ss[1..], head.store, head.rest);
        SameValue(ss[0], head.store, f.store);
      }
    }
  }

  // ----- compiling -----

  /** What compiling leaves behind. */
  datatype Compiled = Compiled(result: Result<seq<Policy>, CtError>, store: Store, rest: seq<ObjectId>)

  /** rawPipeline() fills the IDs below it, and compiles what is then seen. */
  ghost function Compile(s: Shape, st: Store, supply: seq<ObjectId>): (c: Compiled)
    requires Fits(s) && s.nodes <= st.Keys
    ensures c.store.Keys == st.Keys
    ensures c.result.Ok? ==> c.result.value != []
  {
    if s.node.attributes.None? then Compiled(Err(NilAttributes), st, supply) else
    var f := FillStore(s, st, supply);
    if !f.ok then Compiled(Err(NoUuid), f.store, f.rest) else
    FillStoreExtends(s, st, supply);
    FilledIff(s, f.store);
    Compiled(FlattenPipeline(ValueIn(s, f.store)), f.store, f.rest)
  }

  /** The loop of rawBatch(), with the IDs of the pipelines that it collects. */
  ghost function CompileAll(nodes: seq<PrimitiveNode>, ss: seq<Shape>, st: Store, supply: seq<ObjectId>)
    : (c: (Compiled, seq<ObjectId>))
    requires FitsIn(nodes, ss) && Holds(st, ss)
    ensures c.0.store.Keys == st.Keys && (c.0.result.Err? ==> c.1 == [])
  {
    if ss == [] then (Compiled(Ok([]), st, supply), []) else
    var head := Compile(ss[0], st, supply);
    if head.result.Err? then (head, []) else
    var (tail, ids) := CompileAll(nodes[1..], ss[1..], head.store, head.rest);
    if tail.result.Err? then (tail, [])
    else (Compiled(Ok(head.result.value + tail.result.value), tail.store, tail.rest), [head.result.value[0].id] + ids)
  }

  /** Filled records are compiled without any being written to, and as the tree of values is. */
  lemma {:induction false} CompileFilled(nodes: seq<PrimitiveNode>, ss: seq<Shape>, st: Store, supply: seq<ObjectId>)
    requires FitsIn(nodes, ss) && Holds(st, ss) && AllHaveIds(NodesIn(ss), st)
    ensures AllFilled(ValuesIn(nodes, ss, st))
    ensures var (c, ids) := CompileAll(nodes, ss, st, supply);
            && c == Compiled(FlattenPipelines(ValuesIn(nodes, ss, st)), st, supply)
            && (c.result.Ok? ==> ids == PipelineIds(ValuesIn(nodes, ss, st)))
  {
    AllFilledIff(nodes, ss, st);
    if ss != [] {
      assert NodesIn(ss) == ss[0].nodes + NodesIn(ss[1..]);
      FilledIff(ss[0], st);
      FilledIsLeftAlone(ss[0], st, supply);
      CompileFilled(nodes[1..], ss[1..], st, supply);
      FlattensFirst(ValueIn(ss[0], st));
      assert ValuesIn(nodes, ss, st)[1..] == ValuesIn(nodes[1..], ss[1..], st);
    }
  }

  /** A primitive's pipeline comes first, and a primitive without attributes cannot be compiled. */
  lemma FlattensFirst(p: Primitive)
    requires Filled(p)
    ensures p.attributes.None? ==> FlattenPipeline(p) == Err(NilAttributes)
    ensures FlattenPipeline(p).Ok? ==>
              FlattenPipeline(p).value != [] && FlattenPipeline(p).value[0].id == p.pipelineId.value
  {
  }

  lemma FlattenNode(p: Primitive, raw: RawAttributes)
    requires Filled(p) && p.attributes.Some? && Encode(p.attributes.value) == Ok(raw)
    ensures var head := [PipelinePolicy(p), ActualPolicy(p, raw)];
            FlattenPipeline(p)
            == if p.subpolicies == [] then Ok(head)
               else if FlattenPipelines(p.subpolicies).Err? then FlattenPipelines(p.subpolicies)
               else Ok(head + ([NodeBatch(p)] + FlattenPipelines(p.subpolicies).value))
  {
  }

  class PrimitiveNode {
    var id: Option<ObjectId>
    var batchId: Option<ObjectId>
    var pipelineId: Option<ObjectId>
    const labelText: string
    const attributes: Option<Attributes>
    const subpolicies: seq<PrimitiveNode>

    constructor (labelText: string, attributes: Option<Attributes>, subpolicies: seq<PrimitiveNode>,
                 id: Option<ObjectId>, batchId: Option<ObjectId>, pipelineId: Option<ObjectId>)
      ensures this.labelText == labelText && this.attributes == attributes && this.subpolicies == subpolicies
      ensures this.id == id && this.batchId == batchId && this.pipelineId == pipelineId
    {
      this.labelText, this.attributes, this.subpolicies := labelText, attributes, subpolicies;
      this.id, this.batchId, this.pipelineId := id, batchId, pipelineId;
    }

    /** setIds() */
    method SetIds(ghost s: Shape, ghost all: set<PrimitiveNode>, source: UuidSource) returns (ok: bool)
      requires s.node == this && Fits(s) && s.nodes <= all
      modifies all, source
      ensures FillStore(s, old(StoreOf(all)), old(source.supply)) == Filling(ok, StoreOf(all), source.supply)
      decreases s, 1
    {
      ok := SetOwnIds(all, source);
      if ok {
        ok := SetAllIds(subpolicies, s.children, all, source);
      }
    }

    /** rawPipeline() */
    method RawPipeline(ghost s: Shape, ghost all: set<PrimitiveNode>, source: UuidSource)
      returns (r: Result<seq<Policy>, CtError>)
      requires s.node == this && Fits(s) && s.nodes <= all
      modifies all, source
      ensures Compile(s, old(StoreOf(all)), old(source.supply)) == Compiled(r, StoreOf(all), source.supply)
      decreases s, 3
    {
      if attributes.None? {
        return Err(NilAttributes);
      }
      FillStoreExtends(s, StoreOf(all), source.supply);
      var ok := SetIds(s, all, source);
      if !ok {
        return Err(NoUuid);
      }
      ghost var st := StoreOf(all);
      ghost var value := ValueIn(s, st);
      FilledIff(s, st);
      var encoded := Encode(attributes.value);
      if encoded.Err? {
        return Err(encoded.error);
      }
      var kind := KindText(TypeOf(attributes.value));
      var actual := Policy(id.value, labelText, kind, [], None, false, TypeOf(attributes.value), encoded.value);
      var pipeline := Policy(pipelineId.value, labelText + " (pipeline)", kind, [], None, false, Pipeline,
                             RawAttributes.RawPipeline(id.value, if |subpolicies| > 0 then batchId else None));
      var result := [pipeline, actual];
      FlattenNode(value, encoded.value);
      if |subpolicies| > 0 {
        CompileFilled(subpolicies, s.children, st, source.supply);
        var batch := RawBatchOf(batchId.value, kind, labelText, subpolicies, s.children, all, source);
        if batch.Err? {
          return Err(batch.error);
        }
        result := result + batch.value;
      }
      r := Ok(result);
    }

    method SetOwnIds(ghost all: set<PrimitiveNode>, source: UuidSource) returns (ok: bool)
      requires this in all
      modifies this, source
      ensures var own := FillOwn(old(StoreOf(all))[this], subpolicies == [], old(source.supply));
              ok == own.ok && StoreOf(all) == old(StoreOf(all))[this := own.value] && source.supply == own.rest
    {
      if id.None? {
        var uuid := source.Next();
        if uuid.None? {
          return false;
        }
        id := uuid;
      }
      if pipelineId.None? {
        var uuid := source.Next();
        if uuid.None? {
          return false;
        }
        pipelineId := uuid;
      }
      if batchId.None? && |subpolicies| > 0 {
        var uuid := source.Next();
        if uuid.None? {
          return false;
        }
        batchId := uuid;
      }
      ok := true;
    }
  }

  /** The loop over subpolicies in setIds() and in SetIds(). */
  method SetAllIds(nodes: seq<PrimitiveNode>, ghost ss: seq<Shape>, ghost all: set<PrimitiveNode>, source: UuidSource)
    returns (ok: bool)
    requires FitsIn(nodes, ss) && forall i :: 0 <= i < |ss| ==> ss[i].nodes <= all
    modifies all, source
    ensures FillStoreAll(nodes, ss, old(StoreOf(all)), old(source.supply)) == Filling(ok, StoreOf(all), source.supply)
    decreases ss, 0
  {
    assert nodes[0..] == nodes && ss[0..] == ss;
    for i := 0 to |nodes|
      invariant FillStoreAll(nodes, ss, old(StoreOf(all)), old(source.supply))
             == FillStoreAll(nodes[i..], ss[i..], StoreOf(all), source.supply)
    {
      assert nodes[i..][1..] == nodes[i + 1..] && ss[i..][1..] == ss[i + 1..];
      ok := nodes[i].SetIds(ss[i], all, source);
      if !ok {
        return false;
      }
    }
    ok := true;
  }

  /** rawBatch() */
  method RawBatchOf(id: ObjectId, description: Description, labelText: string, nodes: seq<PrimitiveNode>,
                    ghost ss: seq<Shape>, ghost all: set<PrimitiveNode>, source: UuidSource)
    returns (r: Result<seq<Policy>, CtError>)
    requires FitsIn(nodes, ss) && forall i :: 0 <= i < |ss| ==> ss[i].nodes <= all
    modifies all, source
    ensures var (c, ids) := CompileAll(nodes, ss, old(StoreOf(all)), old(source.supply));
            && StoreOf(all) == c.store && source.supply == c.rest
            && r == if c.result.Err? then c.result
                    else Ok([BatchPolicy(id, description, labelText, ids)] + c.result.value)
    decreases ss, 0
  {
    var pipelines, subpolicyIds := [], [];
    assert nodes[0..] == nodes && ss[0..] == ss;
    ghost var whole := CompileAll(nodes, ss, StoreOf(all), source.supply);
    ContinuesFromStart(whole);
    for i := 0 to |nodes|
      invariant Continues(whole, pipelines, subpolicyIds, CompileAll(nodes[i..], ss[i..], StoreOf(all), source.supply))
    {
      BatchStep(whole, pipelines, subpolicyIds, nodes, ss, i, StoreOf(all), source.supply);
      var flat := nodes[i].RawPipeline(ss[i], all, source);
      if flat.Err? {
        return Err(flat.error);
      }
      subpolicyIds := subpolicyIds + [flat.value[0].id];
      pipelines := pipelines + flat.value;
    }
    assert pipelines + [] == pipelines && subpolicyIds + [] == subpolicyIds;
    r := Ok([BatchPolicy(id, description, labelText, subpolicyIds)] + pipelines);
  }

  /** The whole of a list is what is done and what is still to come. */
  ghost predicate Continues(whole: (Compiled, seq<ObjectId>), done: seq<Policy>, ids: seq<ObjectId>,
                            rest: (Compiled, seq<ObjectId>)) {
    && whole.0.store == rest.0.store && whole.0.rest == rest.0.rest
    && if rest.0.result.Err? then whole.0.result == rest.0.result
       else whole.0.result == Ok(done + rest.0.result.value) && whole.1 == ids + rest.1
  }

  lemma ContinuesFromStart(whole: (Compiled, seq<ObjectId>))
    requires whole.0.result.Err? ==> whole.1 == []
    ensures Continues(whole, [], [], whole)
  {
    if whole.0.result.Ok? {
      assert [] + whole.0.result.value == whole.0.result.value && [] + whole.1 == whole.1;
    }
  }

  lemma ContinuesOnce(whole: (Compiled, seq<ObjectId>), done: seq<Policy>, ids: seq<ObjectId>, one: seq<Policy>,
                      head: Compiled, tail: (Compiled, seq<ObjectId>))
    requires head.result == Ok(one) && one != []
    requires Continues(whole, done, ids,
                       if tail.0.result.Err? then (tail.0, [])
                       else (Compiled(Ok(one + tail.0.result.value), tail.0.store, tail.0.rest), [one[0].id] + tail.1))
    ensures Continues(whole, done + one, ids + [one[0].id], tail)
  {
    if tail.0.result.Ok? {
      assert done + (one + tail.0.result.value) == done + one + tail.0.result.value;
      assert ids + ([one[0].id] + tail.1) == ids + [one[0].id] + tail.1;
    }
  }

  /** One turn of the loop of rawBatch(). */
  lemma BatchStep(whole: (Compiled, seq<ObjectId>), done: seq<Policy>, ids: seq<ObjectId>, nodes: seq<PrimitiveNode>,
                  ss: seq<Shape>, i: nat, st: Store, supply: seq<ObjectId>)
    requires FitsIn(nodes, ss) && Holds(st, ss) && i < |ss|
    requires Continues(whole, done, ids, CompileAll(nodes[i..], ss[i..], st, supply))
    ensures var head := Compile(ss[i], st, supply);
            && (head.result.Err? ==> whole.0 == head)
            && (head.result.Ok? ==>
                  Continues(whole, done + head.result.value, ids + [head.result.value[0].id],
                            CompileAll(nodes[i + 1..], ss[i + 1..], head.store, head.rest)))
  {
    assert nodes[i..][1..] == nodes[i + 1..] && ss[i..][1..] == ss[i + 1..];
    var head := Compile(ss[i], st, supply);
    if head.result.Ok? {
      ContinuesOnce(whole, done, ids, head.result.value, head,
                    CompileAll(nodes[i + 1..], ss[i + 1..], head.store, head.rest));
    }
  }

  class TemplateNode {
    var id: Option<ObjectId>
    var tags: Option<seq<string>>
    const labelText: string
    const description: Description
    const subpolicies: seq<PrimitiveNode>
    const userData: Option<UserData>

    constructor (labelText: string, description: Description, subpolicies: seq<PrimitiveNode>,
                 userData: Option<UserData>, id: Option<ObjectId>, tags: Option<seq<string>>)
      ensures this.labelText == labelText && this.description == description && this.subpolicies == subpolicies
      ensures this.userData == userData && this.id == id && this.tags == tags
    {
      this.labelText, this.description, this.subpolicies := labelText, description, subpolicies;
      this.userData, this.id, this.tags := userData, id, tags;
    }

    /** The template that a caller sees. */
    ghost function Value(ss: seq<Shape>, all: set<PrimitiveNode>): Template
      requires FitsIn(subpolicies, ss) && forall i :: 0 <= i < |ss| ==> ss[i].nodes <= all
      reads this, all
    {
      Template(id, labelText, description, ValuesIn(subpolicies, ss, StoreOf(all)), tags, userData)
    }

    /** SetIds(): the template's own ID first. */
    method SetIds(ghost ss: seq<Shape>, ghost all: set<PrimitiveNode>, source: UuidSource) returns (ok: bool)
      requires FitsIn(subpolicies, ss) && forall i :: 0 <= i < |ss| ==> ss[i].nodes <= all
      modifies this`id, all, source
      ensures var root := FillField(old(id), true, old(source.supply));
              if !root.ok then
                !ok && id == None && StoreOf(all) == old(StoreOf(all)) && source.supply == root.rest
              else
                id == root.value
                && FillStoreAll(subpolicies, ss, old(StoreOf(all)), root.rest)
                   == Filling(ok, StoreOf(all), source.supply)
    {
      if id.None? {
        var uuid := source.Next();
        if uuid.None? {
          return false;
        }
        id := uuid;
      }
      ok := SetAllIds(subpolicies, ss, all, source);
    }

    /** raw(): what is sent is the template that the caller sees afterwards, with all IDs filled in. */
    method Raw(ghost ss: seq<Shape>, ghost all: set<PrimitiveNode>, source: UuidSource)
      returns (r: Result<seq<Policy>, CtError>)
      requires FitsIn(subpolicies, ss) && forall i :: 0 <= i < |ss| ==> ss[i].nodes <= all
      modifies this, all, source
      ensures var root := FillField(old(id), true, old(source.supply));
              if !root.ok then
                r == Err(NoUuid) && id == None && StoreOf(all) == old(StoreOf(all)) && source.supply == root.rest
              else
                var f := FillStoreAll(subpolicies, ss, old(StoreOf(all)), root.rest);
                && id == root.value && StoreOf(all) == f.store && source.supply == f.rest
                && (!f.ok ==> r == Err(NoUuid))
                && (f.ok ==> FilledTemplate(Value(ss, all)) && r == Flatten(Value(ss, all)))
      ensures tags == if r.Ok? && old(tags).None? then Some([]) else old(tags)
    {
      var policies := RawPolicies(ss, all, source);
      if policies.Err? {
        return Err(policies.error);
      }
      if tags.None? {
        tags := Some([]);
      }
      var root := policies.value[0].(
        description := description,
        labelText := labelText,
        visible := true,
        tags := tags.value,
        userData := Some(if userData.None? then JsonNull else JsonUserData(userData.value)));
      r := Ok([root] + policies.value[1..]);
    }

    /** The policies of a template before those of its root are finished. */
    method RawPolicies(ghost ss: seq<Shape>, ghost all: set<PrimitiveNode>, source: UuidSource)
      returns (r: Result<seq<Policy>, CtError>)
      requires FitsIn(subpolicies, ss) && forall i :: 0 <= i < |ss| ==> ss[i].nodes <= all
      modifies this`id, all, source
      ensures var root := FillField(old(id), true, old(source.supply));
              if !root.ok then
                r == Err(NoUuid) && id == None && StoreOf(all) == old(StoreOf(all)) && source.supply == root.rest
              else
                var f := FillStoreAll(subpolicies, ss, old(StoreOf(all)), root.rest);
                && id == root.value && StoreOf(all) == f.store && source.supply == f.rest
                && (!f.ok ==> r == Err(NoUuid))
                && (f.ok ==>
                      && AllFilled(ValuesIn(subpolicies, ss, f.store))
                      && r == FlattenBatch(id.value, Text(""), "", ValuesIn(subpolicies, ss, f.store)))
    {
      ghost var root, before := FillField(id, true, source.supply), StoreOf(all);
      var ok := SetIds(ss, all, source);
      if !ok {
        return Err(NoUuid);
      }
      ghost var st := StoreOf(all);
      FillAllExtends(subpolicies, ss, before, root.rest);
      AllFilledAreLeftAlone(subpolicies, ss, st, source.supply);
      CompileFilled(subpolicies, ss, st, source.supply);
      ok := SetAllIds(subpolicies, ss, all, source);
      r := RawBatchOf(id.value, Text(""), "", subpolicies, ss, all, source);
    }
  }

  /** Where no record is shared, the template a caller sees after raw() or SetIds() is the one that
      filling the values gives. */
  lemma TemplateFillsAsValue(t: TemplateNode, ss: seq<Shape>, given: Template, st: Store, supply: seq<ObjectId>)
    requires FitsIn(t.subpolicies, ss) && Holds(st, ss) && Trees(ss)
    requires given.subpolicies == ValuesIn(t.subpolicies, ss, st)
    ensures var root := FillField(given.id, true, supply);
            var f := FillStoreAll(t.subpolicies, ss, st, root.rest);
            FillTemplate(given, supply)
            == if !root.ok then Fill(false, given, root.rest)
               else Fill(f.ok, given.(id := root.value, subpolicies := ValuesIn(t.subpolicies, ss, f.store)), f.rest)
  {
    TreesFillAsValues(t.subpolicies, ss, st, FillField(given.id, true, supply).rest);
  }
}
