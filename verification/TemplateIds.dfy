/** Filling in the IDs of a template, on values: what setIds() leaves behind, as a function of
    the tree and of the UUIDs that the generator is still going to hand out. A generator
    that has run out stands for one that returns an error. */
module TemplateIds {
  import opened Common
  import opened CtAttributes
  import opened ConnectivityTemplate

  datatype Fill<T> = Fill(ok: bool, value: T, rest: seq<ObjectId>)

  function FillField(current: Option<ObjectId>, needed: bool, supply: seq<ObjectId>): Fill<Option<ObjectId>> {
    if current.Some? || !needed then Fill(true, current, supply)
    else if supply == [] then Fill(false, None, [])
    else Fill(true, Some(supply[0]), supply[1..])
  }

  /** The three IDs of one primitive, in the order in which they are filled. */
  function FillNode(p: Primitive, supply: seq<ObjectId>): Fill<Primitive> {
    var a := FillField(p.id, true, supply);
    if !a.ok then Fill(false, p, a.rest) else
    var b := FillField(p.pipelineId, true, a.rest);
    if !b.ok then Fill(false, p.(id := a.value), b.rest) else
    var c := FillField(p.batchId, p.subpolicies != [], b.rest);
    Fill(c.ok, p.(id := a.value, pipelineId := b.value, batchId := c.value), c.rest)
  }

  /** ConnectivityTemplatePrimitive.setIds() */
  function FillIds(p: Primitive, supply: seq<ObjectId>): Fill<Primitive>
    decreases p, 1
  {
    var node := FillNode(p, supply);
    if !node.ok then node else
    var below := FillAll(p.subpolicies, node.rest);
    Fill(below.ok, node.value.(subpolicies := below.value), below.rest)
  }

  function FillAll(ps: seq<Primitive>, supply: seq<ObjectId>): Fill<seq<Primitive>>
    decreases ps, 0
  {
    if ps == [] then Fill(true, [], supply) else
    var head := FillIds(ps[0], supply);
    if !head.ok then Fill(false, [head.value] + ps[1..], head.rest) else
    var tail := FillAll(ps[1..], head.rest);
    Fill(tail.ok, [head.value] + tail.value, tail.rest)
  }

  /** ConnectivityTemplate.SetIds() */
  function FillTemplate(t: Template, supply: seq<ObjectId>): Fill<Template> {
    var root := FillField(t.id, true, supply);
    if !root.ok then Fill(false, t, root.rest) else
    var below := FillAll(t.subpolicies, root.rest);
    Fill(below.ok, t.(id := root.value, subpolicies := below.value), below.rest)
  }

  // ----- what filling keeps -----

  /** q is p with IDs filled in where p had none, and nothing else changed. */
  ghost predicate Extends(p: Primitive, q: Primitive) {
    && q.labelText == p.labelText && q.attributes == p.attributes
    && (p.id.Some? ==> q.id == p.id)
    && (p.pipelineId.Some? ==> q.pipelineId == p.pipelineId)
    && (p.batchId.Some? || p.subpolicies == [] ==> q.batchId == p.batchId)
    && AllExtend(p.subpolicies, q.subpolicies)
  }

  ghost predicate AllExtend(ps: seq<Primitive>, qs: seq<Primitive>) {
    |ps| == |qs| && forall i :: 0 <= i < |ps| ==> Extends(ps[i], qs[i])
  }

  /** The number of IDs that filling has to ask for. */
  ghost function Missing(p: Primitive): nat {
    MissingHere(p) + MissingIn(p.subpolicies)
  }

  function MissingHere(p: Primitive): nat {
    (if p.id.None? then 1 else 0) + (if p.pipelineId.None? then 1 else 0)
    + (if p.batchId.None? && p.subpolicies != [] then 1 else 0)
  }

  ghost function MissingIn(ps: seq<Primitive>): nat {
    if ps == [] then 0 else Missing(ps[0]) + MissingIn(ps[1..])
  }

  lemma {:induction false} ExtendsItself(p: Primitive)
    ensures Extends(p, p)
  {
    forall i | 0 <= i < |p.subpolicies| ensures Extends(p.subpolicies[i], p.subpolicies[i]) {
      ExtendsItself(p.subpolicies[i]);
    }
  }

  /** One primitive's own IDs: each that is set stays, and the missing ones are taken in turn. */
  lemma NodeExtends(p: Primitive, supply: seq<ObjectId>)
    ensures var f := FillNode(p, supply);
            && f.value == p.(id := f.value.id, pipelineId := f.value.pipelineId, batchId := f.value.batchId)
            && (p.id.Some? ==> f.value.id == p.id)
            && (p.pipelineId.Some? ==> f.value.pipelineId == p.pipelineId)
            && (p.batchId.Some? || p.subpolicies == [] ==> f.value.batchId == p.batchId)
            && (f.ok <==> |supply| >= MissingHere(p))
            && (f.ok ==> f.value.id.Some? && f.value.pipelineId.Some? && (p.subpolicies != [] ==> f.value.batchId.Some?)
                         && f.rest == supply[MissingHere(p)..])
            && (!f.ok ==> f.rest == [])
  {
  }

  /** Filling never alters an ID already set, even when it stops half way; it succeeds exactly
      when the generator can supply every missing ID, and then no needed ID is missing. */
  lemma {:induction false} FillingExtends(p: Primitive, supply: seq<ObjectId>)
    ensures var f := FillIds(p, supply);
            && Extends(p, f.value)
            && (f.ok <==> |supply| >= Missing(p))
            && (f.ok ==> Filled(f.value) && |f.rest| == |supply| - Missing(p) && f.rest == supply[Missing(p)..])
            && (!f.ok ==> f.rest == [])
    decreases p, 1
  {
    NodeExtends(p, supply);
    var node := FillNode(p, supply);
    if node.ok {
      FillingAllExtends(p.subpolicies, node.rest);
    } else {
      ExtendsItself(p);
    }
  }

  lemma {:induction false} FillingAllExtends(ps: seq<Primitive>, supply: seq<ObjectId>)
    ensures var f := FillAll(ps, supply);
            && AllExtend(ps, f.value)
            && (f.ok <==> |supply| >= MissingIn(ps))
            && (f.ok ==> AllFilled(f.value) && |f.rest| == |supply| - MissingIn(ps)
                         && f.rest == supply[MissingIn(ps)..])
            && (!f.ok ==> f.rest == [])
    decreases ps, 0
  {
    if ps != [] {
      var head := FillIds(ps[0], supply);
      FillingExtends(ps[0], supply);
      if head.ok {
        FillingAllExtends(ps[1..], head.rest);
        var tail := FillAll(ps[1..], head.rest);
        assert [head.value] + tail.value == FillAll(ps, supply).value;
      } else {
        forall i | 1 <= i < |ps| ensures Extends(ps[i], ps[i]) {
          ExtendsItself(ps[i]);
        }
      }
    }
  }

  /** A filled tree is left alone, and nothing is asked of the generator. */
  lemma {:induction false} FillingIsIdempotent(p: Primitive, supply: seq<ObjectId>)
    requires Filled(p)
    ensures FillIds(p, supply) == Fill(true, p, supply)
    decreases p, 1
  {
    FillingAllIsIdempotent(p.subpolicies, supply);
  }

  lemma {:induction false} FillingAllIsIdempotent(ps: seq<Primitive>, supply: seq<ObjectId>)
    requires AllFilled(ps)
    ensures FillAll(ps, supply) == Fill(true, ps, supply)
    decreases ps, 0
  {
    if ps != [] {
      FillingIsIdempotent(ps[0], supply);
      FillingAllIsIdempotent(ps[1..], supply);
      assert [ps[0]] + ps[1..] == ps;
    }
  }

  // ----- conservation of IDs -----

  function Given(current: Option<ObjectId>, id: ObjectId): nat {
    if current == Some(id) then 1 else 0
  }

  function Occurs(ids: seq<ObjectId>, id: ObjectId): nat {
    if ids == [] then 0 else (if ids[0] == id then 1 else 0) + Occurs(ids[1..], id)
  }

  /** How often a tree names an ID; the batch ID of a leaf is never used. */
  ghost function Names(p: Primitive, id: ObjectId): nat {
    Given(p.id, id) + Given(p.pipelineId, id) + (if p.subpolicies == [] then 0 else Given(p.batchId, id))
    + NamesIn(p.subpolicies, id)
  }

  ghost function NamesIn(ps: seq<Primitive>, id: ObjectId): nat {
    if ps == [] then 0 else Names(ps[0], id) + NamesIn(ps[1..], id)
  }

  /** No ID is lost or invented: those in the tree and those still to be handed out are
      together the same before and after. */
  lemma {:induction false} FillingConserves(p: Primitive, supply: seq<ObjectId>, id: ObjectId)
    ensures var f := FillIds(p, supply);
            Names(f.value, id) + Occurs(f.rest, id) == Names(p, id) + Occurs(supply, id)
    decreases p, 1
  {
    var node := FillNode(p, supply);
    NodeConserves(p, supply, id);
    if node.ok {
      FillingAllConserves(p.subpolicies, node.rest, id);
      FillingAllExtends(p.subpolicies, node.rest);
    }
  }

  lemma NodeConserves(p: Primitive, supply: seq<ObjectId>, id: ObjectId)
    ensures var f := FillNode(p, supply);
            Names(f.value, id) + Occurs(f.rest, id) == Names(p, id) + Occurs(supply, id)
  {
    var a := FillField(p.id, true, supply);
    var b := FillField(p.pipelineId, true, a.rest);
    assert Given(a.value, id) + Occurs(a.rest, id) == Given(p.id, id) + Occurs(supply, id);
    assert Given(b.value, id) + Occurs(b.rest, id) == Given(p.pipelineId, id) + Occurs(a.rest, id);
  }

  lemma {:induction false} FillingAllConserves(ps: seq<Primitive>, supply: seq<ObjectId>, id: ObjectId)
    ensures var f := FillAll(ps, supply);
            NamesIn(f.value, id) + Occurs(f.rest, id) == NamesIn(ps, id) + Occurs(supply, id)
    decreases ps, 0
  {
    if ps != [] {
      var head := FillIds(ps[0], supply);
      FillingConserves(ps[0], supply, id);
      if head.ok {
        FillingAllConserves(ps[1..], head.rest, id);
        assert FillAll(ps, supply).value[1..] == FillAll(ps[1..], head.rest).value;
      } else {
        assert FillAll(ps, supply).value[1..] == ps[1..];
      }
    }
  }

  lemma {:induction false} OccursAppend(a: seq<ObjectId>, b: seq<ObjectId>, id: ObjectId)
    ensures Occurs(a + b, id) == Occurs(a, id) + Occurs(b, id)
  {
    if a == [] {
      assert a + b == b;
    } else {
      assert (a + b)[1..] == a[1..] + b;
      OccursAppend(a[1..], b, id);
    }
  }

  lemma {:induction false} OccursWhereIn(ids: seq<ObjectId>, id: ObjectId)
    ensures Occurs(ids, id) > 0 <==> id in ids
  {
    if ids != [] {
      OccursWhereIn(ids[1..], id);
    }
  }

  lemma {:induction false} NoDuplicatesAsOccurs(ids: seq<ObjectId>)
    ensures NoDuplicates(ids) <==> forall id :: Occurs(ids, id) <= 1
  {
    if ids != [] {
      NoDuplicatesAsOccurs(ids[1..]);
      OccursWhereIn(ids[1..], ids[0]);
      if NoDuplicates(ids) {
        assert NoDuplicates(ids[1..]);
        forall id ensures Occurs(ids, id) <= 1 {
          assert Occurs(ids[1..], id) <= 1;
        }
      } else if NoDuplicates(ids[1..]) {
        var j :| 1 <= j < |ids| && ids[j] == ids[0];
        assert ids[1..][j - 1] == ids[0];
        assert Occurs(ids, ids[0]) > 1;
      } else {
        var id :| Occurs(ids[1..], id) > 1;
        assert Occurs(ids, id) > 1;
      }
    }
  }

  /** The flat list names each ID of the tree as often as the tree does. */
  lemma {:induction false} FlatIds(p: Primitive, id: ObjectId)
    requires Filled(p) && FlattenPipeline(p).Ok?
    ensures Occurs(IdsOf(FlattenPipeline(p).value), id) == Names(p, id)
    decreases p, 1
  {
    FlattenShape(p);
    FlatIdsIn(p.subpolicies, id);
    var below := IdsOf(FlattenPipelines(p.subpolicies).value);
    var node := if p.subpolicies == [] then [] else [p.batchId.value];
    OccursAppend(node, below, id);
    assert IdsOf(FlattenPipeline(p).value) == [p.pipelineId.value] + ([p.id.value] + (node + below));
  }

  lemma {:induction false} FlatIdsIn(ps: seq<Primitive>, id: ObjectId)
    requires AllFilled(ps) && FlattenPipelines(ps).Ok?
    ensures Occurs(IdsOf(FlattenPipelines(ps).value), id) == NamesIn(ps, id)
    decreases ps, 0
  {
    if ps != [] {
      FlatIds(ps[0], id);
      FlatIdsIn(ps[1..], id);
      var head, tail := FlattenPipeline(ps[0]).value, FlattenPipelines(ps[1..]).value;
      IdsOfAppend(head, tail);
      OccursAppend(IdsOf(head), IdsOf(tail), id);
    }
  }

  lemma IdsOfAppend(a: seq<Policy>, b: seq<Policy>)
    ensures IdsOf(a + b) == IdsOf(a) + IdsOf(b)
  {
  }

  // ----- the whole journey -----

  /** Every primitive has attributes that can be sent. */
  ghost predicate Sendable(p: Primitive) {
    p.attributes.Some? && Encode(p.attributes.value).Ok? && forall q <- p.subpolicies :: Sendable(q)
  }

  lemma {:induction false} SendableFlattens(p: Primitive)
    requires Filled(p)
    ensures FlattenPipeline(p).Ok? <==> Sendable(p)
    decreases p, 1
  {
    SendableAllFlatten(p.subpolicies);
  }

  lemma {:induction false} SendableAllFlatten(ps: seq<Primitive>)
    requires AllFilled(ps)
    ensures FlattenPipelines(ps).Ok? <==> forall p <- ps :: Sendable(p)
    decreases ps, 0
  {
    if ps != [] {
      SendableFlattens(ps[0]);
      SendableAllFlatten(ps[1..]);
      assert forall p <- ps :: p == ps[0] || p in ps[1..];
      assert forall p <- ps[1..] :: p in ps;
    }
  }

  lemma {:induction false} ExtendsSendable(p: Primitive, q: Primitive)
    requires Extends(p, q)
    ensures Sendable(p) <==> Sendable(q)
  {
    forall i | 0 <= i < |p.subpolicies| ensures Sendable(p.subpolicies[i]) <==> Sendable(q.subpolicies[i]) {
      ExtendsSendable(p.subpolicies[i], q.subpolicies[i]);
    }
    AllSendableAlike(p.subpolicies, q.subpolicies);
  }

  lemma AllSendableAlike(ps: seq<Primitive>, qs: seq<Primitive>)
    requires |ps| == |qs| && forall i :: 0 <= i < |ps| ==> (Sendable(ps[i]) <==> Sendable(qs[i]))
    ensures (forall p <- ps :: Sendable(p)) <==> (forall q <- qs :: Sendable(q))
  {
    if forall p <- ps :: Sendable(p) {
      forall q <- qs ensures Sendable(q) {
        var i :| 0 <= i < |qs| && qs[i] == q;
        assert ps[i] in ps;
      }
    }
    if forall q <- qs :: Sendable(q) {
      forall p <- ps ensures Sendable(p) {
        var i :| 0 <= i < |ps| && ps[i] == p;
        assert qs[i] in qs;
      }
    }
  }

  ghost function NamesInTemplate(t: Template, id: ObjectId): nat {
    Given(t.id, id) + NamesIn(t.subpolicies, id)
  }

  /** The IDs that the generator will be asked for. */
  ghost function MissingInTemplate(t: Template): nat {
    (if t.id.None? then 1 else 0) + MissingIn(t.subpolicies)
  }

  lemma FilledTemplateFlattens(t: Template, supply: seq<ObjectId>)
    requires |supply| >= MissingInTemplate(t)
    requires forall p <- t.subpolicies :: Sendable(p)
    ensures var f := FillTemplate(t, supply);
            && f.ok && FilledTemplate(f.value) && Flatten(f.value).Ok?
            && AllExtend(t.subpolicies, f.value.subpolicies)
  {
    FillingAllExtends(t.subpolicies, FillField(t.id, true, supply).rest);
    var f := FillTemplate(t, supply).value;
    forall i | 0 <= i < |t.subpolicies| ensures Sendable(t.subpolicies[i]) <==> Sendable(f.subpolicies[i]) {
      ExtendsSendable(t.subpolicies[i], f.subpolicies[i]);
    }
    AllSendableAlike(t.subpolicies, f.subpolicies);
    SendableAllFlatten(f.subpolicies);
  }

  /** The policies of a compiled template have the template's own IDs and those issued to it. */
  lemma CompiledIds(t: Template, supply: seq<ObjectId>, id: ObjectId)
    requires var f := FillTemplate(t, supply); f.ok && FilledTemplate(f.value) && Flatten(f.value).Ok?
    ensures var f := FillTemplate(t, supply);
            Occurs(IdsOf(Flatten(f.value).value), id) + Occurs(f.rest, id)
            == NamesInTemplate(t, id) + Occurs(supply, id)
  {
    var root, f := FillField(t.id, true, supply), FillTemplate(t, supply).value;
    FlattenTemplateShape(f);
    var below := FlattenPipelines(f.subpolicies).value;
    assert IdsOf([RootOf(f)] + below) == [f.id.value] + IdsOf(below);
    FillingAllConserves(t.subpolicies, root.rest, id);
    FlatIdsIn(f.subpolicies, id);
  }

  /** From what one caller writes to what a later caller reads: filling, flattening and
      rebuilding give back the template with its missing IDs filled, provided that its own
      IDs and those issued are all different. */
  lemma TemplateRoundTrip(t: Template, supply: seq<ObjectId>, fuel: nat)
    requires |supply| >= MissingInTemplate(t)
    requires forall p <- t.subpolicies :: Sendable(p)
    requires forall id :: NamesInTemplate(t, id) + Occurs(supply, id) <= 1
    requires fuel >= HeightOfAll(FillTemplate(t, supply).value.subpolicies)
    ensures var f := FillTemplate(t, supply);
            && f.ok && FilledTemplate(f.value) && Flatten(f.value).Ok?
            && AllExtend(t.subpolicies, f.value.subpolicies)
            && (forall p <- f.value.subpolicies :: HasAttributes(p))
            && Polish(Flatten(f.value).value, f.value.id.value, fuel) == Ok(CanonicalTemplate(f.value))
  {
    FilledTemplateFlattens(t, supply);
    var f := FillTemplate(t, supply).value;
    forall id ensures Occurs(IdsOf(Flatten(f).value), id) <= 1 {
      CompiledIds(t, supply, id);
    }
    NoDuplicatesAsOccurs(IdsOf(Flatten(f).value));
    PolishFrom(f, Flatten(f).value, fuel);
  }
}
