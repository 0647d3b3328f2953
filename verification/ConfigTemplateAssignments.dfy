/** Which freeform systems use a config template: computing the patch that makes it exactly the
    requested ones. */
module ConfigTemplateAssignments {
  import opened Common

  /** Systems and their templates; a system can be listed without one. */
  type Assignments = map<ObjectId, Option<ObjectId>>

  datatype UpdateError = NilDereference | ServerError

  /** GetConfigTemplateAssignments looks through every value's pointer. */
  function Users(assignments: Assignments, ctId: ObjectId): set<ObjectId> {
    set sys <- assignments | assignments[sys] == Some(ctId)
  }

  predicate AllAssigned(assignments: Assignments) {
    forall sys <- assignments :: assignments[sys].Some?
  }

  /** Ranges over a Go map: any order will do. */
  method GetUsers(assignments: Assignments, ctId: ObjectId) returns (r: Result<seq<ObjectId>, UpdateError>)
    ensures r.Ok? <==> AllAssigned(assignments)
    ensures r.Ok? ==> NoDuplicates(r.value) && forall sys :: sys in r.value <==> sys in Users(assignments, ctId)
    ensures r.Err? ==> r.error == NilDereference
  {
    var todo := assignments.Keys;
    var result := [];
    while todo != {}
      invariant todo <= assignments.Keys && NoDuplicates(result)
      invariant forall k <- assignments :: k !in todo ==> assignments[k].Some?
      invariant forall k :: k in result <==> k in Users(assignments, ctId) && k !in todo
      decreases todo
    {
      var k :| k in todo;
      if assignments[k].None? {
        return Err(NilDereference);
      }
      todo := todo - {k};
      if assignments[k].value == ctId {
        result := result + [k];
      }
    }
    r := Ok(result);
  }

  /** What the update asks the server for: an entry per system to be added, and a nil one per system
      to be cleared. */
  function Patch(assignments: Assignments, ctId: ObjectId, wanted: set<ObjectId>): Assignments {
    var users := Users(assignments, ctId);
    map sys <- (wanted - users) + (users - wanted) :: if sys in wanted then Some(ctId) else None
  }

  /** What the server makes of a patch. It may forget a cleared system or list it without a template. */
  function Patched(assignments: Assignments, patch: Assignments, listsCleared: bool): Assignments {
    if listsCleared then assignments + patch
    else
      map sys <- assignments.Keys + patch.Keys | sys !in patch || patch[sys].Some? ::
        if sys in patch then patch[sys] else assignments[sys]
  }

  class Blueprint {
    var assignments: Assignments
    const listsCleared: bool

    constructor (assignments: Assignments, listsCleared: bool)
      ensures this.assignments == assignments && this.listsCleared == listsCleared
    {
      this.assignments, this.listsCleared := assignments, listsCleared;
    }

    method UpdateAssignments(patch: Assignments, accepted: bool) returns (r: Result<(), UpdateError>)
      modifies this
      ensures r == if accepted then Ok(()) else Err(ServerError)
      ensures assignments == if accepted then Patched(old(assignments), patch, listsCleared) else old(assignments)
    {
      if !accepted {
        return Err(ServerError);
      }
      assignments := Patched(assignments, patch, listsCleared);
      r := Ok(());
    }

    /** The client's lock keeps others out between the reading and the patch. A patch is sent only if
        it asks for something. */
    method UpdateByTemplate(ctId: ObjectId, sysIds: seq<ObjectId>, accepted: bool)
      returns (r: Result<(), UpdateError>, request: Assignments)
      modifies this
      ensures var patch := Patch(old(assignments), ctId, set sys <- sysIds);
              if !AllAssigned(old(assignments)) then
                r == Err(NilDereference) && assignments == old(assignments)
              else if patch == map[] then
                r == Ok(()) && request == patch && assignments == old(assignments)
              else if accepted then
                r == Ok(()) && request == patch && assignments == Patched(old(assignments), patch, listsCleared)
              else
                r == Err(ServerError) && request == patch && assignments == old(assignments)
    {
      request := map[];
      var current := GetUsers(assignments, ctId);
      if current.Err? {
        return Err(current.error), request;
      }
      request := FormRequest(current.value, ctId, sysIds);
      assert request == Patch(assignments, ctId, set sys <- sysIds);
      if request == map[] {
        return Ok(()), request;
      }
      r := UpdateAssignments(request, accepted);
    }
  }

  method FormRequest(current: seq<ObjectId>, ctId: ObjectId, sysIds: seq<ObjectId>) returns (request: Assignments)
    ensures forall sys :: sys in request <==> (sys in sysIds) != (sys in current)
    ensures forall sys <- request :: request[sys] == if sys in sysIds then Some(ctId) else None
  {
    var currentMap := {};
    for i := 0 to |current|
      invariant currentMap == set sys <- current[..i]
    {
      assert current[..i + 1] == current[..i] + [current[i]];
      currentMap := currentMap + {current[i]};
    }
    assert current[..|current|] == current;
    request := map[];
    var desiredMap := {};
    for i := 0 to |sysIds|
      invariant desiredMap == set sys <- sysIds[..i]
      invariant forall sys :: sys in request <==> sys in sysIds[..i] && sys !in current
      invariant forall sys <- request :: request[sys] == Some(ctId)
    {
      var sysId := sysIds[i];
      assert forall sys :: sys in sysIds[..i + 1] <==> sys in sysIds[..i] || sys == sysId;
      desiredMap := desiredMap + {sysId};
      if sysId !in currentMap {
        request := request[sysId := Some(ctId)];
      }
    }
    assert sysIds[..|sysIds|] == sysIds;
    for i := 0 to |current|
      invariant forall sys :: sys in request <==>
        (sys in sysIds && sys !in current) || (sys in current[..i] && sys !in sysIds)
      invariant forall sys <- request :: request[sys] == if sys in sysIds then Some(ctId) else None
    {
      var sysId := current[i];
      assert forall sys :: sys in current[..i + 1] <==> sys in current[..i] || sys == sysId;
      if sysId !in desiredMap {
        request := request[sysId := None];
      }
    }
    assert current[..|current|] == current;
  }

  // ----- what the patch achieves -----

  /** Afterwards exactly the wanted systems use the template, and every other system has what it had. */
  lemma PatchIsExact(assignments: Assignments, ctId: ObjectId, wanted: set<ObjectId>, listsCleared: bool)
    ensures var after := Patched(assignments, Patch(assignments, ctId, wanted), listsCleared);
            && Users(after, ctId) == wanted
            && (forall sys :: sys !in wanted && sys !in Users(assignments, ctId) ==>
                  (sys in after <==> sys in assignments) && (sys in after ==> after[sys] == assignments[sys]))
            && (forall sys :: sys in wanted && sys in Users(assignments, ctId) ==> after[sys] == assignments[sys])
  {
    var patch := Patch(assignments, ctId, wanted);
    var after := Patched(assignments, patch, listsCleared);
    var users := Users(assignments, ctId);
    forall sys ensures sys in Users(after, ctId) <==> sys in wanted {
      assert sys in users <==> sys in assignments && assignments[sys] == Some(ctId);
      assert sys in patch <==> (sys in wanted) != (sys in users);
    }
  }

  /** Every entry of the patch changes which systems use the template, and no patch with the same
      effect can do without any of them. */
  lemma PatchIsMinimal(assignments: Assignments, ctId: ObjectId, wanted: set<ObjectId>,
                                          other: Assignments, listsCleared: bool)
    requires Users(Patched(assignments, other, listsCleared), ctId) == wanted
    ensures forall sys <- Patch(assignments, ctId, wanted) :: (sys in wanted) != (sys in Users(assignments, ctId))
    ensures Patch(assignments, ctId, wanted).Keys <= other.Keys
  {
    var after := Patched(assignments, other, listsCleared);
    forall sys <- Patch(assignments, ctId, wanted) ensures sys in other {
      assert sys in Users(after, ctId) <==> sys in wanted;
      assert sys in Users(assignments, ctId) <==> sys in assignments && assignments[sys] == Some(ctId);
    }
  }

  /** A second update finds nothing to do, provided it can be made at all: it can exactly when the
      server forgets cleared systems or there were none to clear. */
  lemma SecondUpdate(assignments: Assignments, ctId: ObjectId, wanted: set<ObjectId>, listsCleared: bool)
    requires AllAssigned(assignments)
    ensures var after := Patched(assignments, Patch(assignments, ctId, wanted), listsCleared);
            && Patch(after, ctId, wanted) == map[]
            && (AllAssigned(after) <==> !listsCleared || Users(assignments, ctId) <= wanted)
  {
    var patch := Patch(assignments, ctId, wanted);
    var after := Patched(assignments, patch, listsCleared);
    PatchIsExact(assignments, ctId, wanted, listsCleared);
    if listsCleared && !(Users(assignments, ctId) <= wanted) {
      var sys :| sys in Users(assignments, ctId) && sys !in wanted;
      assert after[sys] == None;
    }
  }

  /** Where the server lists a cleared system, clearing the only one makes the next update fail. */
  lemma ClearingCanBlock(sys: ObjectId, ctId: ObjectId)
    ensures var before: Assignments := map[sys := Some(ctId)];
            AllAssigned(before) && !AllAssigned(Patched(before, Patch(before, ctId, {}), true))
  {
    var before: Assignments := map[sys := Some(ctId)];
    assert sys in Users(before, ctId);
    SecondUpdate(before, ctId, {}, true);
  }
}
