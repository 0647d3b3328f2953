/** The blueprint mutex as a protocol: any number of clients, mutexes and concurrent calls, against
    a server that creates a tag atomically, only under a label no other tag has and with an ID never
    used before. Outsiders may create tags but remove none. */
module BlueprintMutexProtocol {
  import opened Common
  import opened BlueprintMutex

  datatype Handle = Handle(blueprint: ObjectId, me: ObjectId, tagId: Option<ObjectId>, readOnly: bool, message: string)

  /** Where a call of Lock, TryLock or Unlock on a mutex is. */
  datatype Call =
    | Polling(mutex: nat, nonBlocking: bool)
    | Creating(mutex: nat, nonBlocking: bool)
    | Finding(mutex: nat)
    | Storing(mutex: nat, id: ObjectId)
    | Deleting(mutex: nat, target: Option<ObjectId>)
    | Clearing(mutex: nat, deleted: ObjectId)

  /** issued, creator, stored, orphaned and lost are history: the IDs ever given out; who asked for
      a tag; which IDs reached their mutex; which creations and deletions were done by the server
      but reported as failed. */
  datatype State = State(
    tags: map<ObjectId, Tag>,
    mutexes: map<nat, Handle>,
    calls: map<nat, Call>,
    issued: set<ObjectId>,
    creator: map<ObjectId, nat>,
    stored: set<ObjectId>,
    orphaned: set<ObjectId>,
    lost: set<ObjectId>)

  datatype Event =
    | NewMutex(mutex: nat, blueprint: ObjectId, me: ObjectId)
    | SetMessage(mutex: nat, message: string)
    | StartLock(call: nat, mutex: nat, nonBlocking: bool)
    | Poll(call: nat, info: InfoReply)
    | Cancel(call: nat)
    | Create(call: nat, created: CreateReply)
    | CreateUnseen(call: nat, id: ObjectId)
    | Find(call: nat, found: LookupReply, copy: nat)
    | Store(call: nat)
    | StartUnlock(call: nat, mutex: nat)
    | Delete(call: nat, reply: DeleteReply)
    | Clear(call: nat)
    | Outside(id: ObjectId, tag: Tag)

  predicate LabelFree(s: State, labelText: string) {
    forall id <- s.tags :: s.tags[id].labelText != labelText
  }

  /** The tag a call on mutex m asks for. */
  function TagFor(m: Handle): Tag {
    Tag(LockName(m.blueprint), m.message)
  }

  predicate At(s: State, call: nat) {
    call in s.calls && s.calls[call].mutex in s.mutexes
  }

  function Subject(s: State, call: nat): Handle
    requires At(s, call)
  {
    s.mutexes[s.calls[call].mutex]
  }

  predicate Creatable(s: State, call: nat, id: ObjectId) {
    At(s, call) && s.calls[call].Creating? && id !in s.issued && LabelFree(s, LockName(Subject(s, call).blueprint))
  }

  predicate OnServer(s: State, call: nat) {
    At(s, call) && s.calls[call].Deleting? && s.calls[call].target.Some? && s.calls[call].target.value in s.tags
  }

  predicate Removes(reply: DeleteReply) {
    reply == Gone || reply == Failed(true)
  }

  predicate Enabled(s: State, e: Event) {
    match e
    case NewMutex(m, _, _) => m !in s.mutexes
    case SetMessage(m, _) => m in s.mutexes && !s.mutexes[m].readOnly && s.mutexes[m].tagId.None?
    case StartLock(t, m, _) =>
      t !in s.calls && m in s.mutexes && !s.mutexes[m].readOnly && s.mutexes[m].tagId.None?
      && |LockName(s.mutexes[m].blueprint)| <= TAG_NAME_LEN_MAX
    case Poll(t, _) => At(s, t) && s.calls[t].Polling?
    case Cancel(t) => At(s, t) && (s.calls[t].Polling? || s.calls[t].Creating?)
    case Create(t, reply) =>
      At(s, t) && s.calls[t].Creating?
      && (reply.Created? ==> Creatable(s, t, reply.id))
      && (reply.Exists? ==> !LabelFree(s, LockName(Subject(s, t).blueprint)))
    case CreateUnseen(t, id) => Creatable(s, t, id)
    case Find(t, reply, copy) =>
      At(s, t) && s.calls[t].Finding? && copy !in s.mutexes
      && (reply.Found? ==>
            reply.id in s.tags && s.tags[reply.id] == Tag(LockName(Subject(s, t).blueprint), reply.description))
    case Store(t) => At(s, t) && s.calls[t].Storing?
    case StartUnlock(t, m) => t !in s.calls && m in s.mutexes && !s.mutexes[m].readOnly
    case Delete(t, reply) =>
      At(s, t) && s.calls[t].Deleting?
      && (Removes(reply) ==> OnServer(s, t)) && (reply == NotFound ==> !OnServer(s, t))
    case Clear(t) => At(s, t) && s.calls[t].Clearing?
    case Outside(id, tag) => id !in s.issued && LabelFree(s, tag.labelText)
  }

  function Returned(s: State, call: nat): State {
    s.(calls := s.calls - {call})
  }

  function Goto(s: State, call: nat, next: Call): State {
    s.(calls := s.calls[call := next])
  }

  function WithTag(s: State, call: nat, id: ObjectId): State
    requires At(s, call)
  {
    s.(tags := s.tags[id := TagFor(Subject(s, call))],
       issued := s.issued + {id},
       creator := s.creator[id := s.calls[call].mutex])
  }

  function WithTagId(s: State, mutex: nat, tagId: Option<ObjectId>): State
    requires mutex in s.mutexes
  {
    s.(mutexes := s.mutexes[mutex := s.mutexes[mutex].(tagId := tagId)])
  }

  function Apply(s: State, e: Event): State
    requires Enabled(s, e)
  {
    match e
    case NewMutex(m, blueprint, me) => s.(mutexes := s.mutexes[m := Handle(blueprint, me, None, false, "")])
    case SetMessage(m, message) => s.(mutexes := s.mutexes[m := s.mutexes[m].(message := message)])
    case StartLock(t, m, nonBlocking) => Goto(s, t, Polling(m, nonBlocking))
    case Poll(t, reply) =>
      var next := AfterInfo(reply, Subject(s, t).me, s.calls[t].nonBlocking);
      if next.Proceed? then Goto(s, t, Creating(s.calls[t].mutex, s.calls[t].nonBlocking))
      else if next.Retry? then s
      else Returned(s, t)
    case Cancel(t) => Returned(s, t)
    case Create(t, reply) =>
      var next := AfterCreate(reply, s.calls[t].nonBlocking);
      if next.Proceed? then Goto(WithTag(s, t, next.value), t, Storing(s.calls[t].mutex, next.value))
      else if next.Lookup? then Goto(s, t, Finding(s.calls[t].mutex))
      else if next.Retry? then s
      else Returned(s, t)
    case CreateUnseen(t, id) => Returned(WithTag(s, t, id).(orphaned := s.orphaned + {id}), t)
    case Find(t, reply, copy) =>
      var next := AfterLookup(reply);
      if next.Retry? then Goto(s, t, Creating(s.calls[t].mutex, true))
      else if next.GiveUp? && next.error.HeldBy? then
        var own := Subject(s, t);
        Returned(s, t).(mutexes :=
          s.mutexes[copy := Handle(own.blueprint, own.me, Some(next.error.tagId), true, next.error.message)])
      else Returned(s, t)
    case Store(t) =>
      var call := s.calls[t];
      Returned(WithTagId(s, call.mutex, Some(call.id)), t).(stored := s.stored + {call.id})
    case StartUnlock(t, m) => Goto(s, t, Deleting(m, s.mutexes[m].tagId))
    case Delete(t, reply) =>
      var call, cleared := s.calls[t], AfterDelete(DeleteTag(reply)).None?;
      var after := if !Removes(reply) then s else
                   s.(tags := s.tags - {call.target.value},
                      lost := if cleared then s.lost else s.lost + {call.target.value});
      if cleared && call.target.Some? then Goto(after, t, Clearing(call.mutex, call.target.value))
      else Returned(after, t)
    case Clear(t) => Returned(WithTagId(s, s.calls[t].mutex, None), t)
    case Outside(id, tag) => s.(tags := s.tags[id := tag], issued := s.issued + {id})
  }

  /** The start: no mutexes yet, and any tags at all on the server. */
  ghost predicate Start(s: State) {
    && LabelsUnique(s) && s.issued == s.tags.Keys
    && s.mutexes == map[] && s.calls == map[] && s.creator == map[]
    && s.stored == {} && s.orphaned == {} && s.lost == {}
  }

  predicate IsRun(s: State, events: seq<Event>, t: State)
    decreases |events|
  {
    if events == [] then s == t else Enabled(s, events[0]) && IsRun(Apply(s, events[0]), events[1..], t)
  }

  // ----- the invariant -----

  ghost predicate LabelsUnique(s: State) {
    forall a <- s.tags, b <- s.tags :: s.tags[a].labelText == s.tags[b].labelText ==> a == b
  }

  /** A mutex that may lock: a read-only one never made anything. */
  ghost predicate Owner(s: State, mutex: nat) {
    mutex in s.mutexes && !s.mutexes[mutex].readOnly
  }

  ghost predicate CreatedBy(s: State, id: ObjectId, mutex: nat) {
    id in s.creator && s.creator[id] == mutex
  }

  ghost predicate HistorySound(s: State) {
    && s.tags.Keys <= s.issued && s.creator.Keys <= s.issued && s.stored <= s.creator.Keys
    && s.orphaned <= s.creator.Keys && s.lost <= s.issued && s.lost !! s.tags.Keys
    && (forall id <- s.creator ::
          Owner(s, s.creator[id])
          && (id in s.tags ==> s.tags[id].labelText == LockName(s.mutexes[s.creator[id]].blueprint)))
  }

  ghost predicate CallSound(s: State, call: Call) {
    && Owner(s, call.mutex)
    && (call.Storing? ==> CreatedBy(s, call.id, call.mutex) && call.id in s.tags && call.id !in s.stored)
    && (call.Deleting? && call.target.Some? ==>
          CreatedBy(s, call.target.value, call.mutex) && call.target.value in s.stored)
    && (call.Clearing? ==> call.deleted in s.issued && call.deleted !in s.tags)
  }

  ghost predicate Marked(s: State, mutex: nat, id: ObjectId) {
    Owner(s, mutex) && s.mutexes[mutex].tagId == Some(id)
  }

  ghost predicate BeingCleared(s: State, mutex: nat, id: ObjectId) {
    exists t <- s.calls :: s.calls[t] == Clearing(mutex, id)
  }

  ghost predicate MarkSound(s: State, mutex: nat, id: ObjectId) {
    CreatedBy(s, id, mutex) && id in s.stored
    && (id in s.tags || id in s.lost || BeingCleared(s, mutex, id))
  }

  ghost predicate StoringApart(s: State) {
    forall t <- s.calls, u <- s.calls ::
      s.calls[t].Storing? && s.calls[u].Storing? && s.calls[t].id == s.calls[u].id ==> t == u
  }

  ghost predicate Inv(s: State) {
    && LabelsUnique(s)
    && HistorySound(s)
    && (forall t <- s.calls :: CallSound(s, s.calls[t]))
    && StoringApart(s)
    && (forall m, id :: Marked(s, m, id) ==> MarkSound(s, m, id))
  }

  lemma StepKeepsLabels(s: State, e: Event)
    requires LabelsUnique(s) && Enabled(s, e)
    ensures LabelsUnique(Apply(s, e))
  {
  }

  /** History only grows, no mutex changes what it is, and no tag comes back or changes. */
  ghost predicate Grown(s: State, s': State) {
    && (forall m <- s.mutexes ::
          m in s'.mutexes && s'.mutexes[m].readOnly == s.mutexes[m].readOnly
          && s'.mutexes[m].blueprint == s.mutexes[m].blueprint)
    && s.stored <= s'.stored && s.lost <= s'.lost && s.issued <= s'.issued && s.orphaned <= s'.orphaned
    && (forall id <- s.creator :: id in s'.creator && s'.creator[id] == s.creator[id])
    && (forall id <- s'.tags :: id in s.issued ==> id in s.tags && s'.tags[id] == s.tags[id])
  }

  lemma MutexStays(s: State, e: Event, m: nat)
    requires Enabled(s, e) && m in s.mutexes
    ensures m in Apply(s, e).mutexes && Apply(s, e).mutexes[m].readOnly == s.mutexes[m].readOnly
    ensures Apply(s, e).mutexes[m].blueprint == s.mutexes[m].blueprint
  {
  }

  lemma IdsStay(s: State, e: Event, id: ObjectId)
    requires Enabled(s, e) && s.creator.Keys <= s.issued && s.tags.Keys <= s.issued
    ensures id in s.creator ==> id in Apply(s, e).creator && Apply(s, e).creator[id] == s.creator[id]
    ensures id in s.issued && id in Apply(s, e).tags ==> id in s.tags && Apply(s, e).tags[id] == s.tags[id]
  {
  }

  lemma SetsGrow(s: State, e: Event)
    requires Enabled(s, e)
    ensures s.stored <= Apply(s, e).stored && s.lost <= Apply(s, e).lost
    ensures s.issued <= Apply(s, e).issued && s.orphaned <= Apply(s, e).orphaned
  {
  }

  lemma StepGrows(s: State, e: Event)
    requires Enabled(s, e) && s.creator.Keys <= s.issued && s.tags.Keys <= s.issued
    ensures Grown(s, Apply(s, e))
  {
    var s' := Apply(s, e);
    forall m | m in s.mutexes
      ensures m in s'.mutexes && s'.mutexes[m].readOnly == s.mutexes[m].readOnly
      ensures s'.mutexes[m].blueprint == s.mutexes[m].blueprint
    {
      MutexStays(s, e, m);
    }
    forall id ensures id in s.creator ==> id in s'.creator && s'.creator[id] == s.creator[id]
      ensures id in s.issued && id in s'.tags ==> id in s.tags && s'.tags[id] == s.tags[id]
    {
      IdsStay(s, e, id);
    }
    SetsGrow(s, e);
  }

  /** What adds a tag of a mutex to the history. */
  predicate Makes(e: Event) {
    (e.Create? && e.created.Created?) || e.CreateUnseen?
  }

  lemma MakingKeepsHistory(s: State, e: Event)
    requires HistorySound(s) && Enabled(s, e) && Makes(e) && CallSound(s, s.calls[e.call])
    ensures HistorySound(Apply(s, e))
  {
  }

  /** History stays sound when no tag of a mutex is made. */
  lemma HistoryKept(s: State, s': State)
    requires HistorySound(s) && Grown(s, s') && s'.creator == s.creator
    requires s'.tags.Keys <= s'.issued && s'.stored <= s.creator.Keys && s'.orphaned <= s.creator.Keys
    requires s'.lost <= s'.issued && s'.lost !! s'.tags.Keys
    ensures HistorySound(s')
  {
  }

  lemma OthersMakeNothing(s: State, e: Event)
    requires HistorySound(s) && Enabled(s, e) && !Makes(e)
    ensures Apply(s, e).creator == s.creator && Apply(s, e).orphaned == s.orphaned
    ensures Apply(s, e).tags.Keys <= Apply(s, e).issued && Apply(s, e).lost <= Apply(s, e).issued
    ensures Apply(s, e).lost !! Apply(s, e).tags.Keys
  {
    if e.Delete? || e.Outside? { ServerSideMakesNothing(s, e); } else { ClientSideMakesNothing(s, e); }
  }

  lemma ServerSideMakesNothing(s: State, e: Event)
    requires HistorySound(s) && Enabled(s, e) && (e.Delete? || e.Outside?)
    ensures Apply(s, e).creator == s.creator && Apply(s, e).orphaned == s.orphaned
    ensures Apply(s, e).tags.Keys <= Apply(s, e).issued && Apply(s, e).lost <= Apply(s, e).issued
    ensures Apply(s, e).lost !! Apply(s, e).tags.Keys
  {
  }

  lemma ClientSideMakesNothing(s: State, e: Event)
    requires Enabled(s, e) && !Makes(e) && !e.Delete? && !e.Outside?
    ensures Apply(s, e).creator == s.creator && Apply(s, e).orphaned == s.orphaned
    ensures Apply(s, e).tags == s.tags && Apply(s, e).issued == s.issued && Apply(s, e).lost == s.lost
  {
  }

  lemma StepKeepsHistory(s: State, e: Event)
    requires HistorySound(s) && Enabled(s, e)
    requires forall t <- s.calls :: CallSound(s, s.calls[t])
    ensures HistorySound(Apply(s, e))
  {
    if Makes(e) {
      MakingKeepsHistory(s, e);
    } else {
      StepGrows(s, e);
      OthersMakeNothing(s, e);
      forall id | id in Apply(s, e).stored ensures id in s.creator {
        if id !in s.stored {
          StoredBy(s, e, id);
          assert CallSound(s, s.calls[e.call]);
        }
      }
      HistoryKept(s, Apply(s, e));
    }
  }

  /** Only a deletion takes a tag away, and then only that of a mutex that has it stored. */
  lemma StepKeepsTags(s: State, e: Event, id: ObjectId)
    requires Enabled(s, e) && id in s.tags && id !in Apply(s, e).tags
    requires forall t <- s.calls :: CallSound(s, s.calls[t])
    ensures e.Delete? && Removes(e.reply)
    ensures id in s.creator && e.call in s.calls && s.calls[e.call] == Deleting(s.creator[id], Some(id))
    ensures id in s.stored && Owner(s, s.creator[id])
  {
  }

  /** A call that has not moved is as sound as before. */
  lemma CallKept(s: State, s': State, call: Call)
    requires Grown(s, s') && CallSound(s, call)
    requires call.Storing? ==> call.id in s'.tags && call.id !in s'.stored
    ensures CallSound(s', call)
  {
  }

  lemma StoredBy(s: State, e: Event, id: ObjectId)
    requires Enabled(s, e) && id in Apply(s, e).stored && id !in s.stored
    ensures e.Store? && s.calls[e.call].id == id
  {
  }

  lemma MakingMoves(s: State, e: Event)
    requires HistorySound(s) && Enabled(s, e) && Makes(e) && CallSound(s, s.calls[e.call])
    ensures e.call in Apply(s, e).calls ==> CallSound(Apply(s, e), Apply(s, e).calls[e.call])
  {
  }

  lemma DeletingMoves(s: State, e: Event)
    requires HistorySound(s) && Enabled(s, e) && e.Delete? && CallSound(s, s.calls[e.call])
    ensures e.call in Apply(s, e).calls ==> CallSound(Apply(s, e), Apply(s, e).calls[e.call])
  {
  }

  /** The other steps lead to calls that hold no ID, or start an Unlock with the mutex's mark. */
  lemma OthersMove(s: State, e: Event, t: nat)
    requires Enabled(s, e) && t in Apply(s, e).calls && !Makes(e) && !e.Delete?
    requires t in s.calls ==> Apply(s, e).calls[t] != s.calls[t] && CallSound(s, s.calls[t])
    ensures var call := Apply(s, e).calls[t];
            Owner(Apply(s, e), call.mutex) && !call.Storing? && !call.Clearing?
            && (call.Deleting? ==> e.StartUnlock? && call == Deleting(e.mutex, s.mutexes[e.mutex].tagId))
  {
    if e.StartLock? || e.StartUnlock? {
      assert t == e.call;
    } else {
      SearchMoves(s, e, t);
    }
  }

  lemma SearchMoves(s: State, e: Event, t: nat)
    requires Enabled(s, e) && t in Apply(s, e).calls && !Makes(e) && !e.Delete? && !e.StartLock? && !e.StartUnlock?
    requires t in s.calls ==> Apply(s, e).calls[t] != s.calls[t] && CallSound(s, s.calls[t])
    ensures t in s.calls && Owner(Apply(s, e), Apply(s, e).calls[t].mutex)
    ensures Apply(s, e).calls[t].Creating? || Apply(s, e).calls[t].Finding?
  {
  }

  lemma Moved(s: State, e: Event, t: nat)
    requires Enabled(s, e) && t in Apply(s, e).calls && (t in s.calls ==> Apply(s, e).calls[t] != s.calls[t])
    ensures Makes(e) || e.Delete? ==> t == e.call
  {
  }

  lemma CallMoved(s: State, e: Event, t: nat)
    requires HistorySound(s) && Enabled(s, e) && t in Apply(s, e).calls
    requires t in s.calls ==> Apply(s, e).calls[t] != s.calls[t] && CallSound(s, s.calls[t])
    requires e.StartUnlock? && s.mutexes[e.mutex].tagId.Some? ==> MarkSound(s, e.mutex, s.mutexes[e.mutex].tagId.value)
    ensures CallSound(Apply(s, e), Apply(s, e).calls[t])
  {
    Moved(s, e, t);
    if Makes(e) {
      MakingMoves(s, e);
    } else if e.Delete? {
      DeletingMoves(s, e);
    } else {
      OthersMove(s, e, t);
      StepGrows(s, e);
    }
  }

  lemma StepKeepsCall(s: State, e: Event, t: nat)
    requires Inv(s) && Enabled(s, e) && t in Apply(s, e).calls
    ensures CallSound(Apply(s, e), Apply(s, e).calls[t])
  {
    var s' := Apply(s, e);
    if t in s.calls && s'.calls[t] == s.calls[t] {
      StepGrows(s, e);
      if s.calls[t].Storing? {
        var id := s.calls[t].id;
        if id !in s'.tags {
          StepKeepsTags(s, e, id);
        }
        if id in s'.stored {
          StoredBy(s, e, id);
        }
      }
      CallKept(s, s', s.calls[t]);
    } else {
      if e.StartUnlock? && s.mutexes[e.mutex].tagId.Some? {
        assert Marked(s, e.mutex, s.mutexes[e.mutex].tagId.value);
      }
      CallMoved(s, e, t);
    }
  }

  lemma NewStoring(s: State, e: Event, t: nat)
    requires Enabled(s, e) && t in Apply(s, e).calls && Apply(s, e).calls[t].Storing?
    ensures (t in s.calls && s.calls[t] == Apply(s, e).calls[t])
         || (e.Create? && e.call == t && Apply(s, e).calls[t].id !in s.issued)
  {
  }

  lemma StepKeepsStoringApart(s: State, e: Event)
    requires HistorySound(s) && StoringApart(s) && Enabled(s, e)
    requires forall t <- s.calls :: CallSound(s, s.calls[t])
    ensures StoringApart(Apply(s, e))
  {
    var s' := Apply(s, e);
    forall t, u | t in s'.calls && u in s'.calls && s'.calls[t].Storing? && s'.calls[u].Storing?
                  && s'.calls[t].id == s'.calls[u].id
      ensures t == u
    {
      NewStoring(s, e, t);
      NewStoring(s, e, u);
    }
  }

  lemma ClearingKept(s: State, e: Event, t: nat)
    requires Enabled(s, e) && t in s.calls && s.calls[t].Clearing?
    ensures e == Clear(t) || (t in Apply(s, e).calls && Apply(s, e).calls[t] == s.calls[t])
  {
  }

  lemma MarkKept(s: State, e: Event, m: nat, id: ObjectId)
    requires HistorySound(s) && Enabled(s, e) && MarkSound(s, m, id) && Marked(Apply(s, e), m, id)
    requires forall t <- s.calls :: CallSound(s, s.calls[t])
    ensures MarkSound(Apply(s, e), m, id)
  {
    StepGrows(s, e);
    var s' := Apply(s, e);
    if id in s.tags && id !in s'.tags {
      StepKeepsTags(s, e, id);
      assert e.reply == Gone ==> s'.calls[e.call] == Clearing(m, id);
    } else if id !in s.tags && id !in s.lost {
      var t :| t in s.calls && s.calls[t] == Clearing(m, id);
      ClearingKept(s, e, t);
    }
  }

  lemma MarkMade(s: State, e: Event, m: nat, id: ObjectId)
    requires Inv(s) && Enabled(s, e) && !Marked(s, m, id) && Marked(Apply(s, e), m, id)
    ensures MarkSound(Apply(s, e), m, id)
  {
    assert e.Store? && CallSound(s, s.calls[e.call]);
  }

  lemma StepKeepsInv(s: State, e: Event)
    requires Inv(s) && Enabled(s, e)
    ensures Inv(Apply(s, e))
  {
    StepKeepsLabels(s, e);
    StepKeepsHistory(s, e);
    StepKeepsStoringApart(s, e);
    forall t | t in Apply(s, e).calls ensures CallSound(Apply(s, e), Apply(s, e).calls[t]) {
      StepKeepsCall(s, e, t);
    }
    forall m, id | Marked(Apply(s, e), m, id) ensures MarkSound(Apply(s, e), m, id) {
      if Marked(s, m, id) { MarkKept(s, e, m, id); } else { MarkMade(s, e, m, id); }
    }
  }

  lemma {:induction false} RunKeepsInv(s: State, events: seq<Event>, t: State)
    requires Inv(s) && IsRun(s, events, t)
    ensures Inv(t)
    decreases |events|
  {
    if events != [] {
      StepKeepsInv(s, events[0]);
      RunKeepsInv(Apply(s, events[0]), events[1..], t);
    }
  }

  lemma StartHasInv(s: State)
    requires Start(s)
    ensures Inv(s)
  {
  }
}
