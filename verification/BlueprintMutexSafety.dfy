/** What the protocol of the blueprint mutex promises: mutual exclusion, who can remove a lock tag, when
    two mutexes can both look locked, and that no tag is stranded. */
module BlueprintMutexSafety {
  import opened Common
  import opened BlueprintMutex
  import opened BlueprintMutexProtocol

  // ----- mutual exclusion -----

  ghost predicate Reachable(s: State) {
    exists s0, events :: Start(s0) && IsRun(s0, events, s)
  }

  lemma ReachableHasInv(s: State)
    requires Reachable(s)
    ensures Inv(s)
  {
    var s0, events :| Start(s0) && IsRun(s0, events, s);
    StartHasInv(s0);
    RunKeepsInv(s0, events, s);
  }

  /** A mutex, not a read-only copy of one, that is marked with a tag the server has. */
  ghost predicate Holds(s: State, mutex: nat, id: ObjectId) {
    Marked(s, mutex, id) && id in s.tags
  }

  /** At most one mutex of a blueprint is held, by one tag, which is the only tag of that name. */
  lemma MutualExclusion(s: State, a: nat, idOfA: ObjectId, b: nat, idOfB: ObjectId)
    requires Reachable(s) && Holds(s, a, idOfA) && Holds(s, b, idOfB)
    requires s.mutexes[a].blueprint == s.mutexes[b].blueprint
    ensures a == b && idOfA == idOfB
    ensures forall id <- s.tags :: s.tags[id].labelText == LockName(s.mutexes[a].blueprint) <==> id == idOfA
  {
    ReachableHasInv(s);
    assert MarkSound(s, a, idOfA) && MarkSound(s, b, idOfB);
  }

  /** No step but a deletion by the mutex that made a tag takes that tag away. A read-only copy,
      which carries the same ID, never does. */
  lemma OnlyItsMutexRemoves(s: State, e: Event, id: ObjectId)
    requires Reachable(s) && Enabled(s, e) && id in s.tags && id !in Apply(s, e).tags
    ensures e.Delete? && Removes(e.reply) && e.call in s.calls
    ensures id in s.creator && s.calls[e.call].mutex == s.creator[id]
    ensures s.creator[id] in s.mutexes && !s.mutexes[s.creator[id]].readOnly
    ensures s.tags[id].labelText == LockName(s.mutexes[s.creator[id]].blueprint)
  {
    ReachableHasInv(s);
    StepKeepsTags(s, e, id);
  }

  /** A mutex's mark is changed only by the last step of a call on it, its message by SetMessage. */
  lemma MarkChanges(s: State, e: Event, m: nat)
    requires Enabled(s, e) && m in s.mutexes
    ensures m in Apply(s, e).mutexes
    ensures var before, after := s.mutexes[m], Apply(s, e).mutexes[m];
            && after == Handle(before.blueprint, before.me, after.tagId, before.readOnly, after.message)
            && (after.tagId == before.tagId
                || ((e.Store? || e.Clear?) && s.calls[e.call].mutex == m && e.call !in Apply(s, e).calls))
            && (after.message == before.message || (e.SetMessage? && e.mutex == m))
  {
  }

  /** A read-only copy is never changed, whatever anybody does. */
  lemma {:induction false} CopiesNeverChange(s: State, events: seq<Event>, t: State, m: nat)
    requires Inv(s) && IsRun(s, events, t) && m in s.mutexes && s.mutexes[m].readOnly
    ensures m in t.mutexes && t.mutexes[m] == s.mutexes[m]
    decreases |events|
  {
    if events != [] {
      var e := events[0];
      MarkChanges(s, e, m);
      if e.Store? || e.Clear? {
        assert CallSound(s, s.calls[e.call]);
      }
      StepKeepsInv(s, e);
      CopiesNeverChange(Apply(s, e), events[1..], t, m);
    }
  }

  /** Two mutexes of a blueprint can both look locked to their owners only while one is on its way
      out of Unlock, or when the reply to one's deletion was lost. */
  lemma BothLookLockedOnlyIf(s: State, a: nat, idOfA: ObjectId, b: nat, idOfB: ObjectId)
    requires Reachable(s) && Marked(s, a, idOfA) && Marked(s, b, idOfB) && a != b
    requires s.mutexes[a].blueprint == s.mutexes[b].blueprint
    ensures !Holds(s, a, idOfA) || !Holds(s, b, idOfB)
    ensures !Holds(s, a, idOfA) <==> idOfA in s.lost || BeingCleared(s, a, idOfA)
    ensures !Holds(s, b, idOfB) <==> idOfB in s.lost || BeingCleared(s, b, idOfB)
  {
    ReachableHasInv(s);
    assert MarkSound(s, a, idOfA) && MarkSound(s, b, idOfB);
    assert forall t <- s.calls :: CallSound(s, s.calls[t]);
    if Holds(s, a, idOfA) && Holds(s, b, idOfB) {
      MutualExclusion(s, a, idOfA, b, idOfB);
    }
  }

  /** A run goes on for one more step. */
  lemma {:induction false} Then(s: State, events: seq<Event>, t: State, e: Event) returns (more: seq<Event>, u: State)
    requires IsRun(s, events, t) && Enabled(t, e)
    ensures more == events + [e] && u == Apply(t, e) && IsRun(s, more, u)
    decreases |events|
  {
    more, u := events + [e], Apply(t, e);
    if events != [] {
      var rest, _ := Then(Apply(s, events[0]), events[1..], t, e);
      assert more[1..] == rest;
    }
  }

  /** Everything is as before, but that mutex m is marked, and, if it was made, its tag is there. */
  ghost predicate AsBefore(s: State, t: State, m: nat, tagId: Option<ObjectId>) {
    && t.calls == s.calls && m in s.mutexes && m in t.mutexes
    && t.mutexes[m] == s.mutexes[m].(tagId := tagId)
    && (forall n <- s.mutexes :: n != m ==> n in t.mutexes && t.mutexes[n] == s.mutexes[n])
  }

  /** A Lock that meets no obstacle: four steps. */
  lemma Locks(s0: State, events: seq<Event>, s: State, call: nat, m: nat, id: ObjectId)
      returns (more: seq<Event>, t: State)
    requires IsRun(s0, events, s) && call !in s.calls && Owner(s, m) && s.mutexes[m].tagId.None?
    requires |LockName(s.mutexes[m].blueprint)| <= TAG_NAME_LEN_MAX
    requires id !in s.issued && LabelFree(s, LockName(s.mutexes[m].blueprint))
    ensures IsRun(s0, more, t) && AsBefore(s, t, m, Some(id))
    ensures t.tags == s.tags[id := TagFor(s.mutexes[m])] && t.issued == s.issued + {id} && t.lost == s.lost
  {
    more, t := BeginsToCreate(s0, events, s, call, m);
    more, t := Then(s0, more, t, Create(call, Created(id)));
    more, t := Then(s0, more, t, Store(call));
    assert t.calls == s.calls;
  }

  lemma BeginsToCreate(s0: State, events: seq<Event>, s: State, call: nat, m: nat)
      returns (more: seq<Event>, t: State)
    requires IsRun(s0, events, s) && call !in s.calls && Owner(s, m) && s.mutexes[m].tagId.None?
    requires |LockName(s.mutexes[m].blueprint)| <= TAG_NAME_LEN_MAX
    ensures IsRun(s0, more, t) && t == Goto(s, call, Creating(m, false))
  {
    more, t := Then(s0, events, s, StartLock(call, m, false));
    more, t := Then(s0, more, t, Poll(call, Info(s.mutexes[m].me, Unlocked)));
    assert t.calls == s.calls[call := Creating(m, false)];
  }

  /** An Unlock whose deletion is done, but whose reply is lost: two steps, and the mark stays. */
  lemma UnlocksUnseen(s0: State, events: seq<Event>, s: State, call: nat, m: nat, id: ObjectId)
      returns (more: seq<Event>, t: State)
    requires IsRun(s0, events, s) && call !in s.calls && Marked(s, m, id) && id in s.tags
    ensures IsRun(s0, more, t) && AsBefore(s, t, m, Some(id))
    ensures t.tags == s.tags - {id} && t.issued == s.issued && t.lost == s.lost + {id}
  {
    more, t := Then(s0, events, s, StartUnlock(call, m));
    more, t := Then(s0, more, t, Delete(call, Failed(true)));
    assert t.calls == s.calls;
  }

  /** So two mutexes of one blueprint can be marked, with no call under way: the first has unlocked,
      but never heard of it, and the second has locked since. */
  lemma BothLookLocked(s: State, bp: ObjectId, me: ObjectId, one: ObjectId, two: ObjectId)
      returns (events: seq<Event>, t: State)
    requires Start(s) && LabelFree(s, LockName(bp)) && |LockName(bp)| <= TAG_NAME_LEN_MAX
    requires one !in s.issued && two !in s.issued && one != two
    ensures IsRun(s, events, t) && t.calls == map[]
    ensures Marked(t, 0, one) && Marked(t, 1, two) && t.mutexes[0].blueprint == bp == t.mutexes[1].blueprint
    ensures one !in t.tags && one in t.lost && Holds(t, 1, two)
  {
    events, t := Then(s, [], s, NewMutex(0, bp, me));
    events, t := Then(s, events, t, NewMutex(1, bp, me));
    events, t := Locks(s, events, t, 0, 0, one);
    events, t := UnlocksUnseen(s, events, t, 0, 0, one);
    events, t := Locks(s, events, t, 0, 1, two);
  }

  /** The first will look locked for ever: once its tag is gone unnoticed, no Unlock is answered with
      success again, and "not found" does not take the mark away, so it can never lock again. */
  lemma {:induction false} LostDeletionSticks(s: State, events: seq<Event>, t: State, m: nat, id: ObjectId)
    requires Inv(s) && IsRun(s, events, t)
    requires Marked(s, m, id) && id !in s.tags
    requires forall call <- s.calls :: s.calls[call].mutex == m ==> s.calls[call] == Deleting(m, Some(id))
    ensures Marked(t, m, id) && id !in t.tags
    decreases |events|
  {
    if events != [] {
      var e := events[0];
      StepKeepsInv(s, e);
      MarkChanges(s, e, m);
      assert MarkSound(s, m, id);
      IdsStay(s, e, id);
      forall call | call in Apply(s, e).calls && Apply(s, e).calls[call].mutex == m
        ensures Apply(s, e).calls[call] == Deleting(m, Some(id))
      {
        StuckCall(s, e, m, id, call);
      }
      LostDeletionSticks(Apply(s, e), events[1..], t, m, id);
    }
  }

  lemma StuckCall(s: State, e: Event, m: nat, id: ObjectId, call: nat)
    requires Enabled(s, e) && Marked(s, m, id) && id !in s.tags
    requires call in s.calls && s.calls[call].mutex == m ==> s.calls[call] == Deleting(m, Some(id))
    requires call in Apply(s, e).calls && Apply(s, e).calls[call].mutex == m
    ensures Apply(s, e).calls[call] == Deleting(m, Some(id))
  {
  }

  // ----- no tag is stranded -----

  predicate Quiet(s: State, mutex: nat) {
    forall t <- s.calls :: s.calls[t].mutex != mutex
  }

  /** The caller's side of the bargain: one call at a time on a mutex. */
  predicate OneAtATime(s: State, e: Event) {
    (e.StartLock? || e.StartUnlock? || e.SetMessage?) ==> Quiet(s, e.mutex)
  }

  predicate IsDisciplinedRun(s: State, events: seq<Event>, t: State)
    decreases |events|
  {
    if events == [] then s == t else
    Enabled(s, events[0]) && OneAtATime(s, events[0]) && IsDisciplinedRun(Apply(s, events[0]), events[1..], t)
  }

  /** Somebody is still in a position to remove the tag, or was never told that it was made; and
      its description is what its mutex says. */
  ghost predicate Accounted(s: State, id: ObjectId) {
    id in s.creator && id in s.tags && id !in s.orphaned ==>
      var m := s.creator[id];
      m in s.mutexes && s.tags[id] == TagFor(s.mutexes[m])
      && (Marked(s, m, id) || exists t <- s.calls :: s.calls[t] == Storing(m, id))
  }

  ghost predicate InStep(s: State, t: nat)
    requires At(s, t)
  {
    var call := s.calls[t];
    var m := s.mutexes[call.mutex];
    match call
    case Deleting(_, target) => m.tagId == target
    case Clearing(_, id) => m.tagId == Some(id) && id !in s.tags && id in s.issued
    case _ => m.tagId == None
  }

  ghost predicate Disciplined(s: State) {
    && Inv(s)
    && (forall t <- s.calls, u <- s.calls :: s.calls[t].mutex == s.calls[u].mutex ==> t == u)
    && (forall t <- s.calls :: At(s, t) && InStep(s, t))
    && (forall id <- s.creator :: Accounted(s, id))
  }

  lemma TagsAppear(s: State, e: Event, id: ObjectId)
    requires Enabled(s, e) && s.tags.Keys <= s.issued
    ensures id in s.issued && id !in s.tags ==> id in Apply(s, e).issued && id !in Apply(s, e).tags
    ensures id in s.issued && id in Apply(s, e).tags ==> id in s.tags && Apply(s, e).tags[id] == s.tags[id]
    ensures id in s.issued && id in Apply(s, e).creator ==> id in s.creator && Apply(s, e).creator[id] == s.creator[id]
  {
  }

  lemma InStepKept(s: State, e: Event, t: nat)
    requires Disciplined(s) && Enabled(s, e) && OneAtATime(s, e)
    requires t in s.calls && t in Apply(s, e).calls && Apply(s, e).calls[t] == s.calls[t]
    ensures At(Apply(s, e), t) && InStep(Apply(s, e), t)
  {
    assert At(s, t) && InStep(s, t);
    MarkChanges(s, e, s.calls[t].mutex);
    if s.calls[t].Clearing? {
      TagsAppear(s, e, s.calls[t].deleted);
    }
  }

  lemma InStepMoved(s: State, e: Event, t: nat)
    requires s.tags.Keys <= s.issued && Enabled(s, e) && t in Apply(s, e).calls
    requires t !in s.calls || (Apply(s, e).calls[t] != s.calls[t] && At(s, t) && InStep(s, t))
    ensures At(Apply(s, e), t) && InStep(Apply(s, e), t)
  {
    if e.StartLock? || e.StartUnlock? { StartsInStep(s, e, t); } else { GoesOnInStep(s, e, t); }
  }

  lemma StartsInStep(s: State, e: Event, t: nat)
    requires Enabled(s, e) && (e.StartLock? || e.StartUnlock?)
    requires t in Apply(s, e).calls && (t !in s.calls || Apply(s, e).calls[t] != s.calls[t])
    ensures At(Apply(s, e), t) && InStep(Apply(s, e), t)
  {
    assert t == e.call;
  }

  lemma GoesOnInStep(s: State, e: Event, t: nat)
    requires s.tags.Keys <= s.issued && Enabled(s, e) && t in Apply(s, e).calls && !e.StartLock? && !e.StartUnlock?
    requires t !in s.calls || (Apply(s, e).calls[t] != s.calls[t] && At(s, t) && InStep(s, t))
    ensures At(Apply(s, e), t) && InStep(Apply(s, e), t)
  {
  }

  lemma CallsAppear(s: State, e: Event, t: nat)
    requires Enabled(s, e) && t in Apply(s, e).calls
    ensures if t in s.calls then Apply(s, e).calls[t].mutex == s.calls[t].mutex
            else (e.StartLock? || e.StartUnlock?) && e.call == t && Apply(s, e).calls[t].mutex == e.mutex
  {
  }

  lemma CallsStayApart(s: State, e: Event, t: nat, u: nat)
    requires forall v <- s.calls, w <- s.calls :: s.calls[v].mutex == s.calls[w].mutex ==> v == w
    requires Enabled(s, e) && OneAtATime(s, e)
    requires t in Apply(s, e).calls && u in Apply(s, e).calls
    requires Apply(s, e).calls[t].mutex == Apply(s, e).calls[u].mutex
    ensures t == u
  {
    CallsAppear(s, e, t);
    CallsAppear(s, e, u);
  }

  lemma StoringOutlives(s: State, e: Event, t: nat)
    requires Enabled(s, e) && At(s, t) && s.calls[t].Storing?
    ensures var call := s.calls[t];
            if e == Store(t) then
              call.mutex in Apply(s, e).mutexes && Apply(s, e).mutexes[call.mutex].tagId == Some(call.id)
            else
              t in Apply(s, e).calls && Apply(s, e).calls[t] == call
  {
  }

  /** Where a tag already made is accounted for after a step. */
  lemma AccountedKept(s: State, e: Event, id: ObjectId)
    requires Disciplined(s) && Enabled(s, e) && OneAtATime(s, e) && id in s.creator
    requires id in Apply(s, e).tags && id !in Apply(s, e).orphaned
    ensures Accounted(Apply(s, e), id)
  {
    SetsGrow(s, e);
    TagsAppear(s, e, id);
    assert Accounted(s, id);
    var m := s.creator[id];
    MarkChanges(s, e, m);
    if Marked(s, m, id) {
      MarkOutlives(s, e, m, id);
    } else {
      var t :| t in s.calls && s.calls[t] == Storing(m, id);
      if e.SetMessage? && e.mutex == m {
        assert false;
      }
      StoringOutlives(s, e, t);
    }
  }

  lemma MarkOutlives(s: State, e: Event, m: nat, id: ObjectId)
    requires Disciplined(s) && Enabled(s, e) && Marked(s, m, id) && id in s.tags
    ensures Marked(Apply(s, e), m, id)
  {
    MarkChanges(s, e, m);
    if (e.Store? || e.Clear?) && s.calls[e.call].mutex == m {
      assert false;
    }
  }

  lemma AccountedMade(s: State, e: Event, id: ObjectId)
    requires Disciplined(s) && Enabled(s, e) && id in Apply(s, e).creator && id !in s.creator
    ensures Accounted(Apply(s, e), id)
  {
    var s' := Apply(s, e);
    if e.Create? {
      assert s'.calls[e.call] == Storing(s'.creator[id], id);
    }
  }

  lemma StepKeepsDiscipline(s: State, e: Event)
    requires Disciplined(s) && Enabled(s, e) && OneAtATime(s, e)
    ensures Disciplined(Apply(s, e))
  {
    var s' := Apply(s, e);
    StepKeepsInv(s, e);
    forall t, u | t in s'.calls && u in s'.calls && s'.calls[t].mutex == s'.calls[u].mutex ensures t == u {
      CallsStayApart(s, e, t, u);
    }
    forall t | t in s'.calls ensures At(s', t) && InStep(s', t) {
      if t in s.calls && s'.calls[t] == s.calls[t] { InStepKept(s, e, t); } else { InStepMoved(s, e, t); }
    }
    forall id | id in s'.creator ensures Accounted(s', id) {
      if id !in s.creator {
        AccountedMade(s, e, id);
      } else if id in s'.tags && id !in s'.orphaned {
        AccountedKept(s, e, id);
      }
    }
  }

  lemma {:induction false} RunKeepsDiscipline(s: State, events: seq<Event>, t: State)
    requires Disciplined(s) && IsDisciplinedRun(s, events, t)
    ensures Disciplined(t)
    decreases |events|
  {
    if events != [] {
      StepKeepsDiscipline(s, events[0]);
      RunKeepsDiscipline(Apply(s, events[0]), events[1..], t);
    }
  }

  /** When callers use each mutex for one call at a time, every tag that a mutex made and was told
      of can still be removed by it: it is marked with the tag, or about to be. The tag describes
      the mutex, so a refused TryLock is handed the holder's own message. */
  lemma NothingStranded(s: State, events: seq<Event>, t: State, id: ObjectId)
    requires Start(s) && IsDisciplinedRun(s, events, t) && id in t.creator && id in t.tags && id !in t.orphaned
    ensures t.creator[id] in t.mutexes && t.tags[id] == TagFor(t.mutexes[t.creator[id]])
    ensures Marked(t, t.creator[id], id) || exists call <- t.calls :: t.calls[call] == Storing(t.creator[id], id)
  {
    RunKeepsDiscipline(s, events, t);
    assert Accounted(t, id);
  }

  /** Without that discipline a tag is stranded: from any state in which a Lock is about to create
      its tag while an Unlock of the same mutex is about to clear its mark, the two can end with a
      tag on the server that no mutex is marked with and no call is about to store. */
  lemma OverlappingCallsStrand(s: State, locking: nat, unlocking: nat, id: ObjectId) returns (t: State)
    requires Inv(s) && Creatable(s, locking, id) && At(s, unlocking) && s.calls[unlocking].Clearing?
    requires s.calls[locking].mutex == s.calls[unlocking].mutex
    ensures IsRun(s, [Create(locking, Created(id)), Store(locking), Clear(unlocking)], t)
    ensures id in t.tags && id in t.creator && id !in t.orphaned
    ensures forall m :: !Marked(t, m, id)
    ensures forall call <- t.calls :: !(t.calls[call].Storing? && t.calls[call].id == id)
  {
    var m := s.calls[locking].mutex;
    var events := [Create(locking, Created(id)), Store(locking), Clear(unlocking)];
    var s1 := Apply(s, events[0]);
    forall n: nat ensures !Marked(s, n, id) {
      assert Marked(s, n, id) ==> MarkSound(s, n, id);
    }
    forall call <- s.calls ensures !(s.calls[call].Storing? && s.calls[call].id == id) {
      assert CallSound(s, s.calls[call]);
    }
    var s2 := Apply(s1, events[1]);
    t := Apply(s2, events[2]);
    forall n: nat ensures !Marked(t, n, id) {
      assert t.mutexes[m].tagId == None;
      if n != m && n in t.mutexes {
        assert n in s.mutexes && t.mutexes[n] == s.mutexes[n] && !Marked(s, n, id);
      }
    }
    assert IsRun(t, events[3..], t) && IsRun(s2, events[2..], t) && IsRun(s1, events[1..], t);
  }
}
