/** Any number of goroutines adding and deleting policy rules through one client, each under the
    policy's lock, one statement of lock(), unlock() and the edit to a step. Nobody else changes
    the policies' rules. */
module PolicyEditing {
  import opened Common
  import opened KeyedLocks
  import opened PolicyRules

  datatype PolicyKey = PolicyKey(blueprint: ObjectId, policy: ObjectId)

  /** What a goroutine wants the lock for. The server gives an added rule its ID. */
  datatype Job =
    | AddJob(target: PolicyKey, labelText: string, content: string, position: int)
    | DeleteJob(target: PolicyKey, ruleId: ObjectId)
    | OtherJob(key: string)

  function KeyOf(job: Job): string {
    if job.OtherJob? then job.key else LockId(job.target.blueprint, [job.target.policy])
  }

  datatype Pc =
    | AtLock                                            // before syncLock.Lock()
    | AtMap                                             // about to look the key up
    | Found(mu: nat)                                    // found, syncLock still held
    | Made(mu: nat)                                     // a new mutex, locked, not yet in the map
    | Put                                               // in the map, syncLock still held
    | AtMutex(mu: nat)                                  // before mu.Lock()
    | Reading                                           // the mutex is held
    | Writing(rules: seq<Rule>)                         // with what was read
    | Naming(before: seq<Rule>, newId: ObjectId)        // looking the new rule up by label
    | AtUnlock                                          // before unlock()'s syncLock.Lock()
    | Unlocking
    | Unlocked                                          // the mutex is free, syncLock still held

  datatype Routine = Routine(job: Job, pc: Pc)

  /** A change of one policy's rules, as the server made it. */
  datatype Edit =
    | AddEdit(target: PolicyKey, rule: Rule, position: int)
    | DeleteEdit(target: PolicyKey, ruleId: ObjectId)

  type Policies = map<PolicyKey, seq<Rule>>

  /** holder says which goroutine holds each locked mutex. issued and edits are history: the rule IDs
      ever used, and the edits in the order the server made them. */
  datatype State = State(
    syncLock: Option<nat>,
    sync: map<string, nat>,
    made: nat,
    holder: map<nat, nat>,
    routines: map<nat, Routine>,
    policies: Policies,
    issued: set<ObjectId>,
    edits: seq<Edit>)

  datatype Event =
    | Begin(r: nat, job: Job)
    | TakeSync(r: nat)
    | LookUp(r: nat)
    | PutMutex(r: nat)
    | LeaveSync(r: nat)
    | TakeMutex(r: nat)
    | Read(r: nat)
    | Write(r: nat, newId: ObjectId, reported: bool)
    | Finish(r: nat)
    | FreeMutex(r: nat)

  function NewRule(job: Job, newId: ObjectId): Rule
    requires job.AddJob?
  {
    Rule(newId, job.labelText, job.content)
  }

  /** The list a goroutine sends, given the rules it read; a deletion of an unknown rule sends nothing. */
  function Sent(job: Job, rules: seq<Rule>, newId: ObjectId): Option<seq<Rule>> {
    match job
    case AddJob(_, _, _, position) => Some(Inserted(rules, NewRule(job, newId), position))
    case DeleteJob(_, ruleId) => if Deleted(rules, ruleId).Ok? then Some(Deleted(rules, ruleId).value) else None
    case OtherJob(_) => None
  }

  function EditOf(job: Job, newId: ObjectId): Edit
    requires !job.OtherJob?
  {
    if job.AddJob? then AddEdit(job.target, NewRule(job, newId), job.position) else DeleteEdit(job.target, job.ruleId)
  }

  function KeyAt(s: State, r: nat): string
    requires r in s.routines
  {
    KeyOf(s.routines[r].job)
  }

  /** unlock() does not panic: the key is known and its mutex is locked. */
  predicate CanFree(s: State, r: nat) {
    r in s.routines && KeyAt(s, r) in s.sync && s.sync[KeyAt(s, r)] in s.holder
  }

  predicate CanWrite(s: State, r: nat, newId: ObjectId) {
    r in s.routines && s.routines[r].pc.Writing? && !s.routines[r].job.OtherJob? && newId !in s.issued
    && Sent(s.routines[r].job, s.routines[r].pc.rules, newId).Some?
  }

  predicate Enabled(s: State, e: Event) {
    if e.Begin? then e.r !in s.routines else
    e.r in s.routines &&
    var pc := s.routines[e.r].pc;
    match e
    case TakeSync(r) => (pc.AtLock? || pc.AtUnlock?) && s.syncLock.None?
    case LookUp(r) => pc.AtMap?
    case PutMutex(r) => pc.Made?
    case LeaveSync(r) => pc.Found? || pc.Put? || pc.Unlocked?
    case TakeMutex(r) => pc.AtMutex? && pc.mu !in s.holder
    case Read(r) => pc.Reading? && !s.routines[r].job.OtherJob? && s.routines[r].job.target in s.policies
    case Write(r, newId, _) => CanWrite(s, r, newId)
    case Finish(r) => pc.Reading? || pc.Writing? || pc.Naming?
    case FreeMutex(r) => pc.Unlocking? && CanFree(s, r)
    case Begin(_, _) => false
  }

  function Goto(s: State, r: nat, pc: Pc): State
    requires r in s.routines
  {
    s.(routines := s.routines[r := s.routines[r].(pc := pc)])
  }

  function Apply(s: State, e: Event): State
    requires Enabled(s, e)
  {
    match e
    case Begin(r, job) => s.(routines := s.routines[r := Routine(job, AtLock)])
    case TakeSync(r) => Goto(s, r, if s.routines[r].pc.AtLock? then AtMap else Unlocking).(syncLock := Some(r))
    case LookUp(r) =>
      if KeyAt(s, r) in s.sync then Goto(s, r, Found(s.sync[KeyAt(s, r)]))
      else Goto(s, r, Made(s.made)).(made := s.made + 1, holder := s.holder[s.made := r])
    case PutMutex(r) => Goto(s, r, Put).(sync := s.sync[KeyAt(s, r) := s.routines[r].pc.mu])
    case LeaveSync(r) =>
      var pc := s.routines[r].pc;
      if pc.Unlocked? then s.(routines := s.routines - {r}, syncLock := None)
      else Goto(s, r, if pc.Found? then AtMutex(pc.mu) else Reading).(syncLock := None)
    case TakeMutex(r) => Goto(s, r, Reading).(holder := s.holder[s.routines[r].pc.mu := r])
    case Read(r) => Goto(s, r, Writing(s.policies[s.routines[r].job.target]))
    case Write(r, newId, reported) =>
      var job, rules := s.routines[r].job, s.routines[r].pc.rules;
      Goto(s, r, if reported && job.AddJob? then Naming(rules, newId) else AtUnlock)
      .(policies := s.policies[job.target := Sent(job, rules, newId).value],
        issued := s.issued + {newId},
        edits := s.edits + [EditOf(job, newId)])
    case Finish(r) => Goto(s, r, AtUnlock)
    case FreeMutex(r) => Goto(s, r, Unlocked).(holder := s.holder - {s.sync[KeyAt(s, r)]})
  }

  ghost predicate Start(s: State) {
    && s.syncLock == None && s.sync == map[] && s.holder == map[] && s.routines == map[] && s.edits == []
    && RulesSound(s)
  }

  predicate IsRun(s: State, events: seq<Event>, t: State)
    decreases |events|
  {
    if events == [] then s == t else Enabled(s, events[0]) && IsRun(Apply(s, events[0]), events[1..], t)
  }

  // ----- the invariant -----

  predicate InSync(pc: Pc) {
    pc.AtMap? || pc.Found? || pc.Made? || pc.Put? || pc.Unlocking? || pc.Unlocked?
  }

  predicate HasMutex(pc: Pc) {
    pc.Put? || pc.Reading? || pc.Writing? || pc.Naming? || pc.AtUnlock? || pc.Unlocking?
  }

  predicate Holds(s: State, mu: nat, r: nat) {
    mu in s.holder && s.holder[mu] == r
  }

  /** Goroutine r is past lock() and not yet through unlock() for this key. */
  predicate Inside(s: State, r: nat, key: string) {
    r in s.routines && KeyAt(s, r) == key && HasMutex(s.routines[r].pc)
  }

  predicate Policed(s: State, r: nat)
    requires r in s.routines
  {
    var job, pc := s.routines[r].job, s.routines[r].pc;
    && (pc.Writing? ==> !job.OtherJob? && job.target in s.policies && s.policies[job.target] == pc.rules)
    && (pc.Naming? ==> job.AddJob? && job.target in s.policies && pc.newId !in Ids(pc.before)
                       && s.policies[job.target] == Inserted(pc.before, NewRule(job, pc.newId), job.position))
  }

  predicate Placed(s: State, r: nat)
    requires r in s.routines
  {
    var key, pc := KeyAt(s, r), s.routines[r].pc;
    && (InSync(pc) <==> s.syncLock == Some(r))
    && (HasMutex(pc) ==> key in s.sync && Holds(s, s.sync[key], r))
    && (pc.Found? || pc.AtMutex? ==> key in s.sync && s.sync[key] == pc.mu)
    && (pc.Made? ==> key !in s.sync && pc.mu !in s.sync.Values && pc.mu < s.made && Holds(s, pc.mu, r))
  }

  predicate MapSound(s: State) {
    && (s.syncLock.Some? ==> s.syncLock.value in s.routines)
    && (forall key <- s.sync :: s.sync[key] < s.made)
    && (forall a <- s.sync, b <- s.sync :: s.sync[a] == s.sync[b] ==> a == b)
    && (forall mu <- s.holder :: mu < s.made)
  }

  /** A locked mutex is locked by a goroutine that will come to unlock it. */
  predicate HolderSound(s: State, mu: nat) {
    mu in s.holder ==>
      var r := s.holder[mu];
      r in s.routines
      && var pc := s.routines[r].pc;
         pc == Made(mu) || (HasMutex(pc) && KeyAt(s, r) in s.sync && s.sync[KeyAt(s, r)] == mu)
  }

  predicate RulesSound(s: State) {
    forall p <- s.policies :: DistinctIds(s.policies[p]) && forall id <- Ids(s.policies[p]) :: id in s.issued
  }

  ghost predicate Inv(s: State) {
    && MapSound(s)
    && (forall r <- s.routines :: Placed(s, r) && Policed(s, r))
    && (forall mu <- s.holder :: HolderSound(s, mu))
    && RulesSound(s)
  }

  lemma StepKeepsMap(s: State, e: Event)
    requires MapSound(s) && Enabled(s, e) && (e.Begin? || Placed(s, e.r))
    ensures MapSound(Apply(s, e))
  {
  }

  lemma LockerPlaced(s: State, e: Event)
    requires MapSound(s) && Enabled(s, e) && !e.Begin? && Placed(s, e.r) && e.r in Apply(s, e).routines
    requires e.LookUp? || e.PutMutex? || e.TakeMutex? || e.FreeMutex?
    ensures Placed(Apply(s, e), e.r)
  {
  }

  lemma MoverPlaced(s: State, e: Event)
    requires MapSound(s) && Enabled(s, e) && (if e.Begin? then s.syncLock != Some(e.r) else Placed(s, e.r))
    requires e.r in Apply(s, e).routines
    requires !e.LookUp? && !e.PutMutex? && !e.TakeMutex? && !e.FreeMutex?
    ensures Placed(Apply(s, e), e.r)
  {
  }

  lemma OtherPlaced(s: State, e: Event, r: nat)
    requires MapSound(s) && Enabled(s, e) && (e.Begin? || Placed(s, e.r))
    requires r in s.routines && Placed(s, r) && r != e.r
    ensures Placed(Apply(s, e), r)
  {
  }

  lemma StepKeepsHolder(s: State, e: Event, mu: nat)
    requires MapSound(s) && Enabled(s, e) && (e.Begin? || Placed(s, e.r))
    requires HolderSound(s, mu)
    ensures HolderSound(Apply(s, e), mu)
  {
  }

  /** One goroutine at a time is inside for a key. */
  lemma InsideAlone(s: State, a: nat, b: nat, key: string)
    requires a in s.routines && Placed(s, a) && b in s.routines && Placed(s, b)
    requires Inside(s, a, key) && Inside(s, b, key)
    ensures a == b
  {
  }

  lemma MoverPoliced(s: State, e: Event)
    requires RulesSound(s) && Enabled(s, e) && !e.Begin? && Policed(s, e.r) && e.r in Apply(s, e).routines
    ensures Policed(Apply(s, e), e.r)
  {
  }

  lemma OtherPoliced(s: State, e: Event, r: nat)
    requires Enabled(s, e) && (e.Begin? || Placed(s, e.r))
    requires r in s.routines && r != e.r && Placed(s, r) && Policed(s, r)
    ensures Policed(Apply(s, e), r)
  {
    var key := KeyAt(s, r);
    if e.Write? && !s.routines[r].job.OtherJob? && s.routines[r].job.target == s.routines[e.r].job.target {
      if s.routines[r].pc.Writing? || s.routines[r].pc.Naming? {
        InsideAlone(s, r, e.r, key);
      }
    }
  }

  lemma StepKeepsRules(s: State, e: Event)
    requires RulesSound(s) && Enabled(s, e) && (e.Begin? || Policed(s, e.r))
    ensures RulesSound(Apply(s, e))
  {
    if e.Write? {
      var job, rules := s.routines[e.r].job, s.routines[e.r].pc.rules;
      assert rules == s.policies[job.target];
      if job.AddJob? {
        AddKeepsIdsDistinct(rules, NewRule(job, e.newId), job.position);
        AddsOneId(rules, NewRule(job, e.newId), job.position);
      } else {
        DeleteKeepsIdsDistinct(rules, job.ruleId);
      }
    }
  }

  lemma StepKeepsInv(s: State, e: Event)
    requires Inv(s) && Enabled(s, e)
    ensures Inv(Apply(s, e))
  {
    var s' := Apply(s, e);
    StepKeepsMap(s, e);
    StepKeepsRules(s, e);
    forall r | r in s'.routines ensures Placed(s', r) && Policed(s', r) {
      if r == e.r {
        if e.LookUp? || e.PutMutex? || e.TakeMutex? || e.FreeMutex? { LockerPlaced(s, e); } else { MoverPlaced(s, e); }
        if !e.Begin? { MoverPoliced(s, e); }
      } else {
        OtherPlaced(s, e, r);
        OtherPoliced(s, e, r);
      }
    }
    forall mu | mu in s'.holder ensures HolderSound(s', mu) {
      StepKeepsHolder(s, e, mu);
    }
  }

  lemma {:induction false} RunKeepsInv(s: State, events: seq<Event>, t: State)
    requires Inv(s) && IsRun(s, events, t)
    ensures Inv(t)
    decreases |events|
  {
    if events != [] {
      StepKeepsInv(s, events[0]);
      RunKeepsInv(Apply(s, events[0]), events[1..], t);
    }
  }

  ghost predicate Reachable(s: State) {
    exists s0, events :: Start(s0) && IsRun(s0, events, s)
  }

  lemma ReachableHasInv(s: State)
    requires Reachable(s)
    ensures Inv(s)
  {
    var s0, events :| Start(s0) && IsRun(s0, events, s);
    RunKeepsInv(s0, events, s);
  }

  // ----- the lock -----

  lemma OneHolderPerKey(s: State, a: nat, b: nat, key: string)
    requires Reachable(s) && Inside(s, a, key) && Inside(s, b, key)
    ensures a == b
  {
    ReachableHasInv(s);
    InsideAlone(s, a, b, key);
  }

  /** Once a key has a mutex it keeps it, so late-comers wait on the one that is held. */
  lemma {:induction false} KeyKeepsItsMutex(s: State, events: seq<Event>, t: State, key: string)
    requires Inv(s) && IsRun(s, events, t) && key in s.sync
    ensures key in t.sync && t.sync[key] == s.sync[key]
    decreases |events|
  {
    if events != [] {
      assert events[0].PutMutex? ==> Placed(s, events[0].r);
      StepKeepsInv(s, events[0]);
      KeyKeepsItsMutex(Apply(s, events[0]), events[1..], t, key);
    }
  }

  lemma UnlockNeverPanics(s: State, r: nat)
    requires Reachable(s) && r in s.routines && s.routines[r].pc.Unlocking?
    ensures CanFree(s, r)
  {
    ReachableHasInv(s);
    assert Placed(s, r);
  }

  /** The next step of a goroutine that waits for nobody. */
  function Next(r: nat, pc: Pc): Event
    requires !pc.AtLock? && !pc.AtUnlock? && !pc.AtMutex?
  {
    match pc
    case AtMap => LookUp(r)
    case Made(_) => PutMutex(r)
    case Unlocking => FreeMutex(r)
    case Reading => Finish(r)
    case Writing(_) => Finish(r)
    case Naming(_, _) => Finish(r)
    case _ => LeaveSync(r)
  }

  /** Whoever holds syncLock can take its next step: it never waits for a keyed mutex. */
  lemma NeverWaitsUnderSync(s: State, r: nat)
    requires Reachable(s) && s.syncLock == Some(r)
    ensures r in s.routines && InSync(s.routines[r].pc)
    ensures Enabled(s, Next(r, s.routines[r].pc))
  {
    ReachableHasInv(s);
    assert Placed(s, r);
  }

  /** While any goroutine is under way, some goroutine can take a step. */
  lemma NeverStuck(s: State) returns (e: Event)
    requires Reachable(s) && s.routines != map[]
    ensures !e.Begin? && Enabled(s, e)
  {
    ReachableHasInv(s);
    if s.syncLock.Some? {
      NeverWaitsUnderSync(s, s.syncLock.value);
      e := Next(s.syncLock.value, s.routines[s.syncLock.value].pc);
    } else {
      var r :| r in s.routines;
      if s.routines[r].pc.AtMutex? && s.routines[r].pc.mu in s.holder {
        var mu := s.routines[r].pc.mu;
        assert HolderSound(s, mu);
        r := s.holder[mu];
      }
      assert Placed(s, r);
      var pc := s.routines[r].pc;
      e := if pc.AtLock? || pc.AtUnlock? then TakeSync(r) else if pc.AtMutex? then TakeMutex(r) else Next(r, pc);
    }
  }

  // ----- the edits -----

  function Edited(policies: Policies, edit: Edit): Policies {
    if edit.target !in policies then policies else
    var rules := policies[edit.target];
    match edit
    case AddEdit(target, rule, position) => policies[target := Inserted(rules, rule, position)]
    case DeleteEdit(target, ruleId) =>
      if Deleted(rules, ruleId).Ok? then policies[target := Deleted(rules, ruleId).value] else policies
  }

  /** The edits made one after another, each seeing the one before. */
  function Replay(policies: Policies, edits: seq<Edit>): Policies {
    if edits == [] then policies
    else Edited(Replay(policies, edits[..|edits| - 1]), edits[|edits| - 1])
  }

  lemma StepReplays(s: State, e: Event, start: Policies)
    requires Inv(s) && Enabled(s, e) && s.policies == Replay(start, s.edits)
    ensures Apply(s, e).policies == Replay(start, Apply(s, e).edits)
  {
    if e.Write? {
      assert Policed(s, e.r);
      var edits' := Apply(s, e).edits;
      assert edits'[..|edits'| - 1] == s.edits;
    }
  }

  /** However the goroutines interleave, the policies are what the edits give one after another:
      every edit was computed from the rules it replaced. */
  lemma {:induction false} EditsAreSerial(s: State, events: seq<Event>, t: State, start: Policies)
    requires Inv(s) && IsRun(s, events, t) && s.policies == Replay(start, s.edits)
    ensures t.policies == Replay(start, t.edits)
    decreases |events|
  {
    if events != [] {
      StepReplays(s, events[0], start);
      StepKeepsInv(s, events[0]);
      EditsAreSerial(Apply(s, events[0]), events[1..], t, start);
    }
  }

  lemma {:induction false} RuleSurvives(policies: Policies, edits: seq<Edit>, k: nat)
    requires k < |edits| && edits[k].AddEdit? && edits[k].target in policies
    requires forall i :: k < i < |edits| ==> edits[i] != DeleteEdit(edits[k].target, edits[k].rule.id)
    ensures edits[k].target in Replay(policies, edits)
    ensures edits[k].rule in Replay(policies, edits)[edits[k].target]
    decreases |edits|
  {
    var n := |edits| - 1;
    var target, rule := edits[k].target, edits[k].rule;
    TargetStays(policies, edits[..n], target);
    var before := Replay(policies, edits[..n])[target];
    if k == n {
      assert Inserted(before, rule, edits[k].position)[Landing(|before|, edits[k].position)] == rule;
    } else {
      RuleSurvives(policies, edits[..n], k);
      var i :| 0 <= i < |before| && before[i] == rule;
      if edits[n].target == target {
        EditKeepsRule(before, i, edits[n]);
      }
    }
  }

  lemma EditKeepsRule(rules: seq<Rule>, i: nat, edit: Edit)
    requires i < |rules| && (edit.DeleteEdit? ==> edit.ruleId != rules[i].id)
    ensures edit.AddEdit? ==> rules[i] in Inserted(rules, edit.rule, edit.position)
    ensures edit.DeleteEdit? && Deleted(rules, edit.ruleId).Ok? ==> rules[i] in Deleted(rules, edit.ruleId).value
  {
    match edit
    case AddEdit(_, rule, position) =>
      var at := Landing(|rules|, position);
      assert Inserted(rules, rule, position)[if i < at then i else i + 1] == rules[i];
    case DeleteEdit(_, ruleId) =>
      if Deleted(rules, ruleId).Ok? {
        var at := FirstWith(rules, HasId(ruleId)).value;
        assert Deleted(rules, ruleId).value[if i < at then i else i - 1] == rules[i];
      }
  }

  lemma {:induction false} TargetStays(policies: Policies, edits: seq<Edit>, target: PolicyKey)
    requires target in policies
    ensures target in Replay(policies, edits)
    decreases |edits|
  {
    if edits != [] {
      TargetStays(policies, edits[..|edits| - 1], target);
    }
  }

  /** No update is lost: an added rule is in its policy until its own ID is deleted. */
  lemma NoLostAdds(s: State, events: seq<Event>, t: State, k: nat)
    requires Start(s) && IsRun(s, events, t) && k < |t.edits|
    requires t.edits[k].AddEdit? && t.edits[k].target in s.policies
    requires forall i :: k < i < |t.edits| ==> t.edits[i] != DeleteEdit(t.edits[k].target, t.edits[k].rule.id)
    ensures t.edits[k].target in t.policies && t.edits[k].rule in t.policies[t.edits[k].target]
  {
    EditsAreSerial(s, events, t, s.policies);
    RuleSurvives(s.policies, t.edits, k);
  }

  /** A deletion is not undone by anybody's stale list: the rule's ID is gone from the policy, and stays so. */
  lemma DeletedStaysDeleted(s: State, e: Event, events: seq<Event>, t: State)
    requires Reachable(s) && Enabled(s, e) && e.Write? && s.routines[e.r].job.DeleteJob?
    requires IsRun(Apply(s, e), events, t)
    ensures var job := s.routines[e.r].job; job.target in t.policies && job.ruleId !in Ids(t.policies[job.target])
  {
    ReachableHasInv(s);
    StepKeepsInv(s, e);
    var job := s.routines[e.r].job;
    assert Policed(s, e.r);
    var rules := s.policies[job.target];
    DeleteKeepsIdsDistinct(rules, job.ruleId);
    var at := FirstWith(rules, HasId(job.ruleId)).value;
    assert Ids(rules)[at] == job.ruleId;
    GoneStaysGone(Apply(s, e), events, t, job.target, job.ruleId);
  }

  lemma {:induction false} GoneStaysGone(s: State, events: seq<Event>, t: State, target: PolicyKey, id: ObjectId)
    requires Inv(s) && IsRun(s, events, t) && id in s.issued && target in s.policies && id !in Ids(s.policies[target])
    ensures target in t.policies && id !in Ids(t.policies[target])
    decreases |events|
  {
    if events != [] {
      var e := events[0];
      StepKeepsInv(s, e);
      if e.Write? && s.routines[e.r].job.target == target {
        var job := s.routines[e.r].job;
        assert Policed(s, e.r);
        if job.AddJob? {
          AddsOneId(s.policies[target], NewRule(job, e.newId), job.position);
        } else {
          DeleteKeepsIdsDistinct(s.policies[target], job.ruleId);
        }
      }
      GoneStaysGone(Apply(s, e), events[1..], t, target, id);
    }
  }

  /** While AddRule looks its rule up, still under the lock, the policy is as it left it; so its
      answer is its own rule's ID exactly when no rule ahead of it has the same label. */
  lemma AnswerIsOwnRule(s: State, r: nat)
    requires Reachable(s) && r in s.routines && s.routines[r].pc.Naming?
    ensures s.routines[r].job.AddJob? && s.routines[r].job.target in s.policies
    ensures IdByLabel(s.policies[s.routines[r].job.target], s.routines[r].job.labelText) == Some(s.routines[r].pc.newId)
       <==> forall i :: 0 <= i < Landing(|s.routines[r].pc.before|, s.routines[r].job.position) ==>
                          s.routines[r].pc.before[i].labelText != s.routines[r].job.labelText
  {
    ReachableHasInv(s);
    assert Policed(s, r);
    var job, pc := s.routines[r].job, s.routines[r].pc;
    AddAnswersItsOwnId(pc.before, NewRule(job, pc.newId), job.position);
  }
}
