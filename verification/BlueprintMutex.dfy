/** The blueprint mutex: a client holds it while a tag with the blueprint's lock name, which it
    created, is on the server. */
module BlueprintMutex {
  import opened Common

  datatype LockStatus = Unlocked | Locked | LockedByRestrictedUser | LockedByAdmin | LockedByDeletedUser

  datatype Tag = Tag(labelText: string, description: string)

  datatype LockError =
    | ReadOnlyMutex
    | AlreadyLocked(tagId: ObjectId)
    | NameTooLong
    | Cancelled
    | ServerError
    | BlueprintLocked(user: ObjectId, status: LockStatus)
    | HeldBy(tagId: ObjectId, message: string)
    | MutexIsLocked

  const TAG_NAME_LEN_MAX := 64

  /** lockTagName with the blueprint's ID in its place. */
  function LockName(blueprint: ObjectId): string {
    "blueprint " + blueprint.text + " locked"
  }

  lemma LockNameInjective(a: ObjectId, b: ObjectId)
    ensures LockName(a) == LockName(b) <==> a == b
  {
    if LockName(a) == LockName(b) {
      assert |LockName(a)| == |a.text| + 17 && |LockName(b)| == |b.text| + 17;
      assert LockName(a)[10..10 + |a.text|] == a.text;
      assert LockName(b)[10..10 + |b.text|] == b.text;
    }
  }

  // ----- the decisions of lock() -----

  datatype InfoReply = Info(user: ObjectId, status: LockStatus) | InfoFailed

  datatype CreateReply = Created(id: ObjectId) | Exists | CreateFailed

  /** A lookup by label finds the tag, or fails with an error of the client's own kind (such as
      "not found"), or fails otherwise. */
  datatype LookupReply = Found(id: ObjectId, description: string) | ClientError | LookupFailed

  datatype Next<+T> = Proceed(value: T) | Retry | Lookup | GiveUp(error: LockError)

  function AfterInfo(reply: InfoReply, me: ObjectId, nonBlocking: bool): Next<()> {
    match reply
    case InfoFailed => GiveUp(ServerError)
    case Info(user, status) =>
      if user == me || status == Unlocked then Proceed(())
      else if nonBlocking then GiveUp(BlueprintLocked(user, status))
      else Retry
  }

  function AfterCreate(reply: CreateReply, nonBlocking: bool): Next<ObjectId> {
    match reply
    case Created(id) => Proceed(id)
    case Exists => if nonBlocking then Lookup else Retry
    case CreateFailed => GiveUp(ServerError)
  }

  function AfterLookup(reply: LookupReply): Next<ObjectId> {
    match reply
    case Found(id, description) => GiveUp(HeldBy(id, description))
    case ClientError => Retry
    case LookupFailed => GiveUp(ServerError)
  }

  // ----- the decision of Unlock() -----

  /** How the server answers a deletion. NotFound is 404 and the few other answers that
      convertTtaeToAceWherePossible takes for ErrNotfound; a failed one may have removed the tag all
      the same. */
  datatype DeleteReply = Gone | NotFound | Failed(removed: bool)

  /** An error as the transport gives it, or turned into a ClientErr. */
  datatype ReplyError = TransportError(notFound: bool) | ClientErr(notFound: bool)

  function TransportErrorOf(reply: DeleteReply): Option<ReplyError> {
    match reply
    case Gone => None
    case NotFound => Some(TransportError(true))
    case Failed(_) => Some(TransportError(false))
  }

  /** convertTtaeToAceWherePossible, as far as Unlock() can tell. */
  function Converted(error: ReplyError): ReplyError {
    if error.TransportError? && error.notFound then ClientErr(true) else error
  }

  /** deleteTag(), which hands the transport's error on as it is. */
  function DeleteTag(reply: DeleteReply): Option<ReplyError> {
    TransportErrorOf(reply)
  }

  /** Unlock() passes over an error only if it is a ClientErr of type ErrNotfound. */
  function AfterDelete(error: Option<ReplyError>): Option<LockError> {
    if error.Some? && !(error.value.ClientErr? && error.value.notFound) then Some(ServerError) else None
  }

  /** The mark goes exactly when the server says it removed the tag: "not found" keeps it, and is the
      only answer on which converting the error would make a difference. */
  lemma UnlockClearsIff(reply: DeleteReply)
    ensures AfterDelete(DeleteTag(reply)).None? <==> reply == Gone
    ensures var converted := if DeleteTag(reply).Some? then Some(Converted(DeleteTag(reply).value)) else None;
            AfterDelete(converted) != AfterDelete(DeleteTag(reply)) <==> reply == NotFound
  {
  }

  /** What the server answers on each tick, until the caller's context ends. */
  datatype Attempt = Attempt(create: CreateReply, lookup: LookupReply)

  function PollResult(infos: seq<InfoReply>, me: ObjectId, nonBlocking: bool): Result<(), LockError> {
    if infos == [] then Err(Cancelled) else
    var next := AfterInfo(infos[0], me, nonBlocking);
    if next.Proceed? then Ok(()) else
    if next.GiveUp? then Err(next.error) else
    PollResult(infos[1..], me, nonBlocking)
  }

  function CreateResult(attempts: seq<Attempt>, nonBlocking: bool): Result<ObjectId, LockError> {
    if attempts == [] then Err(Cancelled) else
    var created := AfterCreate(attempts[0].create, nonBlocking);
    var next := if created.Lookup? then AfterLookup(attempts[0].lookup) else created;
    if next.Proceed? then Ok(next.value) else
    if next.GiveUp? then Err(next.error) else
    CreateResult(attempts[1..], nonBlocking)
  }

  class Mutex {
    const blueprint: ObjectId
    const me: ObjectId
    var tagId: Option<ObjectId>
    var readOnly: bool
    var message: string

    constructor (blueprint: ObjectId, me: ObjectId)
      ensures this.blueprint == blueprint && this.me == me && tagId == None && !readOnly && message == ""
    {
      this.blueprint, this.me := blueprint, me;
      tagId, readOnly, message := None, false, "";
    }

    /** What a refused caller is handed: a look at the mutex that is in the way. */
    constructor ReadOnly(blueprint: ObjectId, me: ObjectId, tagId: ObjectId, message: string)
      ensures this.blueprint == blueprint && this.me == me
      ensures this.tagId == Some(tagId) && readOnly && this.message == message
    {
      this.blueprint, this.me := blueprint, me;
      this.tagId, readOnly, this.message := Some(tagId), true, message;
    }

    method SetMessage(message: string) returns (r: Result<(), LockError>)
      modifies this`message
      ensures r.Ok? <==> !readOnly && tagId.None?
      ensures r.Err? ==> r.error == if readOnly then ReadOnlyMutex else MutexIsLocked
      ensures this.message == if r.Ok? then message else old(this.message)
    {
      if readOnly {
        return Err(ReadOnlyMutex);
      }
      if tagId.Some? {
        return Err(MutexIsLocked);
      }
      this.message := message;
      r := Ok(());
    }

    /** Lock() and TryLock(): the mutex is marked as held exactly when its own tag was created, and
        only a refused TryLock is given a copy, which is read-only. */
    method Lock(nonBlocking: bool, infos: seq<InfoReply>, attempts: seq<Attempt>)
      returns (r: Result<(), LockError>, copy: Mutex?)
      modifies this`tagId
      ensures r == LockResult(old(tagId), readOnly, blueprint, me, nonBlocking, infos, attempts)
      ensures readOnly ==> r == Err(ReadOnlyMutex)
      ensures !readOnly && old(tagId).Some? ==> r == Err(AlreadyLocked(old(tagId).value))
      ensures !readOnly && old(tagId).None? && |blueprint.text| > 47 ==> r == Err(NameTooLong)
      ensures r.Ok? ==> CreateResult(attempts, nonBlocking).Ok?
                        && tagId == Some(CreateResult(attempts, nonBlocking).value)
      ensures r.Err? ==> tagId == old(tagId)
      ensures copy != null <==> r.Err? && r.error.HeldBy?
      ensures copy != null ==> fresh(copy) && copy.readOnly && copy.blueprint == blueprint
                               && copy.tagId == Some(r.error.tagId) && copy.message == r.error.message
    {
      copy := null;
      if readOnly {
        return Err(ReadOnlyMutex), null;
      }
      if tagId.Some? {
        return Err(AlreadyLocked(tagId.value)), null;
      }
      if |LockName(blueprint)| > TAG_NAME_LEN_MAX {
        return Err(NameTooLong), null;
      }
      var i, unlocked := 0, false;
      while !unlocked
        invariant i <= |infos|
        invariant PollResult(infos, me, nonBlocking)
               == if unlocked then Ok(()) else PollResult(infos[i..], me, nonBlocking)
        decreases |infos| - i, !unlocked
      {
        if i == |infos| {
          return Err(Cancelled), null;
        }
        var reply := infos[i];
        i := i + 1;
        if reply.InfoFailed? {
          return Err(ServerError), null;
        }
        unlocked := reply.status == Unlocked;
        if reply.user == me {
          break;
        }
        if nonBlocking && reply.status != Unlocked {
          return Err(BlueprintLocked(reply.user, reply.status)), null;
        }
      }
      var j, tag := 0, None;
      while tag.None?
        invariant j <= |attempts|
        invariant CreateResult(attempts, nonBlocking)
               == if tag.Some? then Ok(tag.value) else CreateResult(attempts[j..], nonBlocking)
        decreases |attempts| - j, tag.None?
      {
        if j == |attempts| {
          return Err(Cancelled), null;
        }
        var attempt := attempts[j];
        j := j + 1;
        if attempt.create.CreateFailed? {
          return Err(ServerError), null;
        }
        if attempt.create.Created? {
          tag := Some(attempt.create.id);
        } else if nonBlocking && !attempt.lookup.ClientError? {
          if attempt.lookup.LookupFailed? {
            return Err(ServerError), null;
          }
          copy := new Mutex.ReadOnly(blueprint, me, attempt.lookup.id, attempt.lookup.description);
          return Err(HeldBy(copy.tagId.value, copy.message)), copy;
        }
      }
      tagId := tag;
      r := Ok(());
    }

    /** Unlock(): only a deletion that the server reports as done takes the mark away. */
    method Unlock(reply: DeleteReply) returns (r: Result<(), LockError>)
      modifies this`tagId
      ensures readOnly ==> r == Err(ReadOnlyMutex)
      ensures !readOnly ==> r == if reply == Gone then Ok(()) else Err(ServerError)
      ensures tagId == if r.Ok? then None else old(tagId)
    {
      if readOnly {
        return Err(ReadOnlyMutex);
      }
      var err := DeleteTag(reply);
      if err.Some? {
        var ace := err.value;
        if !ace.ClientErr? || !ace.notFound {
          return Err(ServerError);
        }
      }
      tagId := None;
      r := Ok(());
    }
  }

  function LockResult(tagId: Option<ObjectId>, readOnly: bool, blueprint: ObjectId, me: ObjectId, nonBlocking: bool,
                      infos: seq<InfoReply>, attempts: seq<Attempt>): Result<(), LockError> {
    if readOnly then Err(ReadOnlyMutex) else
    if tagId.Some? then Err(AlreadyLocked(tagId.value)) else
    if |LockName(blueprint)| > TAG_NAME_LEN_MAX then Err(NameTooLong) else
    var _ :- PollResult(infos, me, nonBlocking);
    var _ :- CreateResult(attempts, nonBlocking);
    Ok(())
  }

  /** TryLock never waits for anybody: it asks once for the lock status, and asks again for the tag
      only when the tag it collided with could no longer be looked up. */
  lemma TryLockDoesNotWait(infos: seq<InfoReply>, attempts: seq<Attempt>, me: ObjectId)
    requires infos != [] && attempts != []
    ensures PollResult(infos, me, true) == PollResult(infos[..1], me, true)
    ensures !(attempts[0].create.Exists? && attempts[0].lookup.ClientError?) ==>
              CreateResult(attempts, true) == CreateResult(attempts[..1], true)
  {
  }

  /** TryLock goes by its one reading of the lock status: it goes on when the blueprint is unlocked or
      locked by the caller, and otherwise hands back who holds it. */
  lemma TryLockReads(infos: seq<InfoReply>, me: ObjectId)
    requires infos != []
    ensures PollResult(infos, me, true) == Ok(())
       <==> infos[0].Info? && (infos[0].user == me || infos[0].status == Unlocked)
    ensures infos[0].Info? && infos[0].user != me && infos[0].status != Unlocked ==>
              PollResult(infos, me, true) == Err(BlueprintLocked(infos[0].user, infos[0].status))
    ensures infos[0].InfoFailed? ==> PollResult(infos, me, true) == Err(ServerError)
  {
  }

  /** A reading lets the caller through, or keeps it waiting. */
  predicate Passes(info: InfoReply, me: ObjectId) {
    info.Info? && (info.user == me || info.status == Unlocked)
  }

  predicate Waits(info: InfoReply, me: ObjectId, nonBlocking: bool) {
    info.Info? && info.user != me && info.status != Unlocked && !nonBlocking
  }

  lemma {:induction false} PollOkIff(infos: seq<InfoReply>, me: ObjectId, nonBlocking: bool)
    ensures PollResult(infos, me, nonBlocking).Ok?
       <==> exists k :: 0 <= k < |infos| && Passes(infos[k], me)
                        && forall i :: 0 <= i < k ==> Waits(infos[i], me, nonBlocking)
  {
    if infos != [] {
      PollOkIff(infos[1..], me, nonBlocking);
      if Waits(infos[0], me, nonBlocking) {
        var rest := infos[1..];
        if k :| 0 <= k < |rest| && Passes(rest[k], me) && forall i :: 0 <= i < k ==> Waits(rest[i], me, nonBlocking) {
          assert Passes(infos[k + 1], me) && forall i :: 0 < i < k + 1 ==> infos[i] == rest[i - 1];
        }
        if k :| 0 <= k < |infos| && Passes(infos[k], me)
                && forall i :: 0 <= i < k ==> Waits(infos[i], me, nonBlocking) {
          assert Passes(rest[k - 1], me) && forall i :: 0 <= i < k - 1 ==> rest[i] == infos[i + 1];
        }
      } else if k :| 0 <= k < |infos| && Passes(infos[k], me)
                     && forall i :: 0 <= i < k ==> Waits(infos[i], me, nonBlocking) {
        assert k == 0;
      }
    }
  }

  /** An attempt that is followed by another: the tag is there already, and TryLock could not look it
      up. */
  predicate Collides(attempt: Attempt, nonBlocking: bool) {
    attempt.create == Exists && (nonBlocking ==> attempt.lookup == ClientError)
  }

  /** The first attempt that is not followed by another decides: the ID of the tag created, the tag
      that TryLock collided with, or the server's failure. */
  lemma {:induction false} CreationDecided(attempts: seq<Attempt>, nonBlocking: bool, k: nat)
    requires k <= |attempts| && forall i :: 0 <= i < k ==> Collides(attempts[i], nonBlocking)
    requires k < |attempts| ==> !Collides(attempts[k], nonBlocking)
    ensures CreateResult(attempts, nonBlocking)
         == if k == |attempts| then Err(Cancelled) else
            match attempts[k].create
            case Created(id) => Ok(id)
            case CreateFailed => Err(ServerError)
            case Exists => match attempts[k].lookup
                           case Found(id, description) => Err(HeldBy(id, description))
                           case _ => Err(ServerError)
  {
    if k > 0 {
      CreationDecided(attempts[1..], nonBlocking, k - 1);
    }
  }

  ghost function FirstDecisive(attempts: seq<Attempt>, nonBlocking: bool): (k: nat)
    ensures k <= |attempts| && forall i :: 0 <= i < k ==> Collides(attempts[i], nonBlocking)
    ensures k < |attempts| ==> !Collides(attempts[k], nonBlocking)
  {
    if attempts == [] || !Collides(attempts[0], nonBlocking) then 0
    else FirstDecisive(attempts[1..], nonBlocking) + 1
  }

  /** A mutex is taken exactly when it is neither a copy nor marked, its name fits, the readings let the
      caller through, and then its own tag is created, with nothing but collisions before. */
  lemma LockSucceedsIff(tagId: Option<ObjectId>, readOnly: bool, blueprint: ObjectId, me: ObjectId,
                        nonBlocking: bool, infos: seq<InfoReply>, attempts: seq<Attempt>)
    ensures LockResult(tagId, readOnly, blueprint, me, nonBlocking, infos, attempts).Ok?
       <==> && !readOnly && tagId == None && |blueprint.text| <= 47
            && (exists k :: 0 <= k < |infos| && Passes(infos[k], me)
                            && forall i :: 0 <= i < k ==> Waits(infos[i], me, nonBlocking))
            && (exists k :: 0 <= k < |attempts| && attempts[k].create.Created?
                            && forall i :: 0 <= i < k ==> Collides(attempts[i], nonBlocking))
  {
    PollOkIff(infos, me, nonBlocking);
    var k := FirstDecisive(attempts, nonBlocking);
    CreationDecided(attempts, nonBlocking, k);
    if j :| 0 <= j < |attempts| && attempts[j].create.Created?
            && forall i :: 0 <= i < j ==> Collides(attempts[i], nonBlocking) {
      assert j == k;
    }
  }

  /** A blocking Lock asks for the lock status until it is unlocked or the caller's own. */
  lemma {:induction false} LockWaitsForUnlocked(infos: seq<InfoReply>, me: ObjectId, k: nat)
    requires k < |infos|
    requires forall i :: 0 <= i < k ==> infos[i].Info? && infos[i].user != me && infos[i].status != Unlocked
    requires infos[k].Info? ==> infos[k].user == me || infos[k].status == Unlocked
    ensures PollResult(infos, me, false) == if infos[k].Info? then Ok(()) else Err(ServerError)
  {
    if k > 0 {
      LockWaitsForUnlocked(infos[1..], me, k - 1);
    }
  }

  /** Lock, given time, is refused only by a failing server: it succeeds exactly when an answer that
      lets it through comes before any failure. */
  lemma {:induction false} LockWaitsForRelease(attempts: seq<Attempt>, k: nat)
    requires k < |attempts|
    requires forall i :: 0 <= i < k ==> attempts[i].create == Exists
    requires attempts[k].create != Exists
    ensures CreateResult(attempts, false)
         == if attempts[k].create.Created? then Ok(attempts[k].create.id) else Err(ServerError)
  {
    if k > 0 {
      LockWaitsForRelease(attempts[1..], k - 1);
    }
  }
}
