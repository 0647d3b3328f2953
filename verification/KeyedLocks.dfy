/** A client's mutexes by name, and the names of those that guard a blueprint's objects. */
module KeyedLocks {
  import opened Common

  datatype Panic = UnknownMutex | NotLocked

  class KeyMutex {
    var held: bool

    constructor Held()
      ensures held
    {
      held := true;
    }
  }

  class LockMap {
    var sync: map<string, KeyMutex>

    constructor ()
      ensures Valid() && sync == map[]
    {
      sync := map[];
    }

    ghost predicate Valid()
      reads this
    {
      forall a <- sync, b <- sync :: sync[a] == sync[b] ==> a == b
    }

    /** The part of lock() that runs under syncLock. A mutex made here is locked before anybody else
        can see it; for any other the caller goes on to wait, syncLock released. */
    method Enter(id: string) returns (mu: KeyMutex, waits: bool)
      requires Valid()
      modifies this
      ensures Valid() && waits == (id in old(sync))
      ensures waits ==> mu == old(sync[id])
      ensures !waits ==> fresh(mu) && mu.held
      ensures sync == old(sync)[id := mu]
    {
      if id in sync {
        mu, waits := sync[id], true;
      } else {
        mu := new KeyMutex.Held();
        waits := false;
        sync := sync[id := mu];
      }
    }

    /** unlock(): frees the named mutex and no other. */
    method Unlock(id: string) returns (r: Result<(), Panic>)
      requires Valid()
      modifies if id in sync then {sync[id]} else {}
      ensures r == if id !in sync then Err(UnknownMutex) else if old(sync[id].held) then Ok(()) else Err(NotLocked)
      ensures forall other <- sync :: sync[other].held == (other != id && old(sync[other].held))
    {
      if id !in sync {
        return Err(UnknownMutex);
      }
      if !sync[id].held {
        return Err(NotLocked);
      }
      sync[id].held := false;
      r := Ok(());
    }
  }

  const SEPARATOR := ':'

  function LockId(blueprint: ObjectId, ids: seq<ObjectId>): string {
    if ids == [] then blueprint.text
    else LockId(blueprint, ids[..|ids| - 1]) + [SEPARATOR] + ids[|ids| - 1].text
  }

  method BuildLockId(blueprint: ObjectId, ids: seq<ObjectId>) returns (buf: string)
    ensures buf == LockId(blueprint, ids)
  {
    buf := blueprint.text;
    for i := 0 to |ids|
      invariant buf == LockId(blueprint, ids[..i])
    {
      assert ids[..i + 1][..i] == ids[..i];
      buf := buf + [SEPARATOR] + ids[i].text;
    }
    assert ids[..|ids|] == ids;
  }

  /** Within a blueprint, two policies never share a lock. */
  lemma PolicyLocksApart(blueprint: ObjectId, a: ObjectId, b: ObjectId)
    ensures LockId(blueprint, [a]) == LockId(blueprint, [b]) <==> a == b
  {
    PolicyLock(blueprint, a);
    PolicyLock(blueprint, b);
    var n := |blueprint.text| + 1;
    assert LockId(blueprint, [a])[n..] == a.text;
    assert LockId(blueprint, [b])[n..] == b.text;
  }

  lemma PolicyLock(blueprint: ObjectId, id: ObjectId)
    ensures LockId(blueprint, [id]) == blueprint.text + ":" + id.text
  {
    assert [id][..0] == [];
  }
}
