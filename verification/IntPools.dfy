/** Ranges of an integer pool: what overlaps, and what adding and deleting a range does. */
module IntPools {
  import opened Common

  const LIMIT := 0x1_0000_0000

  type Uint32 = n: nat | n < LIMIT

  datatype Range = Range(first: Uint32, last: Uint32)

  datatype PoolError = Exists | Overlapping | RangeNotFound | ServerError

  predicate WellFormed(r: Range) {
    r.first <= r.last
  }

  predicate Contains(r: Range, n: int) {
    r.first <= n <= r.last
  }

  ghost predicate Share(a: Range, b: Range) {
    exists n :: Contains(a, n) && Contains(b, n)
  }

  function IntRangeOverlap(a: Range, b: Range): bool {
    if a.first >= b.first && a.first <= b.last then true
    else if a.last <= b.last && a.last >= b.first then true
    else if b.first >= a.first && b.first <= a.last then true
    else b.last <= a.last && b.last >= a.first
  }

  /** The comparison of ends finds every integer in common, and finds one where there is none only
      when a range given backwards has an end inside a proper one. */
  lemma OverlapMeansShare(a: Range, b: Range)
    ensures Share(a, b) ==> IntRangeOverlap(a, b)
    ensures (IntRangeOverlap(a, b) <==> Share(a, b)) <==> !Straddles(a, b) && !Straddles(b, a)
  {
    if WellFormed(a) && WellFormed(b) && IntRangeOverlap(a, b) {
      var n := if a.first <= b.first then b.first else a.first;
      assert Contains(a, n) && Contains(b, n);
    }
  }

  predicate Straddles(backwards: Range, r: Range) {
    !WellFormed(backwards) && (Contains(r, backwards.first) || Contains(r, backwards.last))
  }

  // ----- the searches -----

  method IndexOf(ranges: seq<Range>, b: Range) returns (index: int)
    ensures -1 <= index < |ranges|
    ensures index >= 0 ==> ranges[index] == b && b !in ranges[..index]
    ensures index < 0 ==> b !in ranges
  {
    for i := 0 to |ranges|
      invariant b !in ranges[..i]
    {
      if ranges[i].first == b.first && ranges[i].last == b.last {
        return i;
      }
    }
    index := -1;
  }

  method Overlaps(ranges: seq<Range>, b: Range) returns (found: bool)
    ensures found <==> exists a <- ranges :: IntRangeOverlap(a, b)
  {
    for i := 0 to |ranges|
      invariant forall j :: 0 <= j < i ==> !IntRangeOverlap(ranges[j], b)
    {
      if IntRangeOverlap(ranges[i], b) {
        return true;
      }
    }
    found := false;
  }

  // ----- adding and deleting -----

  function Created(ranges: seq<Range>, r: Range): Result<seq<Range>, PoolError> {
    if r in ranges then Err(Exists)
    else if exists a <- ranges :: IntRangeOverlap(a, r) then Err(Overlapping)
    else Ok(ranges + [r])
  }

  function First(ranges: seq<Range>, r: Range): (i: nat)
    requires r in ranges
    ensures i < |ranges| && ranges[i] == r && r !in ranges[..i]
  {
    if ranges[0] == r then 0 else First(ranges[1..], r) + 1
  }

  function Deleted(ranges: seq<Range>, r: Range): Result<seq<Range>, PoolError> {
    if r !in ranges then Err(RangeNotFound)
    else var i := First(ranges, r); Ok(ranges[..i] + ranges[i + 1..])
  }

  lemma FirstIsUnique(ranges: seq<Range>, r: Range, i: nat)
    requires i < |ranges| && ranges[i] == r && r !in ranges[..i]
    ensures First(ranges, r) == i
  {
    var j := First(ranges, r);
  }

  /** A pool on the server. Each call reads the ranges and then replaces them all; nobody else
      changes them in between. */
  class Pool {
    var ranges: seq<Range>

    constructor (ranges: seq<Range>)
      ensures this.ranges == ranges
    {
      this.ranges := ranges;
    }

    method CreateRange(newRange: Range, accepted: bool) returns (r: Result<(), PoolError>)
      modifies this
      ensures match Created(old(ranges), newRange)
              case Err(error) => r == Err(error) && ranges == old(ranges)
              case Ok(after) => if accepted then r == Ok(()) && ranges == after
                                else r == Err(ServerError) && ranges == old(ranges)
    {
      var index := IndexOf(ranges, newRange);
      if index >= 0 {
        return Err(Exists);
      }
      var overlaps := Overlaps(ranges, newRange);
      if overlaps {
        return Err(Overlapping);
      }
      var retrieved := ranges;
      var request := new Range[|retrieved| + 1](_ => newRange);
      for i := 0 to |retrieved|
        invariant request[..i] == retrieved[..i] && ranges == retrieved
      {
        request[i] := retrieved[i];
      }
      request[|retrieved|] := newRange;
      assert request[..] == retrieved + [newRange];
      if !accepted {
        return Err(ServerError);
      }
      ranges := request[..];
      r := Ok(());
    }

    method DeleteRange(deleteMe: Range, accepted: bool) returns (r: Result<(), PoolError>)
      modifies this
      ensures match Deleted(old(ranges), deleteMe)
              case Err(error) => r == Err(error) && ranges == old(ranges)
              case Ok(after) => if accepted then r == Ok(()) && ranges == after
                                else r == Err(ServerError) && ranges == old(ranges)
    {
      var deleteIdx := IndexOf(ranges, deleteMe);
      if deleteIdx < 0 {
        return Err(RangeNotFound);
      }
      FirstIsUnique(ranges, deleteMe, deleteIdx);
      var request := [];
      for i := 0 to |ranges|
        invariant request == if i <= deleteIdx then ranges[..i] else ranges[..deleteIdx] + ranges[deleteIdx + 1..i]
      {
        if i == deleteIdx {
          continue;
        }
        request := request + [ranges[i]];
      }
      assert ranges[deleteIdx + 1..|ranges|] == ranges[deleteIdx + 1..];
      if !accepted {
        return Err(ServerError);
      }
      ranges := request;
      r := Ok(());
    }
  }

  // ----- what is kept -----

  ghost predicate Disjoint(ranges: seq<Range>) {
    forall i, j :: 0 <= i < j < |ranges| ==> !Share(ranges[i], ranges[j])
  }

  function Between(first: int, last: int): (between: set<int>)
    ensures forall n :: n in between <==> first <= n <= last
    decreases last - first
  {
    if first > last then {} else Between(first, last - 1) + {last}
  }

  function Integers(r: Range): set<int> {
    Between(r.first, r.last)
  }

  function Covered(ranges: seq<Range>): set<int> {
    if ranges == [] then {} else Covered(ranges[..|ranges| - 1]) + Integers(ranges[|ranges| - 1])
  }

  function Size(r: Range): nat {
    if WellFormed(r) then r.last - r.first + 1 else 0
  }

  function TotalSize(ranges: seq<Range>): nat {
    if ranges == [] then 0 else TotalSize(ranges[..|ranges| - 1]) + Size(ranges[|ranges| - 1])
  }

  lemma {:induction false} CountBetween(first: int, last: int)
    requires first <= last + 1
    ensures |Between(first, last)| == last - first + 1
    decreases last - first
  {
    if first <= last {
      CountBetween(first, last - 1);
    }
  }

  lemma {:induction false} CoveredBySome(ranges: seq<Range>, n: int)
    ensures n in Covered(ranges) <==> exists r <- ranges :: Contains(r, n)
  {
    if ranges != [] {
      var before, last := ranges[..|ranges| - 1], ranges[|ranges| - 1];
      CoveredBySome(before, n);
      assert forall r :: r in ranges <==> r in before || r == last by { assert ranges == before + [last]; }
      assert n in Integers(last) <==> Contains(last, n);
    }
  }

  /** Whatever range is added, proper or not, disjoint ranges stay disjoint; and the integers covered
      grow by exactly the size of the new range. */
  lemma CreateKeepsDisjoint(ranges: seq<Range>, r: Range)
    requires Disjoint(ranges) && Created(ranges, r).Ok?
    ensures Disjoint(Created(ranges, r).value)
    ensures Covered(Created(ranges, r).value) == Covered(ranges) + Integers(r)
    ensures |Covered(Created(ranges, r).value)| == |Covered(ranges)| + Size(r)
  {
    var after := ranges + [r];
    assert after[..|ranges|] == ranges;
    forall i | 0 <= i < |ranges| ensures !Share(ranges[i], r) {
      assert ranges[i] in ranges;
      OverlapMeansShare(ranges[i], r);
    }
    forall n | n in Covered(ranges) ensures n !in Integers(r) {
      CoveredBySome(ranges, n);
      var a :| a in ranges && Contains(a, n);
      assert Contains(r, n) ==> Share(a, r);
    }
    CountOfRange(r);
  }

  lemma CountOfRange(r: Range)
    ensures |Integers(r)| == Size(r)
  {
    if WellFormed(r) {
      CountBetween(r.first, r.last);
    }
  }

  /** The sizes of disjoint ranges add up to what they cover. */
  lemma {:induction false} SizesAddUp(ranges: seq<Range>)
    requires Disjoint(ranges)
    ensures |Covered(ranges)| == TotalSize(ranges)
  {
    if ranges != [] {
      var before, last := ranges[..|ranges| - 1], ranges[|ranges| - 1];
      SizesAddUp(before);
      CountOfRange(last);
      forall n | n in Covered(before) ensures n !in Integers(last) {
        CoveredBySome(before, n);
        var i :| 0 <= i < |before| && Contains(before[i], n);
        assert !Share(ranges[i], ranges[|ranges| - 1]);
      }
    }
  }

  /** A range is added exactly when it has no integer in common with a range already there; for
      proper ranges. */
  lemma CreatesExactly(ranges: seq<Range>, r: Range)
    requires WellFormed(r) && forall a <- ranges :: WellFormed(a)
    ensures Created(ranges, r).Ok? <==> forall a <- ranges :: !Share(a, r)
    ensures Created(ranges, r) == Err(Exists) <==> r in ranges
    ensures Created(ranges, r) == Err(Overlapping) <==> r !in ranges && exists a <- ranges :: Share(a, r)
  {
    forall a <- ranges ensures IntRangeOverlap(a, r) <==> Share(a, r) {
      OverlapMeansShare(a, r);
    }
    if r in ranges {
      assert Contains(r, r.first);
      assert Share(r, r);
    }
  }

  lemma DeleteUndoesCreate(ranges: seq<Range>, r: Range)
    requires Created(ranges, r).Ok?
    ensures Deleted(Created(ranges, r).value, r) == Ok(ranges)
  {
    var after := ranges + [r];
    assert after[..|ranges|] == ranges;
    assert after[|ranges|] == r && r !in after[..|ranges|];
    FirstIsUnique(after, r, |ranges|);
    assert after[|ranges| + 1..] == [] && ranges + [] == ranges;
  }

  lemma DeleteKeepsDisjoint(ranges: seq<Range>, r: Range)
    requires Disjoint(ranges) && Deleted(ranges, r).Ok?
    ensures Disjoint(Deleted(ranges, r).value)
    ensures multiset(Deleted(ranges, r).value) == multiset(ranges) - multiset{r}
  {
    var i := First(ranges, r);
    var after := Deleted(ranges, r).value;
    assert ranges == ranges[..i] + [r] + ranges[i + 1..];
    forall j, k | 0 <= j < k < |after| ensures !Share(after[j], after[k]) {
      assert after[j] == ranges[if j < i then j else j + 1] && after[k] == ranges[if k < i then k else k + 1];
    }
  }

  /** A range given backwards is refused although it has no integer at all. */
  lemma BackwardsIsRefused()
    ensures Created([Range(1, 10)], Range(5, 3)) == Err(Overlapping)
    ensures Integers(Range(5, 3)) == {}
  {
    assert Range(1, 10) in [Range(1, 10)];
  }
}
