/** Filtering a slice in place by overwriting an unwanted element with the last one, and the lookups
    by name that rest on it. */
module NameFilters {
  import opened Common

  /** Exactly the elements wanted, each as often as before. */
  ghost predicate KeepsExactly<T(!new)>(kept: seq<T>, all: seq<T>, wanted: T -> bool) {
    forall x :: multiset(kept)[x] == if wanted(x) then multiset(all)[x] else 0
  }

  /** Overwriting element i with the last one and cutting that off takes out element i. */
  lemma SwapWithLast<T>(s: seq<T>, i: nat)
    requires i < |s|
    ensures multiset(s[i := s[|s| - 1]][..|s| - 1]) == multiset(s) - multiset{s[i]}
  {
    var n := |s| - 1;
    assert s == s[..n] + [s[n]];
    if i < n {
      var t := s[..n];
      assert t == t[..i] + [t[i]] + t[i + 1..];
      assert s[i := s[n]][..n] == t[..i] + [s[n]] + t[i + 1..];
    } else {
      assert s[i := s[n]][..n] == s[..n];
    }
  }

  /** The overwriting and cutting off, in the first n elements. */
  method DeleteAt<T>(a: array<T>, n: nat, i: nat)
    requires i < n <= a.Length
    modifies a
    ensures multiset(a[..n - 1]) == old(multiset(a[..n])) - multiset{old(a[i])}
    ensures forall j :: 0 <= j < n - 1 ==> a[j] == if j == i then old(a[n - 1]) else old(a[j])
  {
    SwapWithLast(a[..n], i);
    ghost var next := a[..n][i := a[n - 1]][..n - 1];
    a[i] := a[n - 1];
    assert a[..n - 1] == next;
  }

  ghost predicate KeepsWanted<T(!new)>(kept: multiset<T>, all: multiset<T>, wanted: T -> bool) {
    forall x | wanted(x) :: kept[x] == all[x]
  }

  lemma DropsUnwanted<T(!new)>(kept: multiset<T>, next: multiset<T>, all: multiset<T>, wanted: T -> bool, x: T)
    requires KeepsWanted(kept, all, wanted) && !wanted(x) && next == kept - multiset{x}
    ensures KeepsWanted(next, all, wanted)
  {
  }

  lemma OnlyWanted<T(!new)>(s: seq<T>, all: seq<T>, wanted: T -> bool)
    requires forall j :: 0 <= j < |s| ==> wanted(s[j])
    requires KeepsWanted(multiset(s), multiset(all), wanted)
    ensures KeepsExactly(s, all, wanted)
  {
    forall x | !wanted(x) ensures multiset(s)[x] == 0 {
      assert x !in s;
    }
  }

  /** The loop of getBlueprintStatusesByName: from the front. The slice left is a[..n]. */
  method FilterForward<T(!new)>(a: array<T>, wanted: T -> bool) returns (n: nat)
    modifies a
    ensures n <= a.Length && KeepsExactly(a[..n], old(a[..]), wanted)
  {
    n := a.Length;
    ghost var all := multiset(a[..]);
    assert a[..n] == a[..];
    var i := 0;
    while i < n
      invariant i <= n <= a.Length
      invariant forall j :: 0 <= j < i ==> wanted(a[j])
      invariant KeepsWanted(multiset(a[..n]), all, wanted)
      decreases n - i
    {
      if !wanted(a[i]) {
        ghost var kept, x := multiset(a[..n]), a[i];
        DeleteAt(a, n, i);
        n := n - 1;
        DropsUnwanted(kept, multiset(a[..n]), all, wanted, x);
      } else {
        i := i + 1;
      }
    }
    OnlyWanted(a[..n], old(a[..]), wanted);
  }

  /** The loop of getIpPoolsByName and of the interface map digests: from the back. */
  method FilterBackward<T(!new)>(a: array<T>, wanted: T -> bool) returns (n: nat)
    modifies a
    ensures n <= a.Length && KeepsExactly(a[..n], old(a[..]), wanted)
  {
    n := a.Length;
    ghost var all := multiset(a[..]);
    assert a[..n] == a[..];
    var i := n - 1;
    while i >= 0
      invariant -1 <= i < n <= a.Length || (i == -1 && n == 0)
      invariant forall j :: i < j < n ==> wanted(a[j])
      invariant KeepsWanted(multiset(a[..n]), all, wanted)
      decreases i
    {
      if !wanted(a[i]) {
        ghost var kept, x := multiset(a[..n]), a[i];
        DeleteAt(a, n, i);
        n := n - 1;
        DropsUnwanted(kept, multiset(a[..n]), all, wanted, x);
      }
      i := i - 1;
    }
    OnlyWanted(a[..n], old(a[..]), wanted);
  }

  // ----- lookups by name -----

  datatype Named = Named(id: ObjectId, name: string, content: string)

  datatype LookupError = NotFound | MultipleMatch

  function HasName(name: string): Named -> bool {
    (x: Named) => x.name == name
  }

  /** How many of the list bear the name. */
  function CountNamed(all: seq<Named>, name: string): nat {
    if all == [] then 0 else (if all[0].name == name then 1 else 0) + CountNamed(all[1..], name)
  }

  lemma {:induction false} KeptAreCounted(kept: seq<Named>, all: seq<Named>, name: string)
    requires KeepsExactly(kept, all, HasName(name))
    ensures |kept| == CountNamed(all, name)
    decreases |all|
  {
    if all == [] {
      assert forall x <- kept :: multiset(kept)[x] > 0;
    } else {
      var x := all[0];
      assert all == [x] + all[1..];
      assert multiset(all) == multiset{x} + multiset(all[1..]);
      if x.name == name {
        assert multiset(kept)[x] > 0;
        var k := FindAndRemove(x, kept);
        KeptAreCounted(Without(kept, k), all[1..], name);
      } else {
        KeptAreCounted(kept, all[1..], name);
      }
    }
  }

  /** What a lookup by name answers. */
  ghost predicate IsLookup(r: Result<Named, LookupError>, all: seq<Named>, name: string) {
    match CountNamed(all, name)
    case 0 => r == Err(NotFound)
    case 1 => r.Ok? && r.value in all && r.value.name == name
    case _ => r == Err(MultipleMatch)
  }

  method OnlyOne(a: array<Named>, n: nat, ghost all: seq<Named>, name: string) returns (r: Result<Named, LookupError>)
    requires n <= a.Length && KeepsExactly(a[..n], all, HasName(name))
    ensures IsLookup(r, all, name)
  {
    KeptAreCounted(a[..n], all, name);
    if n == 0 {
      return Err(NotFound);
    }
    if n > 1 {
      return Err(MultipleMatch);
    }
    r := Ok(a[0]);
    assert multiset(a[..n])[a[0]] > 0;
    assert a[0] in multiset(all);
  }

  /** getBlueprintStatusByName. */
  method StatusByName(statuses: array<Named>, desired: string) returns (r: Result<Named, LookupError>)
    modifies statuses
    ensures IsLookup(r, old(statuses[..]), desired)
  {
    var n := FilterForward(statuses, HasName(desired));
    r := OnlyOne(statuses, n, old(statuses[..]), desired);
  }

  /** getIpPoolByName. */
  method PoolByName(pools: array<Named>, desired: string) returns (r: Result<Named, LookupError>)
    modifies pools
    ensures IsLookup(r, old(pools[..]), desired)
  {
    var n := FilterBackward(pools, HasName(desired));
    r := OnlyOne(pools, n, old(pools[..]), desired);
  }

  /** The answer does not depend on the order of the list or on the direction of the scan. */
  lemma LookupIsUnique(r: Result<Named, LookupError>, s: Result<Named, LookupError>,
                                          all: seq<Named>, permuted: seq<Named>, name: string)
    requires multiset(all) == multiset(permuted)
    requires IsLookup(r, all, name) && IsLookup(s, permuted, name)
    ensures r == s
  {
    CountIsOfMultiset(all, permuted, name);
    if CountNamed(all, name) == 1 {
      assert s.value in multiset(all);
      OnlyOneNamed(all, name, r.value, s.value);
    }
  }

  lemma CountIsOfMultiset(all: seq<Named>, permuted: seq<Named>, name: string)
    requires multiset(all) == multiset(permuted)
    ensures CountNamed(all, name) == CountNamed(permuted, name)
  {
    var kept := Wanted(all, HasName(name));
    WantedAreKept(all, HasName(name));
    KeptAreCounted(kept, all, name);
    KeptAreCounted(kept, permuted, name);
  }

  function Wanted<T>(all: seq<T>, wanted: T -> bool): seq<T> {
    if all == [] then [] else (if wanted(all[0]) then [all[0]] else []) + Wanted(all[1..], wanted)
  }

  lemma {:induction false} WantedAreKept<T(!new)>(all: seq<T>, wanted: T -> bool)
    ensures KeepsExactly(Wanted(all, wanted), all, wanted)
  {
    if all != [] {
      WantedAreKept(all[1..], wanted);
      assert all == [all[0]] + all[1..];
    }
  }

  lemma {:induction false} OnlyOneNamed(all: seq<Named>, name: string, x: Named, y: Named)
    requires CountNamed(all, name) == 1 && x in all && y in all && x.name == name && y.name == name
    ensures x == y
  {
    if all[0].name == name {
      NoneNamed(all[1..], name);
    } else {
      OnlyOneNamed(all[1..], name, x, y);
    }
  }

  lemma {:induction false} NoneNamed(all: seq<Named>, name: string)
    requires CountNamed(all, name) == 0
    ensures forall x <- all :: x.name != name
  {
    if all != [] {
      NoneNamed(all[1..], name);
    }
  }

  // ----- interface map digests -----

  datatype Digest = Digest(id: ObjectId, logicalDevice: ObjectId, deviceProfile: ObjectId)

  /** The loops of the three digest lookups. */
  method DigestsOf(items: array<Digest>, logicalDevice: Option<ObjectId>, deviceProfile: Option<ObjectId>)
    returns (n: nat)
    modifies items
    ensures n <= items.Length
    ensures forall x: Digest ::
              multiset(items[..n])[x]
              == if (logicalDevice == None || logicalDevice == Some(x.logicalDevice))
                    && (deviceProfile == None || deviceProfile == Some(x.deviceProfile))
                 then old(multiset(items[..]))[x] else 0
  {
    n := FilterBackward(items, Asked(logicalDevice, deviceProfile));
  }

  function Asked(logicalDevice: Option<ObjectId>, deviceProfile: Option<ObjectId>): Digest -> bool {
    (x: Digest) => (logicalDevice.None? || x.logicalDevice == logicalDevice.value)
                   && (deviceProfile.None? || x.deviceProfile == deviceProfile.value)
  }
}
