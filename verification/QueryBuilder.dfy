/** Queries as they are built: linked elements that calls append to, and match queries that hold
    references to other queries, which may go on changing and may be held more than once. */
module QueryBuilder {
  import opened QueryValues

  class Element<T> {
    const item: T
    ghost const owner: object
    var next: Element?<T>

    constructor (item: T, ghost owner: object)
      ensures this.item == item && this.owner == owner && next == null
    {
      this.item, this.owner, next := item, owner, null;
    }

    /** Walks to the end of the chain it begins. */
    method GetLast(ghost chain: seq<Element<T>>) returns (last: Element<T>)
      requires chain != [] && chain[0] == this && Linked(chain)
      ensures last == chain[|chain| - 1]
    {
      last := this;
      var following := last.next;
      ghost var i := 0;
      while following != null
        invariant i < |chain| && last == chain[i]
        invariant following == if i + 1 < |chain| then chain[i + 1] else null
        decreases |chain| - i
      {
        last := following;
        following := last.next;
        i := i + 1;
      }
    }
  }

  /** The elements are the whole of a chain: each leads to the next and the last to none. */
  ghost predicate Linked<T>(chain: seq<Element<T>>)
    reads chain
  {
    && (forall i, j :: 0 <= i < j < |chain| ==> chain[i] != chain[j])
    && (forall i :: 0 <= i < |chain| - 1 ==> chain[i].next == chain[i + 1])
    && (chain != [] ==> chain[|chain| - 1].next == null)
  }

  /** A chain that belongs to a query, and begins where the query says. */
  ghost predicate IsChain<T>(owner: object, first: Element?<T>, chain: seq<Element<T>>)
    reads chain
  {
    && Linked(chain) && first == (if chain == [] then null else chain[0])
    && forall e <- chain :: e.owner == owner
  }

  ghost function ItemsOf<T>(chain: seq<Element<T>>): (items: seq<T>)
    ensures |items| == |chain|
  {
    seq(|chain|, i requires 0 <= i < |chain| => chain[i].item)
  }

  /** The one element that an addition writes to. */
  ghost function LastOf<T>(chain: seq<Element<T>>): set<Element<T>> {
    if chain == [] then {} else {chain[|chain| - 1]}
  }

  class PathQuery {
    var firstElement: Element?<PathItem>
    var wheres: seq<string>
    var optional: bool
    ghost var chain: seq<Element<PathItem>>

    ghost predicate Valid()
      reads this, chain
    {
      IsChain(this, firstElement, chain)
    }

    constructor ()
      ensures Valid() && chain == [] && wheres == [] && !optional
    {
      firstElement, wheres, optional, chain := null, [], false, [];
    }

    method SetOptional()
      modifies this`optional
      ensures optional
    {
      optional := true;
    }

    method Where(where: string)
      modifies this`wheres
      ensures wheres == old(wheres) + [where]
    {
      wheres := wheres + [where];
    }

    /** addElement, and with it Node, In and Out. */
    method AddElement(item: PathItem)
      requires Valid()
      modifies this`firstElement, this`chain, LastOf(chain)`next
      ensures Valid() && ItemsOf(chain) == old(ItemsOf(chain)) + [item]
      ensures |chain| == old(|chain|) + 1 && chain[..|chain| - 1] == old(chain) && fresh(chain[|chain| - 1])
    {
      var newElement := new Element(item, this);
      if firstElement == null {
        firstElement := newElement;
      } else {
        var last := firstElement.GetLast(chain);
        last.next := newElement;
      }
      chain := chain + [newElement];
    }

    method String() returns (s: string)
      requires Valid()
      ensures s == Text(PathValue(ItemsOf(chain), wheres, optional))
    {
      s := "";
      ghost var i := 0;
      var following := firstElement;
      ghost var items := ItemsOf(chain);
      if firstElement != null {
        s := PathItemText(firstElement.item);
        following := firstElement.next;
        i := 1;
        assert PathTexts(items[..1]) == [s];
      }
      while following != null
        invariant i <= |chain| && (chain != [] ==> i > 0)
        invariant following == if i < |chain| then chain[i] else null
        invariant s == Separated(PathTexts(items[..i]), ".")
        decreases |chain| - i
      {
        OneMore(items, i);
        s := s + "." + PathItemText(following.item);
        following := following.next;
        i := i + 1;
      }
      assert items[..i] == items;
      s := AppendWheres(s, wheres);
      if optional {
        s := "optional(" + s + ")";
      }
    }
  }

  lemma OneMore(items: seq<PathItem>, i: nat)
    requires 0 < i < |items|
    ensures Separated(PathTexts(items[..i + 1]), ".")
         == Separated(PathTexts(items[..i]), ".") + "." + PathItemText(items[i])
  {
    var texts := PathTexts(items[..i + 1]);
    assert texts[..i] == PathTexts(items[..i]) && texts[i] == PathItemText(items[i]);
  }

  method AppendWheres(prefix: string, wheres: seq<string>) returns (s: string)
    ensures s == prefix + WheresText(wheres)
  {
    s := prefix;
    for i := 0 to |wheres|
      invariant s == prefix + WheresText(wheres[..i])
    {
      assert wheres[..i + 1][..i] == wheres[..i];
      s := s + (".where(" + wheres[i] + ")");
    }
    assert wheres[..|wheres|] == wheres;
  }

  class RawQuery {
    var text: string
    var optional: bool

    constructor ()
      ensures text == "" && !optional
    {
      text, optional := "", false;
    }

    method SetOptional()
      modifies this`optional
      ensures optional
    {
      optional := true;
    }

    method SetQuery(query: string)
      modifies this`text
      ensures text == query
    {
      text := query;
    }

    method String() returns (s: string)
      ensures s == Text(RawValue(text, optional))
    {
      s := if optional then "optional(" + text + ")" else text;
    }
  }

  /** Whatever can be asked of the query engine. */
  datatype AnyQuery = OfPath(path: PathQuery) | OfMatch(matching: MatchQuery) | OfRaw(raw: RawQuery)

  function ObjectOf(q: AnyQuery): object {
    match q
    case OfPath(path) => path
    case OfMatch(matching) => matching
    case OfRaw(raw) => raw
  }

  class MatchQuery {
    var matches: seq<AnyQuery>
    var firstElement: Element?<MatchItem>
    var wheres: seq<string>
    var optional: bool
    ghost var chain: seq<Element<MatchItem>>

    ghost predicate Valid()
      reads this, chain
    {
      IsChain(this, firstElement, chain)
    }

    constructor ()
      ensures Valid() && matches == [] && chain == [] && wheres == [] && !optional
    {
      matches, firstElement, wheres, optional, chain := [], null, [], false, [];
    }

    method SetOptional()
      modifies this`optional
      ensures optional
    {
      optional := true;
    }

    method Where(where: string)
      modifies this`wheres
      ensures wheres == old(wheres) + [where]
    {
      wheres := wheres + [where];
    }

    /** Distinct, by way of addElement. */
    method Distinct(names: seq<string>)
      requires Valid()
      modifies this`firstElement, this`chain, LastOf(chain)`next
      ensures Valid() && ItemsOf(chain) == old(ItemsOf(chain)) + [MatchItem.Distinct(names)]
      ensures |chain| == old(|chain|) + 1 && chain[..|chain| - 1] == old(chain) && fresh(chain[|chain| - 1])
    {
      var newElement := new Element(MatchItem.Distinct(names), this);
      if firstElement == null {
        firstElement := newElement;
      } else {
        var last := firstElement.GetLast(chain);
        last.next := newElement;
      }
      chain := chain + [newElement];
    }

    method Match(q: AnyQuery)
      modifies this`matches
      ensures matches == old(matches) + [q]
    {
      matches := matches + [q];
    }
  }

  // ----- a family of queries -----

  ghost function PathChain(q: AnyQuery): seq<Element<PathItem>>
    reads ObjectOf(q)
  {
    if q.OfPath? then q.path.chain else []
  }

  ghost function MatchChain(q: AnyQuery): seq<Element<MatchItem>>
    reads ObjectOf(q)
  {
    if q.OfMatch? then q.matching.chain else []
  }

  ghost function ChainsOf(q: AnyQuery): (seq<Element<PathItem>>, seq<Element<MatchItem>>)
    reads ObjectOf(q)
  {
    (PathChain(q), MatchChain(q))
  }

  ghost predicate IsValid(q: AnyQuery)
    reads ObjectOf(q), PathChain(q), MatchChain(q)
  {
    match q
    case OfPath(p) => p.Valid()
    case OfMatch(m) => m.Valid()
    case OfRaw(_) => true
  }

  /** The query is as its definition has it, and holds the queries of these numbers. */
  ghost predicate IsDefined(q: AnyQuery, def: Def, queries: seq<AnyQuery>)
    reads ObjectOf(q)
  {
    match q
    case OfPath(p) => def == PathDef(ItemsOf(p.chain), p.wheres, p.optional)
    case OfMatch(m) =>
      && def.MatchDef? && def.operations == ItemsOf(m.chain) && def.wheres == m.wheres
      && def.optional == m.optional && HoldsThese(m.matches, def.matches, queries)
    case OfRaw(r) => def == RawDef(r.text, r.optional)
  }

  predicate HoldsThese(held: seq<AnyQuery>, numbers: seq<nat>, queries: seq<AnyQuery>) {
    |held| == |numbers| && forall k :: 0 <= k < |held| ==> numbers[k] < |queries| && held[k] == queries[numbers[k]]
  }

  ghost predicate Apart(queries: seq<AnyQuery>) {
    forall i, j :: 0 <= i < j < |queries| ==> ObjectOf(queries[i]) != ObjectOf(queries[j])
  }

  ghost predicate AreDefined(queries: seq<AnyQuery>, defs: seq<Def>)
    reads *
  {
    && |queries| == |defs| && Apart(queries)
    && (forall i :: 0 <= i < |queries| ==> IsDefined(queries[i], defs[i], queries))
    && AllValid(queries)
  }

  /** A query more changes nothing about the others. */
  lemma StillDefined(queries: seq<AnyQuery>, defs: seq<Def>, q: AnyQuery, def: Def)
    requires AreDefined(queries, defs) && IsDefined(q, def, queries + [q]) && IsValid(q)
    requires forall i :: 0 <= i < |queries| ==> ObjectOf(queries[i]) != ObjectOf(q)
    ensures AreDefined(queries + [q], defs + [def])
  {
    forall i | 0 <= i < |queries| ensures IsDefined(queries[i], defs[i], queries + [q]) {
      assert IsDefined(queries[i], defs[i], queries);
    }
  }

  method Create(queries: seq<AnyQuery>, ghost defs: seq<Def>, call: Call) returns (q: AnyQuery)
    requires AreDefined(queries, defs) && (call.NewPath? || call.NewMatch? || call.NewRaw?)
    ensures AreDefined(queries + [q], After(defs, call)) && fresh(ObjectOf(q)) && ChainsOf(q) == ([], [])
  {
    match call {
      case NewPath =>
        var path := new PathQuery();
        q := OfPath(path);
      case NewMatch =>
        var matching := new MatchQuery();
        q := OfMatch(matching);
      case NewRaw =>
        var raw := new RawQuery();
        q := OfRaw(raw);
    }
    assert forall i :: 0 <= i < |queries| ==>
      old(IsDefined(queries[i], defs[i], queries)) && IsDefined(queries[i], defs[i], queries);
    assert forall p <- queries :: old(IsValid(p)) && IsValid(p);
    StillDefined(queries, defs, q, After(defs, call)[|defs|]);
  }

  ghost predicate AllValid(queries: seq<AnyQuery>)
    reads *
  {
    forall q <- queries :: IsValid(q)
  }

  /** Whatever is in a query's chain belongs to that query, and so is in no other's. */
  lemma Owners(queries: seq<AnyQuery>)
    requires AllValid(queries)
    ensures forall q, e: Element<PathItem> | q in queries && e in PathChain(q) :: e.owner == ObjectOf(q)
    ensures forall q, e: Element<MatchItem> | q in queries && e in MatchChain(q) :: e.owner == ObjectOf(q)
  {
    forall q | q in queries
      ensures forall e: Element<PathItem> | e in PathChain(q) :: e.owner == ObjectOf(q)
      ensures forall e: Element<MatchItem> | e in MatchChain(q) :: e.owner == ObjectOf(q)
    {
      assert IsValid(q);
    }
  }

  /** Only the receiver's own chain is written to, so the others stay valid. */
  method AddAt(queries: seq<AnyQuery>, on: nat, item: PathItem)
    requires Apart(queries) && AllValid(queries) && on < |queries| && queries[on].OfPath?
    modifies queries[on].path`firstElement, queries[on].path`chain, LastOf(queries[on].path.chain)`next
    ensures AllValid(queries) && ItemsOf(queries[on].path.chain) == old(ItemsOf(queries[on].path.chain)) + [item]
    ensures fresh(LastOf(queries[on].path.chain))
  {
    var q := queries[on];
    Owners(queries);
    assert forall e <- LastOf(q.path.chain) :: e in PathChain(q) && e.owner == q.path;
    q.path.AddElement(item);
    forall p | p in queries && p != q ensures IsValid(p) == old(IsValid(p)) {
      assert ObjectOf(p) != ObjectOf(q);
      assert forall e: Element<PathItem> | e in PathChain(p) :: e.next == old(e.next);
      assert forall e: Element<MatchItem> | e in MatchChain(p) :: e.next == old(e.next);
    }
  }

  /** Only the receiver's own chain is written to, so the others stay valid. */
  method DistinctAt(queries: seq<AnyQuery>, on: nat, names: seq<string>)
    requires Apart(queries) && AllValid(queries) && on < |queries| && queries[on].OfMatch?
    modifies queries[on].matching`firstElement, queries[on].matching`chain, LastOf(queries[on].matching.chain)`next
    ensures AllValid(queries)
    ensures ItemsOf(queries[on].matching.chain)
         == old(ItemsOf(queries[on].matching.chain)) + [MatchItem.Distinct(names)]
    ensures fresh(LastOf(queries[on].matching.chain))
  {
    var q := queries[on];
    Owners(queries);
    assert forall e <- LastOf(q.matching.chain) :: e in MatchChain(q) && e.owner == q.matching;
    q.matching.Distinct(names);
    forall p | p in queries && p != q ensures IsValid(p) == old(IsValid(p)) {
      assert ObjectOf(p) != ObjectOf(q);
      assert forall e: Element<PathItem> | e in PathChain(p) :: e.next == old(e.next);
      assert forall e: Element<MatchItem> | e in MatchChain(p) :: e.next == old(e.next);
    }
  }

  // One call on a query that exists: the other queries, also those that hold it, keep their fields.

  method CallAdd(queries: seq<AnyQuery>, ghost defs: seq<Def>, on: nat, item: PathItem)
    requires AreDefined(queries, defs) && on < |defs| && defs[on].PathDef? && queries[on].OfPath?
    modifies queries[on].path`firstElement, queries[on].path`chain, LastOf(queries[on].path.chain)`next
    ensures AreDefined(queries, defs[on := WithItem(defs[on], item)])
    ensures forall i :: 0 <= i < |queries| && i != on ==> ChainsOf(queries[i]) == old(ChainsOf(queries[i]))
    ensures fresh(LastOf(PathChain(queries[on])))
  {
    assert IsDefined(queries[on], defs[on], queries);
    AddAt(queries, on, item);
    forall i | 0 <= i < |queries| && i != on
      ensures IsDefined(queries[i], defs[i], queries) == old(IsDefined(queries[i], defs[i], queries))
      ensures ChainsOf(queries[i]) == old(ChainsOf(queries[i]))
    {
      assert ObjectOf(queries[i]) != ObjectOf(queries[on]);
    }
  }

  method CallWhere(queries: seq<AnyQuery>, ghost defs: seq<Def>, on: nat, where: string)
    requires AreDefined(queries, defs) && on < |defs| && !defs[on].RawDef?
    modifies ObjectOf(queries[on])
    ensures AreDefined(queries, defs[on := WithWhere(defs[on], where)])
    ensures forall q <- queries :: ChainsOf(q) == old(ChainsOf(q))
  {
    var q := queries[on];
    assert IsDefined(q, defs[on], queries) && IsValid(q);
    if q.OfPath? {
      q.path.Where(where);
    } else {
      q.matching.Where(where);
    }
    forall i | 0 <= i < |queries| && i != on
      ensures IsDefined(queries[i], defs[i], queries) == old(IsDefined(queries[i], defs[i], queries))
      ensures IsValid(queries[i]) == old(IsValid(queries[i]))
    {
      assert ObjectOf(queries[i]) != ObjectOf(q);
    }
  }

  method CallDistinct(queries: seq<AnyQuery>, ghost defs: seq<Def>, on: nat, names: seq<string>)
    requires AreDefined(queries, defs) && on < |defs| && defs[on].MatchDef? && queries[on].OfMatch?
    modifies queries[on].matching`firstElement, queries[on].matching`chain, LastOf(queries[on].matching.chain)`next
    ensures AreDefined(queries, defs[on := WithOperation(defs[on], Distinct(names))])
    ensures forall i :: 0 <= i < |queries| && i != on ==> ChainsOf(queries[i]) == old(ChainsOf(queries[i]))
    ensures fresh(LastOf(MatchChain(queries[on])))
  {
    assert IsDefined(queries[on], defs[on], queries);
    DistinctAt(queries, on, names);
    forall i | 0 <= i < |queries| && i != on
      ensures IsDefined(queries[i], defs[i], queries) == old(IsDefined(queries[i], defs[i], queries))
      ensures ChainsOf(queries[i]) == old(ChainsOf(queries[i]))
    {
      assert ObjectOf(queries[i]) != ObjectOf(queries[on]);
    }
  }

  method CallMatch(queries: seq<AnyQuery>, ghost defs: seq<Def>, on: nat, held: nat)
    requires AreDefined(queries, defs) && on < |defs| && defs[on].MatchDef? && held < |defs|
    modifies ObjectOf(queries[on])
    ensures AreDefined(queries, defs[on := Holding(defs[on], held)])
    ensures forall q <- queries :: ChainsOf(q) == old(ChainsOf(q))
  {
    var q := queries[on];
    assert IsDefined(q, defs[on], queries) && IsValid(q);
    q.matching.Match(queries[held]);
    forall i | 0 <= i < |queries| && i != on
      ensures IsDefined(queries[i], defs[i], queries) == old(IsDefined(queries[i], defs[i], queries))
      ensures IsValid(queries[i]) == old(IsValid(queries[i]))
    {
      assert ObjectOf(queries[i]) != ObjectOf(q);
    }
  }

  method CallSetQuery(queries: seq<AnyQuery>, ghost defs: seq<Def>, on: nat, query: string)
    requires AreDefined(queries, defs) && on < |defs| && defs[on].RawDef?
    modifies ObjectOf(queries[on])
    ensures AreDefined(queries, defs[on := RawDef(query, defs[on].optional)])
    ensures forall q <- queries :: ChainsOf(q) == old(ChainsOf(q))
  {
    var q := queries[on];
    assert IsDefined(q, defs[on], queries) && IsValid(q);
    q.raw.SetQuery(query);
    forall i | 0 <= i < |queries| && i != on
      ensures IsDefined(queries[i], defs[i], queries) == old(IsDefined(queries[i], defs[i], queries))
      ensures IsValid(queries[i]) == old(IsValid(queries[i]))
    {
      assert ObjectOf(queries[i]) != ObjectOf(q);
    }
  }

  /** setOptional, of whichever kind of query. */
  method MarkOptional(queries: seq<AnyQuery>, ghost defs: seq<Def>, on: nat)
    requires AreDefined(queries, defs) && on < |defs|
    modifies ObjectOf(queries[on])
    ensures AreDefined(queries, defs[on := MadeOptional(defs[on])])
    ensures forall q <- queries :: ChainsOf(q) == old(ChainsOf(q))
  {
    var q := queries[on];
    assert IsDefined(q, defs[on], queries) && IsValid(q);
    match q {
      case OfPath(path) => path.SetOptional();
      case OfMatch(matching) => matching.SetOptional();
      case OfRaw(raw) => raw.SetOptional();
    }
    forall i | 0 <= i < |queries| && i != on
      ensures IsDefined(queries[i], defs[i], queries) == old(IsDefined(queries[i], defs[i], queries))
      ensures IsValid(queries[i]) == old(IsValid(queries[i]))
    {
      assert ObjectOf(queries[i]) != ObjectOf(q);
    }
  }

  /** MatchQuery.Optional: makes the query it is given optional, wherever else it is held, and matches it. */
  method CallOptional(queries: seq<AnyQuery>, ghost defs: seq<Def>, on: nat, held: nat)
    requires AreDefined(queries, defs) && Applies(defs, Call.HoldOptional(on, held))
    modifies ObjectOf(queries[on]), ObjectOf(queries[held])
    ensures AreDefined(queries, After(defs, Call.HoldOptional(on, held)))
    ensures forall q <- queries :: ChainsOf(q) == old(ChainsOf(q))
  {
    MarkOptional(queries, defs, held);
    CallMatch(queries, defs[held := MadeOptional(defs[held])], on, held);
  }

  /** One call that creates nothing. An element that is written to from then on is a new one. */
  method CallOn(queries: seq<AnyQuery>, ghost defs: seq<Def>, call: Call)
    requires AreDefined(queries, defs) && Applies(defs, call) && !call.NewPath? && !call.NewMatch? && !call.NewRaw?
    modifies ObjectOf(queries[call.on]), LastOf(PathChain(queries[call.on])), LastOf(MatchChain(queries[call.on]))
    modifies if call.HoldOptional? then {ObjectOf(queries[call.held])} else {}
    ensures AreDefined(queries, After(defs, call))
    ensures forall q <- queries ::
      (PathChain(q) == old(PathChain(q)) || fresh(LastOf(PathChain(q))))
      && (MatchChain(q) == old(MatchChain(q)) || fresh(LastOf(MatchChain(q))))
  {
    assert IsDefined(queries[call.on], defs[call.on], queries);
    match call
    case Add(on, item) => CallAdd(queries, defs, on, item);
    case Where(on, where) => CallWhere(queries, defs, on, where);
    case AddDistinct(on, names) => CallDistinct(queries, defs, on, names);
    case Hold(on, held) => CallMatch(queries, defs, on, held);
    case HoldOptional(on, held) => CallOptional(queries, defs, on, held);
    case SetQuery(on, query) => CallSetQuery(queries, defs, on, query);
  }

  /** Any calls in any order, on any number of queries that may hold each other, leave queries that are
      as the calls say, each with a chain of elements that ends. */
  method Build(calls: seq<Call>) returns (queries: seq<AnyQuery>)
    requires IsProgram(calls)
    ensures AreDefined(queries, AfterAll(calls))
  {
    queries := [];
    ghost var defs := [];
    for i := 0 to |calls|
      invariant IsProgram(calls[..i]) && defs == AfterAll(calls[..i]) && AreDefined(queries, defs)
      invariant forall q <- queries ::
        fresh(ObjectOf(q)) && fresh(LastOf(PathChain(q))) && fresh(LastOf(MatchChain(q)))
    {
      ProgramStep(calls, i);
      if calls[i].NewPath? || calls[i].NewMatch? || calls[i].NewRaw? {
        var q := Create(queries, defs, calls[i]);
        assert forall p :: p in queries + [q] <==> p in queries || p == q;
        queries := queries + [q];
      } else {
        CallOn(queries, defs, calls[i]);
      }
      defs := After(defs, calls[i]);
    }
    assert calls[..|calls|] == calls;
  }

  lemma ProgramStep(calls: seq<Call>, i: nat)
    requires IsProgram(calls) && i < |calls|
    ensures IsProgram(calls[..i]) && Applies(AfterAll(calls[..i]), calls[i])
    ensures IsProgram(calls[..i + 1]) && AfterAll(calls[..i + 1]) == After(AfterAll(calls[..i]), calls[i])
  {
    ProgramPrefix(calls, i + 1);
    assert calls[..i + 1][..i] == calls[..i];
  }

  lemma {:induction false} ProgramPrefix(calls: seq<Call>, i: nat)
    requires IsProgram(calls) && i <= |calls|
    ensures IsProgram(calls[..i])
    decreases |calls|
  {
    if i < |calls| {
      ProgramPrefix(calls[..|calls| - 1], i);
      assert calls[..|calls| - 1][..i] == calls[..i];
    } else {
      assert calls[..i] == calls;
    }
  }

  // ----- the text of a query that holds others -----

  /** String(), of whichever kind of query. It ends because no query holds itself. */
  method StringOf(q: AnyQuery, ghost queries: seq<AnyQuery>, ghost defs: seq<Def>, ghost i: nat, ghost depth: nat)
    returns (s: string)
    requires AreDefined(queries, defs) && i < |queries| && queries[i] == q && Nested(defs, i, depth)
    ensures AreDefined(queries, defs) && s == Text(Unfold(defs, i, depth))
    decreases depth, 1
  {
    assert IsDefined(q, defs[i], queries) && IsValid(q);
    if q.OfPath? {
      s := q.path.String();
    } else if q.OfRaw? {
      s := q.raw.String();
    } else {
      s := MatchString(q.matching, queries, defs, i, depth);
    }
  }

  method MatchString(m: MatchQuery, ghost queries: seq<AnyQuery>, ghost defs: seq<Def>, ghost i: nat, ghost depth: nat)
    returns (s: string)
    requires AreDefined(queries, defs) && i < |queries| && queries[i] == OfMatch(m) && Nested(defs, i, depth)
    requires IsDefined(OfMatch(m), defs[i], queries)
    ensures AreDefined(queries, defs) && s == Text(Unfold(defs, i, depth))
    decreases depth, 0
  {
    s := MatchesText(m.matches, queries, defs, defs[i].matches, depth - 1);
    assert IsValid(queries[i]) && IsDefined(queries[i], defs[i], queries);
    s := FinishMatch(s, m.firstElement, m.chain, m.wheres, m.optional);
  }

  /** What String writes around and after the queries matched. */
  method FinishMatch(matchesText: string, first: Element?<MatchItem>, ghost chain: seq<Element<MatchItem>>,
                     wheres: seq<string>, optional: bool) returns (s: string)
    requires Linked(chain) && first == (if chain == [] then null else chain[0])
    ensures s == Wrapped("match(" + matchesText + ")" + OperationsText(ItemsOf(chain)) + WheresText(wheres), optional)
  {
    s := "match(" + matchesText + ")";
    s := AppendOperations(s, first, chain);
    s := AppendWheres(s, wheres);
    if optional {
      s := "optional(" + s + ")";
    }
  }

  method MatchesText(held: seq<AnyQuery>, ghost queries: seq<AnyQuery>, ghost defs: seq<Def>, ghost numbers: seq<nat>,
                     ghost depth: nat) returns (s: string)
    requires AreDefined(queries, defs) && HoldsThese(held, numbers, queries)
    requires forall j <- numbers :: Nested(defs, j, depth)
    ensures AreDefined(queries, defs) && s == Separated(Texts(UnfoldAll(defs, numbers, depth)), ",")
    decreases depth, 2
  {
    ghost var values := UnfoldAll(defs, numbers, depth);
    s := "";
    for k := 0 to |held|
      invariant AreDefined(queries, defs) && s == Separated(Texts(values[..k]), ",")
    {
      if k != 0 {
        s := s + ",";
      }
      assert numbers[k] in numbers;
      var text := StringOf(held[k], queries, defs, numbers[k], depth);
      s := s + text;
      OneMoreMatch(values, k);
    }
    assert values[..|held|] == values;
  }

  lemma OneMoreMatch(values: seq<Query>, i: nat)
    requires i < |values|
    ensures Separated(Texts(values[..i + 1]), ",")
         == Separated(Texts(values[..i]), ",") + (if i == 0 then "" else ",") + Text(values[i])
  {
    assert values[..i + 1][..i] == values[..i];
    assert Texts(values[..i + 1]) == Texts(values[..i]) + [Text(values[i])];
    if i > 0 {
      assert (Texts(values[..i]) + [Text(values[i])])[..i] == Texts(values[..i]);
    }
  }

  method AppendOperations(prefix: string, first: Element?<MatchItem>, ghost chain: seq<Element<MatchItem>>)
    returns (s: string)
    requires Linked(chain) && first == (if chain == [] then null else chain[0])
    ensures s == prefix + OperationsText(ItemsOf(chain))
  {
    s := prefix;
    ghost var items := ItemsOf(chain);
    ghost var i := 0;
    var following := first;
    while following != null
      invariant i <= |chain| && following == if i < |chain| then chain[i] else null
      invariant s == prefix + OperationsText(items[..i])
      decreases |chain| - i
    {
      OneMoreOperation(prefix, items, i);
      s := s + ("." + MatchItemText(following.item));
      following := following.next;
      i := i + 1;
    }
    assert items[..i] == items;
  }

  lemma OneMoreOperation(prefix: string, items: seq<MatchItem>, i: nat)
    requires i < |items|
    ensures prefix + OperationsText(items[..i + 1])
         == prefix + OperationsText(items[..i]) + ("." + MatchItemText(items[i]))
  {
    assert items[..i + 1][..i] == items[..i];
  }
}
