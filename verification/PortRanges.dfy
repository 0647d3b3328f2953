/** Port ranges of a policy rule and the text the API has for a list of them. */
module PortRanges {
  import opened Common
  import opened DecimalText

  const MAX_PORT := 65535

  type Port = p: nat | p <= MAX_PORT

  datatype PortRange = PortRange(first: Port, last: Port)

  datatype PortError = BadNumber(error: NumberError) | BadRange

  const ANY := "any"

  function Low(r: PortRange): Port {
    if r.first <= r.last then r.first else r.last
  }

  function High(r: PortRange): Port {
    if r.first <= r.last then r.last else r.first
  }

  function Normal(r: PortRange): PortRange {
    PortRange(Low(r), High(r))
  }

  predicate Covers(r: PortRange, p: Port) {
    r.first <= p <= r.last || r.last <= p <= r.first
  }

  function RangeText(r: PortRange): string {
    if r.first == r.last then Itoa(r.first)
    else if r.first < r.last then Itoa(r.first) + "-" + Itoa(r.last)
    else Itoa(r.last) + "-" + Itoa(r.first)
  }

  // ----- parsing -----

  function ParsePort(s: string): Result<Port, PortError> {
    match Number(s, MAX_PORT)
    case Ok(n) => AcceptsExactly(s, MAX_PORT); Ok(n)
    case Err(error) => Err(BadNumber(error))
  }

  function ParseRange(raw: string): Result<PortRange, PortError> {
    var portStrs := Split(raw, '-');
    if |portStrs| == 1 then
      var first :- ParsePort(raw);
      Ok(PortRange(first, first))
    else if |portStrs| == 2 then
      var first :- ParsePort(portStrs[0]);
      var last :- ParsePort(portStrs[1]);
      Ok(PortRange(first, last))
    else Err(BadRange)
  }

  function ParseAll(raws: seq<string>): Result<seq<PortRange>, PortError> {
    if raws == [] then Ok([]) else
    var first :- ParseRange(raws[0]);
    var rest :- ParseAll(raws[1..]);
    Ok([first] + rest)
  }

  function Parse(text: string): Result<seq<PortRange>, PortError> {
    if text == ANY then Ok([]) else ParseAll(Split(text, ','))
  }

  function Onto(done: seq<PortRange>, rest: Result<seq<PortRange>, PortError>): Result<seq<PortRange>, PortError> {
    match rest
    case Ok(ranges) => Ok(done + ranges)
    case Err(error) => Err(error)
  }

  /** rawPortRanges.parse: fills the result range by range, until one is refused. */
  method ParsePortRanges(text: string) returns (r: Result<seq<PortRange>, PortError>)
    ensures r == Parse(text)
  {
    if text == ANY {
      return Ok([]);
    }
    var raws := Split(text, ',');
    var result := [];
    assert raws[0..] == raws && (ParseAll(raws).Ok? ==> [] + ParseAll(raws).value == ParseAll(raws).value);
    for i := 0 to |raws|
      invariant ParseAll(raws) == Onto(result, ParseAll(raws[i..]))
    {
      assert raws[i..][0] == raws[i] && raws[i..][1..] == raws[i + 1..];
      var raw := raws[i];
      var portStrs := Split(raw, '-');
      var first, last;
      if |portStrs| == 1 {
        var n := ParseUint(raw, MAX_PORT);
        if n.Err? {
          return Err(BadNumber(n.error));
        }
        first, last := n.value, n.value;
      } else if |portStrs| == 2 {
        var n := ParseUint(portStrs[0], MAX_PORT);
        if n.Err? {
          return Err(BadNumber(n.error));
        }
        first := n.value;
        n := ParseUint(portStrs[1], MAX_PORT);
        if n.Err? {
          return Err(BadNumber(n.error));
        }
        last := n.value;
      } else {
        return Err(BadRange);
      }
      var range := PortRange(first, last);
      assert ParseRange(raw) == Ok(range);
      OneMoreOnto(result, range, ParseAll(raws[i + 1..]));
      result := result + [range];
    }
    assert result + [] == result;
    r := Ok(result);
  }

  lemma OneMoreOnto(done: seq<PortRange>, range: PortRange, rest: Result<seq<PortRange>, PortError>)
    ensures Onto(done, if rest.Ok? then Ok([range] + rest.value) else rest) == Onto(done + [range], rest)
  {
    if rest.Ok? {
      assert done + ([range] + rest.value) == done + [range] + rest.value;
    }
  }

  // ----- which texts are read, and as what -----

  /** Decimal digits denoting a port. */
  predicate IsPortText(s: string, p: int) {
    s != [] && AllDigits(s) && Denoted(s) == p <= 65535
  }

  lemma NotDigits(s: string, c: char)
    requires AllDigits(s) && !IsDigit(c)
    ensures c !in s
  {
  }

  /** A port, or two with a hyphen between. */
  ghost predicate Spells(raw: string, r: PortRange) {
    (r.first == r.last && IsPortText(raw, r.first))
    || exists a, b :: IsPortText(a, r.first) && IsPortText(b, r.last) && raw == a + "-" + b
  }

  lemma PortReadIff(s: string, p: Port)
    ensures ParsePort(s) == Ok(p) <==> IsPortText(s, p)
  {
    AcceptsExactly(s, MAX_PORT);
  }

  lemma RangeReadIff(raw: string, r: PortRange)
    ensures ParseRange(raw) == Ok(r) <==> Spells(raw, r)
  {
    var parts := Split(raw, '-');
    PortReadIff(raw, r.first);
    JoinOfSplit(raw, '-');
    if ParseRange(raw) == Ok(r) && |parts| == 2 {
      PortReadIff(parts[0], r.first);
      PortReadIff(parts[1], r.last);
      assert parts[1..] == [parts[1]] && raw == parts[0] + "-" + parts[1];
    }
    if r.first == r.last && IsPortText(raw, r.first) {
      NotDigits(raw, '-');
      SplitFirst(raw, [], '-');
    } else if a, b :| IsPortText(a, r.first) && IsPortText(b, r.last) && raw == a + "-" + b {
      TwoPortsSplit(a, b);
      PortReadIff(a, r.first);
      PortReadIff(b, r.last);
    }
  }

  lemma TwoPortsSplit(a: string, b: string)
    requires AllDigits(a) && AllDigits(b)
    ensures Split(a + "-" + b, '-') == [a, b]
  {
    NotDigits(a, '-');
    NotDigits(b, '-');
    SplitFirst(a, b, '-');
    SplitFirst(b, [], '-');
  }

  ghost predicate SpellAll(raws: seq<string>, ranges: seq<PortRange>) {
    |raws| == |ranges| && forall i :: 0 <= i < |raws| ==> Spells(raws[i], ranges[i])
  }

  lemma {:induction false} RangesReadIff(raws: seq<string>, ranges: seq<PortRange>)
    ensures ParseAll(raws) == Ok(ranges) <==> SpellAll(raws, ranges)
  {
    if raws != [] && ranges != [] {
      RangeReadIff(raws[0], ranges[0]);
      RangesReadIff(raws[1..], ranges[1..]);
      assert ranges == [ranges[0]] + ranges[1..];
      if Spells(raws[0], ranges[0]) && SpellAll(raws[1..], ranges[1..]) {
        assert forall i :: 0 < i < |raws| ==> raws[i] == raws[1..][i - 1] && ranges[i] == ranges[1..][i - 1];
      }
    }
  }

  lemma SpellingIsPlain(raw: string, r: PortRange)
    requires Spells(raw, r)
    ensures raw != [] && IsDigit(raw[0]) && ',' !in raw
  {
  }

  /** A text is read as a list of ranges exactly when it is "any" and the list is empty, or when it spells
      the ranges one by one, with commas between; every other text is refused. */
  lemma ReadIff(text: string, ranges: seq<PortRange>)
    ensures Parse(text) == Ok(ranges)
       <==> if ranges == [] then text == "any"
            else exists raws :: SpellAll(raws, ranges) && text == Join(raws, ',')
  {
    var parts := Split(text, ',');
    RangesReadIff(parts, ranges);
    JoinOfSplit(text, ',');
    if ranges != [] {
      if raws :| SpellAll(raws, ranges) && text == Join(raws, ',') {
        SpellingIsPlain(raws[0], ranges[0]);
        JoinStarts(raws, ',');
        forall i | 0 <= i < |raws| ensures ',' !in raws[i] {
          SpellingIsPlain(raws[i], ranges[i]);
        }
        SplitOfJoin(raws, ',');
      }
    }
  }

  // ----- printing -----

  predicate SortedByFirst(ranges: seq<PortRange>) {
    forall i, j :: 0 <= i < j < |ranges| ==> ranges[i].first <= ranges[j].first
  }

  predicate SortedByLow(ranges: seq<PortRange>) {
    forall i, j :: 0 <= i < j < |ranges| ==> Low(ranges[i]) <= Low(ranges[j])
  }

  /** What sort.Slice may leave behind: it is not a stable sort. */
  ghost predicate SortOf(sorted: seq<PortRange>, ranges: seq<PortRange>) {
    SortedByFirst(sorted) && multiset(sorted) == multiset(ranges)
  }

  function Texts(ranges: seq<PortRange>): (texts: seq<string>)
    ensures |texts| == |ranges|
  {
    seq(|ranges|, i requires 0 <= i < |ranges| => RangeText(ranges[i]))
  }

  function SortedText(sorted: seq<PortRange>): string {
    if sorted == [] then ANY else Join(Texts(sorted), ',')
  }

  /** Orders ranges by First; of ranges with the same First, those that reach lower come later. */
  function Insert(r: PortRange, sorted: seq<PortRange>): seq<PortRange> {
    if sorted == [] || r.first < sorted[0].first
       || (r.first == sorted[0].first && Low(r) >= Low(sorted[0])) then [r] + sorted
    else [sorted[0]] + Insert(r, sorted[1..])
  }

  function Sort(ranges: seq<PortRange>): seq<PortRange> {
    if ranges == [] then [] else Insert(ranges[0], Sort(ranges[1..]))
  }

  /** The order Insert goes by. */
  predicate Before(a: PortRange, b: PortRange) {
    a.first < b.first || (a.first == b.first && Low(a) >= Low(b))
  }

  predicate Ordered(ranges: seq<PortRange>) {
    forall i, j :: 0 <= i < j < |ranges| ==> Before(ranges[i], ranges[j])
  }

  lemma OrderedFrom(r: PortRange, rest: seq<PortRange>)
    requires Ordered(rest) && forall x <- rest :: Before(r, x)
    ensures Ordered([r] + rest)
  {
  }

  lemma {:induction false} InsertSorts(r: PortRange, sorted: seq<PortRange>)
    requires Ordered(sorted)
    ensures Ordered(Insert(r, sorted)) && multiset(Insert(r, sorted)) == multiset(sorted) + multiset{r}
  {
    if sorted == [] || Before(r, sorted[0]) {
      assert forall x <- sorted :: x == sorted[0] || Before(sorted[0], x);
      OrderedFrom(r, sorted);
    } else {
      var rest := Insert(r, sorted[1..]);
      InsertSorts(r, sorted[1..]);
      assert sorted == [sorted[0]] + sorted[1..];
      forall x | x in rest ensures Before(sorted[0], x) {
        assert x in multiset(rest);
      }
      OrderedFrom(sorted[0], rest);
    }
  }

  lemma {:induction false} SortSorts(ranges: seq<PortRange>)
    ensures Ordered(Sort(ranges)) && SortOf(Sort(ranges), ranges)
  {
    if ranges != [] {
      SortSorts(ranges[1..]);
      InsertSorts(ranges[0], Sort(ranges[1..]));
      assert ranges == [ranges[0]] + ranges[1..];
    }
  }

  /** PortRanges.string: sorts the caller's slice, then prints it. */
  method PrintPortRanges(a: array<PortRange>) returns (text: string)
    modifies a
    ensures SortOf(a[..], old(a[..]))
    ensures text == SortedText(a[..])
  {
    if a.Length == 0 {
      return ANY;
    }
    SortSlice(a);
    text := PrintInOrder(a[..]);
  }

  method PrintInOrder(ranges: seq<PortRange>) returns (text: string)
    requires ranges != []
    ensures text == Join(Texts(ranges), ',')
  {
    text := RangeText(ranges[0]);
    for i := 1 to |ranges|
      invariant text == Join(Texts(ranges[..i]), ',')
    {
      OneMoreText(ranges, i);
      text := text + "," + RangeText(ranges[i]);
    }
    assert ranges[..|ranges|] == ranges;
  }

  lemma OneMoreText(ranges: seq<PortRange>, i: nat)
    requires 0 < i < |ranges|
    ensures Join(Texts(ranges[..i + 1]), ',') == Join(Texts(ranges[..i]), ',') + "," + RangeText(ranges[i])
  {
    assert Texts(ranges[..i + 1]) == Texts(ranges[..i]) + [RangeText(ranges[i])];
    JoinOneMore(Texts(ranges[..i]), RangeText(ranges[i]), ',');
  }

  /** sort.Slice by First. Its callers may rely on no more than what it ensures. */
  method SortSlice(a: array<PortRange>)
    modifies a
    ensures SortOf(a[..], old(a[..]))
  {
    ghost var ranges := a[..];
    var sorted := Sort(a[..]);
    SortSorts(ranges);
    assert |multiset(sorted)| == |multiset(ranges)|;
    for i := 0 to a.Length
      invariant |sorted| == a.Length && a[..i] == sorted[..i]
    {
      a[i] := sorted[i];
    }
    assert a[..] == sorted;
  }

  // ----- printing and parsing -----

  function Normals(ranges: seq<PortRange>): (normals: seq<PortRange>)
    ensures |normals| == |ranges|
  {
    seq(|ranges|, i requires 0 <= i < |ranges| => Normal(ranges[i]))
  }

  lemma RangeTextOfBounds(r: PortRange)
    ensures RangeText(r) == if Low(r) == High(r) then Itoa(Low(r)) else Itoa(Low(r)) + "-" + Itoa(High(r))
  {
  }

  lemma RangeRoundTrip(r: PortRange)
    ensures ParseRange(RangeText(r)) == Ok(Normal(r))
  {
    var low, high := Itoa(Low(r)), Itoa(High(r));
    RangeTextOfBounds(r);
    NumberOfItoa(Low(r), MAX_PORT);
    NumberOfItoa(High(r), MAX_PORT);
    NotDigits(low, '-');
    NotDigits(high, '-');
    SplitFirst(low, high, '-');
    SplitFirst(high, [], '-');
  }

  lemma RangeTextIsPlain(r: PortRange)
    ensures RangeText(r) != [] && IsDigit(RangeText(r)[0]) && ',' !in RangeText(r)
  {
    RangeTextOfBounds(r);
    NotDigits(Itoa(Low(r)), ',');
    NotDigits(Itoa(High(r)), ',');
  }

  lemma HeadAndTail(ranges: seq<PortRange>)
    requires ranges != []
    ensures Texts(ranges) == [RangeText(ranges[0])] + Texts(ranges[1..])
    ensures Normals(ranges) == [Normal(ranges[0])] + Normals(ranges[1..])
  {
  }

  lemma ParseAllStep(text: string, range: PortRange, texts: seq<string>, rest: seq<PortRange>)
    requires ParseRange(text) == Ok(range) && ParseAll(texts) == Ok(rest)
    ensures ParseAll([text] + texts) == Ok([range] + rest)
  {
    assert ([text] + texts)[1..] == texts;
  }

  lemma {:induction false} TextsRoundTrip(ranges: seq<PortRange>)
    ensures ParseAll(Texts(ranges)) == Ok(Normals(ranges))
  {
    if ranges != [] {
      RangeRoundTrip(ranges[0]);
      TextsRoundTrip(ranges[1..]);
      HeadAndTail(ranges);
      ParseAllStep(RangeText(ranges[0]), Normal(ranges[0]), Texts(ranges[1..]), Normals(ranges[1..]));
    }
  }

  /** Whatever was printed is parsed as the same ranges, in the order printed, each with its lower
      end first. Only the empty list is printed as "any". */
  lemma PrintThenParse(sorted: seq<PortRange>)
    ensures Parse(SortedText(sorted)) == Ok(Normals(sorted))
    ensures SortedText(sorted) == ANY <==> sorted == []
  {
    if sorted != [] {
      RangeTextIsPlain(sorted[0]);
      JoinStarts(Texts(sorted), ',');
      TextsRoundTrip(sorted);
      forall i | 0 <= i < |sorted| ensures ',' !in Texts(sorted)[i] {
        RangeTextIsPlain(sorted[i]);
      }
      SplitOfJoin(Texts(sorted), ',');
    }
  }

  /** Only "any" is parsed as no ranges. */
  lemma OnlyAnyIsEmpty(text: string)
    ensures Parse(text) == Ok([]) <==> text == ANY
  {
  }

  /** The round trip of ranges given the right way round: a permutation of them, sorted by First. */
  lemma ForwardRangesRoundTrip(ranges: seq<PortRange>, sorted: seq<PortRange>)
    requires SortOf(sorted, ranges) && forall r <- ranges :: r.first <= r.last
    ensures Parse(SortedText(sorted)).Ok?
    ensures SortOf(Parse(SortedText(sorted)).value, ranges)
  {
    PrintThenParse(sorted);
    forall i | 0 <= i < |sorted| ensures Normals(sorted)[i] == sorted[i] {
      assert sorted[i] in multiset(ranges);
    }
    assert Normals(sorted) == sorted;
  }

  /** Which ports a list of ranges stands for. No range at all stands for every port. */
  ghost predicate Permits(ranges: seq<PortRange>, p: Port) {
    ranges == [] || exists r <- ranges :: Covers(r, p)
  }

  /** The ports are kept, whichever way round the ranges were given. */
  lemma PortsArePreserved(ranges: seq<PortRange>, sorted: seq<PortRange>, p: Port)
    requires SortOf(sorted, ranges)
    ensures Parse(SortedText(sorted)).Ok?
    ensures Permits(Parse(SortedText(sorted)).value, p) <==> Permits(ranges, p)
  {
    PrintThenParse(sorted);
    var parsed := Normals(sorted);
    assert |multiset(sorted)| == |multiset(ranges)|;
    if r :| r in ranges && Covers(r, p) {
      assert r in multiset(sorted);
      var i :| 0 <= i < |sorted| && sorted[i] == r;
      assert Covers(parsed[i], p);
    }
    if r :| r in parsed && Covers(r, p) {
      var i :| 0 <= i < |parsed| && parsed[i] == r;
      assert Covers(sorted[i], p) && sorted[i] in multiset(ranges);
    }
  }

  /** The printed text lists its ranges in ascending order, however the sort breaks ties, exactly
      when no range reaches below one whose First is not larger. */
  lemma AscendingIff(ranges: seq<PortRange>)
    ensures (forall sorted :: SortOf(sorted, ranges) ==> SortedByLow(sorted))
       <==> (forall a, b :: 0 <= a < |ranges| && 0 <= b < |ranges| && ranges[a].first <= ranges[b].first ==>
               Low(ranges[a]) <= Low(ranges[b]))
  {
    if a, b :| 0 <= a < |ranges| && 0 <= b < |ranges| && ranges[a].first <= ranges[b].first
               && Low(ranges[a]) > Low(ranges[b]) {
      var sorted := Sort(ranges);
      SortSorts(ranges);
      assert ranges[a] in multiset(sorted) && ranges[b] in multiset(sorted);
      var i :| 0 <= i < |sorted| && sorted[i] == ranges[a];
      var j :| 0 <= j < |sorted| && sorted[j] == ranges[b];
      assert i < j;
      assert !SortedByLow(sorted);
    } else {
      forall sorted | SortOf(sorted, ranges) ensures SortedByLow(sorted) {
        forall i, j | 0 <= i < j < |sorted| ensures Low(sorted[i]) <= Low(sorted[j]) {
          assert sorted[i] in multiset(ranges) && sorted[j] in multiset(ranges);
        }
      }
    }
  }

  /** A reversed range is printed out of order: sorting by First happens before the ends are swapped. */
  lemma ReversedIsOutOfOrder()
    ensures Parse(SortedText([PortRange(3, 3), PortRange(5, 1)])) == Ok([PortRange(3, 3), PortRange(1, 5)])
    ensures !SortedByLow([PortRange(3, 3), PortRange(5, 1)])
  {
    var sorted := [PortRange(3, 3), PortRange(5, 1)];
    PrintThenParse(sorted);
    assert Normals(sorted) == [PortRange(3, 3), PortRange(1, 5)];
    assert Low(sorted[0]) > Low(sorted[1]);
  }
}
