/** Port speeds: the texts callers write, what they are normalised to, and the 64-bit arithmetic in
    between. */
module PortSpeed {
  import opened Common
  import opened DecimalText

  const TWO63 := 0x8000_0000_0000_0000
  const TWO64 := 0x1_0000_0000_0000_0000

  const MEGA := 1_000_000
  const GIGA := 1_000_000_000
  const TERA := 1_000_000_000_000

  datatype Unit = M | G

  datatype RawSpeed = RawSpeed(unit: Unit, value: int)

  /** int64 arithmetic wraps around. */
  function Int64(n: int): (r: int)
    ensures -TWO63 <= r < TWO63
  {
    (n + TWO63) % TWO64 - TWO63
  }

  // ----- the text -----

  function Lower(c: char): char {
    if 'A' <= c <= 'Z' then 'a' + (c - 'A') else c
  }

  function ToLower(s: string): (r: string)
    ensures |r| == |s|
  {
    seq(|s|, i requires 0 <= i < |s| => Lower(s[i]))
  }

  predicate IsSpace(c: char) {
    c in {'\t', '\n', '\U{0B}', '\U{0C}', '\r', ' ', '\U{85}', '\U{A0}', '\U{1680}', '\U{2028}', '\U{2029}', '\U{202F}',
          '\U{205F}', '\U{3000}'}
    || '\U{2000}' <= c <= '\U{200A}'
  }

  function TrimLeft(s: string): string {
    if s != [] && IsSpace(s[0]) then TrimLeft(s[1..]) else s
  }

  function TrimRight(s: string): string {
    if s != [] && IsSpace(s[|s| - 1]) then TrimRight(s[..|s| - 1]) else s
  }

  predicate HasSuffix(s: string, suffix: string) {
    |suffix| <= |s| && s[|s| - |suffix|..] == suffix
  }

  function TrimSuffix(s: string, suffix: string): string {
    if HasSuffix(s, suffix) then s[..|s| - |suffix|] else s
  }

  /** strconv.ParseInt in base 10 and 64 bits. */
  function ParseInt(s: string): Option<int> {
    var signed := s != [] && s[0] in {'+', '-'};
    var negative := signed && s[0] == '-';
    match Number(if signed then s[1..] else s, if negative then TWO63 else TWO63 - 1)
    case Ok(n) => var magnitude: int := n; Some(if negative then -magnitude else magnitude)
    case Err(_) => None
  }

  /** What is left of a text before its unit is looked at. */
  function Plain(s: string): string {
    TrimSuffix(TrimSuffix(TrimRight(TrimLeft(ToLower(s))), "bps"), "b/s")
  }

  /** The number and the factor a text gives. */
  function Scale(plain: string): (string, int) {
    if HasSuffix(plain, "m") then (TrimSuffix(plain, "m"), MEGA)
    else if HasSuffix(plain, "g") then (TrimSuffix(plain, "g"), GIGA)
    else if HasSuffix(plain, "t") then (TrimSuffix(plain, "t"), TERA)
    else (plain, 1)
  }

  // ----- normalising -----

  const DEFAULT := RawSpeed(G, 1)

  function Normalised(bps: int): RawSpeed {
    if bps >= GIGA then RawSpeed(G, bps / 1000 / 1000 / 1000)
    else if bps >= 10 * MEGA then RawSpeed(M, bps / 1000 / 1000)
    else DEFAULT
  }

  /** LogicalDevicePortSpeed.raw: None is nil, for the empty text. */
  function Raw(s: string): Option<RawSpeed> {
    if s == "" then None else
    var (trimmed, factor) := Scale(Plain(s));
    match ParseInt(trimmed)
    case None => Some(DEFAULT)
    case Some(n) => Some(Normalised(Int64(n * factor)))
  }

  function UnitText(unit: Unit): string {
    if unit == M then "M" else "G"
  }

  /** rawLogicalDevicePortSpeed.parse. */
  function Parse(r: RawSpeed): string {
    IntText(r.value) + UnitText(r.unit)
  }

  function Size(unit: Unit): int {
    if unit == M then MEGA else GIGA
  }

  function BitsPerSecond(r: RawSpeed): int {
    Int64(r.value * Size(r.unit))
  }

  // ----- what normalising keeps -----

  /** The speeds that normalising can give. */
  predicate IsNormal(r: RawSpeed) {
    match r.unit
    case M => 10 <= r.value < 1000
    case G => 1 <= r.value <= (TWO63 - 1) / GIGA
  }

  lemma RawIsNormal(s: string)
    requires s != ""
    ensures IsNormal(Raw(s).value)
  {
    var (trimmed, factor) := Scale(Plain(s));
    var n := ParseInt(trimmed);
    if n.Some? {
      assert Int64(n.value * factor) < TWO63;
    }
  }

  lemma NormalIsFixed(r: RawSpeed)
    requires IsNormal(r)
    ensures Int64(r.value * Size(r.unit)) == r.value * Size(r.unit)
    ensures Normalised(r.value * Size(r.unit)) == r
  {
  }

  lemma LowerOfDigits(digits: string, unit: char)
    requires digits != [] && AllDigits(digits) && unit in {'m', 'g'}
    ensures ToLower(digits + [if unit == 'm' then 'M' else 'G']) == digits + [unit]
    ensures Plain(digits + [if unit == 'm' then 'M' else 'G']) == digits + [unit]
  {
    var text := digits + [if unit == 'm' then 'M' else 'G'];
    var lower := digits + [unit];
    forall i | 0 <= i < |digits| ensures Lower(digits[i]) == digits[i] {
      assert IsDigit(digits[i]);
    }
    assert ToLower(text) == lower;
    assert IsDigit(lower[0]) && lower[|lower| - 1] == unit;
    assert |lower| >= 3 ==> lower[|lower| - 3..][2] == unit;
    assert TrimSuffix(lower, "bps") == lower && TrimSuffix(lower, "b/s") == lower;
  }

  lemma ParseIntOfItoa(n: nat)
    requires n < TWO63
    ensures ParseInt(Itoa(n)) == Some(n)
  {
    NumberOfItoa(n, TWO63 - 1);
    assert IsDigit(Itoa(n)[0]);
  }

  /** A normal speed's text is read back as that speed. */
  lemma NormalRoundTrip(r: RawSpeed)
    requires IsNormal(r)
    ensures Raw(Parse(r)) == Some(r)
  {
    var digits := Itoa(r.value);
    var unit := if r.unit == M then 'm' else 'g';
    LowerOfDigits(digits, unit);
    ParseIntOfItoa(r.value);
    NormalIsFixed(r);
    ScaleOfUnit(digits, unit);
    assert Parse(r) == digits + [if unit == 'm' then 'M' else 'G'];
  }

  lemma ScaleOfUnit(digits: string, unit: char)
    requires unit in {'m', 'g'}
    ensures Scale(digits + [unit]) == (digits, if unit == 'm' then MEGA else GIGA)
  {
    var plain := digits + [unit];
    assert plain[|plain| - 1..] == [unit] && plain[..|plain| - 1] == digits;
  }

  /** Normalising is idempotent for every text, also for those that make no sense and those whose
      product wraps around. */
  lemma NormalisingIsIdempotent(s: string)
    requires s != ""
    ensures Raw(Parse(Raw(s).value)) == Raw(s)
  {
    RawIsNormal(s);
    NormalRoundTrip(Raw(s).value);
  }

  /** The text of a number and a unit is taken for less than it says, by less than one unit, exactly
      when it says at least 10 Mbps and no more than 64 bits hold. */
  lemma TruncatedIff(s: string, n: int)
    requires s != "" && ParseInt(Scale(Plain(s)).0) == Some(n)
    ensures var said := n * Scale(Plain(s)).1;
            var r := Raw(s).value;
            0 <= said - BitsPerSecond(r) < Size(r.unit) <==> 10 * MEGA <= said < TWO63
  {
    var said := n * Scale(Plain(s)).1;
    var r := Raw(s).value;
    RawIsNormal(s);
    NormalIsFixed(r);
    WrapsIff(said);
    TruncationBound(Int64(said));
  }

  lemma WrapsIff(n: int)
    ensures -TWO63 <= n < TWO63 <==> Int64(n) == n
    ensures n >= TWO63 ==> n - Int64(n) >= TWO64
    ensures n < -TWO63 ==> n < Int64(n)
  {
  }

  lemma TruncationBound(bps: int)
    requires -TWO63 <= bps < TWO63
    ensures var r := Normalised(bps);
            0 <= bps - r.value * Size(r.unit) < Size(r.unit) <==> 10 * MEGA <= bps
    ensures Normalised(bps).value * Size(Normalised(bps).unit) > 0
  {
  }

  /** IsEqual: speeds are equal in bits per second exactly when they are normalised alike. */
  lemma EqualIff(a: string, b: string)
    requires a != "" && b != ""
    ensures BitsPerSecond(Raw(a).value) == BitsPerSecond(Raw(b).value) <==> Raw(a) == Raw(b)
  {
    RawIsNormal(a);
    RawIsNormal(b);
    NormalIsFixed(Raw(a).value);
    NormalIsFixed(Raw(b).value);
  }

  // ----- the texts that are read -----

  /** The text has these letters, small or capital. */
  predicate Spelt(text: string, small: string) {
    |text| == |small|
    && forall i :: 0 <= i < |text| ==>
         text[i] == small[i] || ('a' <= small[i] <= 'z' && text[i] as int == small[i] as int - 32)
  }

  predicate AllSpaces(s: string) {
    forall c <- s :: IsSpace(c)
  }

  lemma LowerSpelt(text: string, small: string)
    requires Spelt(text, small) && forall c <- small :: !('A' <= c <= 'Z')
    ensures ToLower(text) == small
  {
    forall i | 0 <= i < |text| ensures Lower(text[i]) == small[i] {
      assert small[i] in small;
    }
  }

  lemma LowerAppend(a: string, b: string)
    ensures ToLower(a + b) == ToLower(a) + ToLower(b)
  {
  }

  lemma LowerUnchanged(s: string)
    requires forall c <- s :: !('A' <= c <= 'Z')
    ensures ToLower(s) == s
  {
    LowerSpelt(s, s);
  }

  lemma {:induction false} TrimLeftOf(spaces: string, core: string)
    requires AllSpaces(spaces) && core != [] && !IsSpace(core[0])
    ensures TrimLeft(spaces + core) == core
  {
    if spaces == [] {
      assert spaces + core == core;
    } else {
      assert spaces[0] in spaces && (spaces + core)[1..] == spaces[1..] + core;
      TrimLeftOf(spaces[1..], core);
    }
  }

  lemma {:induction false} TrimRightOf(core: string, spaces: string)
    requires AllSpaces(spaces) && core != [] && !IsSpace(core[|core| - 1])
    ensures TrimRight(core + spaces) == core
  {
    if spaces == [] {
      assert core + spaces == core;
    } else {
      var n := |spaces| - 1;
      assert spaces[n] in spaces && (core + spaces)[..|core + spaces| - 1] == core + spaces[..n];
      TrimRightOf(core, spaces[..n]);
    }
  }

  lemma TrimOf(core: string, before: string, after: string)
    requires AllSpaces(before) && AllSpaces(after) && core != [] && !IsSpace(core[0]) && !IsSpace(core[|core| - 1])
    ensures TrimRight(TrimLeft(before + core + after)) == core
  {
    assert before + core + after == before + (core + after);
    TrimLeftOf(before, core + after);
    TrimRightOf(core, after);
  }

  /** A unit's letter, if it has one, and what it multiplies by. */
  predicate IsUnit(unit: string, factor: int) {
    || (unit == "" && factor == 1)
    || (unit == "m" && factor == 1_000_000)
    || (unit == "g" && factor == 1_000_000_000)
    || (unit == "t" && factor == 1_000_000_000_000)
  }

  predicate IsPerSecond(ending: string) {
    ending == "" || ending == "bps" || ending == "b/s"
  }

  lemma SuffixEnds(s: string, suffix: string)
    requires s != [] && suffix != [] && s[|s| - 1] != suffix[|suffix| - 1]
    ensures !HasSuffix(s, suffix) && TrimSuffix(s, suffix) == s
  {
    var n := |s| - |suffix|;
    if n >= 0 {
      assert s[n..][|suffix| - 1] == s[|s| - 1];
    }
  }

  lemma SuffixOff(s: string, suffix: string)
    ensures HasSuffix(s + suffix, suffix) && TrimSuffix(s + suffix, suffix) == s
  {
    assert (s + suffix)[|s|..] == suffix;
  }

  lemma EndingsOff(digits: string, unit: string, factor: int, ending: string)
    requires digits != [] && AllDigits(digits) && IsUnit(unit, factor) && IsPerSecond(ending)
    ensures TrimSuffix(TrimSuffix(digits + unit + ending, "bps"), "b/s") == digits + unit
  {
    var core := digits + unit;
    assert core[|core| - 1] != 's' by {
      assert IsDigit(digits[|digits| - 1]);
    }
    SuffixEnds(core, "bps");
    SuffixEnds(core, "b/s");
    if ending == "" {
      assert core + ending == core;
    } else {
      SuffixOff(core, ending);
      if ending == "b/s" {
        assert (core + ending)[|core + ending| - 3..][1] == '/';
      }
    }
  }

  lemma UnitOff(digits: string, unit: string, factor: int)
    requires digits != [] && AllDigits(digits) && IsUnit(unit, factor)
    ensures Scale(digits + unit) == (digits, factor)
  {
    var plain := digits + unit;
    assert IsDigit(digits[|digits| - 1]);
    SuffixOff(digits, unit);
    if unit != "m" {
      SuffixEnds(plain, "m");
      if unit != "g" {
        SuffixEnds(plain, "g");
        if unit != "t" {
          SuffixEnds(plain, "t");
          assert plain == digits;
        }
      }
    }
  }

  /** A number, then perhaps M, G or T, then perhaps bps or b/s, in small letters or capitals and with
      spaces around: from 1 Gbps on it is that many Gbps, from 10 Mbps on that many Mbps, rounded down,
      and below that 1 Gbps, as far as the product fits 64 bits. */
  lemma NumbersWithUnits(before: string, n: nat, unit: string, unitSmall: string, factor: int, ending: string,
                         endingSmall: string, after: string)
    requires AllSpaces(before) && AllSpaces(after) && n < 0x8000_0000_0000_0000
    requires Spelt(unit, unitSmall) && IsUnit(unitSmall, factor)
    requires Spelt(ending, endingSmall) && IsPerSecond(endingSmall)
    ensures var said, read := n * factor, Raw(before + (Itoa(n) + unit + ending) + after);
            && (1_000_000_000 <= said < 0x8000_0000_0000_0000 ==> read == Some(RawSpeed(G, said / 1_000_000_000)))
            && (10_000_000 <= said < 1_000_000_000 ==> read == Some(RawSpeed(M, said / 1_000_000)))
            && (said < 10_000_000 ==> read == Some(RawSpeed(G, 1)))
  {
    var digits := Itoa(n);
    PlainOf(before, digits, unit, unitSmall, factor, ending, endingSmall, after);
    UnitOff(digits, unitSmall, factor);
    ParseIntOfItoa(n);
    NormalisedSmall(n * factor);
  }

  lemma NormalisedSmall(bps: int)
    requires bps >= 0
    ensures 1_000_000_000 <= bps < 0x8000_0000_0000_0000 ==>
              Normalised(Int64(bps)) == RawSpeed(G, bps / 1_000_000_000)
    ensures 10_000_000 <= bps < 1_000_000_000 ==> Normalised(Int64(bps)) == RawSpeed(M, bps / 1_000_000)
    ensures bps < 10_000_000 ==> Normalised(Int64(bps)) == RawSpeed(G, 1)
  {
  }

  lemma PlainOf(before: string, digits: string, unit: string, unitSmall: string, factor: int, ending: string,
                endingSmall: string, after: string)
    requires AllSpaces(before) && AllSpaces(after) && digits != [] && AllDigits(digits)
    requires Spelt(unit, unitSmall) && IsUnit(unitSmall, factor)
    requires Spelt(ending, endingSmall) && IsPerSecond(endingSmall)
    ensures Plain(before + (digits + unit + ending) + after) == digits + unitSmall
  {
    var core := digits + unitSmall + endingSmall;
    LowerUnchanged(before);
    LowerUnchanged(after);
    LowerUnchanged(digits);
    LowerSpelt(unit, unitSmall);
    LowerSpelt(ending, endingSmall);
    LowerAppend(digits, unit);
    LowerAppend(digits + unit, ending);
    LowerAppend(before, digits + unit + ending);
    LowerAppend(before + (digits + unit + ending), after);
    assert IsDigit(core[0]) && (IsDigit(core[|core| - 1]) || core[|core| - 1] in {'m', 'g', 't', 's'});
    TrimOf(core, before, after);
    EndingsOff(digits, unitSmall, factor, endingSmall);
  }

  // ----- examples -----

  /** What becomes of a number written with a unit. */
  lemma RawOfDigits(n: nat, unit: Unit)
    requires n < TWO63
    ensures Raw(Itoa(n) + UnitText(unit)) == Some(Normalised(Int64(n * Size(unit))))
  {
    var lower := if unit == M then 'm' else 'g';
    LowerOfDigits(Itoa(n), lower);
    ParseIntOfItoa(n);
    ScaleOfUnit(Itoa(n), lower);
    assert Itoa(n) + UnitText(unit) == Itoa(n) + [if lower == 'm' then 'M' else 'G'];
  }

  /** 5 Mbps is taken for 1 Gbps. */
  lemma FiveMegabits(n: nat)
    requires n == 5
    ensures Raw(Itoa(n) + "M") == Some(RawSpeed(G, 1))
  {
    RawOfDigits(n, M);
  }

  /** 18446744074 Gbps, which is past 64 bits, is taken for 290 Mbps. */
  lemma SpeedWrapsAround(n: nat)
    requires n * GIGA == TWO64 + 290_448_384
    ensures Raw(Itoa(n) + "G") == Some(RawSpeed(M, 290))
  {
    RawOfDigits(n, G);
    WrappedSpeed(n * GIGA);
  }

  lemma WrappedSpeed(bps: int)
    requires bps == TWO64 + 290_448_384
    ensures Normalised(Int64(bps)) == RawSpeed(M, 290)
  {
    assert Int64(bps) == 290_448_384;
  }
}
