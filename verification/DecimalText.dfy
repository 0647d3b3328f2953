/** Unsigned decimal text, and text split on a separator. */
module DecimalText {
  import opened Common

  datatype NumberError = BadSyntax | OutOfRange

  function Digit(d: nat): char
    requires d < 10
  {
    '0' + d as char
  }

  predicate IsDigit(c: char) {
    '0' <= c <= '9'
  }

  predicate AllDigits(s: string) {
    forall i :: 0 <= i < |s| ==> IsDigit(s[i])
  }

  /** What a text of digits denotes. */
  function Denoted(s: string): nat
    requires AllDigits(s)
  {
    if s == [] then 0 else
    Denoted(s[..|s| - 1]) * 10 + (s[|s| - 1] - '0') as nat
  }

  function Itoa(n: nat): (s: string)
    ensures s != [] && AllDigits(s) && Denoted(s) == n
  {
    if n < 10 then [Digit(n)] else
    var s := Itoa(n / 10) + [Digit(n % 10)];
    assert s[..|s| - 1] == Itoa(n / 10);
    s
  }

  function IntText(n: int): string {
    if n < 0 then "-" + Itoa(-n) else Itoa(n)
  }

  /** strconv.ParseUint in base 10, for numbers up to max. It stops at the first character that is
      not a digit or takes the number past max. */
  method ParseUint(s: string, max: nat) returns (r: Result<nat, NumberError>)
    ensures r == Number(s, max)
    ensures r.Ok? ==> r.value <= max
  {
    if s == [] {
      return Err(BadSyntax);
    }
    var n := 0;
    for i := 0 to |s|
      invariant AllDigits(s[..i]) && Denoted(s[..i]) == n <= max
    {
      assert s[..i + 1][..i] == s[..i];
      if !IsDigit(s[i]) {
        NumberStops(s, max, i);
        return Err(BadSyntax);
      }
      n := n * 10 + (s[i] - '0') as nat;
      if n > max {
        NumberStops(s, max, i);
        return Err(OutOfRange);
      }
    }
    assert s[..|s|] == s;
    NumberOfDigits(s, max);
    r := Ok(n);
  }

  /** The same by recursion: what the text without its last character gives, and then that character. */
  function Number(s: string, max: nat): Result<nat, NumberError> {
    if s == [] then Err(BadSyntax) else
    var last := s[|s| - 1];
    var before :- if |s| == 1 then Ok(0) else Number(s[..|s| - 1], max);
    if !IsDigit(last) then Err(BadSyntax) else
    var n := before * 10 + (last - '0') as nat;
    if n > max then Err(OutOfRange) else Ok(n)
  }

  lemma {:induction false} NumberStops(s: string, max: nat, i: nat)
    requires i < |s| && AllDigits(s[..i]) && Denoted(s[..i]) <= max
    requires !IsDigit(s[i]) || Denoted(s[..i]) * 10 + (s[i] - '0') as nat > max
    ensures Number(s, max) == Err(if IsDigit(s[i]) then OutOfRange else BadSyntax)
    decreases |s|
  {
    if i < |s| - 1 {
      assert s[..|s| - 1][..i] == s[..i];
      NumberStops(s[..|s| - 1], max, i);
    } else {
      NumberOfDigits(s[..i], max);
    }
  }

  /** Digits are read as what they denote, or refused when that is too large. */
  lemma {:induction false} NumberOfDigits(s: string, max: nat)
    requires AllDigits(s)
    ensures s != [] ==> Number(s, max) == if Denoted(s) <= max then Ok(Denoted(s)) else Err(OutOfRange)
  {
    if |s| > 1 {
      NumberOfDigits(s[..|s| - 1], max);
    }
  }

  /** A number is accepted exactly when it is digits denoting at most max. */
  lemma {:induction false} AcceptsExactly(s: string, max: nat)
    ensures Number(s, max).Ok? <==> s != [] && AllDigits(s) && Denoted(s) <= max
    ensures Number(s, max).Ok? ==> Number(s, max).value == Denoted(s)
  {
    if s != [] && AllDigits(s) {
      NumberOfDigits(s, max);
    } else if |s| > 1 {
      AcceptsExactly(s[..|s| - 1], max);
    }
  }

  lemma NumberOfItoa(n: nat, max: nat)
    ensures Number(Itoa(n), max) == if n <= max then Ok(n) else Err(OutOfRange)
  {
    NumberOfDigits(Itoa(n), max);
  }

  // ----- splitting and joining -----

  function Split(s: string, sep: char): (parts: seq<string>)
    ensures parts != []
  {
    if s == [] then [[]] else
    var rest := Split(s[1..], sep);
    if s[0] == sep then [[]] + rest else [[s[0]] + rest[0]] + rest[1..]
  }

  function Join(parts: seq<string>, sep: char): string {
    if parts == [] then [] else
    if |parts| == 1 then parts[0] else
    parts[0] + [sep] + Join(parts[1..], sep)
  }

  /** Splitting loses nothing, and leaves no separator in a part. */
  lemma {:induction false} JoinOfSplit(s: string, sep: char)
    ensures Join(Split(s, sep), sep) == s
  {
    if s != [] {
      JoinOfSplit(s[1..], sep);
      var rest := Split(s[1..], sep);
      assert s == [s[0]] + s[1..];
      if s[0] == sep {
        assert ([[]] + rest)[1..] == rest;
      } else {
        var first := [s[0]] + rest[0];
        assert ([first] + rest[1..])[1..] == rest[1..];
        assert |rest| > 1 ==> first + [sep] + Join(rest[1..], sep) == [s[0]] + (rest[0] + [sep] + Join(rest[1..], sep));
      }
    }
  }

  lemma {:induction false} PartsAreWhole(s: string, sep: char)
    ensures forall part <- Split(s, sep) :: sep !in part
  {
    if s != [] {
      PartsAreWhole(s[1..], sep);
    }
  }

  lemma {:induction false} SplitFirst(part: string, rest: string, sep: char)
    requires sep !in part
    ensures Split(part + [sep] + rest, sep) == [part] + Split(rest, sep)
    ensures Split(part, sep) == [part]
  {
    if part == [] {
      assert part + [sep] + rest == [sep] + rest;
      assert ([sep] + rest)[1..] == rest;
    } else {
      SplitFirst(part[1..], rest, sep);
      assert (part + [sep] + rest)[1..] == part[1..] + [sep] + rest;
      assert [part[0]] + part[1..] == part;
    }
  }

  lemma {:induction false} SplitOfJoin(parts: seq<string>, sep: char)
    requires parts != [] && forall part <- parts :: sep !in part
    ensures Split(Join(parts, sep), sep) == parts
  {
    assert parts[0] in parts;
    if |parts| == 1 {
      SplitFirst(parts[0], [], sep);
    } else {
      SplitFirst(parts[0], Join(parts[1..], sep), sep);
      SplitOfJoin(parts[1..], sep);
    }
  }

  lemma {:induction false} JoinOneMore(parts: seq<string>, part: string, sep: char)
    requires parts != []
    ensures Join(parts + [part], sep) == Join(parts, sep) + [sep] + part
  {
    assert (parts + [part])[1..] == parts[1..] + [part];
    if |parts| > 1 {
      JoinOneMore(parts[1..], part, sep);
    } else {
      assert parts == [parts[0]];
    }
  }

  lemma JoinStarts(parts: seq<string>, sep: char)
    requires parts != [] && parts[0] != []
    ensures Join(parts, sep) != [] && Join(parts, sep)[0] == parts[0][0]
  {
  }
}
