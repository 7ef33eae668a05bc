/** The string handling the plugin borrows from Python: decimal digits,
    int() on a string, str.strip, str.split and str.join. Only ASCII digits
    and the six ASCII whitespace characters int() skips are modelled. */
module Text {
  import opened Wrappers

  predicate IsDigit(c: char) { '0' <= c <= '9' }

  predicate AllDigits(s: string) { forall i :: 0 <= i < |s| ==> IsDigit(s[i]) }

  predicate NoDigits(s: string) { forall i :: 0 <= i < |s| ==> !IsDigit(s[i]) }

  function DigitValue(c: char): (d: nat)
    requires IsDigit(c)
    ensures d < 10
  {
    c as int - '0' as int
  }

  function DigitChar(d: nat): (c: char)
    requires d < 10
    ensures IsDigit(c) && DigitValue(c) == d
  {
    ('0' as int + d) as char
  }

  /** The number a run of digits denotes, leading zeros included. */
  function DecimalValue(s: string): nat
    requires AllDigits(s)
  {
    if s == [] then 0 else DecimalValue(s[..|s| - 1]) * 10 + DigitValue(s[|s| - 1])
  }

  /** The canonical decimal digits of n, as Python's str(n) writes them. */
  function Decimal(n: nat): (s: string)
    ensures s != [] && AllDigits(s)
    ensures s[0] == '0' <==> n == 0
  {
    if n < 10 then [DigitChar(n)] else Decimal(n / 10) + [DigitChar(n % 10)]
  }

  /** str(n) for any integer. */
  function Numeral(n: int): string
  {
    if n < 0 then "-" + Decimal(-n) else Decimal(n)
  }

  lemma {:induction false} DecimalRoundTrip(n: nat)
    ensures DecimalValue(Decimal(n)) == n
  {
    if n >= 10 {
      var s := Decimal(n);
      assert s[..|s| - 1] == Decimal(n / 10);
      DecimalRoundTrip(n / 10);
    }
  }

  lemma {:induction false} ZerosValue(z: string)
    requires forall i :: 0 <= i < |z| ==> z[i] == '0'
    ensures AllDigits(z) && DecimalValue(z) == 0
  {
    if z != [] {
      ZerosValue(z[..|z| - 1]);
    }
  }

  /** Leading zeros do not change the value: int("042") == int("42"). */
  lemma {:induction false} LeadingZeros(z: string, s: string)
    requires forall i :: 0 <= i < |z| ==> z[i] == '0'
    requires AllDigits(s)
    ensures AllDigits(z + s) && DecimalValue(z + s) == DecimalValue(s)
  {
    ZerosValue(z);
    if s == [] {
      assert z + s == z;
    } else {
      var t := z + s;
      assert t[..|t| - 1] == z + s[..|s| - 1];
      LeadingZeros(z, s[..|s| - 1]);
    }
  }

  // ---- str.strip ----

  /** The characters CPython's int() skips around an all-ASCII numeral:
      space, tab, line feed, carriage return, vertical tab and form feed. */
  const Whitespace: set<char> :=
    {' ', '\t', '\n', '\r', '\U{B}', '\U{C}'}

  function StripLeft(s: string, cs: set<char>): (r: string)
    ensures |r| <= |s| && r == s[|s| - |r|..]
    ensures forall i :: 0 <= i < |s| - |r| ==> s[i] in cs
    ensures r != [] ==> r[0] !in cs
  {
    if s != [] && s[0] in cs then StripLeft(s[1..], cs) else s
  }

  function StripRight(s: string, cs: set<char>): (r: string)
    ensures |r| <= |s| && r == s[..|r|]
    ensures forall i :: |r| <= i < |s| ==> s[i] in cs
    ensures r != [] ==> r[|r| - 1] !in cs
  {
    if s != [] && s[|s| - 1] in cs then StripRight(s[..|s| - 1], cs) else s
  }

  /** s.strip(chars): drops every leading and every trailing character in cs. */
  function Strip(s: string, cs: set<char>): (r: string)
    ensures r != [] ==> r[0] !in cs && r[|r| - 1] !in cs
  {
    StripRight(StripLeft(s, cs), cs)
  }

  lemma {:induction false} StripLeftPadded(a: string, x: string, cs: set<char>)
    requires forall i :: 0 <= i < |a| ==> a[i] in cs
    requires x != [] ==> x[0] !in cs
    ensures StripLeft(a + x, cs) == x
  {
    if a != [] {
      assert (a + x)[1..] == a[1..] + x;
      StripLeftPadded(a[1..], x, cs);
    }
  }

  lemma {:induction false} StripRightPadded(x: string, b: string, cs: set<char>)
    requires forall i :: 0 <= i < |b| ==> b[i] in cs
    requires x != [] ==> x[|x| - 1] !in cs
    ensures StripRight(x + b, cs) == x
  {
    if b != [] {
      assert (x + b)[..|x + b| - 1] == x + b[..|b| - 1];
      StripRightPadded(x, b[..|b| - 1], cs);
    }
  }

  /** Whatever surrounds x, if it is made of characters in cs and x neither
      starts nor ends with one, strip gives back exactly x. */
  lemma StripPadded(a: string, x: string, b: string, cs: set<char>)
    requires forall i :: 0 <= i < |a| ==> a[i] in cs
    requires forall i :: 0 <= i < |b| ==> b[i] in cs
    requires x != [] ==> x[0] !in cs && x[|x| - 1] !in cs
    ensures Strip(a + x + b, cs) == x
  {
    if x == [] {
      assert a + x + b == a + b;
      StripLeftAll(a + b, cs);
    } else {
      assert a + x + b == a + (x + b);
      StripLeftPadded(a, x + b, cs);
      StripRightPadded(x, b, cs);
    }
  }

  lemma {:induction false} StripLeftAll(s: string, cs: set<char>)
    requires forall i :: 0 <= i < |s| ==> s[i] in cs
    ensures StripLeft(s, cs) == []
  {
    if s != [] {
      StripLeftAll(s[1..], cs);
    }
  }

  // ---- int() ----

  /** Python's int(s) on a string: optional surrounding whitespace, an
      optional sign, then at least one digit; anything else raises ValueError. */
  function ParseInt(s: string): (r: Result<int>)
    ensures NoDigits(s) ==> r.Err?
    ensures r.Err? ==> r.error == InvalidInteger(s)
  {
    ParseLiteral(Strip(s, Whitespace), s)
  }

  /** int() on the text t that is left of s once stripped: a sign and
      digits, or digits alone; the error names all of s. */
  function ParseLiteral(t: string, s: string): (r: Result<int>)
    ensures r.Ok? ==> exists i :: 0 <= i < |t| && IsDigit(t[i])
    ensures r.Err? ==> r.error == InvalidInteger(s)
  {
    if |t| > 1 && (t[0] == '-' || t[0] == '+') && AllDigits(t[1..]) then
      assert IsDigit(t[1]);
      var magnitude: int := DecimalValue(t[1..]);
      Ok(if t[0] == '-' then -magnitude else magnitude)
    else if t != [] && AllDigits(t) then
      Ok(DecimalValue(t))
    else
      Err(InvalidInteger(s))
  }

  /** str(n) is a digit run, after a minus sign when n is negative, whose
      digits denote the magnitude of n. */
  lemma NumeralShape(n: int)
    ensures var x := Numeral(n);
      && x != [] && IsDigit(x[|x| - 1])
      && (n < 0 ==> |x| > 1 && x[0] == '-' && AllDigits(x[1..]) && DecimalValue(x[1..]) == -n)
      && (n >= 0 ==> IsDigit(x[0]) && AllDigits(x) && DecimalValue(x) == n)
  {
    if n < 0 {
      NegativeNumeral(-n);
    } else {
      DecimalRoundTrip(n);
    }
  }

  lemma NegativeNumeral(m: nat)
    requires m > 0
    ensures var x := Numeral(-(m as int));
      |x| > 1 && x[0] == '-' && x[1..] == Decimal(m) && IsDigit(x[|x| - 1])
      && AllDigits(x[1..]) && DecimalValue(x[1..]) == m
  {
    var x := Numeral(-(m as int));
    assert x == "-" + Decimal(m);
    assert x[1..] == Decimal(m);
    DecimalRoundTrip(m);
  }

  /** int() on a string whose stripped text is str(n) gives n. */
  lemma ParseIntOfStripped(s: string, n: int)
    requires Strip(s, Whitespace) == Numeral(n)
    ensures ParseInt(s) == Ok(n)
  {
    NumeralShape(n);
  }

  /** int() reads back what str() writes, with any whitespace around it. */
  lemma ParseIntRoundTrip(n: int, lead: string, trail: string)
    requires forall i :: 0 <= i < |lead| ==> lead[i] in Whitespace
    requires forall i :: 0 <= i < |trail| ==> trail[i] in Whitespace
    ensures ParseInt(lead + Numeral(n) + trail) == Ok(n)
  {
    NumeralEnds(n);
    StripPadded(lead, Numeral(n), trail, Whitespace);
    ParseIntOfStripped(lead + Numeral(n) + trail, n);
  }

  lemma NumeralEnds(n: int)
    ensures var x := Numeral(n); x != [] && x[0] !in Whitespace && x[|x| - 1] !in Whitespace
  {
    NumeralShape(n);
  }

  function Magnitude(n: int): nat
  {
    if n < 0 then -n else n
  }

  /** s is the text of the integer n as int() accepts it: whitespace, an
      optional sign, any zeros, the decimal digits of |n|, whitespace. */
  predicate IntegerText(s: string, n: int, lead: string, sign: string, zeros: string, trail: string)
  {
    && (forall i :: 0 <= i < |lead| ==> lead[i] in Whitespace)
    && (forall i :: 0 <= i < |trail| ==> trail[i] in Whitespace)
    && (sign == "" || sign == "+" || sign == "-")
    && (sign == "-" ==> n <= 0)
    && (sign != "-" ==> n >= 0)
    && (forall i :: 0 <= i < |zeros| ==> zeros[i] == '0')
    && s == lead + sign + zeros + Decimal(Magnitude(n)) + trail
  }

  /** int() reads n from every text of n. */
  lemma ParseIntReadsIntegerText(s: string, n: int, lead: string, sign: string, zeros: string, trail: string)
    requires IntegerText(s, n, lead, sign, zeros, trail)
    ensures ParseInt(s) == Ok(n)
  {
    var d := Decimal(Magnitude(n));
    var digits := zeros + d;
    assert AllDigits(digits) && DecimalValue(digits) == Magnitude(n) by {
      LeadingZeros(zeros, d);
      DecimalRoundTrip(Magnitude(n));
    }
    assert Strip(s, Whitespace) == sign + digits by {
      SignedTextEnds(sign, digits);
      AppendAssoc(lead + sign, zeros, d);
      AppendAssoc(lead, sign, digits);
      StripPadded(lead, sign + digits, trail, Whitespace);
    }
    ParseIntOfSignedText(s, n, sign, digits);
  }

  lemma ParseIntOfSignedText(s: string, n: int, sign: string, digits: string)
    requires sign == "" || sign == "+" || sign == "-"
    requires sign == "-" ==> n <= 0
    requires sign != "-" ==> n >= 0
    requires digits != [] && AllDigits(digits) && DecimalValue(digits) == Magnitude(n)
    requires Strip(s, Whitespace) == sign + digits
    ensures ParseInt(s) == Ok(n)
  {
    ParseIntOfSigned(s, sign, digits);
  }

  lemma SignedTextEnds(sign: string, digits: string)
    requires sign == "" || sign == "+" || sign == "-"
    requires digits != [] && AllDigits(digits)
    ensures var x := sign + digits; x != [] && x[0] !in Whitespace && x[|x| - 1] !in Whitespace
  {
    var x := sign + digits;
    assert x[|x| - 1] == digits[|digits| - 1];
    if sign == "" { assert x[0] == digits[0]; } else { assert x[0] == sign[0]; }
  }

  /** int() of a string whose stripped text is a sign and digits. */
  lemma ParseIntOfSigned(s: string, sign: string, digits: string)
    requires sign == "" || sign == "+" || sign == "-"
    requires digits != [] && AllDigits(digits)
    requires Strip(s, Whitespace) == sign + digits
    ensures ParseInt(s) == Ok(if sign == "-" then -(DecimalValue(digits) as int) else DecimalValue(digits))
  {
    LiteralOfSigned(sign, digits, s);
  }

  lemma LiteralOfSigned(sign: string, digits: string, s: string)
    requires sign == "" || sign == "+" || sign == "-"
    requires digits != [] && AllDigits(digits)
    ensures ParseLiteral(sign + digits, s) == Ok(if sign == "-" then -(DecimalValue(digits) as int) else DecimalValue(digits))
  {
    var t := sign + digits;
    if sign == "" {
      assert t == digits;
      assert IsDigit(t[0]);
    } else {
      assert t[0] == sign[0];
      assert t[1..] == digits;
    }
  }

  /** Every string int() reads as n is a text of n, so int() accepts
      nothing beyond whitespace, an optional sign and digits. */
  lemma ParseIntAcceptsOnlyIntegerText(s: string, n: int)
    requires ParseInt(s) == Ok(n)
    ensures exists lead, sign, zeros, trail :: IntegerText(s, n, lead, sign, zeros, trail)
  {
    var lead, trail := StripSplits(s, Whitespace);
    var sign, digits := SignedDigits(s, n);
    IntegerTextOfParts(s, n, lead, sign, digits, trail);
  }

  lemma IntegerTextOfParts(s: string, n: int, lead: string, sign: string, digits: string, trail: string)
    requires forall i :: 0 <= i < |lead| ==> lead[i] in Whitespace
    requires forall i :: 0 <= i < |trail| ==> trail[i] in Whitespace
    requires sign == "" || sign == "+" || sign == "-"
    requires sign == "-" ==> n <= 0
    requires sign != "-" ==> n >= 0
    requires digits != [] && AllDigits(digits) && DecimalValue(digits) == Magnitude(n)
    requires s == lead + (sign + digits) + trail
    ensures exists zeros :: IntegerText(s, n, lead, sign, zeros, trail)
  {
    var k := CanonicalDigits(digits);
    var zeros := digits[..k];
    assert digits == zeros + Decimal(Magnitude(n));
    AppendAssoc(lead + sign, zeros, Decimal(Magnitude(n)));
    AppendAssoc(lead, sign, digits);
    assert IntegerText(s, n, lead, sign, zeros, trail);
  }

  /** s is its stripped text with the stripped characters around it. */
  lemma StripSplits(s: string, cs: set<char>) returns (lead: string, trail: string)
    ensures s == lead + Strip(s, cs) + trail
    ensures forall i :: 0 <= i < |lead| ==> lead[i] in cs
    ensures forall i :: 0 <= i < |trail| ==> trail[i] in cs
  {
    var r := StripLeft(s, cs);
    lead := StripLeftSplits(s, cs);
    trail := StripRightSplits(r, cs);
    AppendAssoc(lead, StripRight(r, cs), trail);
  }

  lemma StripLeftSplits(s: string, cs: set<char>) returns (lead: string)
    ensures s == lead + StripLeft(s, cs)
    ensures forall i :: 0 <= i < |lead| ==> lead[i] in cs
  {
    var r := StripLeft(s, cs);
    lead := s[..|s| - |r|];
    forall i | 0 <= i < |lead| ensures lead[i] in cs { assert lead[i] == s[i]; }
  }

  lemma StripRightSplits(r: string, cs: set<char>) returns (trail: string)
    ensures r == StripRight(r, cs) + trail
    ensures forall i :: 0 <= i < |trail| ==> trail[i] in cs
  {
    var t := StripRight(r, cs);
    trail := r[|t|..];
    forall i | 0 <= i < |trail| ensures trail[i] in cs { assert trail[i] == r[|t| + i]; }
  }

  /** What int() accepts, once stripped, is a sign and the digits of |n|. */
  lemma SignedDigits(s: string, n: int) returns (sign: string, digits: string)
    requires ParseInt(s) == Ok(n)
    ensures Strip(s, Whitespace) == sign + digits
    ensures sign == "" || sign == "+" || sign == "-"
    ensures sign == "-" ==> n <= 0
    ensures sign != "-" ==> n >= 0
    ensures digits != [] && AllDigits(digits) && DecimalValue(digits) == Magnitude(n)
  {
    sign, digits := SignedLiteral(Strip(s, Whitespace), s, n);
  }

  lemma SignedLiteral(t: string, s: string, n: int) returns (sign: string, digits: string)
    requires ParseLiteral(t, s) == Ok(n)
    ensures t == sign + digits
    ensures sign == "" || sign == "+" || sign == "-"
    ensures sign == "-" ==> n <= 0
    ensures sign != "-" ==> n >= 0
    ensures digits != [] && AllDigits(digits) && DecimalValue(digits) == Magnitude(n)
  {
    if |t| > 1 && (t[0] == '-' || t[0] == '+') && AllDigits(t[1..]) {
      sign, digits := t[..1], t[1..];
      assert t == sign + digits;
    } else {
      sign, digits := "", t;
    }
  }

  /** A run of digits is zeros followed by the canonical digits of its value. */
  lemma {:induction false} CanonicalDigits(d: string) returns (k: nat)
    requires d != [] && AllDigits(d)
    ensures k < |d| && (forall i :: 0 <= i < k ==> d[i] == '0')
    ensures d[k..] == Decimal(DecimalValue(d))
  {
    if |d| == 1 || d[0] != '0' {
      k := 0;
      NoLeadingZero(d);
    } else {
      var k' := CanonicalDigits(d[1..]);
      LeadingZeros([d[0]], d[1..]);
      assert d == [d[0]] + d[1..];
      k := k' + 1;
      assert d[k..] == d[1..][k'..];
    }
  }

  /** A run of digits without a leading zero is the canonical form of its value. */
  lemma {:induction false} NoLeadingZero(d: string)
    requires d != [] && AllDigits(d)
    requires |d| == 1 || d[0] != '0'
    ensures Decimal(DecimalValue(d)) == d
  {
    var p := d[..|d| - 1];
    if |d| == 1 {
      assert DigitChar(DigitValue(d[0])) == d[0];
    } else {
      assert p[0] == d[0];
      NoLeadingZero(p);
      var v := DecimalValue(d);
      assert v / 10 == DecimalValue(p) && v % 10 == DigitValue(d[|d| - 1]);
      assert DigitChar(DigitValue(d[|d| - 1])) == d[|d| - 1];
      assert d == p + [d[|d| - 1]];
    }
  }

  lemma AppendAssoc<T>(a: seq<T>, b: seq<T>, c: seq<T>)
    ensures a + b + c == a + (b + c)
  {
  }

  // ---- str.split and str.join ----

  /** The position of the first c in s, or |s| when there is none. */
  function IndexOf(s: string, c: char): (i: nat)
    ensures i <= |s| && (i < |s| ==> s[i] == c)
    ensures forall k :: 0 <= k < i ==> s[k] != c
  {
    if s == [] || s[0] == c then 0 else 1 + IndexOf(s[1..], c)
  }

  /** sep.join(parts) */
  function Join(parts: seq<string>, sep: string): string
  {
    if |parts| == 0 then ""
    else if |parts| == 1 then parts[0]
    else parts[0] + sep + Join(parts[1..], sep)
  }

  /** s.split(sep) for a one-character separator: at least one part, no part
      holds the separator, and joining the parts gives s back. */
  function Split(s: string, sep: char): (parts: seq<string>)
    ensures |parts| >= 1
    ensures forall k :: 0 <= k < |parts| ==> sep !in parts[k]
    ensures Join(parts, [sep]) == s
    decreases |s|
  {
    var i := IndexOf(s, sep);
    if i == |s| then
      [s]
    else
      var rest := Split(s[i + 1..], sep);
      assert s == s[..i] + [sep] + s[i + 1..];
      assert ([s[..i]] + rest)[1..] == rest;
      [s[..i]] + rest
  }

  /** Splitting undoes joining when no part holds the separator. */
  lemma {:induction false} SplitJoin(parts: seq<string>, sep: char)
    requires |parts| >= 1
    requires forall k :: 0 <= k < |parts| ==> sep !in parts[k]
    ensures Split(Join(parts, [sep]), sep) == parts
  {
    var s := Join(parts, [sep]);
    if |parts| > 1 {
      var p := parts[0];
      assert s == p + [sep] + Join(parts[1..], [sep]);
      assert s[|p|] == sep;
      assert forall k :: 0 <= k < |p| ==> s[k] == p[k];
      var i := IndexOf(s, sep);
      assert i == |p|;
      assert s[..i] == p;
      assert s[i + 1..] == Join(parts[1..], [sep]);
      SplitJoin(parts[1..], sep);
    }
  }

  /** The first part of a split is everything before the first separator, and
      there is a second part exactly when the separator occurs. */
  lemma SplitHead(s: string, sep: char)
    ensures Split(s, sep)[0] == s[..IndexOf(s, sep)]
    ensures |Split(s, sep)| >= 2 <==> IndexOf(s, sep) < |s|
    ensures IndexOf(s, sep) < |s| ==>
      var i := IndexOf(s, sep);
      Split(s, sep)[1] == s[i + 1..][..IndexOf(s[i + 1..], sep)]
  {
    var i := IndexOf(s, sep);
    if i < |s| {
      SplitHead(s[i + 1..], sep);
    }
  }
}
