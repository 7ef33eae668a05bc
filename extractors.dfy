/** The field extractors: each reads one field of a detail response, taking
    the first matching element when there are several. */
module Extractors {
  import opened Wrappers
  import opened Text
  import opened Soup
  import opened Records

  /** The largest year Python's datetime accepts (datetime.MAXYEAR). */
  const MaxYear: int := 9999

  const YearPublished := Query("yearpublished", map[])
  const PublisherLink := Query("link", map["type" := "rpgpublisher"])
  const SeriesLink := Query("link", map["type" := "rpgseries"])
  const SeriesCode := Query("seriescode", map[])
  const Description := Query("description", map[])
  const Image := Query("image", map[])

  /** tag["value"] wrapped as an optional field: the value, or the KeyError. */
  function OptionalValue(e: Element): (r: Result<Option<string>>)
    ensures r == if "value" in e.attrs then Ok(Some(e.attrs["value"])) else Err(MissingAttribute(e.name, "value"))
  {
    var v :- Attr(e, "value");
    Ok(Some(v))
  }

  // ---- publish date ----

  /** The publish date: absent without a yearpublished element or for a year
      that is not positive, otherwise January 1 of that year. int() on a
      malformed year and datetime() on a year past 9999 raise. */
  function PubDate(doc: Document): (r: Result<Option<Date>>)
    ensures NoMatch(doc, YearPublished) ==> r == Ok(None)
    ensures r.Ok? && r.value.Some? ==>
      r.value.value.month == 1 && r.value.value.day == 1 && 1 <= r.value.value.year <= MaxYear
    ensures forall i :: IsFirstMatch(doc, YearPublished, i) && "value" !in doc[i].attrs ==>
      r == Err(MissingAttribute("yearpublished", "value"))
    ensures forall i :: IsFirstMatch(doc, YearPublished, i) && "value" in doc[i].attrs ==>
      match ParseInt(doc[i].attrs["value"])
      case Err(_) => r == Err(InvalidInteger(doc[i].attrs["value"]))
      case Ok(y) => r == if y <= 0 then Ok(None) else if y <= MaxYear then Ok(Some(Date(y, 1, 1))) else Err(YearOutOfRange(y))
  {
    match Find(doc, YearPublished)
    case None => Ok(None)
    case Some(tag) =>
      var text :- Attr(tag, "value");
      var year :- ParseInt(text);
      if year <= 0 then Ok(None)
      else if year > MaxYear then Err(YearOutOfRange(year))
      else Ok(Some(Date(year, 1, 1)))
  }

  /** When the first yearpublished element holds the decimal numeral of a
      year y (whitespace around it allowed), the date is absent for y <= 0,
      January 1 of y for 1 <= y <= 9999, and an error past that. */
  lemma PubDateOfYear(doc: Document, i: nat, y: int, lead: string, trail: string)
    requires IsFirstMatch(doc, YearPublished, i)
    requires forall k :: 0 <= k < |lead| ==> lead[k] in Whitespace
    requires forall k :: 0 <= k < |trail| ==> trail[k] in Whitespace
    requires "value" in doc[i].attrs && doc[i].attrs["value"] == lead + Numeral(y) + trail
    ensures PubDate(doc) ==
      if y <= 0 then Ok(None)
      else if y <= MaxYear then Ok(Some(Date(y, 1, 1)))
      else Err(YearOutOfRange(y))
  {
    ParseIntRoundTrip(y, lead, trail);
  }

  // ---- publisher, comments, cover ----

  /** The value of the first rpgpublisher link, or absent when there is none. */
  function Publisher(doc: Document): (r: Result<Option<string>>)
    ensures NoMatch(doc, PublisherLink) ==> r == Ok(None)
    ensures forall i :: IsFirstMatch(doc, PublisherLink, i) ==> r == OptionalValue(doc[i])
  {
    match Find(doc, PublisherLink)
    case None => Ok(None)
    case Some(tag) => OptionalValue(tag)
  }

  /** The first content node of the first description element; absent when
      there is no such element or it is empty. */
  function Comments(doc: Document): (r: Option<string>)
    ensures NoMatch(doc, Description) ==> r == None
    ensures forall i :: IsFirstMatch(doc, Description, i) ==>
      r == if doc[i].contents == [] then None else Some(doc[i].contents[0])
  {
    match Find(doc, Description)
    case None => None
    case Some(tag) => if tag.contents == [] then None else Some(tag.contents[0])
  }

  /** The value of the first image element, or absent when there is none. */
  function Cover(doc: Document): (r: Result<Option<string>>)
    ensures NoMatch(doc, Image) ==> r == Ok(None)
    ensures forall i :: IsFirstMatch(doc, Image, i) ==> r == OptionalValue(doc[i])
  {
    match Find(doc, Image)
    case None => Ok(None)
    case Some(tag) => OptionalValue(tag)
  }

  // ---- series ----

  /** [k, m) is a match of the pattern (\d+)\D*$: a run of digits followed
      by nothing but non-digits up to the end of s. */
  predicate RegexMatch(s: string, k: int, m: int)
  {
    0 <= k < m <= |s| && AllDigits(s[k..m]) && NoDigits(s[m..])
  }

  /** The end of the last digit of s[..j], or 0 when s[..j] has no digit. */
  function LastDigitEnd(s: string, j: nat): (k: nat)
    requires j <= |s|
    ensures k <= j && NoDigits(s[k..j])
    ensures k > 0 ==> IsDigit(s[k - 1])
  {
    if j == 0 || IsDigit(s[j - 1]) then j
    else
      var k := LastDigitEnd(s, j - 1);
      assert s[k..j] == s[k..j - 1] + [s[j - 1]];
      k
  }

  /** The start of the run of digits that ends at j. */
  function DigitRunStart(s: string, j: nat): (k: nat)
    requires j <= |s|
    ensures k <= j && AllDigits(s[k..j])
    ensures k > 0 ==> !IsDigit(s[k - 1])
  {
    if j == 0 || !IsDigit(s[j - 1]) then j
    else
      var k := DigitRunStart(s, j - 1);
      assert s[k..j] == s[k..j - 1] + [s[j - 1]];
      k
  }

  /** The span of the last run of digits in s, found scanning from the end:
      a match of (\d+)\D*$ that no earlier digit could extend. */
  function LastDigitRun(s: string): (r: Option<(nat, nat)>)
    ensures r.None? <==> NoDigits(s)
    ensures r.Some? ==> RegexMatch(s, r.value.0, r.value.1)
    ensures r.Some? ==> r.value.0 == 0 || !IsDigit(s[r.value.0 - 1])
  {
    var j := LastDigitEnd(s, |s|);
    if j == 0 then
      assert s == s[0..|s|];
      None
    else
      Some((DigitRunStart(s, j), j))
  }

  /** re.search returns the leftmost match and greedily the longest one
      there: the span LastDigitRun finds is that match. Every match ends
      where it ends, and none starts earlier. */
  lemma LastDigitRunIsLeftmostMatch(s: string, k: int, m: int)
    requires RegexMatch(s, k, m)
    ensures LastDigitRun(s).Some?
    ensures var (i, j) := LastDigitRun(s).value; m == j && i <= k
  {
    assert forall x :: k <= x < m ==> IsDigit(s[x]) by {
      forall x | k <= x < m ensures IsDigit(s[x]) { assert s[x] == s[k..m][x - k]; }
    }
    assert forall x :: m <= x < |s| ==> !IsDigit(s[x]) by {
      forall x | m <= x < |s| ensures !IsDigit(s[x]) { assert s[x] == s[m..][x - m]; }
    }
    assert !NoDigits(s) by { assert IsDigit(s[k]); }
    var (i, j) := LastDigitRun(s).value;
    assert forall x :: j <= x < |s| ==> !IsDigit(s[x]) by {
      forall x | j <= x < |s| ensures !IsDigit(s[x]) { assert s[x] == s[j..][x - j]; }
    }
    // the digit s[j - 1] lies before m, and the digit s[m - 1] before j
    assert IsDigit(s[j - 1]) && IsDigit(s[m - 1]);
    assert j <= m && m <= j;
  }

  /** The series index a series code denotes: the value of the digits the
      regex captures (leading zeros dropped), or 0 when it does not match. */
  function SeriesIndex(code: string): (n: nat)
    ensures NoDigits(code) ==> n == 0
  {
    match LastDigitRun(code)
    case None => 0
    case Some((i, j)) => DecimalValue(code[i..j])
  }

  /** A match that no digit precedes is exactly the span LastDigitRun finds. */
  lemma UnextendableMatchIsLastDigitRun(s: string, k: int, m: int)
    requires RegexMatch(s, k, m)
    requires k == 0 || !IsDigit(s[k - 1])
    ensures LastDigitRun(s) == Some((k, m))
  {
    LastDigitRunIsLeftmostMatch(s, k, m);
    var (i, j) := LastDigitRun(s).value;
    assert forall x :: i <= x < j ==> IsDigit(s[x]) by {
      forall x | i <= x < j ensures IsDigit(s[x]) { assert s[x] == s[i..j][x - i]; }
    }
  }

  /** A code made of anything not ending in a digit, then a number written
      with any leading zeros, then only non-digits, has that number as index
      ("ABC-042b" gives 42). */
  lemma SeriesIndexOfCode(prefix: string, zeros: string, n: nat, suffix: string)
    requires prefix == [] || !IsDigit(prefix[|prefix| - 1])
    requires forall k :: 0 <= k < |zeros| ==> zeros[k] == '0'
    requires NoDigits(suffix)
    ensures SeriesIndex(prefix + zeros + Decimal(n) + suffix) == n
  {
    var d := zeros + Decimal(n);
    LeadingZeros(zeros, Decimal(n));
    DecimalRoundTrip(n);
    var s := prefix + d + suffix;
    assert s == prefix + zeros + Decimal(n) + suffix;
    var k, m := |prefix|, |prefix| + |d|;
    assert s[k..m] == d;
    assert s[m..] == suffix;
    assert k > 0 ==> s[k - 1] == prefix[|prefix| - 1];
    UnextendableMatchIsLastDigitRun(s, k, m);
  }

  lemma SeriesIndexExamples()
    ensures SeriesIndex("ABC-042b") == 42
    ensures SeriesIndex("ABC") == 0
  {
    assert Decimal(42) == "42" by {
      assert Decimal(4) == "4";
    }
    assert "ABC-042b" == "ABC-" + "0" + Decimal(42) + "b";
    SeriesIndexOfCode("ABC-", "0", 42, "b");
    assert NoDigits("ABC");
  }

  /** The series name: the value of the first rpgseries link, "" when there is none. */
  function SeriesName(doc: Document): (r: Result<string>)
    ensures NoMatch(doc, SeriesLink) ==> r == Ok("")
    ensures forall i :: IsFirstMatch(doc, SeriesLink, i) ==> r == Attr(doc[i], "value")
  {
    match Find(doc, SeriesLink)
    case None => Ok("")
    case Some(tag) => Attr(tag, "value")
  }

  /** The series index: read from the first seriescode element, 0 when there is none. */
  function SeriesNumber(doc: Document): (r: Result<int>)
    ensures NoMatch(doc, SeriesCode) ==> r == Ok(0)
    ensures forall i :: IsFirstMatch(doc, SeriesCode, i) ==>
      r == if "value" in doc[i].attrs then Ok(SeriesIndex(doc[i].attrs["value"])) else Err(MissingAttribute(doc[i].name, "value"))
  {
    match Find(doc, SeriesCode)
    case None => Ok(0)
    case Some(tag) =>
      var code :- Attr(tag, "value");
      Ok(SeriesIndex(code))
  }

  /** _get_series: name and index, each read on its own; the name's lookup
      runs (and may raise) first. */
  function Series(doc: Document): (r: Result<(string, int)>)
    ensures r.Ok? <==> SeriesName(doc).Ok? && SeriesNumber(doc).Ok?
    ensures r.Ok? ==> r.value == (SeriesName(doc).value, SeriesNumber(doc).value)
    ensures r.Err? ==> r.error == if SeriesName(doc).Err? then SeriesName(doc).error else SeriesNumber(doc).error
  {
    var name :- SeriesName(doc);
    var index :- SeriesNumber(doc);
    Ok((name, index))
  }
}
