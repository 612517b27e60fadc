/** The fixed naming template shared by both download routines: the file name
    `{data_type}_tripdata_{year}-{month:02d}.parquet`, the remote URL under the
    TLC trip-data endpoint and the local cache path. A strict parser is the
    template's inverse: it recovers the (data type, year, month) key from a
    canonical file name, which shows that distinct keys never share a file. */
module Naming {
  import opened Common

  const BaseUrl: string := "https://d37ci6vzurychx.cloudfront.net/trip-data"
  const DataTypes: seq<string> := ["yellow", "green", "fhv"]
  const Infix: string := "_tripdata_"
  const Extension: string := ".parquet"

  predicate ValidDataType(dataType: string) {
    dataType in DataTypes
  }

  /** The negation of the guard `month < 1 or month > 12`. */
  predicate ValidMonth(month: int) {
    !(month < 1 || month > 12)
  }

  // ---------------------------------------------------------------------
  // Decimal rendering of integers, as Python's str() and format(n, "02d")

  predicate IsDigit(c: char) {
    '0' <= c <= '9'
  }

  predicate AllDigits(s: string) {
    forall i :: 0 <= i < |s| ==> IsDigit(s[i])
  }

  function DigitValue(c: char): (d: nat)
    requires IsDigit(c)
    ensures d < 10
  {
    (c as int) - ('0' as int)
  }

  function DigitChar(d: nat): (c: char)
    requires d < 10
    ensures IsDigit(c) && DigitValue(c) == d
  {
    (('0' as int) + d) as char
  }

  /** Decimal digits of n with no leading zero (Python's str for n >= 0). */
  function NatToString(n: nat): (s: string)
    ensures |s| >= 1 && AllDigits(s)
    ensures n > 0 ==> s[0] != '0'
    ensures n < 10 <==> |s| == 1
    decreases n
  {
    if n < 10 then [DigitChar(n)] else NatToString(n / 10) + [DigitChar(n % 10)]
  }

  /** Python's str(i): a minus sign before the digits of a negative number. */
  function IntToString(i: int): (s: string) {
    if i < 0 then "-" + NatToString(-i) else NatToString(i)
  }

  /** Python's format(m, "02d"): zero-padded to width two; a value that
      already takes two or more characters (including a sign) is unchanged. */
  function Pad2(m: int): (s: string) {
    if 0 <= m < 10 then "0" + NatToString(m) else IntToString(m)
  }

  /** Value of a string of decimal digits. */
  function DigitsValue(s: string): (v: nat)
    requires AllDigits(s)
    decreases |s|
  {
    if s == [] then 0 else DigitsValue(s[..|s| - 1]) * 10 + DigitValue(s[|s| - 1])
  }

  predicate IsIntLiteral(s: string) {
    if |s| > 0 && s[0] == '-' then |s| > 1 && AllDigits(s[1..]) else |s| > 0 && AllDigits(s)
  }

  function IntValue(s: string): (v: int)
    requires IsIntLiteral(s)
  {
    if |s| > 0 && s[0] == '-' then 0 - DigitsValue(s[1..]) else DigitsValue(s)
  }

  lemma {:induction false} NatToStringRoundTrip(n: nat)
    ensures DigitsValue(NatToString(n)) == n
    decreases n
  {
    if n >= 10 {
      var s := NatToString(n);
      NatToStringRoundTrip(n / 10);
      assert s[..|s| - 1] == NatToString(n / 10);
    }
  }

  /** str(i) is read back as i. */
  lemma IntToStringRoundTrip(i: int)
    ensures IsIntLiteral(IntToString(i)) && IntValue(IntToString(i)) == i
  {
    if i < 0 {
      NegativeRoundTrip(-i);
    } else {
      assert NatToString(i)[0] != '-';
      NatToStringRoundTrip(i);
    }
  }

  lemma NegativeRoundTrip(n: nat)
    requires n > 0
    ensures var s := "-" + NatToString(n); IsIntLiteral(s) && IntValue(s) == -(n as int)
  {
    var digits := NatToString(n);
    var s := "-" + digits;
    assert s[0] == '-' && s[1..] == digits;
    NatToStringRoundTrip(n);
    assert IntValue(s) == 0 - DigitsValue(digits);
  }

  /** For every month, format(month, "02d") is two digits whose value is the month. */
  lemma Pad2Month(month: int)
    requires ValidMonth(month)
    ensures |Pad2(month)| == 2 && AllDigits(Pad2(month)) && DigitsValue(Pad2(month)) == month
  {
    var s := Pad2(month);
    if month < 10 {
      assert s == "0" + [DigitChar(month)];
      assert s[..1] == "0";
      assert s[..1][..0] == [];
      assert DigitsValue(s[..1]) == 0;
    } else {
      assert NatToString(month / 10) == [DigitChar(1)];
      assert s == [DigitChar(1), DigitChar(month % 10)];
      assert s[..1] == [DigitChar(1)];
      assert s[..1][..0] == [];
      assert DigitsValue(s[..1]) == 1;
    }
  }

  lemma {:induction false} LeadingDigitPositive(s: string)
    requires |s| >= 1 && AllDigits(s) && s[0] != '0'
    ensures DigitsValue(s) > 0
    decreases |s|
  {
    if |s| > 1 {
      LeadingDigitPositive(s[..|s| - 1]);
    } else {
      assert s[..0] == [];
    }
  }

  /** Canonical digits are exactly what str() renders for their value. */
  lemma {:induction false} CanonicalDigitsRoundTrip(s: string)
    requires CanonicalDigits(s)
    ensures NatToString(DigitsValue(s)) == s
    decreases |s|
  {
    var init, c := s[..|s| - 1], s[|s| - 1];
    if |s| == 1 {
      assert init == [];
      assert DigitChar(DigitValue(c)) == c;
    } else {
      assert init[0] == s[0];
      CanonicalDigitsRoundTrip(init);
      LeadingDigitPositive(init);
      var v := DigitsValue(s);
      assert v == DigitsValue(init) * 10 + DigitValue(c);
      assert v / 10 == DigitsValue(init) && v % 10 == DigitValue(c);
      assert DigitChar(DigitValue(c)) == c;
      assert s == init + [c];
    }
  }

  // ---------------------------------------------------------------------
  // The template

  /** `{data_type}_tripdata_{year}-{month:02d}.parquet` */
  function FileName(dataType: string, year: int, month: int): (name: string) {
    dataType + Infix + IntToString(year) + "-" + Pad2(month) + Extension
  }

  /** `{base_url}/{filename}` */
  function UrlOf(fileName: string): (url: Url) {
    BaseUrl + "/" + fileName
  }

  /** `output_dir / filename`, rendered with a single separator. */
  function Join(dir: Path, fileName: string): (p: Path) {
    dir + "/" + fileName
  }

  /** What the loop body derives for one month. */
  datatype Entry = Entry(name: string, url: Url, path: Path)

  function EntryFor(dataType: string, year: int, month: int, dir: Path): (e: Entry) {
    var name := FileName(dataType, year, month);
    Entry(name, UrlOf(name), Join(dir, name))
  }

  // ---------------------------------------------------------------------
  // The inverse of the template

  datatype FileKey = FileKey(dataType: string, year: int, month: int)

  function TypeOfName(name: string): (r: Option<string>)
    ensures r.Some? ==> ValidDataType(r.value) && |name| >= |r.value + Infix| && name[..|r.value + Infix|] == r.value + Infix
  {
    if |name| >= 16 && name[..16] == "yellow" + Infix then Some("yellow")
    else if |name| >= 15 && name[..15] == "green" + Infix then Some("green")
    else if |name| >= 13 && name[..13] == "fhv" + Infix then Some("fhv")
    else None
  }

  /** Digits with no leading zero unless the number is zero. */
  predicate CanonicalDigits(s: string) {
    |s| >= 1 && AllDigits(s) && (|s| == 1 || s[0] != '0')
  }

  /** The year text has the form str() gives an integer: canonical digits,
      with a minus sign only before a non-zero number. */
  predicate CanonicalYear(ys: string) {
    if |ys| > 0 && ys[0] == '-' then CanonicalDigits(ys[1..]) && ys[1..] != "0" else CanonicalDigits(ys)
  }

  /** The month text has the form format(month, "02d") gives a valid month. */
  predicate CanonicalMonth(ms: string) {
    |ms| == 2 && AllDigits(ms) && ValidMonth(DigitsValue(ms))
  }

  /** The key of a canonical file name: the data type is one of the three,
      the year is rendered exactly as str() renders it, and the month is a
      valid month rendered exactly as format(month, "02d") renders it. */
  function ParseFileName(name: string): (k: Option<FileKey>) {
    match TypeOfName(name)
    case None => None
    case Some(t) =>
      var lo := |t| + |Infix|;
      if |name| < lo + 12 then None
      else
        var hi := |name| - 11;
        var ys, ms := name[lo..hi], name[hi + 1..hi + 3];
        if name[hi] == '-' && name[hi + 3..] == Extension && CanonicalYear(ys) && CanonicalMonth(ms)
        then Some(FileKey(t, IntValue(ys), DigitsValue(ms)))
        else None
  }

  lemma TypeOfPrefixed(t: string, rest: string)
    requires ValidDataType(t)
    ensures TypeOfName(t + Infix + rest) == Some(t)
  {
    var name := t + Infix + rest;
    assert name[..|t + Infix|] == t + Infix;
    assert name[0] == t[0];
    if t == "green" {
      assert ("yellow" + Infix)[0] == 'y';
    } else if t == "fhv" {
      assert ("yellow" + Infix)[0] == 'y' && ("green" + Infix)[0] == 'g';
    }
  }

  lemma Split5<T>(a: seq<T>, b: seq<T>, c: seq<T>, d: seq<T>, e: seq<T>)
    requires |c| == 1
    ensures var s := a + b + c + d + e;
      && s[|a|..|a| + |b|] == b
      && s[|a| + |b|] == c[0]
      && s[|a| + |b| + |c|..|a| + |b| + |c| + |d|] == d
      && s[|a| + |b| + |c| + |d|..] == e
  {
  }

  /** str() renders every integer in canonical form. */
  lemma IntToStringCanonical(i: int)
    ensures CanonicalYear(IntToString(i))
  {
    if i < 0 {
      var s := IntToString(i);
      assert s[0] == '-' && s[1..] == NatToString(-i);
    } else {
      assert IntToString(i)[0] != '-';
    }
  }

  /** A canonical year text is what str() renders for its value. */
  lemma CanonicalYearRoundTrip(ys: string)
    requires CanonicalYear(ys)
    ensures IsIntLiteral(ys) && IntToString(IntValue(ys)) == ys
  {
    if |ys| > 0 && ys[0] == '-' {
      var digits := ys[1..];
      CanonicalDigitsRoundTrip(digits);
      if |digits| == 1 {
        assert digits[0] != '0';
      }
      LeadingDigitPositive(digits);
      assert ys == "-" + digits;
    } else {
      CanonicalDigitsRoundTrip(ys);
    }
  }

  /** Every valid month renders in canonical form. */
  lemma Pad2Canonical(month: int)
    requires ValidMonth(month)
    ensures CanonicalMonth(Pad2(month)) && DigitsValue(Pad2(month)) == month
  {
    Pad2Month(month);
  }

  /** A canonical month text is what format(month, "02d") renders for its value. */
  lemma CanonicalMonthRoundTrip(ms: string)
    requires CanonicalMonth(ms)
    ensures Pad2(DigitsValue(ms)) == ms
  {
    assert ms[..1][..0] == [] && ms[..1][0] == ms[0];
    assert DigitsValue(ms[..1]) == DigitValue(ms[0]);
    assert ms == [ms[0], ms[1]];
    var v := DigitsValue(ms);
    assert v == DigitValue(ms[0]) * 10 + DigitValue(ms[1]);
    assert DigitChar(DigitValue(ms[1])) == ms[1];
    if v < 10 {
      assert DigitValue(ms[0]) == 0 && ms[0] == '0';
    } else {
      assert DigitValue(ms[0]) == 1 && ms[0] == '1';
      assert NatToString(v / 10) == [DigitChar(1)];
    }
  }

  /** A name assembled from canonical parts parses back to their values. */
  lemma ParseParts(t: string, ys: string, ms: string)
    requires ValidDataType(t) && CanonicalYear(ys) && CanonicalMonth(ms)
    ensures ParseFileName(t + Infix + ys + "-" + ms + Extension) == Some(FileKey(t, IntValue(ys), DigitsValue(ms)))
  {
    NameType(t, ys, ms);
    NameSlices(t, ys, ms);
  }

  lemma NameType(t: string, ys: string, ms: string)
    requires ValidDataType(t)
    ensures TypeOfName(t + Infix + ys + "-" + ms + Extension) == Some(t)
  {
    assert t + Infix + ys + "-" + ms + Extension == t + Infix + (ys + "-" + ms + Extension);
    TypeOfPrefixed(t, ys + "-" + ms + Extension);
  }

  lemma NameSlices(t: string, ys: string, ms: string)
    requires |ms| == 2
    ensures var name, lo := t + Infix + ys + "-" + ms + Extension, |t| + |Infix|;
      var hi := |name| - 11;
      && hi == lo + |ys|
      && name[lo..hi] == ys && name[hi] == '-' && name[hi + 1..hi + 3] == ms && name[hi + 3..] == Extension
  {
    Split5(t + Infix, ys, "-", ms, Extension);
  }

  /** Parsing a file name built from a valid key gives back that key. */
  lemma FileNameRoundTrip(dataType: string, year: int, month: int)
    requires ValidDataType(dataType) && ValidMonth(month)
    ensures ParseFileName(FileName(dataType, year, month)) == Some(FileKey(dataType, year, month))
  {
    IntToStringRoundTrip(year);
    IntToStringCanonical(year);
    Pad2Canonical(month);
    ParseParts(dataType, IntToString(year), Pad2(month));
  }

  lemma ParsedParts(name: string)
    requires ParseFileName(name).Some?
    ensures var t := TypeOfName(name).value;
      var lo, hi := |t| + |Infix|, |name| - 11;
      && lo < hi && hi + 3 <= |name|
      && name[..lo] == t + Infix && name[hi..hi + 1] == "-" && name[hi + 3..] == Extension
      && CanonicalYear(name[lo..hi]) && CanonicalMonth(name[hi + 1..hi + 3])
      && ParseFileName(name).value == FileKey(t, IntValue(name[lo..hi]), DigitsValue(name[hi + 1..hi + 3]))
  {
  }

  /** A sequence cut into five consecutive slices is their concatenation. */
  lemma Reassemble<T>(s: seq<T>, a: seq<T>, b: seq<T>, c: seq<T>, d: seq<T>, e: seq<T>)
    requires |a| + |b| + |c| + |d| <= |s|
    requires s[..|a|] == a && s[|a|..|a| + |b|] == b && s[|a| + |b|..|a| + |b| + |c|] == c
    requires s[|a| + |b| + |c|..|a| + |b| + |c| + |d|] == d && s[|a| + |b| + |c| + |d|..] == e
    ensures s == a + b + c + d + e
  {
    assert s == s[..|a|] + s[|a|..|a| + |b|] + s[|a| + |b|..|a| + |b| + |c|]
              + s[|a| + |b| + |c|..|a| + |b| + |c| + |d|] + s[|a| + |b| + |c| + |d|..];
  }

  /** A name the parser accepts is exactly the file name of the key it returns. */
  lemma ParseFileNameCanonical(name: string)
    requires ParseFileName(name).Some?
    ensures var k := ParseFileName(name).value;
      ValidDataType(k.dataType) && ValidMonth(k.month) && FileName(k.dataType, k.year, k.month) == name
  {
    var t := TypeOfName(name).value;
    var lo := |t| + |Infix|;
    var hi := |name| - 11;
    var ys, ms := name[lo..hi], name[hi + 1..hi + 3];
    ParsedParts(name);
    CanonicalYearRoundTrip(ys);
    CanonicalMonthRoundTrip(ms);
    AssembleName(name, t, ys, ms);
  }

  lemma AssembleName(name: string, t: string, ys: string, ms: string)
    requires |t| + |Infix| < |name| - 11
    requires var lo, hi := |t| + |Infix|, |name| - 11;
      && name[..lo] == t + Infix && name[lo..hi] == ys && name[hi..hi + 1] == "-"
      && name[hi + 1..hi + 3] == ms && name[hi + 3..] == Extension
    ensures name == t + Infix + ys + "-" + ms + Extension
  {
    Reassemble(name, t + Infix, ys, "-", ms, Extension);
  }

  /** Two valid keys with the same file name are the same key. */
  lemma FileNameInjective(k1: FileKey, k2: FileKey)
    requires ValidDataType(k1.dataType) && ValidMonth(k1.month)
    requires ValidDataType(k2.dataType) && ValidMonth(k2.month)
    requires FileName(k1.dataType, k1.year, k1.month) == FileName(k2.dataType, k2.year, k2.month)
    ensures k1 == k2
  {
    FileNameRoundTrip(k1.dataType, k1.year, k1.month);
    FileNameRoundTrip(k2.dataType, k2.year, k2.month);
  }

  /** Within one output directory, two different valid months of the same
      data type and year never share a cache path. */
  lemma DistinctMonthsDistinctPaths(dataType: string, year: int, m1: int, m2: int, dir: Path)
    requires ValidDataType(dataType) && ValidMonth(m1) && ValidMonth(m2) && m1 != m2
    ensures EntryFor(dataType, year, m1, dir).path != EntryFor(dataType, year, m2, dir).path
    ensures EntryFor(dataType, year, m1, dir).url != EntryFor(dataType, year, m2, dir).url
  {
    var n1, n2 := FileName(dataType, year, m1), FileName(dataType, year, m2);
    if n1 == n2 {
      FileNameInjective(FileKey(dataType, year, m1), FileKey(dataType, year, m2));
    }
    assert Join(dir, n1)[|dir| + 1..] == n1 && Join(dir, n2)[|dir| + 1..] == n2;
    assert UrlOf(n1)[|BaseUrl| + 1..] == n1 && UrlOf(n2)[|BaseUrl| + 1..] == n2;
  }

  lemma YearExample()
    ensures IntToString(2023) == "2023"
  {
    assert NatToString(2) == "2";
    assert NatToString(20) == NatToString(2) + [DigitChar(0)] == "20";
    assert NatToString(202) == NatToString(20) + [DigitChar(2)] == "202";
    assert NatToString(2023) == NatToString(202) + [DigitChar(3)] == "2023";
  }

  /** The worked example of the template. */
  lemma FileNameExample()
    ensures FileName("yellow", 2023, 1) == "yellow_tripdata_2023-01.parquet"
  {
    YearExample();
    assert Pad2(1) == "0" + NatToString(1) == "01";
    var n := FileName("yellow", 2023, 1);
    assert n == "yellow" + Infix + "2023" + "-" + "01" + Extension;
  }
}
