/** The C++ library text conversions the helpers rely on, modelled for the
 *  classic "C" locale: std::stoi, `istream >> int`, `istream >> char`, the
 *  "MM/DD/YYYY" extraction of parseDateString and the clamping of its fields
 *  into a std::tm. */
module TextParse {
  import opened Results

  /** The range of a 32-bit C++ int. */
  predicate IsInt32(x: int) {
    -0x8000_0000 <= x < 0x8000_0000
  }

  type Int32 = x: int | IsInt32(x)

  /** The range of a 64-bit time_t. */
  predicate IsInt64(x: int) {
    -0x8000_0000_0000_0000 <= x < 0x8000_0000_0000_0000
  }

  type Int64 = x: int | IsInt64(x)

  /** isspace in the "C" locale. */
  predicate IsSpace(c: char) {
    c == ' ' || c == '\t' || c == '\n' || c == 11 as char || c == 12 as char || c == '\r'
  }

  predicate IsDigit(c: char) {
    '0' <= c <= '9'
  }

  function DigitValue(c: char): (d: nat)
    requires IsDigit(c)
    ensures d < 10
  {
    c as int - '0' as int
  }

  function DigitChar(d: nat): (c: char)
    requires d < 10
    ensures IsDigit(c) && DigitValue(c) == d
  {
    ('0' as int + d) as char
  }

  /** s with its leading white space removed. */
  function SkipSpaces(s: string): (r: string)
    ensures |r| <= |s| && r == s[|s| - |r|..]
    ensures |r| > 0 ==> !IsSpace(r[0])
    ensures forall i :: 0 <= i < |s| - |r| ==> IsSpace(s[i])
  {
    if |s| > 0 && IsSpace(s[0]) then SkipSpaces(s[1..]) else s
  }

  /** The length of the run of decimal digits at the front of s. */
  function DigitRun(s: string): (n: nat)
    ensures n <= |s|
    ensures forall i :: 0 <= i < n ==> IsDigit(s[i])
    ensures n < |s| ==> !IsDigit(s[n])
  {
    if |s| > 0 && IsDigit(s[0]) then 1 + DigitRun(s[1..]) else 0
  }

  /** The value of a string of decimal digits, most significant first. */
  function DigitsValue(ds: string): nat
    requires forall i :: 0 <= i < |ds| ==> IsDigit(ds[i])
  {
    if |ds| == 0 then 0 else DigitsValue(ds[..|ds| - 1]) * 10 + DigitValue(ds[|ds| - 1])
  }

  /** The shortest decimal digits of n. */
  function Digits(n: nat): (ds: string)
    ensures |ds| > 0
    ensures forall i :: 0 <= i < |ds| ==> IsDigit(ds[i])
  {
    if n < 10 then [DigitChar(n)] else Digits(n / 10) + [DigitChar(n % 10)]
  }

  /** The decimal text of an integer, as operator<< writes it. */
  function ShowInt(x: int): string {
    if x < 0 then "-" + Digits(-x) else Digits(x)
  }

  /** Reading the digits of n gives n. */
  lemma {:induction false} DigitsValueOfDigits(n: nat)
    ensures DigitsValue(Digits(n)) == n
  {
    if n >= 10 {
      var ds := Digits(n);
      assert ds[..|ds| - 1] == Digits(n / 10);
      DigitsValueOfDigits(n / 10);
    }
  }

  /** The digit run of the digits of n, followed by a non-digit, is exactly
   *  those digits. */
  lemma DigitRunOfDigits(ds: string, rest: string)
    requires forall i :: 0 <= i < |ds| ==> IsDigit(ds[i])
    requires |rest| > 0 ==> !IsDigit(rest[0])
    ensures DigitRun(ds + rest) == |ds|
  {
    assert forall i :: 0 <= i < |ds| ==> (ds + rest)[i] == ds[i];
    assert |rest| > 0 ==> (ds + rest)[|ds|] == rest[0];
  }

  /** The run of digits at the front of u and its value, with the text
   *  after it; failure when u does not start with a digit. */
  function ReadUnsigned(u: string): (r: Option<(nat, string)>)
    ensures r.Some? <==> |u| > 0 && IsDigit(u[0])
    ensures r.Some? ==> |r.value.1| < |u| && r.value.1 == u[|u| - |r.value.1|..]
    ensures r.Some? && |r.value.1| > 0 ==> !IsDigit(r.value.1[0])
  {
    var n := DigitRun(u);
    if n == 0 then None else Some((DigitsValue(u[..n]), u[n..]))
  }

  lemma ReadUnsignedDigits(n: nat, rest: string)
    requires |rest| > 0 ==> !IsDigit(rest[0])
    ensures ReadUnsigned(Digits(n) + rest) == Some((n, rest))
  {
    var ds := Digits(n);
    DigitRunOfDigits(ds, rest);
    assert (ds + rest)[..|ds|] == ds && (ds + rest)[|ds|..] == rest;
    DigitsValueOfDigits(n);
  }

  /** An optional sign and the digits after it; failure when there are no
   *  digits or the value does not fit an int. */
  function ReadSigned(t: string): (r: Option<(Int32, string)>)
    ensures r.Some? ==> |r.value.1| < |t|
    ensures r.Some? && |r.value.1| > 0 ==> !IsDigit(r.value.1[0])
  {
    var signed := |t| > 0 && (t[0] == '+' || t[0] == '-');
    var u := if signed then t[1..] else t;
    match ReadUnsigned(u)
    case None => None
    case Some((m, rest)) =>
      var v := if signed && t[0] == '-' then -(m as int) else m as int;
      if IsInt32(v) then Some((v, rest)) else None
  }

  /** The leading integer of s as the classic num_get and strtol read it:
   *  skip white space, take an optional sign and a non-empty run of digits;
   *  fail when there are no digits or the value does not fit an int.
   *  On success, also the text after the digits. */
  function ReadInt(s: string): (r: Option<(Int32, string)>)
    ensures r.Some? ==> |r.value.1| < |s|
    ensures r.Some? && |r.value.1| > 0 ==> !IsDigit(r.value.1[0])
  {
    ReadSigned(SkipSpaces(s))
  }

  lemma SkipSpacesNone(s: string)
    requires |s| > 0 && !IsSpace(s[0])
    ensures SkipSpaces(s) == s
  {
  }

  lemma ReadSignedNegative(n: nat, rest: string)
    requires n > 0 && IsInt32(-(n as int))
    requires |rest| > 0 ==> !IsDigit(rest[0])
    ensures ReadSigned("-" + (Digits(n) + rest)) == Some((-(n as int), rest))
  {
    var t := "-" + (Digits(n) + rest);
    assert ReadUnsigned(t[1..]) == Some((n, rest)) by {
      assert t[1..] == Digits(n) + rest;
      ReadUnsignedDigits(n, rest);
    }
    assert |t| > 0 && t[0] == '-';
  }

  lemma ReadSignedNonNegative(n: nat, rest: string)
    requires IsInt32(n)
    requires |rest| > 0 ==> !IsDigit(rest[0])
    ensures ReadSigned(Digits(n) + rest) == Some((n, rest))
  {
    var u := Digits(n) + rest;
    assert ReadUnsigned(u) == Some((n, rest)) by {
      ReadUnsignedDigits(n, rest);
    }
    assert u[0] != '+' && u[0] != '-' by {
      assert IsDigit(u[0]);
    }
  }

  /** Whatever follows the printed value is left unread. */
  lemma ReadIntShowInt(x: Int32, rest: string)
    requires |rest| > 0 ==> !IsDigit(rest[0])
    ensures ReadInt(ShowInt(x) + rest) == Some((x, rest))
  {
    if x < 0 {
      var n: nat := -(x as int);
      assert ShowInt(x) + rest == "-" + (Digits(n) + rest);
      SkipSpacesNone("-" + (Digits(n) + rest));
      ReadSignedNegative(n, rest);
    } else {
      var u := Digits(x) + rest;
      assert IsDigit(u[0]);
      SkipSpacesNone(u);
      ReadSignedNonNegative(x, rest);
    }
  }

  /** std::stoi: the leading integer of s, or failure (std::invalid_argument
   *  or std::out_of_range). Text after the digits is ignored. */
  function Stoi(s: string): (r: Option<Int32>)
    ensures r.Some? <==> ReadInt(s).Some?
    ensures r.Some? ==> r.value == ReadInt(s).value.0
  {
    match ReadInt(s)
    case None => None
    case Some((v, _)) => Some(v)
  }

  /** `istream >> char`: skip white space, take one character. */
  function ReadChar(s: string): (r: Option<(char, string)>)
    ensures r.Some? <==> exists i :: 0 <= i < |s| && !IsSpace(s[i])
    ensures r.Some? ==> !IsSpace(r.value.0) && |r.value.1| < |s| && s[|s| - |r.value.1| - 1] == r.value.0
    ensures r.Some? ==> r.value.1 == s[|s| - |r.value.1|..]
  {
    var t := SkipSpaces(s);
    if |t| == 0 then None else Some((t[0], t[1..]))
  }

  /** The calendar fields parseDateString hands to mktime. */
  datatype Tm = Tm(tmYear: int, tmMon: int, tmMday: int, tmHour: int, tmMin: int, tmSec: int)

  /** `iss >> month >> sep1 >> day >> sep2 >> year`: month, day and year, or
   *  failure if any extraction fails. The separators may be any characters
   *  other than white space. */
  function ExtractDate(s: string): (r: Option<(Int32, Int32, Int32)>)
    ensures ReadInt(s).None? ==> r.None?
    ensures r.Some? ==> ReadInt(s).Some? && r.value.0 == ReadInt(s).value.0
  {
    match ReadInt(s)
    case None => None
    case Some((month, rest)) => ExtractDayYear(month, rest)
  }

  /** `>> sep1 >> day >> sep2 >> year` once the month is read. */
  function ExtractDayYear(month: Int32, s: string): (r: Option<(Int32, Int32, Int32)>)
    ensures r.Some? ==> r.value.0 == month
  {
    match ReadChar(s)
    case None => None
    case Some((_, s1)) =>
      match ReadInt(s1)
      case None => None
      case Some((day, s2)) => ExtractYear(month, day, s2)
  }

  /** `>> sep2 >> year` once the month and day are read. */
  function ExtractYear(month: Int32, day: Int32, s: string): (r: Option<(Int32, Int32, Int32)>)
    ensures r.Some? ==> r.value.0 == month && r.value.1 == day
  {
    match ReadChar(s)
    case None => None
    case Some((_, s1)) =>
      match ReadInt(s1)
      case None => None
      case Some((year, _)) => Some((month, day, year))
  }

  /** The clamping step: month into 1..12, day at least 1, year at least
   *  1900; midnight. */
  function ClampDate(month: int, day: int, year: int): (tm: Tm)
    ensures 0 <= tm.tmMon <= 11 && tm.tmMday >= 1 && tm.tmYear >= 0
    ensures tm.tmHour == 0 && tm.tmMin == 0 && tm.tmSec == 0
    ensures 1 <= month <= 12 ==> tm.tmMon == month - 1
    ensures day >= 1 ==> tm.tmMday == day
    ensures year >= 1900 ==> tm.tmYear == year - 1900
    ensures month < 1 ==> tm.tmMon == 0
    ensures month > 12 ==> tm.tmMon == 11
    ensures day < 1 ==> tm.tmMday == 1
    ensures year < 1900 ==> tm.tmYear == 0
  {
    var m := if month < 1 then 1 else if month > 12 then 12 else month;
    var d := if day < 1 then 1 else day;
    var y := if year < 1900 then 1900 else year;
    Tm(y - 1900, m - 1, d, 0, 0, 0)
  }

  /** parseDateString (both copies): 0 when extraction fails, otherwise
   *  mktime of the clamped fields. mktime (local time zone, normalisation
   *  of out-of-range days) is a parameter. */
  function ParseDateString(s: string, mktime: Tm -> Int64): (t: Int64)
    ensures ExtractDate(s).None? ==> t == 0
    ensures ExtractDate(s).Some? ==>
      var (m, d, y) := ExtractDate(s).value;
      t == mktime(ClampDate(m, d, y))
  {
    match ExtractDate(s)
    case None => 0
    case Some((month, day, year)) => mktime(ClampDate(month, day, year))
  }

  lemma ReadCharFront(c: char, rest: string)
    requires !IsSpace(c)
    ensures ReadChar([c] + rest) == Some((c, rest))
  {
    assert ([c] + rest)[0] == c && ([c] + rest)[1..] == rest;
    SkipSpacesNone([c] + rest);
  }

  /** A printed date reads back: for separators that are neither white
   *  space nor digits, "m/d/y" yields (m, d, y). */
  lemma ExtractDateShow(m: Int32, d: Int32, y: Int32, sep1: char, sep2: char)
    requires !IsSpace(sep1) && !IsDigit(sep1) && !IsSpace(sep2) && !IsDigit(sep2)
    ensures ExtractDate(ShowInt(m) + [sep1] + ShowInt(d) + [sep2] + ShowInt(y)) == Some((m, d, y))
  {
    var s1 := [sep1] + (ShowInt(d) + ([sep2] + ShowInt(y)));
    assert ShowInt(m) + [sep1] + ShowInt(d) + [sep2] + ShowInt(y) == ShowInt(m) + s1 by {
      JoinFive(ShowInt(m), [sep1], ShowInt(d), [sep2], ShowInt(y));
    }
    assert ReadInt(ShowInt(m) + s1) == Some((m, s1)) by {
      assert s1[0] == sep1;
      ReadIntShowInt(m, s1);
    }
    assert ExtractDayYear(m, s1) == Some((m, d, y)) by {
      ExtractDayYearShow(m, d, y, sep1, sep2);
    }
  }

  lemma JoinFive<T>(a: seq<T>, b: seq<T>, c: seq<T>, d: seq<T>, e: seq<T>)
    ensures a + b + c + d + e == a + (b + (c + (d + e)))
  {
  }

  lemma ExtractDayYearShow(m: Int32, d: Int32, y: Int32, sep1: char, sep2: char)
    requires !IsSpace(sep1) && !IsSpace(sep2) && !IsDigit(sep2)
    ensures ExtractDayYear(m, [sep1] + (ShowInt(d) + ([sep2] + ShowInt(y)))) == Some((m, d, y))
  {
    var s3 := [sep2] + ShowInt(y);
    ReadCharFront(sep1, ShowInt(d) + s3);
    ReadIntShowInt(d, s3);
    ExtractYearShow(m, d, y, sep2);
  }

  lemma ExtractYearShow(m: Int32, d: Int32, y: Int32, sep2: char)
    requires !IsSpace(sep2)
    ensures ExtractYear(m, d, [sep2] + ShowInt(y)) == Some((m, d, y))
  {
    ReadCharFront(sep2, ShowInt(y));
    ReadIntShowInt(y, "");
    assert ShowInt(y) + "" == ShowInt(y);
  }

  /** Characters of s not in drop, in order (the filtering loops of both
   *  parseNumberString copies). */
  function Strip(s: string, drop: set<char>): (r: string)
    ensures |r| <= |s|
    ensures forall i :: 0 <= i < |r| ==> r[i] !in drop
    ensures (forall i :: 0 <= i < |s| ==> s[i] !in drop) ==> r == s
  {
    if |s| == 0 then ""
    else (if s[0] in drop then "" else [s[0]]) + Strip(s[1..], drop)
  }

  /** Stripping distributes over concatenation. */
  lemma {:induction false} StripAppend(a: string, b: string, drop: set<char>)
    ensures Strip(a + b, drop) == Strip(a, drop) + Strip(b, drop)
    decreases |a|
  {
    if |a| > 0 {
      assert (a + b)[1..] == a[1..] + b;
      StripAppend(a[1..], b, drop);
    } else {
      assert a + b == b;
    }
  }

  /** Stripping twice strips nothing more. */
  lemma StripIdempotent(s: string, drop: set<char>)
    ensures Strip(Strip(s, drop), drop) == Strip(s, drop)
  {
  }

  /** The number parsers of both helper files: drop the characters in drop,
   *  then std::stoi, with 0 in place of the exception. */
  function ParseNumber(s: string, drop: set<char>): (n: Int32)
    ensures n != 0 ==> Stoi(Strip(s, drop)) == Some(n)
    ensures Stoi(Strip(s, drop)).Some? ==> n == Stoi(Strip(s, drop)).value
    ensures Stoi(Strip(s, drop)).None? ==> n == 0
  {
    match Stoi(Strip(s, drop))
    case None => 0
    case Some(v) => v
  }

  /** Any text that is a printed int once the dropped characters are gone
   *  parses to that int, e.g. "1,234" with ',' dropped. */
  lemma ParseNumberOfPrinted(t: string, drop: set<char>, x: Int32)
    requires Strip(t, drop) == ShowInt(x)
    ensures ParseNumber(t, drop) == x
  {
    ReadIntShowInt(x, "");
    assert ShowInt(x) + "" == ShowInt(x);
  }

  /** Text with no digit at all parses to 0. */
  lemma ParseNumberNoDigits(t: string, drop: set<char>)
    requires forall i :: 0 <= i < |t| ==> !IsDigit(t[i])
    ensures ParseNumber(t, drop) == 0
  {
    StripKeeps(t, drop);
    var u := Strip(t, drop);
    NoDigitsNoInt(u);
  }

  /** Every character Strip keeps comes from s. */
  lemma {:induction false} StripKeeps(s: string, drop: set<char>)
    ensures forall i :: 0 <= i < |Strip(s, drop)| ==> Strip(s, drop)[i] in s
  {
    if |s| > 0 {
      StripKeeps(s[1..], drop);
      var head: string := if s[0] in drop then "" else [s[0]];
      assert Strip(s, drop) == head + Strip(s[1..], drop);
      forall i | 0 <= i < |Strip(s, drop)|
        ensures Strip(s, drop)[i] in s
      {
        if i >= |head| {
          assert Strip(s, drop)[i] == Strip(s[1..], drop)[i - |head|];
          assert Strip(s[1..], drop)[i - |head|] in s[1..];
        }
      }
    }
  }

  lemma NoDigitsNoInt(u: string)
    requires forall c :: c in u ==> !IsDigit(c)
    ensures ReadInt(u).None?
  {
    var t := SkipSpaces(u);
    assert forall i :: 0 <= i < |t| ==> t[i] == u[|u| - |t| + i];
    if |t| > 1 {
      assert t[1] in u;
      assert t[1..][0] == t[1];
    }
    if |t| > 0 {
      assert t[0] in u;
    }
  }
}
