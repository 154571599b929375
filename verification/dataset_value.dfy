/** One day of website-traffic statistics (DatasetValue): the record, its
 *  four constructors, its setters and its own number parser, which removes
 *  only thousands separators. Its date parser is TextParse.ParseDateString. */
module DatasetValues {
  import opened Results
  import opened TextParse

  /** The record. The getters of the source are the field selectors. */
  datatype DatasetValue = DatasetValue(
    day: string,
    dayOfWeek: Int32,
    date: Int64,
    pageLoads: Int32,
    uniqueVisitors: Int32,
    firstTimeVisitors: Int32,
    returningVisitors: Int32)

  /** The fields, for stating what a setter leaves alone. */
  datatype Field = Day | DayOfWeek | Date | PageLoads | UniqueVisitors | FirstTimeVisitors | ReturningVisitors

  /** a and b hold the same value in every field except possibly f. */
  predicate AgreeExcept(a: DatasetValue, b: DatasetValue, f: Field) {
    && (f == Day || a.day == b.day)
    && (f == DayOfWeek || a.dayOfWeek == b.dayOfWeek)
    && (f == Date || a.date == b.date)
    && (f == PageLoads || a.pageLoads == b.pageLoads)
    && (f == UniqueVisitors || a.uniqueVisitors == b.uniqueVisitors)
    && (f == FirstTimeVisitors || a.firstTimeVisitors == b.firstTimeVisitors)
    && (f == ReturningVisitors || a.returningVisitors == b.returningVisitors)
  }

  // ---------------------------------------------------------------------------
  // Number parsing
  // ---------------------------------------------------------------------------

  /** The characters this copy of parseNumberString removes. */
  const CountNoise: set<char> := {','}

  /** parseNumberString: drop ',', then std::stoi; 0 on failure. */
  function ParseNumberString(s: string): (n: Int32)
    ensures n != 0 ==> Stoi(Strip(s, CountNoise)) == Some(n)
    ensures Stoi(Strip(s, CountNoise)).Some? ==> n == Stoi(Strip(s, CountNoise)).value
    ensures Stoi(Strip(s, CountNoise)).None? ==> n == 0
  {
    ParseNumber(s, CountNoise)
  }

  /** A number printed with thousands separators reads back. */
  lemma ParseNumberStringGrouped(t: string, x: Int32)
    requires Strip(t, CountNoise) == ShowInt(x)
    ensures ParseNumberString(t) == x
  {
    ParseNumberOfPrinted(t, CountNoise, x);
  }

  /** Unlike the forecasting tool's copy, this one keeps quotes, so a quoted
   *  number reads as 0. */
  lemma ParseNumberStringQuotedIsZero(s: string)
    ensures ParseNumberString("\"" + s) == 0
  {
    StripAppend("\"", s, CountNoise);
    var t := Strip("\"" + s, CountNoise);
    assert Strip("\"", CountNoise) == "\"";
    assert t[0] == '"';
    assert SkipSpaces(t) == t;
  }

  // ---------------------------------------------------------------------------
  // Constructors
  // ---------------------------------------------------------------------------

  /** The constructor taking the date as "MM/DD/YYYY" text. */
  function WithDateString(day: string, dayOfWeek: Int32, dateStr: string,
                          pageLoads: Int32, uniqueVisitors: Int32,
                          firstTimeVisitors: Int32, returningVisitors: Int32,
                          mktime: Tm -> Int64): (v: DatasetValue)
    ensures v.day == day && v.dayOfWeek == dayOfWeek
    ensures v.pageLoads == pageLoads && v.uniqueVisitors == uniqueVisitors
    ensures v.firstTimeVisitors == firstTimeVisitors && v.returningVisitors == returningVisitors
    ensures v.date == ParseDateString(dateStr, mktime)
    ensures ExtractDate(dateStr).None? ==> v.date == 0
  {
    DatasetValue(day, dayOfWeek, ParseDateString(dateStr, mktime),
                 pageLoads, uniqueVisitors, firstTimeVisitors, returningVisitors)
  }

  /** The constructor taking the four counts as text. */
  function WithCountStrings(day: string, dayOfWeek: Int32, date: Int64,
                            pageLoads: string, uniqueVisitors: string,
                            firstTimeVisitors: string, returningVisitors: string): (v: DatasetValue)
    ensures v.day == day && v.dayOfWeek == dayOfWeek && v.date == date
    ensures v.pageLoads == ParseNumberString(pageLoads) && v.uniqueVisitors == ParseNumberString(uniqueVisitors)
    ensures v.firstTimeVisitors == ParseNumberString(firstTimeVisitors)
    ensures v.returningVisitors == ParseNumberString(returningVisitors)
  {
    DatasetValue(day, dayOfWeek, date,
                 ParseNumberString(pageLoads), ParseNumberString(uniqueVisitors),
                 ParseNumberString(firstTimeVisitors), ParseNumberString(returningVisitors))
  }

  /** The constructor taking the date and the four counts as text. */
  function FromStrings(day: string, dayOfWeek: Int32, dateStr: string,
                       pageLoads: string, uniqueVisitors: string,
                       firstTimeVisitors: string, returningVisitors: string,
                       mktime: Tm -> Int64): (v: DatasetValue)
    ensures v.day == day && v.dayOfWeek == dayOfWeek
    ensures v.date == ParseDateString(dateStr, mktime)
    ensures ExtractDate(dateStr).None? ==> v.date == 0
    ensures v.pageLoads == ParseNumberString(pageLoads) && v.uniqueVisitors == ParseNumberString(uniqueVisitors)
    ensures v.firstTimeVisitors == ParseNumberString(firstTimeVisitors)
    ensures v.returningVisitors == ParseNumberString(returningVisitors)
  {
    DatasetValue(day, dayOfWeek, ParseDateString(dateStr, mktime),
                 ParseNumberString(pageLoads), ParseNumberString(uniqueVisitors),
                 ParseNumberString(firstTimeVisitors), ParseNumberString(returningVisitors))
  }

  /** Parsing everything as text agrees with parsing the date first and the
   *  counts after, and the other way round. */
  lemma ConstructorsAgree(day: string, dayOfWeek: Int32, dateStr: string,
                          pageLoads: string, uniqueVisitors: string,
                          firstTimeVisitors: string, returningVisitors: string,
                          mktime: Tm -> Int64)
    ensures FromStrings(day, dayOfWeek, dateStr, pageLoads, uniqueVisitors,
                        firstTimeVisitors, returningVisitors, mktime)
         == WithCountStrings(day, dayOfWeek, ParseDateString(dateStr, mktime),
                             pageLoads, uniqueVisitors, firstTimeVisitors, returningVisitors)
    ensures FromStrings(day, dayOfWeek, dateStr, pageLoads, uniqueVisitors,
                        firstTimeVisitors, returningVisitors, mktime)
         == WithDateString(day, dayOfWeek, dateStr,
                           ParseNumberString(pageLoads), ParseNumberString(uniqueVisitors),
                           ParseNumberString(firstTimeVisitors), ParseNumberString(returningVisitors),
                           mktime)
  {
  }

  /** A printed date and printed counts give the record of the values they
   *  print, with the date clamped and converted by mktime. */
  lemma FromStringsPrinted(day: string, dayOfWeek: Int32, m: Int32, d: Int32, y: Int32,
                           pageLoads: Int32, uniqueVisitors: Int32,
                           firstTimeVisitors: Int32, returningVisitors: Int32,
                           mktime: Tm -> Int64)
    ensures FromStrings(day, dayOfWeek, ShowInt(m) + "/" + ShowInt(d) + "/" + ShowInt(y),
                        ShowInt(pageLoads), ShowInt(uniqueVisitors),
                        ShowInt(firstTimeVisitors), ShowInt(returningVisitors), mktime)
         == DatasetValue(day, dayOfWeek, mktime(ClampDate(m, d, y)),
                         pageLoads, uniqueVisitors, firstTimeVisitors, returningVisitors)
  {
    ExtractDateShow(m, d, y, '/', '/');
    PrintedCount(pageLoads);
    PrintedCount(uniqueVisitors);
    PrintedCount(firstTimeVisitors);
    PrintedCount(returningVisitors);
  }

  lemma PrintedCount(x: Int32)
    ensures ParseNumberString(ShowInt(x)) == x
  {
    var ds := Digits(if x < 0 then -(x as int) else x);
    assert forall i :: 0 <= i < |ds| ==> IsDigit(ds[i]);
    assert forall i :: 0 <= i < |ShowInt(x)| ==> ShowInt(x)[i] !in CountNoise;
    ParseNumberStringGrouped(ShowInt(x), x);
  }

  // ---------------------------------------------------------------------------
  // Setters
  // ---------------------------------------------------------------------------

  function SetDay(v: DatasetValue, d: string): (r: DatasetValue)
    ensures r.day == d && AgreeExcept(v, r, Day)
  {
    v.(day := d)
  }

  function SetDayOfWeek(v: DatasetValue, d: Int32): (r: DatasetValue)
    ensures r.dayOfWeek == d && AgreeExcept(v, r, DayOfWeek)
  {
    v.(dayOfWeek := d)
  }

  /** setDayOfWeek(const string&): through parseNumberString. */
  function SetDayOfWeekText(v: DatasetValue, d: string): (r: DatasetValue)
    ensures r.dayOfWeek == ParseNumberString(d) && AgreeExcept(v, r, DayOfWeek)
  {
    v.(dayOfWeek := ParseNumberString(d))
  }

  function SetDate(v: DatasetValue, d: Int64): (r: DatasetValue)
    ensures r.date == d && AgreeExcept(v, r, Date)
  {
    v.(date := d)
  }

  function SetPageLoads(v: DatasetValue, x: Int32): (r: DatasetValue)
    ensures r.pageLoads == x && AgreeExcept(v, r, PageLoads)
  {
    v.(pageLoads := x)
  }

  function SetPageLoadsText(v: DatasetValue, x: string): (r: DatasetValue)
    ensures r.pageLoads == ParseNumberString(x) && AgreeExcept(v, r, PageLoads)
  {
    v.(pageLoads := ParseNumberString(x))
  }

  function SetUniqueVisitors(v: DatasetValue, x: Int32): (r: DatasetValue)
    ensures r.uniqueVisitors == x && AgreeExcept(v, r, UniqueVisitors)
  {
    v.(uniqueVisitors := x)
  }

  function SetUniqueVisitorsText(v: DatasetValue, x: string): (r: DatasetValue)
    ensures r.uniqueVisitors == ParseNumberString(x) && AgreeExcept(v, r, UniqueVisitors)
  {
    v.(uniqueVisitors := ParseNumberString(x))
  }

  function SetFirstTimeVisitors(v: DatasetValue, x: Int32): (r: DatasetValue)
    ensures r.firstTimeVisitors == x && AgreeExcept(v, r, FirstTimeVisitors)
  {
    v.(firstTimeVisitors := x)
  }

  function SetFirstTimeVisitorsText(v: DatasetValue, x: string): (r: DatasetValue)
    ensures r.firstTimeVisitors == ParseNumberString(x) && AgreeExcept(v, r, FirstTimeVisitors)
  {
    v.(firstTimeVisitors := ParseNumberString(x))
  }

  function SetReturningVisitors(v: DatasetValue, x: Int32): (r: DatasetValue)
    ensures r.returningVisitors == x && AgreeExcept(v, r, ReturningVisitors)
  {
    v.(returningVisitors := x)
  }

  function SetReturningVisitorsText(v: DatasetValue, x: string): (r: DatasetValue)
    ensures r.returningVisitors == ParseNumberString(x) && AgreeExcept(v, r, ReturningVisitors)
  {
    v.(returningVisitors := ParseNumberString(x))
  }

  /** Setting a field to the value it already has changes nothing. */
  lemma SetUnchanged(v: DatasetValue)
    ensures SetDay(v, v.day) == v
    ensures SetDayOfWeek(v, v.dayOfWeek) == v
    ensures SetDate(v, v.date) == v
    ensures SetPageLoads(v, v.pageLoads) == v
    ensures SetUniqueVisitors(v, v.uniqueVisitors) == v
    ensures SetFirstTimeVisitors(v, v.firstTimeVisitors) == v
    ensures SetReturningVisitors(v, v.returningVisitors) == v
  {
  }

  /** Setting two counts is order-independent, and the text setters are the
   *  value setters applied to the parsed text. */
  lemma SettersCommute(v: DatasetValue, a: Int32, b: Int32, s: string)
    ensures SetPageLoads(SetUniqueVisitors(v, a), b) == SetUniqueVisitors(SetPageLoads(v, b), a)
    ensures SetFirstTimeVisitors(SetReturningVisitors(v, a), b)
         == SetReturningVisitors(SetFirstTimeVisitors(v, b), a)
    ensures SetPageLoadsText(v, s) == SetPageLoads(v, ParseNumberString(s))
  {
  }
}
