/** The small helpers of the forecasting tool: its copy of the number parser
 *  (which also drops quotes), the weekday cycle, the one-day time step and
 *  the bracketed vector printer. Its parseDateString is the same function as
 *  the dataset's, TextParse.ParseDateString. */
module ForecastUtils {
  import opened Results
  import opened TextParse

  // ---------------------------------------------------------------------------
  // Numbers
  // ---------------------------------------------------------------------------

  /** The characters this copy of parseNumberString removes: thousands
   *  separators and CSV quotes. */
  const NumberNoise: set<char> := {',', '"'}

  /** parseNumberString: drop ',' and '"', then std::stoi; 0 on failure. */
  function ParseNumberString(s: string): (n: Int32)
    ensures n != 0 ==> Stoi(Strip(s, NumberNoise)) == Some(n)
    ensures Stoi(Strip(s, NumberNoise)).Some? ==> n == Stoi(Strip(s, NumberNoise)).value
    ensures Stoi(Strip(s, NumberNoise)).None? ==> n == 0
  {
    ParseNumber(s, NumberNoise)
  }

  /** A number printed with thousands separators, quoted or not, reads back. */
  lemma ParseNumberStringGrouped(t: string, x: Int32)
    requires Strip(t, NumberNoise) == ShowInt(x)
    ensures ParseNumberString(t) == x
  {
    ParseNumberOfPrinted(t, NumberNoise, x);
  }

  /** Quoting a field does not change its value. */
  lemma ParseNumberStringQuoted(s: string)
    ensures ParseNumberString("\"" + s + "\"") == ParseNumberString(s)
  {
    StripAppend("\"" + s, "\"", NumberNoise);
    StripAppend("\"", s, NumberNoise);
    assert Strip("\"", NumberNoise) == "";
    assert Strip("\"" + s + "\"", NumberNoise) == Strip(s, NumberNoise);
  }

  /** Removing a separator does not change the value. */
  lemma ParseNumberStringSeparator(a: string, b: string)
    ensures ParseNumberString(a + "," + b) == ParseNumberString(a + b)
  {
    StripAppend(a + ",", b, NumberNoise);
    StripAppend(a, ",", NumberNoise);
    StripAppend(a, b, NumberNoise);
    assert Strip(",", NumberNoise) == "";
    assert Strip(a + ",", NumberNoise) == Strip(a, NumberNoise);
  }

  // ---------------------------------------------------------------------------
  // Weekdays
  // ---------------------------------------------------------------------------

  /** The English weekday names in calendar order, starting from Monday. */
  const WeekDays: seq<string> :=
    ["Monday", "Tuesday", "Wednesday", "Thursday", "Friday", "Saturday", "Sunday"]

  /** nextDayString: the following weekday; "Monday" for anything that is not
   *  a weekday name. */
  function NextDayString(current: string): (r: string)
    ensures r in WeekDays
    ensures forall i :: 0 <= i < |WeekDays| && current == WeekDays[i] ==> r == WeekDays[NextIndex(i)]
    ensures current !in WeekDays ==> r == WeekDays[0]
  {
    if current == "Monday" then "Tuesday"
    else if current == "Tuesday" then "Wednesday"
    else if current == "Wednesday" then "Thursday"
    else if current == "Thursday" then "Friday"
    else if current == "Friday" then "Saturday"
    else if current == "Saturday" then "Sunday"
    else if current == "Sunday" then "Monday"
    else "Monday"
  }

  /** f applied k times. */
  function Iterate<T>(f: T -> T, x: T, k: nat): T {
    if k == 0 then x else f(Iterate(f, x, k - 1))
  }

  /** The name k days after current: nextDayString applied k times. */
  function DaysAfterName(current: string, k: nat): string {
    Iterate(NextDayString, current, k)
  }

  /** The position of the following weekday in WeekDays. */
  function NextIndex(i: nat): (j: nat)
    requires i < 7
    ensures j < 7 && j == (i + 1) % 7
  {
    if i == 6 then 0 else i + 1
  }

  /** The position k weekdays after position i. */
  function IndexAfter(i: nat, k: nat): (j: nat)
    requires i < 7
    ensures j < 7 && j == (i + k) % 7
  {
    if k == 0 then i else NextIndex(IndexAfter(i, k - 1))
  }

  /** Iterating a step that advances a 7-entry table by one position
   *  advances it by k positions. */
  lemma {:induction false} IterateTable<T>(f: T -> T, table: seq<T>, i: nat, k: nat)
    requires |table| == 7 && i < 7
    requires forall j :: 0 <= j < 7 ==> f(table[j]) == table[NextIndex(j)]
    ensures Iterate(f, table[i], k) == table[IndexAfter(i, k)]
  {
    if k > 0 {
      IterateTable(f, table, i, k - 1);
    }
  }

  /** k days after weekday i is weekday (i + k) mod 7. */
  lemma DaysAfterNameIndex(i: nat, k: nat)
    requires i < |WeekDays|
    ensures DaysAfterName(WeekDays[i], k) == WeekDays[(i + k) % 7]
  {
    IterateTable(NextDayString, WeekDays, i, k);
  }

  /** Whole weeks later it is the same weekday again. */
  lemma WeekCycles(i: nat, days: nat)
    requires i < |WeekDays| && days % 7 == 0
    ensures DaysAfterName(WeekDays[i], days) == WeekDays[i]
  {
    DaysAfterNameIndex(i, days);
    WholeWeeks(i, days);
  }

  lemma WholeWeeks(i: nat, days: nat)
    requires i < 7 && days % 7 == 0
    ensures (i + days) % 7 == i
  {
  }

  // ---------------------------------------------------------------------------
  // Time steps
  // ---------------------------------------------------------------------------

  /** 24 * 60 * 60. */
  const SECONDS_PER_DAY: int := 24 * 60 * 60

  /** nextDayTimeT: one day later. Signed overflow of time_t is undefined,
   *  so the caller must keep the result in range. */
  function NextDayTimeT(t: Int64): (r: Int64)
    requires IsInt64(t + SECONDS_PER_DAY)
    ensures r == t + SECONDS_PER_DAY
    ensures r > t
  {
    t + 24 * 60 * 60
  }

  /** k steps of nextDayTimeT. */
  function DaysLater(t: Int64, k: nat): (r: Int64)
    requires IsInt64(t + k * SECONDS_PER_DAY)
    ensures r == t + k * SECONDS_PER_DAY
  {
    if k == 0 then t
    else
      var prev: nat := k - 1;
      assert prev * SECONDS_PER_DAY == k * SECONDS_PER_DAY - SECONDS_PER_DAY;
      assert 0 <= prev * SECONDS_PER_DAY && IsInt64(t);
      assert IsInt64(t + prev * SECONDS_PER_DAY);
      NextDayTimeT(DaysLater(t, prev))
  }

  // ---------------------------------------------------------------------------
  // Printing vectors
  // ---------------------------------------------------------------------------

  /** The separator printVector uses when none is given. */
  const DefaultSeparator: string := ", "

  /** The elements' texts with sep between neighbours. */
  function Join<T>(v: seq<T>, sep: string, show: T -> string): string {
    if |v| == 0 then ""
    else if |v| == 1 then show(v[0])
    else Join(v[..|v| - 1], sep, show) + sep + show(v[|v| - 1])
  }

  /** printVector: what it writes to the stream, "[" and "]" around the
   *  joined elements. operator<< on an element is the parameter show. */
  function PrintVector<T>(v: seq<T>, sep: string, show: T -> string): string {
    "[" + Join(v, sep, show) + "]"
  }

  /** Joining two non-empty runs joins their texts with one separator. */
  lemma {:induction false} JoinAppend<T>(v: seq<T>, w: seq<T>, sep: string, show: T -> string)
    requires |v| > 0 && |w| > 0
    ensures Join(v + w, sep, show) == Join(v, sep, show) + sep + Join(w, sep, show)
    decreases |w|
  {
    var vw := v + w;
    if |w| == 1 {
      assert vw[..|vw| - 1] == v;
    } else {
      var w' := w[..|w| - 1];
      assert vw[..|vw| - 1] == v + w';
      JoinAppend(v, w', sep, show);
    }
  }

  /** The printed length: the elements, one separator between each pair,
   *  and the two brackets. */
  function TextLength<T>(v: seq<T>, show: T -> string): nat {
    if |v| == 0 then 0 else TextLength(v[..|v| - 1], show) + |show(v[|v| - 1])|
  }

  lemma {:induction false} PrintVectorLength<T>(v: seq<T>, sep: string, show: T -> string)
    requires |v| > 0
    ensures |PrintVector(v, sep, show)| == 2 + TextLength(v, show) + (|v| - 1) * |sep|
  {
    JoinLength(v, sep, show);
  }

  lemma {:induction false} JoinLength<T>(v: seq<T>, sep: string, show: T -> string)
    requires |v| > 0
    ensures |Join(v, sep, show)| == TextLength(v, show) + (|v| - 1) * |sep|
  {
    if |v| > 1 {
      JoinLength(v[..|v| - 1], sep, show);
    } else {
      assert v[..0] == [];
    }
  }

  /** The stream text after printVector, written element by element as the
   *  source's loop does. */
  method WriteVector<T>(os: string, v: seq<T>, sep: string, show: T -> string) returns (out: string)
    ensures out == os + PrintVector(v, sep, show)
  {
    out := os + "[";
    var i := 0;
    while i < |v|
      invariant 0 <= i <= |v|
      invariant out == os + "[" + Join(v[..i], sep, show)
    {
      if i > 0 {
        out := out + sep;
      }
      out := out + show(v[i]);
      assert v[..i + 1][..i] == v[..i];
      i := i + 1;
    }
    assert v[..|v|] == v;
    out := out + "]";
  }

  /** With the default separator, ["a", "b", "c"] prints as "[a, b, c]". */
  lemma PrintVectorDefaultExample()
    ensures PrintVector(["a", "b", "c"], DefaultSeparator, (s: string) => s) == "[a, b, c]"
  {
    var v: seq<string> := ["a", "b", "c"];
    var show := (s: string) => s;
    assert v[..2] == ["a", "b"] && v[..2][..1] == ["a"];
    assert Join(["a"], DefaultSeparator, show) == "a";
    assert Join(["a", "b"], DefaultSeparator, show) == "a, b";
    assert Join(v, DefaultSeparator, show) == "a, b, c";
  }
}
