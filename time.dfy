/** The date helpers of lib/time.py: `as_git_timestamp` turns a YYYY-MM-DD
    date (the full-date production of section 5.6 of RFC 3339, with the
    day-of-month limits of its section 5.7) into a local ISO 8601 date-time,
    and `as_date` reads the date at the head of a longer date-time text. */
module Time {
  import opened Common

  /** What `datetime.isoformat()` appends to a date parsed without a time. */
  const MIDNIGHT := "T00:00:00"

  /** The width of a YYYY-MM-DD date; `as_date` reads only this many characters. */
  const DATE_WIDTH: nat := 10

  /** A calendar date as Python's `datetime.date` holds it. */
  datatype Date = Date(year: int, month: int, day: int)

  predicate IsLeapYear(y: int) {
    y % 4 == 0 && (y % 100 != 0 || y % 400 == 0)
  }

  function DaysInMonth(y: int, m: int): (n: int)
    requires 1 <= m <= 12
    ensures 28 <= n <= 31
    ensures m == 2 ==> (n == 29 <==> IsLeapYear(y))
  {
    if m == 2 then (if IsLeapYear(y) then 29 else 28)
    else if m == 4 || m == 6 || m == 9 || m == 11 then 30
    else 31
  }

  /** The dates `datetime.date` accepts: years 1 to 9999 and real days. */
  predicate ValidDate(d: Date) {
    && 1 <= d.year <= 9999
    && 1 <= d.month <= 12
    && 1 <= d.day <= DaysInMonth(d.year, d.month)
  }

  /** Python compares dates field by field: year, then month, then day. */
  predicate Before(a: Date, b: Date) {
    a.year < b.year
    || (a.year == b.year && a.month < b.month)
    || (a.year == b.year && a.month == b.month && a.day < b.day)
  }

  predicate IsDigit(c: char) {
    '0' <= c <= '9'
  }

  predicate AllDigits(s: string) {
    forall i :: 0 <= i < |s| ==> IsDigit(s[i])
  }

  function Pow10(w: nat): (p: nat)
    ensures p >= 1
  {
    if w == 0 then 1 else 10 * Pow10(w - 1)
  }

  /** The number a run of decimal digits denotes. */
  function Number(s: string): (n: nat)
    requires AllDigits(s)
    ensures n < Pow10(|s|)
  {
    if s == [] then 0
    else Number(s[..|s| - 1]) * 10 + (s[|s| - 1] as int - '0' as int)
  }

  /** `n` written with exactly `w` digits, zero-padded on the left. */
  function Pad(n: nat, w: nat): (s: string)
    ensures |s| == w && AllDigits(s)
  {
    if w == 0 then []
    else Pad(n / 10, w - 1) + [('0' as int + n % 10) as char]
  }

  lemma {:induction false} NumberOfPad(n: nat, w: nat)
    requires n < Pow10(w)
    ensures Number(Pad(n, w)) == n
  {
    if w > 0 {
      var s := Pad(n, w);
      assert s[..|s| - 1] == Pad(n / 10, w - 1);
      NumberOfPad(n / 10, w - 1);
    }
  }

  lemma {:induction false} PadOfNumber(s: string)
    requires AllDigits(s)
    ensures Pad(Number(s), |s|) == s
  {
    if s != [] {
      var init := s[..|s| - 1];
      var n := Number(s);
      assert n / 10 == Number(init) && n % 10 == s[|s| - 1] as int - '0' as int;
      PadOfNumber(init);
      assert s == init + [s[|s| - 1]];
    }
  }

  /** `date.isoformat()`: YYYY-MM-DD, every field zero-padded. */
  function FormatDate(d: Date): (s: string)
    requires ValidDate(d)
    ensures |s| == DATE_WIDTH && s[4] == '-' && s[7] == '-'
  {
    Pad(d.year, 4) + "-" + Pad(d.month, 2) + "-" + Pad(d.day, 2)
  }

  /** `strptime(s, '%Y-%m-%d')` on zero-padded input: the date `s` spells,
      or None when `s` is malformed or names a day that does not exist. */
  function ParseDate(s: string): (r: Option<Date>)
    ensures r.Some? ==> ValidDate(r.value)
    ensures r.Some? ==> |s| == DATE_WIDTH
  {
    if |s| == DATE_WIDTH && s[4] == '-' && s[7] == '-'
       && AllDigits(s[..4]) && AllDigits(s[5..7]) && AllDigits(s[8..])
    then
      var d := Date(Number(s[..4]), Number(s[5..7]), Number(s[8..]));
      if ValidDate(d) then Some(d) else None
    else None
  }

  /** Parsing a date's text gives back the date. */
  lemma ParseOfFormat(d: Date)
    requires ValidDate(d)
    ensures ParseDate(FormatDate(d)) == Some(d)
  {
    var s := FormatDate(d);
    assert s[..4] == Pad(d.year, 4) && s[5..7] == Pad(d.month, 2) && s[8..] == Pad(d.day, 2);
    NumberOfPad(d.year, 4);
    NumberOfPad(d.month, 2);
    NumberOfPad(d.day, 2);
  }

  /** Formatting a parsed date gives back the text that was parsed. */
  lemma FormatOfParse(s: string)
    requires ParseDate(s).Some?
    ensures FormatDate(ParseDate(s).value) == s
  {
    PadOfNumber(s[..4]);
    PadOfNumber(s[5..7]);
    PadOfNumber(s[8..]);
    assert s == s[..4] + "-" + s[5..7] + "-" + s[8..];
  }

  /** `as_git_timestamp`: the date followed by midnight, or the ValueError
      strptime raises. */
  function AsGitTimestamp(s: string): (r: Result<string>)
    ensures r.Success? <==> ParseDate(s).Some?
    ensures r.Success? ==> r.value == s + MIDNIGHT
    ensures r.Failure? ==> r.error == BadDate(s)
  {
    match ParseDate(s)
    case None => Failure(BadDate(s))
    case Some(d) => FormatOfParse(s); Success(FormatDate(d) + MIDNIGHT)
  }

  /** `datetime_str[:10]`: Python's slice stops at the end of a short text. */
  function Head(s: string): (h: string)
    ensures |h| <= DATE_WIDTH && |h| <= |s| && h == s[..|h|]
    ensures |s| >= DATE_WIDTH ==> |h| == DATE_WIDTH
  {
    if |s| <= DATE_WIDTH then s else s[..DATE_WIDTH]
  }

  /** `as_date`: the date spelled by the first ten characters. */
  function AsDate(s: string): (r: Result<Date>)
    ensures r.Success? <==> ParseDate(Head(s)).Some?
    ensures r.Success? ==> |s| >= DATE_WIDTH && ValidDate(r.value) && FormatDate(r.value) == s[..DATE_WIDTH]
    ensures r.Failure? ==> r.error == BadDate(Head(s))
  {
    match ParseDate(Head(s))
    case None => Failure(BadDate(Head(s)))
    case Some(d) => FormatOfParse(Head(s)); Success(d)
  }

  /** Whatever follows the first ten characters is never looked at. */
  lemma AsDateReadsTenCharacters(s: string, t: string)
    requires |s| >= DATE_WIDTH && |t| >= DATE_WIDTH && s[..DATE_WIDTH] == t[..DATE_WIDTH]
    ensures AsDate(s) == AsDate(t)
  {
  }

  /** Round trip: the date read back from a timestamp is the date it was made from. */
  lemma TimestampRoundTrip(s: string)
    requires ParseDate(s).Some?
    ensures AsGitTimestamp(s).Success?
    ensures AsDate(AsGitTimestamp(s).value) == Success(ParseDate(s).value)
  {
    var ts := AsGitTimestamp(s).value;
    assert Head(ts) == s;
  }
}
