/** The strict day-first date pattern of the Fagor loader (App.tsx:107-116):

      /(\d{1,2})[/\-](\d{1,2})[/\-](\d{4})\s*(\d{1,2})?:?(\d{1,2})?:?(\d{1,2})?/

    written out as the search a JavaScript regular-expression engine
    performs. At a given start the mandatory part can be read in one way
    only (a one-digit field is followed by a separator, a two-digit field by
    a digit), and every later item is optional, so the engine's first,
    greedy attempt is the match it reports. */
module DatePattern {
  import opened Wrappers
  import opened Text

  /** `[/\-]`. */
  predicate IsDateSeparator(c: char) {
    c == '/' || c == '-'
  }

  /** The capture groups of a match; an optional group that took part in no
      match (`undefined`) is the empty string. */
  datatype DateMatch = DateMatch(
    day: string, month: string, year: string,
    hour: string, minute: string, second: string)

  /** The arguments of `new Date(year, month, day, hour, minute, second)`;
      `month` is 0-based. */
  datatype DateFields = DateFields(year: int, month: int, day: int, hour: int, minute: int, second: int)

  // ---------------------------------------------------------------------
  // Declarative description of the mandatory part

  /** `(\d{1,2})[/\-]` matches at `p` capturing `d`. */
  ghost predicate ShortFieldAt(s: string, p: int, d: string) {
    && 1 <= |d| <= 2 && AllDigits(d)
    && OccursAt(s, d, p)
    && p + |d| < |s| && IsDateSeparator(s[p + |d|])
  }

  /** `(\d{4})` matches at `p` capturing `y`. */
  ghost predicate YearAt(s: string, p: int, y: string) {
    |y| == 4 && AllDigits(y) && OccursAt(s, y, p)
  }

  /** Day, separator, month, separator and four-digit year start at `i`. */
  ghost predicate DatePrefixAt(s: string, i: int, d: string, m: string, y: string) {
    && ShortFieldAt(s, i, d)
    && ShortFieldAt(s, i + |d| + 1, m)
    && YearAt(s, i + |d| + |m| + 2, y)
  }

  /** A short field can be read in one way only: after one digit comes a
      separator, after two digits the second digit. */
  lemma ShortFieldUnique(s: string, p: int, d: string, d': string)
    requires ShortFieldAt(s, p, d) && ShortFieldAt(s, p, d')
    ensures d == d'
  {
  }

  // ---------------------------------------------------------------------
  // The engine's steps

  /** `(\d{1,2})[/\-]` tried at `p`: two digits first, then one. */
  function ShortField(s: string, p: nat): (r: Option<string>)
    requires p <= |s|
    ensures r.Some? ==> ShortFieldAt(s, p, r.value)
    ensures r.None? ==> forall d :: !ShortFieldAt(s, p, d)
  {
    if p + 2 < |s| && IsDigit(s[p]) && IsDigit(s[p + 1]) && IsDateSeparator(s[p + 2]) then
      Some(s[p..p + 2])
    else if p + 1 < |s| && IsDigit(s[p]) && IsDateSeparator(s[p + 1]) then
      Some(s[p..p + 1])
    else
      NoShortField(s, p);
      None
  }

  /** When neither two digits and a separator nor one digit and a
      separator start at `p`, no short field does. */
  lemma NoShortField(s: string, p: nat)
    requires p <= |s|
    requires !(p + 2 < |s| && IsDigit(s[p]) && IsDigit(s[p + 1]) && IsDateSeparator(s[p + 2]))
    requires !(p + 1 < |s| && IsDigit(s[p]) && IsDateSeparator(s[p + 1]))
    ensures forall d :: !ShortFieldAt(s, p, d)
  {
  }

  /** `(\d{4})` tried at `p`. */
  function Year(s: string, p: nat): (r: Option<string>)
    requires p <= |s|
    ensures r.Some? ==> YearAt(s, p, r.value)
    ensures r.None? ==> forall y :: !YearAt(s, p, y)
  {
    if p + 4 <= |s| && AllDigits(s[p..p + 4]) then Some(s[p..p + 4]) else None
  }

  /** `\s*`: the end of the run of white space starting at `p`. */
  function SkipSpaces(s: string, p: nat): (q: nat)
    requires p <= |s|
    ensures p <= q <= |s|
    ensures forall k :: p <= k < q ==> IsSpace(s[k])
    ensures q == |s| || !IsSpace(s[q])
    decreases |s| - p
  {
    if p < |s| && IsSpace(s[p]) then SkipSpaces(s, p + 1) else p
  }

  /** `(\d{1,2})?`, greedy: as many digits as there are, at most two; the
      empty string stands for a group that matched nothing. */
  function UpToTwoDigits(s: string, p: nat): (d: string)
    requires p <= |s|
    ensures |d| <= 2 && AllDigits(d) && OccursAt(s, d, p)
    ensures |d| == 2 || p + |d| == |s| || !IsDigit(s[p + |d|])
  {
    if p + 1 < |s| && IsDigit(s[p]) && IsDigit(s[p + 1]) then s[p..p + 2]
    else if p < |s| && IsDigit(s[p]) then s[p..p + 1]
    else []
  }

  /** `:?`. */
  function SkipColon(s: string, p: nat): (q: nat)
    requires p <= |s|
    ensures q <= |s|
    ensures q == p || (q == p + 1 && s[p] == ':')
    ensures q == p ==> p == |s| || s[p] != ':'
  {
    if p < |s| && s[p] == ':' then p + 1 else p
  }

  /** The optional time part, from the end of the year: white space, then
      hour, colon, minute, colon, second, each taken when present. */
  function TimeGroups(s: string, q: nat): (g: (string, string, string))
    requires q <= |s|
    ensures AllDigits(g.0) && AllDigits(g.1) && AllDigits(g.2)
    ensures |g.0| <= 2 && |g.1| <= 2 && |g.2| <= 2
  {
    var p0 := SkipSpaces(s, q);
    var hour := UpToTwoDigits(s, p0);
    var p1 := SkipColon(s, p0 + |hour|);
    var minute := UpToTwoDigits(s, p1);
    var p2 := SkipColon(s, p1 + |minute|);
    var second := UpToTwoDigits(s, p2);
    (hour, minute, second)
  }

  /** Two readings of the mandatory part at the same start agree. */
  lemma DatePrefixUnique(s: string, i: int, d: string, m: string, y: string, d': string, m': string, y': string)
    requires DatePrefixAt(s, i, d, m, y) && DatePrefixAt(s, i, d', m', y')
    ensures d == d' && m == m' && y == y'
  {
    ShortFieldUnique(s, i, d, d');
    ShortFieldUnique(s, i + |d| + 1, m, m');
  }

  /** The mandatory part `D/M/YYYY` tried at start `i`. */
  function DatePrefix(s: string, i: nat): (r: Option<(string, string, string)>)
    requires i <= |s|
    ensures r.Some? ==> DatePrefixAt(s, i, r.value.0, r.value.1, r.value.2)
    ensures r.None? ==> forall d, m, y :: !DatePrefixAt(s, i, d, m, y)
  {
    match ShortField(s, i)
    case None => None
    case Some(d) =>
      var p := i + |d| + 1;
      match ShortField(s, p)
      case None =>
        NoMonthAfter(s, i, d);
        None
      case Some(m) =>
        var q := p + |m| + 1;
        match Year(s, q)
        case None =>
          NoYearAfter(s, i, d, m);
          None
        case Some(y) =>
          Some((d, m, y))
  }

  /** With the day read at `i` and no month after it, no date starts at
      `i`. */
  lemma NoMonthAfter(s: string, i: nat, d: string)
    requires ShortFieldAt(s, i, d)
    requires ShortField(s, i + |d| + 1).None?
    ensures forall d', m, y :: !DatePrefixAt(s, i, d', m, y)
  {
    forall d', m, y ensures !DatePrefixAt(s, i, d', m, y) {
      if DatePrefixAt(s, i, d', m, y) {
        ShortFieldUnique(s, i, d, d');
      }
    }
  }

  /** With the day and month read at `i` and no year after them, no date
      starts at `i`. */
  lemma NoYearAfter(s: string, i: nat, d: string, m: string)
    requires ShortFieldAt(s, i, d) && ShortFieldAt(s, i + |d| + 1, m)
    requires Year(s, i + |d| + |m| + 2).None?
    ensures forall d', m', y :: !DatePrefixAt(s, i, d', m', y)
  {
    forall d', m', y ensures !DatePrefixAt(s, i, d', m', y) {
      if DatePrefixAt(s, i, d', m', y) {
        ShortFieldUnique(s, i, d, d');
        ShortFieldUnique(s, i + |d| + 1, m, m');
      }
    }
  }

  /** The whole pattern tried at start `i`: the mandatory part, then the
      optional time groups after the year. */
  function MatchAt(s: string, i: nat): (r: Option<DateMatch>)
    requires i <= |s|
    ensures r.Some? ==> DatePrefixAt(s, i, r.value.day, r.value.month, r.value.year)
    ensures r.None? ==> forall d, m, y :: !DatePrefixAt(s, i, d, m, y)
    ensures r.Some? ==> AllDigits(r.value.hour) && AllDigits(r.value.minute) && AllDigits(r.value.second)
  {
    match DatePrefix(s, i)
    case None => None
    case Some((d, m, y)) =>
      var (hour, minute, second) := TimeGroups(s, i + |d| + |m| + 6);
      Some(DateMatch(d, m, y, hour, minute, second))
  }

  /** Some reading of the mandatory part starts at `k`. */
  ghost predicate PrefixStartsAt(s: string, k: int) {
    exists d, m, y :: DatePrefixAt(s, k, d, m, y)
  }

  /** `k` is the leftmost start at or after `i` where the pattern matches. */
  ghost predicate LeftmostFrom(s: string, i: int, k: int) {
    && i <= k <= |s| && PrefixStartsAt(s, k)
    && forall k' :: i <= k' < k ==> !PrefixStartsAt(s, k')
  }

  /** The start of the first match at or after `i`. */
  function SearchFrom(s: string, i: nat): (k: Option<nat>)
    requires i <= |s|
    ensures k.Some? ==> LeftmostFrom(s, i, k.value)
    ensures k.None? ==> forall k' :: i <= k' <= |s| ==> !PrefixStartsAt(s, k')
    decreases |s| - i
  {
    if DatePrefix(s, i).Some? then Some(i)
    else if i == |s| then None
    else SearchFrom(s, i + 1)
  }

  /** `dateRaw.match(...)`: the groups of the leftmost match. */
  function StrictMatch(s: string): (r: Option<DateMatch>)
    ensures r.Some? ==> exists k :: LeftmostFrom(s, 0, k) && MatchAt(s, k) == r
    ensures r.None? ==> forall k :: 0 <= k <= |s| ==> !PrefixStartsAt(s, k)
  {
    match SearchFrom(s, 0)
    case None => None
    case Some(k) => MatchAt(s, k)
  }

  // ---------------------------------------------------------------------
  // From groups to date fields

  /** `parts[n] ? parseInt(parts[n], 10) : 0` for an optional group. */
  function OptionalValue(g: string): (n: nat)
    requires AllDigits(g)
    ensures g == [] ==> n == 0
  {
    if g == [] then 0 else DigitsValue(g)
  }

  /** The arguments App.tsx:110-116 pass to `new Date`: group 1 is the day,
      group 2 the month (made 0-based), group 3 the year, and a missing time
      group is 0. Every group holds only digits, so `parseInt` reads it as
      its decimal value (`Text.ParseIntOfDigits`). */
  function Fields(m: DateMatch): (f: DateFields)
    requires AllDigits(m.day) && AllDigits(m.month) && AllDigits(m.year)
    requires AllDigits(m.hour) && AllDigits(m.minute) && AllDigits(m.second)
    ensures m.hour == [] ==> f.hour == 0
    ensures m.minute == [] ==> f.minute == 0
    ensures m.second == [] ==> f.second == 0
  {
    DateFields(
      DigitsValue(m.year), DigitsValue(m.month) - 1, DigitsValue(m.day),
      OptionalValue(m.hour), OptionalValue(m.minute), OptionalValue(m.second))
  }

  /** The strict parse of a date string: `None` when the pattern does not
      match (the loader then falls back to `new Date(string)`). */
  function StrictDate(s: string): (r: Option<DateFields>)
    ensures r.Some? <==> exists k :: 0 <= k <= |s| && PrefixStartsAt(s, k)
  {
    match StrictMatch(s)
    case None => None
    case Some(m) =>
      assert AllDigits(m.day) && AllDigits(m.month) && AllDigits(m.year) by {
        var k :| LeftmostFrom(s, 0, k) && MatchAt(s, k) == Some(m);
      }
      Some(Fields(m))
  }

  // ---------------------------------------------------------------------
  // Properties

  /** Day first: at the leftmost place where `D/M/YYYY` occurs, the first
      field is the day, the second the month (0-based in the result) and
      the third the year. */
  lemma StrictDateDayFirst(s: string, i: nat, d: string, m: string, y: string)
    requires i <= |s| && DatePrefixAt(s, i, d, m, y)
    requires forall k :: 0 <= k < i ==> !PrefixStartsAt(s, k)
    ensures StrictDate(s).Some?
    ensures StrictDate(s).value.day == DigitsValue(d)
    ensures StrictDate(s).value.month == DigitsValue(m) - 1
    ensures StrictDate(s).value.year == DigitsValue(y)
  {
    var r := StrictMatch(s);
    assert PrefixStartsAt(s, i);
    var k :| LeftmostFrom(s, 0, k) && MatchAt(s, k) == r;
    assert k == i;
    DatePrefixUnique(s, i, d, m, y, r.value.day, r.value.month, r.value.year);
  }

  /** Two decimal digits for `n < 100`, with a leading zero. */
  function Pad2(n: nat): (t: string)
    requires n < 100
    ensures |t| == 2 && AllDigits(t) && DigitsValue(t) == n
  {
    var t := [('0' as int + n / 10) as char, ('0' as int + n % 10) as char];
    assert t[..1] == [t[0]];
    assert [t[0]][..0] == [];
    assert DigitsValue([t[0]]) == n / 10;
    assert DigitsValue(t) == (n / 10) * 10 + n % 10;
    t
  }

  /** Four decimal digits for a year between 1000 and 9999. */
  function Pad4(n: nat): (t: string)
    requires n < 10000
    ensures |t| == 4 && AllDigits(t) && DigitsValue(t) == n
  {
    var t := Pad2(n / 100) + Pad2(n % 100);
    DigitsValueConcat2(Pad2(n / 100), Pad2(n % 100));
    t
  }

  lemma DigitsValueConcat2(a: string, b: string)
    requires AllDigits(a) && AllDigits(b) && |b| == 2
    ensures AllDigits(a + b) && DigitsValue(a + b) == DigitsValue(a) * 100 + DigitsValue(b)
  {
    var ab := a + b;
    var a1 := a + [b[0]];
    assert ab[..|ab| - 1] == a1;
    assert a1[..|a1| - 1] == a;
    assert DigitsValue(a1) == DigitsValue(a) * 10 + (b[0] as int - '0' as int);
    assert b[..|b| - 1] == [b[0]] && [b[0]][..0] == [];
    assert DigitsValue([b[0]]) == b[0] as int - '0' as int;
    assert DigitsValue(b) == (b[0] as int - '0' as int) * 10 + (b[1] as int - '0' as int);
  }

  /** `DD/MM/YYYY HH:MM:SS`. */
  function FormatDateTime(f: DateFields): string
    requires 0 <= f.day < 100 && 0 <= f.month + 1 < 100 && 0 <= f.year < 10000
    requires 0 <= f.hour < 100 && 0 <= f.minute < 100 && 0 <= f.second < 100
  {
    Pad2(f.day) + "/" + Pad2(f.month + 1) + "/" + Pad4(f.year)
      + (" " + Pad2(f.hour) + ":" + Pad2(f.minute) + ":" + Pad2(f.second))
  }

  /** `DD/MM/YYYY`. */
  function FormatDate(f: DateFields): string
    requires 0 <= f.day < 100 && 0 <= f.month + 1 < 100 && 0 <= f.year < 10000
  {
    Pad2(f.day) + "/" + Pad2(f.month + 1) + "/" + Pad4(f.year)
  }

  /** The mandatory part of a string that starts `DD/MM/YYYY`. */
  lemma PrefixRead(d: string, m: string, y: string, rest: string)
    requires |d| == 2 && |m| == 2 && |y| == 4 && AllDigits(d) && AllDigits(m) && AllDigits(y)
    ensures DatePrefix(d + "/" + m + "/" + y + rest, 0) == Some((d, m, y))
  {
    var s := d + "/" + m + "/" + y + rest;
    assert s == [d[0], d[1], '/', m[0], m[1], '/', y[0], y[1], y[2], y[3]] + rest;
    assert s[0..2] == d && s[3..5] == m && s[6..10] == y;
    assert ShortField(s, 0) == Some(d);
    assert ShortField(s, 3) == Some(m);
    assert Year(s, 6) == Some(y);
  }

  /** The time groups of a string that ends ` HH:MM:SS` after position `q`. */
  lemma TimeRead(s: string, q: nat, h: string, mi: string, se: string)
    requires |h| == 2 && |mi| == 2 && |se| == 2 && AllDigits(h) && AllDigits(mi) && AllDigits(se)
    requires q + 9 == |s| && s[q..] == " " + h + ":" + mi + ":" + se
    ensures TimeGroups(s, q) == (h, mi, se)
  {
    assert s[q..] == [' ', h[0], h[1], ':', mi[0], mi[1], ':', se[0], se[1]];
    assert s[q] == ' ' && s[q + 1] == h[0] && s[q + 2] == h[1] && s[q + 3] == ':';
    assert s[q + 4] == mi[0] && s[q + 5] == mi[1] && s[q + 6] == ':';
    assert s[q + 7] == se[0] && s[q + 8] == se[1];
    assert SkipSpaces(s, q + 1) == q + 1;
    assert SkipSpaces(s, q) == q + 1;
    TwoDigitsAt(s, q + 1, h);
    assert SkipColon(s, q + 3) == q + 4;
    TwoDigitsAt(s, q + 4, mi);
    assert SkipColon(s, q + 6) == q + 7;
    TwoDigitsAt(s, q + 7, se);
  }

  /** Two digits at `p` are read as one group of two. */
  lemma TwoDigitsAt(s: string, p: nat, t: string)
    requires |t| == 2 && AllDigits(t) && p + 2 <= |s|
    requires s[p] == t[0] && s[p + 1] == t[1]
    ensures UpToTwoDigits(s, p) == t
  {
    assert s[p..p + 2] == t;
  }

  /** At the end of the string every time group is missing. */
  lemma TimeReadEmpty(s: string)
    ensures TimeGroups(s, |s|) == ([], [], [])
  {
  }

  /** A match at the very start is the one reported. */
  lemma StrictDateAtStart(s: string)
    requires MatchAt(s, 0).Some?
    ensures StrictDate(s) == Some(Fields(MatchAt(s, 0).value))
  {
  }

  /** A timestamp written day first, `DD/MM/YYYY HH:MM:SS`, is read back
      field for field. */
  lemma DateTimeRoundTrip(f: DateFields)
    requires 0 <= f.day < 100 && 0 <= f.month + 1 < 100 && 0 <= f.year < 10000
    requires 0 <= f.hour < 100 && 0 <= f.minute < 100 && 0 <= f.second < 100
    ensures StrictDate(FormatDateTime(f)) == Some(f)
  {
    var d, m, y := Pad2(f.day), Pad2(f.month + 1), Pad4(f.year);
    var h, mi, se := Pad2(f.hour), Pad2(f.minute), Pad2(f.second);
    var s := FormatDateTime(f);
    DateTimeMatch(s, d, m, y, h, mi, se);
    DateTimeReadBack(s, d, m, y, h, mi, se, f);
  }

  /** A match at the start whose six groups hold the values of `f` reads
      back as `f`. */
  lemma DateTimeReadBack(s: string, d: string, m: string, y: string, h: string, mi: string, se: string, f: DateFields)
    requires AllDigits(d) && AllDigits(m) && AllDigits(y)
    requires h != [] && mi != [] && se != [] && AllDigits(h) && AllDigits(mi) && AllDigits(se)
    requires DigitsValue(d) == f.day && DigitsValue(m) == f.month + 1 && DigitsValue(y) == f.year
    requires DigitsValue(h) == f.hour && DigitsValue(mi) == f.minute && DigitsValue(se) == f.second
    requires MatchAt(s, 0) == Some(DateMatch(d, m, y, h, mi, se))
    ensures StrictDate(s) == Some(f)
  {
    var g := DateMatch(d, m, y, h, mi, se);
    StrictDateAtStart(s);
    assert Fields(g) == f;
  }

  /** The groups of `DD/MM/YYYY HH:MM:SS` are its six fields. */
  lemma DateTimeMatch(s: string, d: string, m: string, y: string, h: string, mi: string, se: string)
    requires |d| == 2 && |m| == 2 && |y| == 4 && AllDigits(d) && AllDigits(m) && AllDigits(y)
    requires |h| == 2 && |mi| == 2 && |se| == 2 && AllDigits(h) && AllDigits(mi) && AllDigits(se)
    requires s == d + "/" + m + "/" + y + (" " + h + ":" + mi + ":" + se)
    ensures MatchAt(s, 0) == Some(DateMatch(d, m, y, h, mi, se))
  {
    var rest := " " + h + ":" + mi + ":" + se;
    assert s == d + "/" + m + "/" + y + rest;
    PrefixRead(d, m, y, rest);
    assert s[10..] == rest;
    TimeRead(s, 10, h, mi, se);
  }

  /** A date without a time, `DD/MM/YYYY`, is read with hour, minute and
      second 0. */
  lemma DateOnlyRoundTrip(f: DateFields)
    requires 0 <= f.day < 100 && 0 <= f.month + 1 < 100 && 0 <= f.year < 10000
    ensures StrictDate(FormatDate(f)) == Some(f.(hour := 0, minute := 0, second := 0))
  {
    var d, m, y := Pad2(f.day), Pad2(f.month + 1), Pad4(f.year);
    var s := d + "/" + m + "/" + y;
    assert FormatDate(f) == s;
    assert s + [] == s;
    PrefixRead(d, m, y, []);
    assert DatePrefix(s, 0) == Some((d, m, y));
    assert |s| == 10;
    TimeReadEmpty(s);
    assert TimeGroups(s, 10) == ([], [], []);
    assert MatchAt(s, 0) == Some(DateMatch(d, m, y, [], [], []));
    StrictDateAtStart(s);
    assert Fields(DateMatch(d, m, y, [], [], [])) == f.(hour := 0, minute := 0, second := 0);
  }

  lemma FormatFifthOfMarch()
    ensures FormatDateTime(DateFields(2024, 2, 5, 14, 30, 0)) == "05/03/2024 14:30:00"
  {
    assert Pad2(5) + "/" + Pad2(3) + "/" + Pad4(2024) == "05/03/2024" by {
      assert Pad2(5) == "05" && Pad2(3) == "03";
      YearOf2024();
    }
    assert " " + Pad2(14) + ":" + Pad2(30) + ":" + Pad2(0) == " 14:30:00" by {
      assert Pad2(14) == "14" && Pad2(30) == "30" && Pad2(0) == "00";
    }
  }

  lemma YearOf2024()
    ensures Pad4(2024) == "2024"
  {
    assert Pad2(20) == "20" && Pad2(24) == "24";
  }

  /** `"05/03/2024 14:30:00"` is the 5th of March 2024 (month index 2),
      14:30:00. */
  lemma FifthOfMarch()
    ensures StrictDate("05/03/2024 14:30:00") == Some(DateFields(2024, 2, 5, 14, 30, 0))
  {
    FormatFifthOfMarch();
    DateTimeRoundTrip(DateFields(2024, 2, 5, 14, 30, 0));
  }
}
