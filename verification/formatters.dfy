/**
 Formatting helpers: the day-count bucketing of `formatRelativeTime` and
 the case-insensitive colour lookups for platforms and statuses.
 */
module Formatters {
  import opened Text

  // ---------------------------------------------------------------------
  // Relative time

  /** `1000 * 60 * 60 * 24`. */
  const MsPerDay: int := 1000 * 60 * 60 * 24

  /** The phrase `formatRelativeTime` chooses. `NotANumber` stands for an
      unparsable date, for which every comparison with the NaN day count
      fails. */
  datatype Relative =
    | Today
    | Yesterday
    | DaysAgo(days: int)
    | WeeksAgo(weeks: int)
    | MonthsAgo(months: int)
    | YearsAgo(years: int)
    | NotANumber

  /** `Math.floor(diffInMs / MsPerDay)`; Dafny's division by a positive
      divisor rounds down like `Math.floor`. */
  function DiffInDays(diffMs: int): (d: int)
    ensures d * MsPerDay <= diffMs < (d + 1) * MsPerDay
  {
    diffMs / MsPerDay
  }

  /** The chain of `if`s on the whole-day difference. */
  function Bucket(days: int): (r: Relative)
    ensures r == Today <==> days == 0
    ensures r == Yesterday <==> days == 1
    ensures r.DaysAgo? <==> days < 0 || 2 <= days < 7
    ensures r.DaysAgo? ==> r.days == days
    ensures r.WeeksAgo? <==> 7 <= days < 30
    ensures r.WeeksAgo? ==> 1 <= r.weeks <= 4 && 7 * r.weeks <= days < 7 * r.weeks + 7
    ensures r.MonthsAgo? <==> 30 <= days < 365
    ensures r.MonthsAgo? ==> 1 <= r.months <= 12 && 30 * r.months <= days < 30 * r.months + 30
    ensures r.YearsAgo? <==> 365 <= days
    ensures r.YearsAgo? ==> 1 <= r.years && 365 * r.years <= days < 365 * r.years + 365
    ensures r != NotANumber
  {
    if days == 0 then Today
    else if days == 1 then Yesterday
    else if days < 7 then DaysAgo(days)
    else if days < 30 then WeeksAgo(days / 7)
    else if days < 365 then MonthsAgo(days / 30)
    else YearsAgo(days / 365)
  }

  /** The sixth character from the end of the phrases that end in
      `"s ago"`: it tells the unit apart. */
  function UnitMark(r: Relative): char {
    match r
    case DaysAgo(_) => 'y'
    case WeeksAgo(_) => 'k'
    case MonthsAgo(_) => 'h'
    case YearsAgo(_) => 'r'
    case NotANumber => 'r'
    case _ => ' '
  }

  /** A counted phrase `${count} ${unit}s ago`, with `unit` holding the
      space and the singular unit. */
  function Ago(count: string, unit: string): (s: string)
    ensures |s| == |count| + |unit| + 5
    ensures s[..|count|] == count
    ensures s[|count|..|count| + |unit|] == unit
    ensures s[|s| - 5..] == "s ago"
  {
    count + unit + "s ago"
  }

  /** Phrases with the same unit and the same text have the same count. */
  lemma AgoInjective(c1: string, c2: string, unit: string)
    requires Ago(c1, unit) == Ago(c2, unit)
    ensures c1 == c2
  {
    var s := Ago(c1, unit);
    assert c1 == s[..|c1|];
  }

  /** The template literal of each branch. Every phrase but "Today" and
      "Yesterday" ends in `"s ago"`, with the unit told apart by the
      character before it; those two end in `'y'` instead. */
  function Render(r: Relative): (s: string)
    ensures !r.Today? && !r.Yesterday? ==> |s| >= 10 && s[|s| - 5..] == "s ago" && s[|s| - 6] == UnitMark(r)
    ensures r.Today? || r.Yesterday? ==> |s| >= 5 && s[|s| - 1] == 'y'
    ensures r.DaysAgo? ==> s[..|s| - 9] == IntToString(r.days)
    ensures r.WeeksAgo? ==> s[..|s| - 10] == IntToString(r.weeks)
    ensures r.MonthsAgo? ==> |s| >= 11 && s[..|s| - 11] == IntToString(r.months)
    ensures r.YearsAgo? ==> s[..|s| - 10] == IntToString(r.years)
  {
    match r
    case Today => "Today"
    case Yesterday => "Yesterday"
    case DaysAgo(n) => Counted(IntToString(n), " day")
    case WeeksAgo(n) => Counted(IntToString(n), " week")
    case MonthsAgo(n) => Counted(IntToString(n), " month")
    case YearsAgo(n) => Counted(IntToString(n), " year")
    case NotANumber => Counted("NaN", " year")
  }

  /** `Ago` with the unit's last letter placed six characters from the
      end. */
  function Counted(count: string, unit: string): (s: string)
    requires |count| >= 1 && |unit| >= 4
    ensures s == Ago(count, unit)
    ensures |s| >= 10 && s[|s| - 6] == unit[|unit| - 1]
    ensures s[..|s| - (|unit| + 5)] == count
  {
    var s := Ago(count, unit);
    assert s[|s| - 6] == s[|count|..|count| + |unit|][|unit| - 1];
    s
  }

  /** The branch of `formatRelativeTime` a date falls into, with the
      clock reading `nowMs` as an input and the parsed date as
      milliseconds, absent when the date string does not parse. */
  function Classify(nowMs: int, dateMs: Option<int>): (r: Relative)
    ensures r == NotANumber <==> dateMs.None?
    ensures r == Today <==> dateMs.Some? && 0 <= nowMs - dateMs.value < MsPerDay
    ensures r == Yesterday <==> dateMs.Some? && MsPerDay <= nowMs - dateMs.value < 2 * MsPerDay
  {
    match dateMs
    case None => NotANumber
    case Some(t) =>
      DayCount(nowMs - t);
      Bucket(DiffInDays(nowMs - t))
  }

  /** `formatRelativeTime`: the phrase of the branch the date falls
      into. */
  function FormatRelativeTime(nowMs: int, dateMs: Option<int>): (s: string)
    ensures s == "NaN years ago" <==> dateMs.None?
    ensures s == "Today" <==> dateMs.Some? && 0 <= nowMs - dateMs.value < MsPerDay
    ensures s == "Yesterday" <==> dateMs.Some? && MsPerDay <= nowMs - dateMs.value < 2 * MsPerDay
  {
    TodayPhrase(Classify(nowMs, dateMs));
    YesterdayPhrase(Classify(nowMs, dateMs));
    NaNPhrase(Classify(nowMs, dateMs));
    Render(Classify(nowMs, dateMs))
  }

  /** A parsed date prints the phrase of its whole-day bucket. */
  lemma FormatIsRenderedBucket(nowMs: int, dateMs: int)
    ensures FormatRelativeTime(nowMs, Some(dateMs)) == Render(Bucket(DiffInDays(nowMs - dateMs)))
  {
    assert Classify(nowMs, Some(dateMs)) == Bucket(DiffInDays(nowMs - dateMs));
  }

  /** A difference between `lo` and `hi` whole days has a day count in
      that range. */
  lemma DayCountWithin(diffMs: int, lo: int, hi: int)
    requires lo * MsPerDay <= diffMs < hi * MsPerDay
    ensures lo <= DiffInDays(diffMs) < hi
  {
  }

  /** The whole-day count is 0 exactly in the first day and 1 exactly in
      the second. */
  lemma DayCount(diffMs: int)
    ensures DiffInDays(diffMs) == 0 <==> 0 <= diffMs < MsPerDay
    ensures DiffInDays(diffMs) == 1 <==> MsPerDay <= diffMs < 2 * MsPerDay
  {
  }

  /** Only `Today` prints "Today". */
  lemma TodayPhrase(r: Relative)
    ensures Render(r) == "Today" <==> r == Today
  {
    if Render(r) == "Today" {
      RenderInjective(r, Today);
    }
  }

  /** Only `Yesterday` prints "Yesterday". */
  lemma YesterdayPhrase(r: Relative)
    ensures Render(r) == "Yesterday" <==> r == Yesterday
  {
    if Render(r) == "Yesterday" {
      RenderInjective(r, Yesterday);
    }
  }

  /** Only an unparsable date prints "NaN years ago". */
  lemma NaNPhrase(r: Relative)
    ensures Render(r) == "NaN years ago" <==> r == NotANumber
  {
    assert Render(NotANumber) == "NaN years ago";
    if Render(r) == "NaN years ago" {
      RenderInjective(r, NotANumber);
    }
  }

  /** No integer prints as `NaN`. */
  lemma NotNaN(n: int)
    ensures IntToString(n) != "NaN"
  {
    assert "NaN"[0] == 'N';
  }

  /** The phrase loses nothing: different buckets, or the same bucket with
      different counts, never print the same text. */
  lemma RenderInjective(a: Relative, b: Relative)
    requires Render(a) == Render(b)
    ensures a == b
  {
    if a.Today? || a.Yesterday? {
      PlainPhraseInjective(a, b);
    } else if b.Today? || b.Yesterday? {
      PlainPhraseInjective(b, a);
    } else {
      CountedPhraseInjective(a, b);
    }
  }

  /** "Today" and "Yesterday" are printed by nothing else. */
  lemma PlainPhraseInjective(a: Relative, b: Relative)
    requires a.Today? || a.Yesterday?
    requires Render(a) == Render(b)
    ensures a == b
  {
    PlainEnding(a, b);
    FirstLetter(a);
    FirstLetter(b);
  }

  /** "Today" and "Yesterday" differ in their first letter. */
  lemma FirstLetter(r: Relative)
    requires r.Today? || r.Yesterday?
    ensures r.Today? <==> Render(r)[0] == 'T'
  {
  }

  /** Only "Today" and "Yesterday" lack the `"s ago"` ending. */
  lemma PlainEnding(a: Relative, b: Relative)
    requires a.Today? || a.Yesterday?
    requires Render(a) == Render(b)
    ensures b.Today? || b.Yesterday?
  {
  }

  /** Phrases ending in "s ago" tell apart the unit by its last letter and
      the count by its digits. */
  lemma CountedPhraseInjective(a: Relative, b: Relative)
    requires !a.Today? && !a.Yesterday? && !b.Today? && !b.Yesterday?
    requires Render(a) == Render(b)
    ensures a == b
  {
    SameUnit(a, b);
    match a
    case DaysAgo(_) => SameCount(a, b);
    case WeeksAgo(_) => SameCount(a, b);
    case MonthsAgo(_) => SameCount(a, b);
    case YearsAgo(m) =>
      if b.YearsAgo? {
        SameCount(a, b);
      } else {
        NaNCount(m);
      }
    case NotANumber =>
      if b.YearsAgo? {
        NaNCount(b.years);
      }
  }

  /** Equal counted phrases have the same unit. */
  lemma SameUnit(a: Relative, b: Relative)
    requires !a.Today? && !a.Yesterday? && !b.Today? && !b.Yesterday?
    requires Render(a) == Render(b)
    ensures a.DaysAgo? <==> b.DaysAgo?
    ensures a.WeeksAgo? <==> b.WeeksAgo?
    ensures a.MonthsAgo? <==> b.MonthsAgo?
    ensures a.YearsAgo? || a.NotANumber? <==> b.YearsAgo? || b.NotANumber?
  {
    assert UnitMark(a) == UnitMark(b);
  }

  /** Equal phrases of the same numbered unit have the same count. */
  lemma SameCount(a: Relative, b: Relative)
    requires (a.DaysAgo? && b.DaysAgo?) || (a.WeeksAgo? && b.WeeksAgo?)
          || (a.MonthsAgo? && b.MonthsAgo?) || (a.YearsAgo? && b.YearsAgo?)
    requires Render(a) == Render(b)
    ensures a == b
  {
    match a
    case DaysAgo(m) => IntToStringInjective(m, b.days);
    case WeeksAgo(m) => IntToStringInjective(m, b.weeks);
    case MonthsAgo(m) => IntToStringInjective(m, b.months);
    case YearsAgo(m) => IntToStringInjective(m, b.years);
  }

  /** No year count prints like an unparsable date. */
  lemma NaNCount(n: int)
    ensures Render(YearsAgo(n)) != Render(NotANumber)
  {
    if Counted(IntToString(n), " year") == Counted("NaN", " year") {
      AgoInjective(IntToString(n), "NaN", " year");
      NotNaN(n);
    }
  }

  /** The text of each counted phrase: the count as `String(n)` renders
      it, then the plural unit and "ago". */
  lemma DaysText(n: int)
    ensures Render(DaysAgo(n)) == IntToString(n) + " days ago"
  {
    var c := IntToString(n);
    assert Ago(c, " day") == c + " days ago";
  }

  lemma WeeksText(n: int)
    ensures Render(WeeksAgo(n)) == IntToString(n) + " weeks ago"
  {
    var c := IntToString(n);
    assert Ago(c, " week") == c + " weeks ago";
  }

  lemma MonthsText(n: int)
    ensures Render(MonthsAgo(n)) == IntToString(n) + " months ago"
  {
    var c := IntToString(n);
    assert Ago(c, " month") == c + " months ago";
  }

  lemma YearsText(n: int)
    ensures Render(YearsAgo(n)) == IntToString(n) + " years ago"
  {
    var c := IntToString(n);
    assert Ago(c, " year") == c + " years ago";
  }

  /** A negative day count, or one from 2 to 6, prints that count of
      days. */
  lemma DaysPhrase(nowMs: int, dateMs: int)
    requires DiffInDays(nowMs - dateMs) < 0 || 2 <= DiffInDays(nowMs - dateMs) < 7
    ensures FormatRelativeTime(nowMs, Some(dateMs))
              == IntToString(DiffInDays(nowMs - dateMs)) + " days ago"
  {
    var d := DiffInDays(nowMs - dateMs);
    FormatIsRenderedBucket(nowMs, dateMs);
    assert Bucket(d) == DaysAgo(d);
    DaysText(d);
  }

  /** A day count from 7 to 29 prints its whole number of weeks, 1 to 4. */
  lemma WeeksPhrase(nowMs: int, dateMs: int)
    requires 7 <= DiffInDays(nowMs - dateMs) < 30
    ensures var w := DiffInDays(nowMs - dateMs) / 7;
            && 1 <= w <= 4
            && FormatRelativeTime(nowMs, Some(dateMs)) == IntToString(w) + " weeks ago"
  {
    var d := DiffInDays(nowMs - dateMs);
    FormatIsRenderedBucket(nowMs, dateMs);
    assert Bucket(d) == WeeksAgo(d / 7);
    WeeksText(d / 7);
  }

  /** A day count from 30 to 364 prints its whole number of 30-day months,
      1 to 12. */
  lemma MonthsPhrase(nowMs: int, dateMs: int)
    requires 30 <= DiffInDays(nowMs - dateMs) < 365
    ensures var m := DiffInDays(nowMs - dateMs) / 30;
            && 1 <= m <= 12
            && FormatRelativeTime(nowMs, Some(dateMs)) == IntToString(m) + " months ago"
  {
    var d := DiffInDays(nowMs - dateMs);
    FormatIsRenderedBucket(nowMs, dateMs);
    assert Bucket(d) == MonthsAgo(d / 30);
    MonthsText(d / 30);
  }

  /** A day count of 365 or more prints its whole number of 365-day years,
      at least 1. */
  lemma YearsPhrase(nowMs: int, dateMs: int)
    requires 365 <= DiffInDays(nowMs - dateMs)
    ensures var y := DiffInDays(nowMs - dateMs) / 365;
            && 1 <= y
            && FormatRelativeTime(nowMs, Some(dateMs)) == IntToString(y) + " years ago"
  {
    var d := DiffInDays(nowMs - dateMs);
    FormatIsRenderedBucket(nowMs, dateMs);
    assert Bucket(d) == YearsAgo(d / 365);
    YearsText(d / 365);
  }

  /** A date in the future gives a negative day count, which falls into
      the days-ago branch and prints a minus sign. */
  lemma FutureDateGoesNegative(nowMs: int, dateMs: int)
    requires nowMs < dateMs
    ensures DiffInDays(nowMs - dateMs) < 0
    ensures FormatRelativeTime(nowMs, Some(dateMs))
              == "-" + NatToString(-DiffInDays(nowMs - dateMs)) + " days ago"
  {
    var d := DiffInDays(nowMs - dateMs);
    FormatIsRenderedBucket(nowMs, dateMs);
    assert Bucket(d) == DaysAgo(d);
    NegativeDaysPhrase(d);
  }

  lemma NegativeDaysPhrase(d: int)
    requires d < 0
    ensures Render(DaysAgo(d)) == "-" + NatToString(-d) + " days ago"
  {
    DaysText(d);
    assert IntToString(d) == "-" + NatToString(-d);
  }

  /** Seven to thirteen days print `"1 weeks ago"`. */
  lemma OneWeek(nowMs: int, dateMs: int)
    requires 7 * MsPerDay <= nowMs - dateMs < 14 * MsPerDay
    ensures FormatRelativeTime(nowMs, Some(dateMs)) == "1 weeks ago"
  {
    var d := DiffInDays(nowMs - dateMs);
    FormatIsRenderedBucket(nowMs, dateMs);
    DayCountWithin(nowMs - dateMs, 7, 14);
    assert Bucket(d) == WeeksAgo(1);
    OneWeekPhrase();
  }

  lemma OneWeekPhrase()
    ensures Render(WeeksAgo(1)) == "1 weeks ago"
  {
    assert IntToString(1) == "1";
    assert Ago("1", " week") == "1 weeks ago";
  }

  // ---------------------------------------------------------------------
  // Colour lookups

  /** `colors` in `getPlatformColor`. */
  const PlatformColours: map<string, string> :=
    map["meta" := "bg-blue-500", "google" := "bg-red-500", "linkedin" := "bg-blue-700", "other" := "bg-gray-500"]

  /** `colors` in `getStatusColor`. */
  const StatusColours: map<string, string> :=
    map["active" := "bg-green-500", "paused" := "bg-yellow-500", "completed" := "bg-gray-500"]

  /** The platform names with a colour of their own. */
  lemma PlatformKeys(k: string)
    ensures k in PlatformColours <==> k == "meta" || k == "google" || k == "linkedin" || k == "other"
  {
  }

  /** The statuses with a colour of their own. */
  lemma StatusKeys(k: string)
    ensures k in StatusColours <==> k == "active" || k == "paused" || k == "completed"
  {
  }

  /** Looks `key` up among the table's own entries, falling back to the
      entry for `fallback` when the key is missing or its value is empty
      (falsy). */
  function LookupColour(table: map<string, string>, key: string, fallback: string): (r: string)
    requires fallback in table
    ensures r in table.Values
    ensures key in table && table[key] != "" ==> r == table[key]
    ensures !(key in table && table[key] != "") ==> r == table[fallback]
  {
    if key in table && table[key] != "" then table[key] else table[fallback]
  }

  /** `getPlatformColor`: the colour of the lower-cased platform name,
      grey for anything else. */
  function GetPlatformColor(platform: string): (r: string)
    ensures r in PlatformColours.Values
    ensures Lower(platform) in PlatformColours ==> r == PlatformColours[Lower(platform)]
    ensures Lower(platform) !in PlatformColours ==> r == PlatformColours["other"]
  {
    LookupColour(PlatformColours, Lower(platform), "other")
  }

  /** Each platform colour other than the grey fallback belongs to exactly
      one platform name, in any case; every other name, `other` included,
      is grey. */
  lemma PlatformColourIdentifies(platform: string)
    ensures GetPlatformColor(platform) == "bg-blue-500" <==> Lower(platform) == "meta"
    ensures GetPlatformColor(platform) == "bg-red-500" <==> Lower(platform) == "google"
    ensures GetPlatformColor(platform) == "bg-blue-700" <==> Lower(platform) == "linkedin"
    ensures Lower(platform) !in {"meta", "google", "linkedin"} ==> GetPlatformColor(platform) == "bg-gray-500"
  {
  }

  /** `getStatusColor`: the colour of the lower-cased status, the `active`
      green for anything else. */
  function GetStatusColor(status: string): (r: string)
    ensures r in StatusColours.Values
    ensures Lower(status) in StatusColours ==> r == StatusColours[Lower(status)]
    ensures Lower(status) !in StatusColours ==> r == StatusColours["active"]
  {
    LookupColour(StatusColours, Lower(status), "active")
  }

  /** The paused and completed colours belong to exactly those statuses,
      in any case; every other status is shown as active. */
  lemma StatusColourIdentifies(status: string)
    ensures GetStatusColor(status) == "bg-yellow-500" <==> Lower(status) == "paused"
    ensures GetStatusColor(status) == "bg-gray-500" <==> Lower(status) == "completed"
    ensures Lower(status) !in {"paused", "completed"} ==> GetStatusColor(status) == "bg-green-500"
  {
  }

  /** Both lookups ignore case: a name and its lower-case form get the
      same colour. */
  lemma ColoursIgnoreCase(name: string)
    ensures GetPlatformColor(name) == GetPlatformColor(Lower(name))
    ensures GetStatusColor(name) == GetStatusColor(Lower(name))
  {
    LowerIdempotent(name);
  }

  // ---------------------------------------------------------------------
  // The lookups as written

  /** Properties every object literal inherits from `Object.prototype`;
      reading one of them from `colors` yields a function or an object. */
  const PrototypeMembers: set<string> := {
    "constructor", "__proto__", "hasOwnProperty", "isPrototypeOf",
    "propertyIsEnumerable", "toLocaleString", "toString", "valueOf",
    "__defineGetter__", "__defineSetter__", "__lookupGetter__", "__lookupSetter__"
  }

  /** What `colors[key]` reads: an own string, an inherited member, or
      `undefined`. */
  datatype PropertyValue = Own(value: string) | Inherited(name: string)

  function GetProperty(table: map<string, string>, key: string): Option<PropertyValue> {
    if key in table then Some(Own(table[key]))
    else if key in PrototypeMembers then Some(Inherited(key))
    else None
  }

  /** JavaScript truthiness: functions and objects are truthy, strings
      unless empty. */
  predicate Truthy(v: PropertyValue) {
    v.Inherited? || v.value != ""
  }

  /** `colors[key] || colors[fallback]` on a plain object literal. */
  function LookupAsWritten(table: map<string, string>, key: string, fallback: string): (r: PropertyValue)
    requires fallback in table
    ensures r.Inherited? <==> key !in table && key in PrototypeMembers
    ensures r.Inherited? ==> r == Inherited(key)
    ensures r.Own? ==> r.value == LookupColour(table, key, fallback)
  {
    match GetProperty(table, key)
    case Some(v) => if Truthy(v) then v else Own(table[fallback])
    case None => Own(table[fallback])
  }

  /** `getPlatformColor` as written. Because the key is lower-cased
      first, it returns an inherited member exactly for the names
      `constructor` and `__proto__` in any case; camel-case members such as
      `toString` stay out of reach. Everywhere else it gives the own-key
      colour. */
  function GetPlatformColorAsWritten(platform: string): (r: PropertyValue)
    ensures r.Inherited? <==> Lower(platform) in ReachableMembers
    ensures r.Inherited? ==> r == Inherited(Lower(platform))
    ensures r.Own? ==> r.value == GetPlatformColor(platform)
  {
    CamelCaseMembers();
    PlatformKeys(Lower(platform));
    LookupAsWritten(PlatformColours, Lower(platform), "other")
  }

  /** `getStatusColor` as written, with the same reach as
      `GetPlatformColorAsWritten`. */
  function GetStatusColorAsWritten(status: string): (r: PropertyValue)
    ensures r.Inherited? <==> Lower(status) in ReachableMembers
    ensures r.Inherited? ==> r == Inherited(Lower(status))
    ensures r.Own? ==> r.value == GetStatusColor(status)
  {
    CamelCaseMembers();
    StatusKeys(Lower(status));
    LookupAsWritten(StatusColours, Lower(status), "active")
  }

  /** Inherited members whose names are all lower case: the only ones a
      lower-cased key can reach. */
  const ReachableMembers: set<string> := {"constructor", "__proto__"}

  ghost predicate HasUpper(s: string) {
    exists i :: 0 <= i < |s| && IsUpper(s[i])
  }

  /** Every inherited member outside `ReachableMembers` has an upper-case
      letter in its name. */
  lemma CamelCaseMembers()
    ensures forall m :: m in PrototypeMembers && m !in ReachableMembers ==> HasUpper(m)
  {
    assert IsUpper("hasOwnProperty"[3]);
    assert IsUpper("isPrototypeOf"[2]);
    assert IsUpper("propertyIsEnumerable"[8]);
    assert IsUpper("toLocaleString"[2]);
    assert IsUpper("toString"[2]);
    assert IsUpper("valueOf"[5]);
    assert IsUpper("__defineGetter__"[8]);
    assert IsUpper("__defineSetter__"[8]);
    assert IsUpper("__lookupGetter__"[8]);
    assert IsUpper("__lookupSetter__"[8]);
  }

  /** `constructor` is already lower case. */
  lemma LowerConstructor()
    ensures Lower("constructor") == "constructor"
  {
    var s := "constructor";
    assert forall c | c in s :: !IsUpper(c);
    LowerOfLowerCase(s);
  }

  /** `__proto__` is already lower case. */
  lemma LowerProto()
    ensures Lower("__proto__") == "__proto__"
  {
    var s := "__proto__";
    assert forall c | c in s :: !IsUpper(c);
    LowerOfLowerCase(s);
  }

  /** As written, a platform called "constructor" gets the `Object`
      constructor function instead of a colour class; the corrected lookup
      gives the grey fallback. */
  lemma ConstructorEscapesFallback()
    ensures GetPlatformColorAsWritten("constructor") == Inherited("constructor")
    ensures GetPlatformColor("constructor") == "bg-gray-500"
  {
    LowerConstructor();
    ConstructorLookups();
  }

  lemma ConstructorLookups()
    ensures LookupAsWritten(PlatformColours, "constructor", "other") == Inherited("constructor")
    ensures LookupColour(PlatformColours, "constructor", "other") == "bg-gray-500"
  {
    PlatformKeys("constructor");
  }

  /** As written, a status called "__proto__" gets `Object.prototype`
      instead of a colour class; the corrected lookup gives the `active`
      green. */
  lemma ProtoEscapesFallback()
    ensures GetStatusColorAsWritten("__proto__") == Inherited("__proto__")
    ensures GetStatusColor("__proto__") == "bg-green-500"
  {
    LowerProto();
    ProtoLookups();
  }

  lemma ProtoLookups()
    ensures LookupAsWritten(StatusColours, "__proto__", "active") == Inherited("__proto__")
    ensures LookupColour(StatusColours, "__proto__", "active") == "bg-green-500"
  {
    StatusKeys("__proto__");
  }

  /** Everywhere else the code as written and the corrected lookups agree. */
  lemma AsWrittenAgreesOffPrototype(name: string)
    requires Lower(name) !in PrototypeMembers
    ensures GetPlatformColorAsWritten(name) == Own(GetPlatformColor(name))
    ensures GetStatusColorAsWritten(name) == Own(GetStatusColor(name))
  {
  }
}
