/**
 The records the statistics controller reads, and what it derives from one
 booking: its work time in whole hours and the three labels it is counted under.
 */
module Bookings {
  import opened JsSemantics

  /** Record identifiers, used as JavaScript property names. */
  type Id = string

  /** A calendar date (month 1..12) as moment sees `workDay` in the server's time zone. */
  datatype CalendarDate = CalendarDate(year: nat, month: nat, day: nat)

  /** Times are epoch milliseconds; `pause` is in minutes. */
  datatype Booking = Booking(
    id: Id, userId: Id, personId: Id, projectId: Id,
    workDay: CalendarDate, workStarted: int, workFinished: int, pause: int)

  datatype Person = Person(id: Id, forename: string, surname: string)

  datatype Project = Project(id: Id, name: string)

  /** The moment locales whose short date format `'l'` the model renders. */
  datatype Locale = English | German

  const MillisPerMinute: int := 60_000
  const MillisPerHour: int := 3_600_000
  const HoursPerDay: int := 24

  /** `workFinished - workStarted` with `pause` minutes taken off, in milliseconds. */
  function NetMillis(b: Booking): int {
    b.workFinished - b.workStarted - b.pause * MillisPerMinute
  }

  /** Each minute of pause takes one minute off the net duration. */
  lemma PauseShortensNetMillis(b: Booking, minutes: int)
    ensures NetMillis(b.(pause := b.pause + minutes)) == NetMillis(b) - minutes * MillisPerMinute
  {
  }

  /**
   `moment.duration(workFinished - workStarted).subtract(pause, 'minutes').hours()`:
   the hours component of the net duration. Moment truncates toward zero at each
   unit and keeps the hours below a day, so whole days are dropped.
   */
  function WorkTime(b: Booking): (h: int)
    ensures -HoursPerDay < h < HoursPerDay
    ensures NetMillis(b) >= 0 ==> 0 <= h && h == (NetMillis(b) / MillisPerHour) % HoursPerDay
    ensures NetMillis(b) < 0 ==> h <= 0
  {
    TruncRem(TruncDiv(NetMillis(b), MillisPerHour), HoursPerDay)
  }

  /** Below one day, the work time is the net duration in whole hours, fractions discarded. */
  lemma WorkTimeIsWholeHours(b: Booking)
    requires 0 <= NetMillis(b) < HoursPerDay * MillisPerHour
    ensures WorkTime(b) * MillisPerHour <= NetMillis(b) < (WorkTime(b) + 1) * MillisPerHour
  {
    var q := NetMillis(b) / MillisPerHour;
    assert q < HoursPerDay;
  }

  /** A booking one day longer than another has the same work time: the hours component wraps. */
  lemma WorkTimeDropsWholeDays(b: Booking, longer: Booking)
    requires NetMillis(b) >= 0
    requires NetMillis(longer) == NetMillis(b) + HoursPerDay * MillisPerHour
    ensures WorkTime(longer) == WorkTime(b)
  {
    var q := NetMillis(b) / MillisPerHour;
    assert NetMillis(longer) / MillisPerHour == q + HoursPerDay;
  }

  /** `moment(workDay).format('l')`: "M/D/YYYY" in English, "D.M.YYYY" in German. */
  function DayLabel(locale: Locale, d: CalendarDate): string {
    var month, day, year := NumberToString(d.month), NumberToString(d.day), ZeroFill(NumberToString(d.year), 4);
    match locale
    case English => month + "/" + day + "/" + year
    case German => day + "." + month + "." + year
  }

  /** Distinct days have distinct day labels: the label names the day. */
  lemma DayLabelInjective(locale: Locale, d1: CalendarDate, d2: CalendarDate)
    requires DayLabel(locale, d1) == DayLabel(locale, d2)
    ensures d1 == d2
  {
    var month1, day1, year1 := NumberToString(d1.month), NumberToString(d1.day), ZeroFill(NumberToString(d1.year), 4);
    var month2, day2, year2 := NumberToString(d2.month), NumberToString(d2.day), ZeroFill(NumberToString(d2.year), 4);
    ZeroFillValue(NumberToString(d1.year), 4);
    ZeroFillValue(NumberToString(d2.year), 4);
    match locale {
      case English => SplitFields(month1, day1, year1, month2, day2, year2, '/');
      case German => SplitFields(day1, month1, year1, day2, month2, year2, '.');
    }
    NumberToStringInjective(d1.month, d2.month);
    NumberToStringInjective(d1.day, d2.day);
    NumberToStringRoundTrip(d1.year);
    NumberToStringRoundTrip(d2.year);
  }

  /** A day label has a separator after its first number, so it is never an array index. */
  lemma DayLabelIsNotArrayIndex(locale: Locale, d: CalendarDate)
    ensures !IsArrayIndex(DayLabel(locale, d))
  {
    var month, day := NumberToString(d.month), NumberToString(d.day);
    match locale
    case English => NonDigitIsNotArrayIndex(DayLabel(locale, d), |month|);
    case German => NonDigitIsNotArrayIndex(DayLabel(locale, d), |day|);
  }

  /**
   `projectMap[projectId]` used as a property name. A project record is taken
   to be a plain object, which converts to "[object Object]"; a missing project
   gives "undefined".
   */
  function ProjectKey(projects: map<Id, Project>, projectId: Id): string
  {
    if projectId in projects then "[object Object]" else "undefined"
  }

  lemma ProjectKeyIsNotArrayIndex(projects: map<Id, Project>, projectId: Id)
    ensures !IsArrayIndex(ProjectKey(projects, projectId))
  {
    NonDigitIsNotArrayIndex(ProjectKey(projects, projectId), 0);
  }

  /** `employee.forename + ' ' + employee.surname` */
  function FullName(p: Person): string {
    p.forename + " " + p.surname
  }

  /**
   Two people whose forenames contain no space have the same full name only
   when forename and surname both agree: the label tells them apart.
   */
  lemma FullNameInjective(p: Person, q: Person)
    requires ' ' !in p.forename && ' ' !in q.forename
    requires FullName(p) == FullName(q)
    ensures p.forename == q.forename && p.surname == q.surname
  {
    var s := FullName(p);
    assert forall i :: 0 <= i < |p.forename| ==> s[i] == p.forename[i];
    assert forall i :: 0 <= i < |q.forename| ==> s[i] == q.forename[i];
    assert s[|p.forename|] == ' ' && s[|q.forename|] == ' ';
    assert p.forename == s[..|p.forename|] == q.forename;
    assert p.surname == s[|p.forename| + 1..] == q.surname;
  }

  /** A full name contains a space, so it is never an array index. */
  lemma FullNameIsNotArrayIndex(p: Person)
    ensures !IsArrayIndex(FullName(p))
  {
    NonDigitIsNotArrayIndex(FullName(p), |p.forename|);
  }

  /**
   Two bookings are counted under the same project label exactly when both
   reference a known project or both reference a missing one: all known
   projects share one label.
   */
  lemma ProjectKeysAgree(projects: map<Id, Project>, id1: Id, id2: Id)
    ensures ProjectKey(projects, id1) == ProjectKey(projects, id2) <==> (id1 in projects <==> id2 in projects)
  {
    assert |"[object Object]"| != |"undefined"|;
  }
}
