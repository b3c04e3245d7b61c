/**
 The aggregation inside `calculateBookingStatistic`: one pass over the bookings
 adds each booking's work time into three dictionaries keyed by day, project
 and employee; each dictionary is then turned into parallel `labels` and
 `data` lists, and the three series are returned with the number of bookings.
 */
module StatisticController {
  import opened Wrappers
  import opened Totals
  import opened Series
  import opened Bookings

  /** The day series, whose `data` is a list holding one row of values. */
  datatype DaySeries = DaySeries(labels: seq<string>, data: seq<seq<int>>)

  datatype Statistics = Statistics(
    timestamp: int,
    totalEntries: nat,
    hoursDay: DaySeries,
    hoursProject: Series,
    hoursEmployee: Series)

  /** Reading `forename` of the `undefined` that a missing person gives throws a TypeError. */
  datatype Error = UnknownPerson(personId: Id)

  // ---------------------------------------------------------------------------
  // What each booking contributes

  /** The work time of each booking, in booking order. */
  function Hours(bookings: seq<Booking>): (hs: seq<int>)
    ensures |hs| == |bookings|
  {
    if |bookings| == 0 then []
    else Hours(bookings[..|bookings| - 1]) + [WorkTime(bookings[|bookings| - 1])]
  }

  /** The day label of each booking. */
  function DayKeys(locale: Locale, bookings: seq<Booking>): (ks: seq<string>)
    ensures |ks| == |bookings|
  {
    if |bookings| == 0 then []
    else DayKeys(locale, bookings[..|bookings| - 1]) + [DayLabel(locale, bookings[|bookings| - 1].workDay)]
  }

  /** The project label of each booking. */
  function ProjectKeys(projects: map<Id, Project>, bookings: seq<Booking>): (ks: seq<string>)
    ensures |ks| == |bookings|
  {
    if |bookings| == 0 then []
    else ProjectKeys(projects, bookings[..|bookings| - 1]) + [ProjectKey(projects, bookings[|bookings| - 1].projectId)]
  }

  /** Every booking's person is in the person map. */
  predicate AllPersonsKnown(persons: map<Id, Person>, bookings: seq<Booking>) {
    |bookings| == 0 ||
    (AllPersonsKnown(persons, bookings[..|bookings| - 1]) && bookings[|bookings| - 1].personId in persons)
  }

  /** The employee label of each booking. */
  function EmployeeKeys(persons: map<Id, Person>, bookings: seq<Booking>): (ks: seq<string>)
    requires AllPersonsKnown(persons, bookings)
    ensures |ks| == |bookings|
  {
    if |bookings| == 0 then []
    else EmployeeKeys(persons, bookings[..|bookings| - 1]) + [FullName(persons[bookings[|bookings| - 1].personId])]
  }

  lemma {:induction false} HoursAt(bookings: seq<Booking>, i: nat)
    requires i < |bookings|
    ensures Hours(bookings)[i] == WorkTime(bookings[i])
  {
    var n := |bookings| - 1;
    if i < n {
      HoursAt(bookings[..n], i);
    }
  }

  lemma {:induction false} DayKeysAt(locale: Locale, bookings: seq<Booking>, i: nat)
    requires i < |bookings|
    ensures DayKeys(locale, bookings)[i] == DayLabel(locale, bookings[i].workDay)
  {
    var n := |bookings| - 1;
    if i < n {
      DayKeysAt(locale, bookings[..n], i);
    }
  }

  lemma {:induction false} ProjectKeysAt(projects: map<Id, Project>, bookings: seq<Booking>, i: nat)
    requires i < |bookings|
    ensures ProjectKeys(projects, bookings)[i] == ProjectKey(projects, bookings[i].projectId)
  {
    var n := |bookings| - 1;
    if i < n {
      ProjectKeysAt(projects, bookings[..n], i);
    }
  }

  lemma {:induction false} EmployeeKeysAt(persons: map<Id, Person>, bookings: seq<Booking>, i: nat)
    requires AllPersonsKnown(persons, bookings) && i < |bookings|
    ensures bookings[i].personId in persons
    ensures EmployeeKeys(persons, bookings)[i] == FullName(persons[bookings[i].personId])
  {
    var n := |bookings| - 1;
    if i < n {
      EmployeeKeysAt(persons, bookings[..n], i);
    }
  }

  /** How the per-booking sequences of a prefix grow by one booking. */
  lemma PrefixStep(bookings: seq<Booking>, i: nat, persons: map<Id, Person>, projects: map<Id, Project>, locale: Locale)
    requires i < |bookings|
    ensures Hours(bookings[..i + 1]) == Hours(bookings[..i]) + [WorkTime(bookings[i])]
    ensures DayKeys(locale, bookings[..i + 1]) == DayKeys(locale, bookings[..i]) + [DayLabel(locale, bookings[i].workDay)]
    ensures ProjectKeys(projects, bookings[..i + 1]) == ProjectKeys(projects, bookings[..i]) + [ProjectKey(projects, bookings[i].projectId)]
    ensures AllPersonsKnown(persons, bookings[..i + 1]) <==> AllPersonsKnown(persons, bookings[..i]) && bookings[i].personId in persons
    ensures AllPersonsKnown(persons, bookings[..i + 1]) ==>
      EmployeeKeys(persons, bookings[..i + 1]) == EmployeeKeys(persons, bookings[..i]) + [FullName(persons[bookings[i].personId])]
  {
    assert bookings[..i + 1][..i] == bookings[..i];
  }

  /** The recursive definition means what its name says: every person looked up is present. */
  lemma {:induction false} AllPersonsKnownIff(persons: map<Id, Person>, bookings: seq<Booking>)
    ensures AllPersonsKnown(persons, bookings) <==> forall i :: 0 <= i < |bookings| ==> bookings[i].personId in persons
  {
    if |bookings| > 0 {
      var n := |bookings| - 1;
      AllPersonsKnownIff(persons, bookings[..n]);
      if AllPersonsKnown(persons, bookings) {
        forall i | 0 <= i < |bookings| ensures bookings[i].personId in persons {
          if i < n {
            assert bookings[..n][i] == bookings[i];
          }
        }
      } else if forall i :: 0 <= i < |bookings| ==> bookings[i].personId in persons {
        assert bookings[n].personId in persons;
        forall i | 0 <= i < n ensures bookings[..n][i].personId in persons {
          assert bookings[..n][i] == bookings[i];
        }
      }
    }
  }

  /** The position of the first booking whose person is missing from the person map, if any. */
  function FirstUnknownPerson(persons: map<Id, Person>, bookings: seq<Booking>): (r: Option<nat>)
    ensures r.None? <==> AllPersonsKnown(persons, bookings)
    ensures r.Some? ==> r.value < |bookings| && bookings[r.value].personId !in persons
    ensures r.Some? ==> AllPersonsKnown(persons, bookings[..r.value])
  {
    if |bookings| == 0 then None
    else
      var n := |bookings| - 1;
      match FirstUnknownPerson(persons, bookings[..n])
      case Some(i) =>
        assert bookings[..n][..i] == bookings[..i];
        Some(i)
      case None =>
        if bookings[n].personId in persons then None
        else Some(n)
  }

  /** A missing person at position `i` after only known ones is the first unknown person. */
  lemma {:induction false} FirstUnknownPersonAt(persons: map<Id, Person>, bookings: seq<Booking>, i: nat)
    requires i < |bookings| && AllPersonsKnown(persons, bookings[..i]) && bookings[i].personId !in persons
    ensures FirstUnknownPerson(persons, bookings) == Some(i)
  {
    var n := |bookings| - 1;
    if i < n {
      assert bookings[..n][..i] == bookings[..i];
      FirstUnknownPersonAt(persons, bookings[..n], i);
    }
  }

  // ---------------------------------------------------------------------------
  // The result the aggregation is meant to produce

  /**
   The statistics for the given inputs: the failure of the first booking with an
   unknown person, or the three series with the number of bookings.
   */
  function StatisticOf(
    bookings: seq<Booking>, persons: map<Id, Person>, projects: map<Id, Project>,
    locale: Locale, timestamp: int): Result<Statistics, Error>
  {
    match FirstUnknownPerson(persons, bookings)
    case Some(i) => Err(UnknownPerson(bookings[i].personId))
    case None =>
      var hours := Hours(bookings);
      var day := SeriesOf(DayKeys(locale, bookings), hours);
      Ok(Statistics(
        timestamp,
        |bookings|,
        DaySeries(day.labels, [day.data]),
        SeriesOf(ProjectKeys(projects, bookings), hours),
        SeriesOf(EmployeeKeys(persons, bookings), hours)))
  }

  // ---------------------------------------------------------------------------
  // The aggregation

  /** `labels = _.keys(m)` and `values` pushed label by label: the series a totals dictionary stands for. */
  method SeriesFrom(m: HoursMap) returns (s: Series)
    requires m.Valid()
    ensures s == SeriesOf(m.keys, m.amounts)
  {
    var labels := m.Keys();
    var values := m.ValuesOf(labels);
    s := Series(labels, values);
    assert s.data == SeriesOf(m.keys, m.amounts).data;
  }

  /**
   The callback `_.each` runs for one booking: its work time is added under
   its day label and its project label, then under its employee's full name.
   Looking up a missing person fails before the employee total is touched;
   the result says whether the person was found.
   */
  method CountBooking(
    booking: Booking, persons: map<Id, Person>, projects: map<Id, Project>, locale: Locale,
    workTimeMap: HoursMap, projectWorkTimeMap: HoursMap, employeeMap: HoursMap)
    returns (found: bool)
    requires workTimeMap != projectWorkTimeMap && workTimeMap != employeeMap && projectWorkTimeMap != employeeMap
    requires workTimeMap.Valid() && projectWorkTimeMap.Valid() && employeeMap.Valid()
    modifies workTimeMap, projectWorkTimeMap, employeeMap
    ensures found <==> booking.personId in persons
    ensures workTimeMap.Valid() && projectWorkTimeMap.Valid() && employeeMap.Valid()
    ensures workTimeMap.keys == old(workTimeMap.keys) + [DayLabel(locale, booking.workDay)]
    ensures workTimeMap.amounts == old(workTimeMap.amounts) + [WorkTime(booking)]
    ensures projectWorkTimeMap.keys == old(projectWorkTimeMap.keys) + [ProjectKey(projects, booking.projectId)]
    ensures projectWorkTimeMap.amounts == old(projectWorkTimeMap.amounts) + [WorkTime(booking)]
    ensures found ==> employeeMap.keys == old(employeeMap.keys) + [FullName(persons[booking.personId])]
    ensures found ==> employeeMap.amounts == old(employeeMap.amounts) + [WorkTime(booking)]
  {
    var workTime := WorkTime(booking);
    var date := DayLabel(locale, booking.workDay);
    workTimeMap.Add(date, workTime);

    var projectName := ProjectKey(projects, booking.projectId);
    projectWorkTimeMap.Add(projectName, workTime);

    if booking.personId !in persons {
      return false;
    }
    var fullname := FullName(persons[booking.personId]);
    employeeMap.Add(fullname, workTime);
    found := true;
  }

  /**
   `_.each(bookingList, ...)`: the three dictionaries after every booking has
   been counted, or the position of the first booking whose person is missing.
   */
  method AccumulateHours(
    bookings: seq<Booking>, persons: map<Id, Person>, projects: map<Id, Project>, locale: Locale)
    returns (unknown: Option<nat>, workTimeMap: HoursMap, projectWorkTimeMap: HoursMap, employeeMap: HoursMap)
    ensures fresh(workTimeMap) && fresh(projectWorkTimeMap) && fresh(employeeMap)
    ensures unknown == FirstUnknownPerson(persons, bookings)
    ensures workTimeMap.Valid() && projectWorkTimeMap.Valid() && employeeMap.Valid()
    ensures unknown.None? ==>
      && workTimeMap.keys == DayKeys(locale, bookings)
      && projectWorkTimeMap.keys == ProjectKeys(projects, bookings)
      && employeeMap.keys == EmployeeKeys(persons, bookings)
      && workTimeMap.amounts == projectWorkTimeMap.amounts == employeeMap.amounts == Hours(bookings)
  {
    workTimeMap := new HoursMap();
    projectWorkTimeMap := new HoursMap();
    employeeMap := new HoursMap();

    var i := 0;
    while i < |bookings|
      invariant 0 <= i <= |bookings|
      invariant fresh(workTimeMap) && fresh(projectWorkTimeMap) && fresh(employeeMap)
      invariant workTimeMap != projectWorkTimeMap && workTimeMap != employeeMap && projectWorkTimeMap != employeeMap
      invariant AllPersonsKnown(persons, bookings[..i])
      invariant workTimeMap.Valid() && projectWorkTimeMap.Valid() && employeeMap.Valid()
      invariant workTimeMap.keys == DayKeys(locale, bookings[..i])
      invariant projectWorkTimeMap.keys == ProjectKeys(projects, bookings[..i])
      invariant employeeMap.keys == EmployeeKeys(persons, bookings[..i])
      invariant workTimeMap.amounts == projectWorkTimeMap.amounts == employeeMap.amounts == Hours(bookings[..i])
    {
      PrefixStep(bookings, i, persons, projects, locale);
      var found := CountBooking(bookings[i], persons, projects, locale, workTimeMap, projectWorkTimeMap, employeeMap);
      if !found {
        FirstUnknownPersonAt(persons, bookings, i);
        unknown := Some(i);
        return;
      }
      i := i + 1;
    }
    assert bookings[..i] == bookings;
    unknown := None;
  }

  /**
   The body of `calculateBookingStatistic` once bookings, persons and projects
   have been fetched. `timestamp` stands for `new Date().getTime()`.
   */
  method CalculateBookingStatistic(
    bookings: seq<Booking>, persons: map<Id, Person>, projects: map<Id, Project>,
    locale: Locale, timestamp: int)
    returns (r: Result<Statistics, Error>)
    ensures r == StatisticOf(bookings, persons, projects, locale, timestamp)
  {
    var unknown, workTimeMap, projectWorkTimeMap, employeeMap := AccumulateHours(bookings, persons, projects, locale);
    if unknown.Some? {
      return Err(UnknownPerson(bookings[unknown.value].personId));
    }

    var hoursDay := SeriesFrom(workTimeMap);
    var hoursProject := SeriesFrom(projectWorkTimeMap);
    var hoursEmployee := SeriesFrom(employeeMap);

    r := Ok(Statistics(timestamp, |bookings|, DaySeries(hoursDay.labels, [hoursDay.data]), hoursProject, hoursEmployee));
  }
}
