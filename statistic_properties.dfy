/**
 What the statistics promise about the bookings they were computed from:
 each label's value is the work time of exactly the bookings carrying that
 label, the three series share one grand total, labels are distinct and in
 first-seen order, and an unknown person makes the whole computation fail.
 */
module StatisticProperties {
  import opened Wrappers
  import opened JsSemantics
  import opened Series
  import opened Bookings
  import opened StatisticController

  /** The work time summed over the bookings `selected` picks out: a reference definition on bookings. */
  function HoursWhere(bookings: seq<Booking>, selected: Booking -> bool): int {
    if |bookings| == 0 then 0
    else
      var n := |bookings| - 1;
      HoursWhere(bookings[..n], selected) + (if selected(bookings[n]) then WorkTime(bookings[n]) else 0)
  }

  lemma {:induction false} DayTotal(locale: Locale, bookings: seq<Booking>, target: string)
    ensures SumWhere(DayKeys(locale, bookings), Hours(bookings), target)
         == HoursWhere(bookings, (b: Booking) => DayLabel(locale, b.workDay) == target)
  {
    if |bookings| > 0 {
      var n := |bookings| - 1;
      assert DayKeys(locale, bookings)[..n] == DayKeys(locale, bookings[..n]);
      assert Hours(bookings)[..n] == Hours(bookings[..n]);
      DayTotal(locale, bookings[..n], target);
    }
  }

  /** Two selections that pick the same bookings give the same total. */
  lemma {:induction false} HoursWhereAgree(bookings: seq<Booking>, selected: Booking -> bool, other: Booking -> bool)
    requires forall i :: 0 <= i < |bookings| ==> selected(bookings[i]) == other(bookings[i])
    ensures HoursWhere(bookings, selected) == HoursWhere(bookings, other)
  {
    if |bookings| > 0 {
      var n := |bookings| - 1;
      assert forall i :: 0 <= i < n ==> bookings[..n][i] == bookings[i];
      HoursWhereAgree(bookings[..n], selected, other);
    }
  }

  /** Since day labels name their day, the total under a day's label is the work time of exactly the bookings on that day. */
  lemma DayTotalOfDate(locale: Locale, bookings: seq<Booking>, day: CalendarDate)
    ensures SumWhere(DayKeys(locale, bookings), Hours(bookings), DayLabel(locale, day))
         == HoursWhere(bookings, (b: Booking) => b.workDay == day)
  {
    var byLabel := (b: Booking) => DayLabel(locale, b.workDay) == DayLabel(locale, day);
    var byDate := (b: Booking) => b.workDay == day;
    forall i | 0 <= i < |bookings| ensures byLabel(bookings[i]) == byDate(bookings[i]) {
      if byLabel(bookings[i]) {
        DayLabelInjective(locale, bookings[i].workDay, day);
      }
    }
    DayTotal(locale, bookings, DayLabel(locale, day));
    HoursWhereAgree(bookings, byLabel, byDate);
  }

  lemma {:induction false} ProjectTotal(projects: map<Id, Project>, bookings: seq<Booking>, target: string)
    ensures SumWhere(ProjectKeys(projects, bookings), Hours(bookings), target)
         == HoursWhere(bookings, (b: Booking) => ProjectKey(projects, b.projectId) == target)
  {
    if |bookings| > 0 {
      var n := |bookings| - 1;
      assert ProjectKeys(projects, bookings)[..n] == ProjectKeys(projects, bookings[..n]);
      assert Hours(bookings)[..n] == Hours(bookings[..n]);
      ProjectTotal(projects, bookings[..n], target);
    }
  }

  lemma {:induction false} EmployeeTotal(persons: map<Id, Person>, bookings: seq<Booking>, target: string)
    requires AllPersonsKnown(persons, bookings)
    ensures SumWhere(EmployeeKeys(persons, bookings), Hours(bookings), target)
         == HoursWhere(bookings, (b: Booking) => b.personId in persons && FullName(persons[b.personId]) == target)
  {
    if |bookings| > 0 {
      var n := |bookings| - 1;
      assert EmployeeKeys(persons, bookings)[..n] == EmployeeKeys(persons, bookings[..n]);
      assert Hours(bookings)[..n] == Hours(bookings[..n]);
      EmployeeTotal(persons, bookings[..n], target);
    }
  }

  /** The value under each label is the work time of the bookings carrying that label, and of no others. */
  lemma LabelTotals(
    bookings: seq<Booking>, persons: map<Id, Person>, projects: map<Id, Project>,
    locale: Locale, timestamp: int)
    requires StatisticOf(bookings, persons, projects, locale, timestamp).Ok?
    ensures var st := StatisticOf(bookings, persons, projects, locale, timestamp).value;
      && |st.hoursDay.data| == 1
      && |st.hoursDay.labels| == |st.hoursDay.data[0]|
      && |st.hoursProject.labels| == |st.hoursProject.data|
      && |st.hoursEmployee.labels| == |st.hoursEmployee.data|
      && (forall i :: 0 <= i < |st.hoursDay.labels| ==>
            st.hoursDay.data[0][i] == HoursWhere(bookings, (b: Booking) => DayLabel(locale, b.workDay) == st.hoursDay.labels[i]))
      && (forall i :: 0 <= i < |st.hoursProject.labels| ==>
            st.hoursProject.data[i] == HoursWhere(bookings, (b: Booking) => ProjectKey(projects, b.projectId) == st.hoursProject.labels[i]))
      && (forall i :: 0 <= i < |st.hoursEmployee.labels| ==>
            st.hoursEmployee.data[i]
            == HoursWhere(bookings, (b: Booking) => b.personId in persons && FullName(persons[b.personId]) == st.hoursEmployee.labels[i]))
  {
    var st := StatisticOf(bookings, persons, projects, locale, timestamp).value;
    var hours := Hours(bookings);
    SeriesValues(DayKeys(locale, bookings), hours);
    SeriesValues(ProjectKeys(projects, bookings), hours);
    SeriesValues(EmployeeKeys(persons, bookings), hours);
    forall i | 0 <= i < |st.hoursDay.labels|
      ensures st.hoursDay.data[0][i] == HoursWhere(bookings, (b: Booking) => DayLabel(locale, b.workDay) == st.hoursDay.labels[i])
    {
      DayTotal(locale, bookings, st.hoursDay.labels[i]);
    }
    forall i | 0 <= i < |st.hoursProject.labels|
      ensures st.hoursProject.data[i] == HoursWhere(bookings, (b: Booking) => ProjectKey(projects, b.projectId) == st.hoursProject.labels[i])
    {
      ProjectTotal(projects, bookings, st.hoursProject.labels[i]);
    }
    forall i | 0 <= i < |st.hoursEmployee.labels|
      ensures st.hoursEmployee.data[i]
           == HoursWhere(bookings, (b: Booking) => b.personId in persons && FullName(persons[b.personId]) == st.hoursEmployee.labels[i])
    {
      EmployeeTotal(persons, bookings, st.hoursEmployee.labels[i]);
    }
  }

  lemma DayLabelsOccur(locale: Locale, bookings: seq<Booking>, l: string)
    ensures l in DayKeys(locale, bookings) <==> exists i :: 0 <= i < |bookings| && DayLabel(locale, bookings[i].workDay) == l
  {
    var dk := DayKeys(locale, bookings);
    if l in dk {
      var i :| 0 <= i < |dk| && dk[i] == l;
      DayKeysAt(locale, bookings, i);
    }
    if exists i :: 0 <= i < |bookings| && DayLabel(locale, bookings[i].workDay) == l {
      var i :| 0 <= i < |bookings| && DayLabel(locale, bookings[i].workDay) == l;
      DayKeysAt(locale, bookings, i);
      assert dk[i] == l;
    }
  }

  lemma ProjectLabelsOccur(projects: map<Id, Project>, bookings: seq<Booking>, l: string)
    ensures l in ProjectKeys(projects, bookings) <==> exists i :: 0 <= i < |bookings| && ProjectKey(projects, bookings[i].projectId) == l
  {
    var pk := ProjectKeys(projects, bookings);
    if l in pk {
      var i :| 0 <= i < |pk| && pk[i] == l;
      ProjectKeysAt(projects, bookings, i);
    }
    if exists i :: 0 <= i < |bookings| && ProjectKey(projects, bookings[i].projectId) == l {
      var i :| 0 <= i < |bookings| && ProjectKey(projects, bookings[i].projectId) == l;
      ProjectKeysAt(projects, bookings, i);
      assert pk[i] == l;
    }
  }

  lemma EmployeeLabelsOccur(persons: map<Id, Person>, bookings: seq<Booking>, l: string)
    requires AllPersonsKnown(persons, bookings)
    ensures l in EmployeeKeys(persons, bookings) <==>
      exists i :: 0 <= i < |bookings| && bookings[i].personId in persons && FullName(persons[bookings[i].personId]) == l
  {
    var ek := EmployeeKeys(persons, bookings);
    if l in ek {
      var i :| 0 <= i < |ek| && ek[i] == l;
      EmployeeKeysAt(persons, bookings, i);
    }
    if exists i :: 0 <= i < |bookings| && bookings[i].personId in persons && FullName(persons[bookings[i].personId]) == l {
      var i :| 0 <= i < |bookings| && bookings[i].personId in persons && FullName(persons[bookings[i].personId]) == l;
      EmployeeKeysAt(persons, bookings, i);
      assert ek[i] == l;
    }
  }

  /** No day label occurs twice, and a day label occurs exactly when some booking falls on that day. */
  lemma DayLabelsDistinct(
    bookings: seq<Booking>, persons: map<Id, Person>, projects: map<Id, Project>,
    locale: Locale, timestamp: int)
    requires StatisticOf(bookings, persons, projects, locale, timestamp).Ok?
    ensures var labels := StatisticOf(bookings, persons, projects, locale, timestamp).value.hoursDay.labels;
      && NoDuplicates(labels)
      && forall l :: l in labels <==> exists i :: 0 <= i < |bookings| && DayLabel(locale, bookings[i].workDay) == l
  {
    var labels := StatisticOf(bookings, persons, projects, locale, timestamp).value.hoursDay.labels;
    assert labels == SeriesOf(DayKeys(locale, bookings), Hours(bookings)).labels;
    forall l ensures l in labels <==> exists i :: 0 <= i < |bookings| && DayLabel(locale, bookings[i].workDay) == l {
      DayLabelsOccur(locale, bookings, l);
    }
  }

  /** No project label occurs twice, and a project label occurs exactly when some booking carries it. */
  lemma ProjectLabelsDistinct(
    bookings: seq<Booking>, persons: map<Id, Person>, projects: map<Id, Project>,
    locale: Locale, timestamp: int)
    requires StatisticOf(bookings, persons, projects, locale, timestamp).Ok?
    ensures var labels := StatisticOf(bookings, persons, projects, locale, timestamp).value.hoursProject.labels;
      && NoDuplicates(labels)
      && forall l :: l in labels <==> exists i :: 0 <= i < |bookings| && ProjectKey(projects, bookings[i].projectId) == l
  {
    var labels := StatisticOf(bookings, persons, projects, locale, timestamp).value.hoursProject.labels;
    assert labels == SeriesOf(ProjectKeys(projects, bookings), Hours(bookings)).labels;
    forall l ensures l in labels <==> exists i :: 0 <= i < |bookings| && ProjectKey(projects, bookings[i].projectId) == l {
      ProjectLabelsOccur(projects, bookings, l);
    }
  }

  /** No full name occurs twice, and a full name occurs exactly when some booking's person has it. */
  lemma EmployeeLabelsDistinct(
    bookings: seq<Booking>, persons: map<Id, Person>, projects: map<Id, Project>,
    locale: Locale, timestamp: int)
    requires StatisticOf(bookings, persons, projects, locale, timestamp).Ok?
    ensures var labels := StatisticOf(bookings, persons, projects, locale, timestamp).value.hoursEmployee.labels;
      && NoDuplicates(labels)
      && forall l :: l in labels <==>
           exists i :: 0 <= i < |bookings| && bookings[i].personId in persons && FullName(persons[bookings[i].personId]) == l
  {
    var labels := StatisticOf(bookings, persons, projects, locale, timestamp).value.hoursEmployee.labels;
    assert labels == SeriesOf(EmployeeKeys(persons, bookings), Hours(bookings)).labels;
    forall l ensures l in labels <==>
      exists i :: 0 <= i < |bookings| && bookings[i].personId in persons && FullName(persons[bookings[i].personId]) == l
    {
      EmployeeLabelsOccur(persons, bookings, l);
    }
  }

  /** Conservation: each series hands out the same grand total, the sum of all work times. */
  lemma SeriesShareGrandTotal(
    bookings: seq<Booking>, persons: map<Id, Person>, projects: map<Id, Project>,
    locale: Locale, timestamp: int)
    requires StatisticOf(bookings, persons, projects, locale, timestamp).Ok?
    ensures var st := StatisticOf(bookings, persons, projects, locale, timestamp).value;
      && Sum(st.hoursDay.data[0]) == Sum(Hours(bookings))
      && Sum(st.hoursProject.data) == Sum(Hours(bookings))
      && Sum(st.hoursEmployee.data) == Sum(Hours(bookings))
  {
    var hours := Hours(bookings);
    SeriesConserves(DayKeys(locale, bookings), hours);
    SeriesConserves(ProjectKeys(projects, bookings), hours);
    SeriesConserves(EmployeeKeys(persons, bookings), hours);
  }

  /** The sum of all work times, as a sum over the bookings. */
  lemma {:induction false} HoursSum(bookings: seq<Booking>)
    ensures Sum(Hours(bookings)) == HoursWhere(bookings, (b: Booking) => true)
  {
    if |bookings| > 0 {
      var n := |bookings| - 1;
      assert Hours(bookings)[..n] == Hours(bookings[..n]);
      HoursSum(bookings[..n]);
    }
  }

  /**
   Every label is a day label, "[object Object]", "undefined" or a full name,
   none of which is an array index, so `_.keys` lists the labels in the order
   their first booking was seen.
   */
  lemma LabelsInFirstSeenOrder(
    bookings: seq<Booking>, persons: map<Id, Person>, projects: map<Id, Project>,
    locale: Locale, timestamp: int)
    requires StatisticOf(bookings, persons, projects, locale, timestamp).Ok?
    ensures var st := StatisticOf(bookings, persons, projects, locale, timestamp).value;
      && st.hoursDay.labels == FirstOccurrences(DayKeys(locale, bookings))
      && st.hoursProject.labels == FirstOccurrences(ProjectKeys(projects, bookings))
      && st.hoursEmployee.labels == FirstOccurrences(EmployeeKeys(persons, bookings))
  {
    AllPersonsKnownIff(persons, bookings);
    var hours := Hours(bookings);
    var dk, pk, ek := DayKeys(locale, bookings), ProjectKeys(projects, bookings), EmployeeKeys(persons, bookings);
    forall i | 0 <= i < |bookings|
      ensures !IsArrayIndex(dk[i]) && !IsArrayIndex(pk[i]) && !IsArrayIndex(ek[i])
    {
      DayKeysAt(locale, bookings, i);
      DayLabelIsNotArrayIndex(locale, bookings[i].workDay);
      ProjectKeysAt(projects, bookings, i);
      ProjectKeyIsNotArrayIndex(projects, bookings[i].projectId);
      EmployeeKeysAt(persons, bookings, i);
      FullNameIsNotArrayIndex(persons[bookings[i].personId]);
    }
    SeriesInFirstSeenOrder(dk, hours);
    SeriesInFirstSeenOrder(pk, hours);
    SeriesInFirstSeenOrder(ek, hours);
  }

  /** The project keys of the bookings are "[object Object]" for known projects and "undefined" for missing ones. */
  lemma ProjectKeysCollapse(projects: map<Id, Project>, bookings: seq<Booking>)
    ensures forall l :: l in ProjectKeys(projects, bookings) ==> l == "[object Object]" || l == "undefined"
    ensures "[object Object]" in ProjectKeys(projects, bookings) <==> exists i :: 0 <= i < |bookings| && bookings[i].projectId in projects
    ensures "undefined" in ProjectKeys(projects, bookings) <==> exists i :: 0 <= i < |bookings| && bookings[i].projectId !in projects
  {
    assert |"[object Object]"| != |"undefined"|;
    forall l | l in ProjectKeys(projects, bookings) ensures l == "[object Object]" || l == "undefined" {
      ProjectLabelsOccur(projects, bookings, l);
    }
    ProjectLabelsOccur(projects, bookings, "[object Object]");
    ProjectLabelsOccur(projects, bookings, "undefined");
  }

  /**
   The project series has at most two labels: "[object Object]", present
   exactly when some booking's project is known, and "undefined", present
   exactly when some booking's project is missing.
   */
  lemma ProjectLabelsCollapse(
    bookings: seq<Booking>, persons: map<Id, Person>, projects: map<Id, Project>,
    locale: Locale, timestamp: int)
    requires StatisticOf(bookings, persons, projects, locale, timestamp).Ok?
    ensures var labels := StatisticOf(bookings, persons, projects, locale, timestamp).value.hoursProject.labels;
      && (forall l :: l in labels ==> l == "[object Object]" || l == "undefined")
      && ("[object Object]" in labels <==> exists i :: 0 <= i < |bookings| && bookings[i].projectId in projects)
      && ("undefined" in labels <==> exists i :: 0 <= i < |bookings| && bookings[i].projectId !in projects)
  {
    var labels := StatisticOf(bookings, persons, projects, locale, timestamp).value.hoursProject.labels;
    assert labels == SeriesOf(ProjectKeys(projects, bookings), Hours(bookings)).labels;
    ProjectKeysCollapse(projects, bookings);
  }

  /** An empty booking list gives three empty series, the day series as one empty row. */
  lemma EmptyBookingList(persons: map<Id, Person>, projects: map<Id, Project>, locale: Locale, timestamp: int)
    ensures StatisticOf([], persons, projects, locale, timestamp)
         == Ok(Statistics(timestamp, 0, DaySeries([], [[]]), Series([], []), Series([], [])))
  {
  }

  /**
   The computation fails exactly when some booking's person is missing, and
   then it reports the first such booking's `personId`.
   */
  lemma UnknownPersonFails(
    bookings: seq<Booking>, persons: map<Id, Person>, projects: map<Id, Project>,
    locale: Locale, timestamp: int)
    ensures StatisticOf(bookings, persons, projects, locale, timestamp).Err?
        <==> exists i :: 0 <= i < |bookings| && bookings[i].personId !in persons
    ensures StatisticOf(bookings, persons, projects, locale, timestamp).Err? ==>
      exists i :: 0 <= i < |bookings| && bookings[i].personId !in persons
        && (forall j :: 0 <= j < i ==> bookings[j].personId in persons)
        && StatisticOf(bookings, persons, projects, locale, timestamp).error == UnknownPerson(bookings[i].personId)
  {
    AllPersonsKnownIff(persons, bookings);
    var r := FirstUnknownPerson(persons, bookings);
    if r.Some? {
      var k := r.value;
      AllPersonsKnownIff(persons, bookings[..k]);
      forall j | 0 <= j < k ensures bookings[j].personId in persons {
        assert bookings[..k][j] == bookings[j];
      }
    }
  }

  /** Every count in the result is the number of bookings it was computed from. */
  lemma TotalEntriesCountsBookings(
    bookings: seq<Booking>, persons: map<Id, Person>, projects: map<Id, Project>,
    locale: Locale, timestamp: int)
    requires StatisticOf(bookings, persons, projects, locale, timestamp).Ok?
    ensures StatisticOf(bookings, persons, projects, locale, timestamp).value.totalEntries == |bookings|
    ensures StatisticOf(bookings, persons, projects, locale, timestamp).value.timestamp == timestamp
  {
  }

  /** A booking from 9:00 to 17:00 with a 60-minute pause on 1 January 2020, by Jane Doe on a known project. */
  const ExampleBooking := Booking("b1", "u1", "p1", "pr1", CalendarDate(2020, 1, 1), 9 * MillisPerHour, 17 * MillisPerHour, 60)
  const ExamplePersons := map["p1" := Person("p1", "Jane", "Doe")]
  const ExampleProjects := map["pr1" := Project("pr1", "Website")]

  lemma ExampleHours()
    ensures Hours([ExampleBooking]) == [7]
  {
    assert [ExampleBooking][..0] == [];
    assert WorkTime(ExampleBooking) == 7;
  }

  lemma ExampleDayKeys()
    ensures DayLabel(English, ExampleBooking.workDay) == "1/1/2020"
    ensures DayKeys(English, [ExampleBooking]) == ["1/1/2020"]
  {
    assert [ExampleBooking][..0] == [];
    assert NumberToString(1) == "1";
    assert NumberToString(2020) == "2020";
    assert ZeroFill("2020", 4) == "2020";
    var day := DayLabel(English, ExampleBooking.workDay);
    assert day == "1" + "/" + "1" + "/" + "2020";
    assert day == "1/1/2020" by {
      assert |day| == 8;
      forall i | 0 <= i < 8 ensures day[i] == "1/1/2020"[i] {
      }
    }
  }

  lemma ExampleProjectKeys()
    ensures ProjectKeys(ExampleProjects, [ExampleBooking]) == ["[object Object]"]
  {
    assert [ExampleBooking][..0] == [];
  }

  lemma ExampleEmployeeKeys()
    ensures FullName(ExamplePersons["p1"]) == "Jane Doe"
    ensures AllPersonsKnown(ExamplePersons, [ExampleBooking])
    ensures EmployeeKeys(ExamplePersons, [ExampleBooking]) == ["Jane Doe"]
  {
    assert [ExampleBooking][..0] == [];
    var jane := ExamplePersons["p1"];
    assert FullName(jane) == "Jane Doe" by {
      assert |FullName(jane)| == 8;
      forall i | 0 <= i < 8 ensures FullName(jane)[i] == "Jane Doe"[i] {
      }
    }
  }

  /** The example booking gives seven hours under "1/1/2020", under "[object Object]" and under "Jane Doe". */
  lemma OneBookingExample()
    ensures StatisticOf([ExampleBooking], ExamplePersons, ExampleProjects, English, 0)
         == Ok(Statistics(0, 1,
              DaySeries(["1/1/2020"], [[7]]),
              Series(["[object Object]"], [7]),
              Series(["Jane Doe"], [7])))
  {
    ExampleHours();
    ExampleDayKeys();
    ExampleProjectKeys();
    ExampleEmployeeKeys();
    DayLabelIsNotArrayIndex(English, ExampleBooking.workDay);
    ProjectKeyIsNotArrayIndex(ExampleProjects, ExampleBooking.projectId);
    FullNameIsNotArrayIndex(ExamplePersons["p1"]);
    LabelSeries(["1/1/2020"], "1/1/2020", 7);
    LabelSeries(["[object Object]"], "[object Object]", 7);
    LabelSeries(["Jane Doe"], "Jane Doe", 7);
  }

  /** The series of a single booking: its label with its amount. */
  lemma LabelSeries(keys: seq<string>, k: string, a: int)
    requires keys == [k] && !IsArrayIndex(k)
    ensures SeriesOf(keys, [a]) == Series([k], [a])
  {
    assert keys[..0] == [];
    assert FirstOccurrences(keys) == [k];
    assert [a][..0] == [];
    assert SumWhere(keys, [a], k) == a;
    assert TotalsAt([k], keys, [a]) == [a];
  }
}
