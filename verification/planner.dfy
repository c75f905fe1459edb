/** The trip planner: a trip with a start and an end date, one day plan per
    calendar day of the trip, activities on each day, the time-ordered view
    of the selected day, and the countdown to the trip. */
module Planner {
  import opened Seqs
  import opened Calendar

  datatype ActivityCategory = Sightseeing | Food | Transportation | Accommodation | Other

  datatype Activity = Activity(id: string, time: string, description: string, notes: string,
                               category: ActivityCategory)

  /** The add-activity form: an activity without its id. */
  datatype Draft = Draft(time: string, description: string, notes: string, category: ActivityCategory)

  /** A day of the trip. `date` is `None` for a date that does not parse
      (JavaScript's invalid date). */
  datatype DayPlan = DayPlan(id: string, date: Option<Date>, activities: seq<Activity>)

  datatype TripDetails = TripDetails(destination: string, startDate: Date, endDate: Date)

  /** Trip dates the model can format: calendar days with four-digit years. */
  predicate ValidTrip(t: TripDetails) {
    Valid(t.startDate) && Valid(t.endDate) && t.startDate.year <= 9999 && t.endDate.year <= 9999
  }

  const InitialTrip: TripDetails := TripDetails("Paris, France", Date(2025, 6, 15), Date(2025, 6, 20))

  const FirstDaySamples: seq<Activity> := [
    Activity("1", "09:00", "Eiffel Tower Visit", "Buy tickets in advance to skip the line", Sightseeing),
    Activity("2", "13:00", "Lunch at Le Bistro", "Reservation confirmed", Food),
    Activity("3", "15:00", "Louvre Museum", "Focus on Mona Lisa and Venus de Milo", Sightseeing)]

  const SecondDaySamples: seq<Activity> := [
    Activity("4", "10:00", "Notre Dame Cathedral", "Check if tours are available", Sightseeing),
    Activity("5", "14:00", "Seine River Cruise", "1-hour cruise, bring camera", Sightseeing)]

  // ---------------------------------------------------------------------
  // Day plans
  // ---------------------------------------------------------------------

  /** `p` is the plan of the day `i` days after `start`, identified by that
      day's ISO date. */
  predicate PlanOfDay(p: DayPlan, start: Date, i: int)
    requires Valid(start)
  {
    && p.date.Some? && Valid(p.date.value) && p.date.value.year <= 9999
    && DayNumber(p.date.value) == DayNumber(start) + i
    && p.id == FormatIso(p.date.value)
  }

  /** The number of day plans the generator makes for a trip: every day from
      `start` to `end`, both included, and none when the end is before the
      start. */
  function DayCount(start: Date, end: Date): (n: nat)
    requires Valid(start) && Valid(end)
  {
    if DayNumber(start) <= DayNumber(end) then DayNumber(end) - DayNumber(start) + 1 else 0
  }

  /** The trip length the planner shows: end minus start, plus one, with no
      clamping, so an end date before the start gives zero or a negative
      length. On a well-ordered trip it is the number of day plans. */
  function Duration(start: Date, end: Date): (n: int)
    requires Valid(start) && Valid(end)
    ensures DayNumber(start) <= DayNumber(end) ==> n >= 1 && n == DayCount(start, end)
    ensures DayNumber(end) < DayNumber(start) ==> n <= 0 && DayCount(start, end) == 0
  {
    DayNumber(end) - DayNumber(start) + 1
  }

  /** `plans` holds one plan per day from `start` to `end`, in order. */
  predicate PlansMatch(plans: seq<DayPlan>, start: Date, end: Date)
    requires Valid(start) && Valid(end)
  {
    |plans| == DayCount(start, end) && forall i :: 0 <= i < |plans| ==> PlanOfDay(plans[i], start, i)
  }

  /** The loop of the generator: one empty plan per day while the current
      day is not after the end, stepping one calendar day at a time. */
  function DaysFrom(cur: Date, end: Date): (r: seq<DayPlan>)
    requires Valid(cur) && Valid(end) && end.year <= 9999
    ensures PlansMatch(r, cur, end)
    ensures forall i :: 0 <= i < |r| ==> r[i].activities == []
    decreases DayNumber(end) - DayNumber(cur) + 1
  {
    if DayNumber(cur) > DayNumber(end) then []
    else
      YearOfEarlier(cur, end);
      NextDayNumber(cur);
      var next := NextDay(cur);
      var rest := DaysFrom(next, end);
      PlanBeforeDays(cur, next, end, rest);
      [DayPlan(FormatIso(cur), Some(cur), [])] + rest
  }

  /** One step of the generator: the plan of `cur` in front of the plans
      from the day after it. */
  lemma PlanBeforeDays(cur: Date, next: Date, end: Date, rest: seq<DayPlan>)
    requires Valid(cur) && Valid(next) && Valid(end) && cur.year <= 9999
    requires DayNumber(next) == DayNumber(cur) + 1 && DayNumber(cur) <= DayNumber(end)
    requires PlansMatch(rest, next, end)
    requires forall i :: 0 <= i < |rest| ==> rest[i].activities == []
    ensures PlansMatch([DayPlan(FormatIso(cur), Some(cur), [])] + rest, cur, end)
    ensures forall i :: 0 <= i < |rest| + 1 ==> ([DayPlan(FormatIso(cur), Some(cur), [])] + rest)[i].activities == []
  {
    var r := [DayPlan(FormatIso(cur), Some(cur), [])] + rest;
    assert |r| == DayCount(cur, end);
    forall i | 0 <= i < |r| ensures PlanOfDay(r[i], cur, i) && r[i].activities == [] {
      if i > 0 {
        assert r[i] == rest[i - 1];
        assert PlanOfDay(rest[i - 1], next, i - 1);
      }
    }
    assert PlansMatch(r, cur, end);
  }

  /** The day plans of a trip, before any sample activity is added. */
  function GenerateDayPlans(start: Date, end: Date): (r: seq<DayPlan>)
    requires Valid(start) && Valid(end) && end.year <= 9999
    ensures PlansMatch(r, start, end)
    ensures forall i :: 0 <= i < |r| ==> r[i].activities == []
  {
    DaysFrom(start, end)
  }

  /** Plans of distinct days carry distinct ids. */
  lemma DayIdsDistinct(plans: seq<DayPlan>, start: Date, end: Date)
    requires Valid(start) && Valid(end)
    requires PlansMatch(plans, start, end)
    ensures forall i, j :: 0 <= i < j < |plans| ==> plans[i].id != plans[j].id
  {
    forall i, j | 0 <= i < j < |plans| ensures plans[i].id != plans[j].id {
      assert PlanOfDay(plans[i], start, i) && PlanOfDay(plans[j], start, j);
      FormatInjective(plans[i].date.value, plans[j].date.value);
    }
  }

  /** The first plan is the start date's, so the start's ISO form selects it. */
  lemma FirstPlanIsStart(plans: seq<DayPlan>, trip: TripDetails)
    requires ValidTrip(trip)
    requires PlansMatch(plans, trip.startDate, trip.endDate) && plans != []
    ensures plans[0].id == FormatIso(trip.startDate)
  {
    var d := plans[0].date.value;
    assert PlanOfDay(plans[0], trip.startDate, 0);
    if d != trip.startDate {
      DayNumberInjective(d, trip.startDate);
    }
  }

  /** Distinct calendar days have distinct day numbers. */
  lemma DayNumberInjective(a: Date, b: Date)
    requires Valid(a) && Valid(b) && a != b
    ensures DayNumber(a) != DayNumber(b)
  {
    if DayNumber(a) == DayNumber(b) {
      YearOfEarlier(a, b);
      YearOfEarlier(b, a);
      assert a.year == b.year;
      if a.month < b.month {
        MonthsBefore(a.year, a.month, b.month);
      } else if b.month < a.month {
        MonthsBefore(a.year, b.month, a.month);
      }
    }
  }

  /** Every day of an earlier month comes before the first of a later one. */
  lemma {:induction false} MonthsBefore(y: nat, m1: int, m2: int)
    requires 1 <= m1 < m2 <= 12
    ensures DaysBeforeMonth(y, m1) + DaysInMonth(y, m1) <= DaysBeforeMonth(y, m2)
    decreases m2 - m1
  {
    if m1 + 1 < m2 {
      MonthsBefore(y, m1, m2 - 1);
    }
  }

  // ---------------------------------------------------------------------
  // Sample activities
  // ---------------------------------------------------------------------

  /** The generator either returns its plans or stops with a `TypeError`. */
  datatype Seeded = Seeded(plans: seq<DayPlan>) | TypeError

  /** Sample seeding as written: the first two plans get the sample
      activities unconditionally, so with fewer than two plans the
      assignment reaches a missing plan and throws. */
  function SeedAsWritten(plans: seq<DayPlan>): (r: Seeded)
    ensures r.Seeded? <==> |plans| >= 2
    ensures r.Seeded? ==> r.plans == SeedSamples(plans)
  {
    if |plans| < 1 then TypeError
    else
      var first := plans[0 := plans[0].(activities := FirstDaySamples)];
      if |first| < 2 then TypeError
      else Seeded(first[1 := first[1].(activities := SecondDaySamples)])
  }

  /** `generateSampleDayPlans` as written. */
  function GenerateSampleAsWritten(start: Date, end: Date): (r: Seeded)
    requires Valid(start) && Valid(end) && end.year <= 9999
    ensures r.Seeded? <==> DayCount(start, end) >= 2
    ensures r.Seeded? ==> |r.plans| == DayCount(start, end)
  {
    SeedAsWritten(GenerateDayPlans(start, end))
  }

  /** A one-day trip (the end-date picker allows the end to equal the start)
      makes the generator throw. */
  lemma OneDayTripThrows(d: Date)
    requires Valid(d) && d.year <= 9999
    ensures GenerateSampleAsWritten(d, d) == TypeError
  {
  }

  /** Sample seeding of the plans that exist: the first plan gets the first
      day's samples and the second plan the second day's, when present. */
  function SeedSamples(plans: seq<DayPlan>): (r: seq<DayPlan>)
    ensures |r| == |plans|
    ensures forall i :: 0 <= i < |r| ==> r[i].id == plans[i].id && r[i].date == plans[i].date
    ensures |r| >= 1 ==> r[0].activities == FirstDaySamples
    ensures |r| >= 2 ==> r[1].activities == SecondDaySamples
    ensures forall i :: 2 <= i < |r| ==> r[i] == plans[i]
  {
    if |plans| == 0 then plans
    else
      var first := plans[0 := plans[0].(activities := FirstDaySamples)];
      if |first| == 1 then first
      else first[1 := first[1].(activities := SecondDaySamples)]
  }

  /** The generator with seeding of only the days that exist: it never
      throws, and its plans cover the trip day by day. */
  function GenerateSampleDayPlans(start: Date, end: Date): (r: seq<DayPlan>)
    requires Valid(start) && Valid(end) && end.year <= 9999
    ensures PlansMatch(r, start, end)
    ensures DayCount(start, end) >= 2 ==> GenerateSampleAsWritten(start, end) == Seeded(r)
  {
    var plans := GenerateDayPlans(start, end);
    var r := SeedSamples(plans);
    assert forall i :: 0 <= i < |r| ==> PlanOfDay(r[i], start, i) by {
      forall i | 0 <= i < |r| ensures PlanOfDay(r[i], start, i) {
        assert PlanOfDay(plans[i], start, i);
      }
    }
    r
  }

  // ---------------------------------------------------------------------
  // Activities of the selected day
  // ---------------------------------------------------------------------

  /** Adding an activity: nothing happens for an empty description;
      otherwise the activity, with the fresh id, is appended to the selected
      day and every other day is left as it was. */
  function AddActivity(plans: seq<DayPlan>, selected: string, draft: Draft, freshId: string): (r: seq<DayPlan>)
    ensures draft.description == "" ==> r == plans
    ensures |r| == |plans|
    ensures forall i :: 0 <= i < |r| ==> r[i].id == plans[i].id && r[i].date == plans[i].date
    ensures forall i :: 0 <= i < |r| && plans[i].id != selected ==> r[i] == plans[i]
    ensures draft.description != "" ==> forall i :: 0 <= i < |r| && plans[i].id == selected ==>
      r[i].activities == plans[i].activities
        + [Activity(freshId, draft.time, draft.description, draft.notes, draft.category)]
  {
    if draft.description == "" then plans
    else
      var a := Activity(freshId, draft.time, draft.description, draft.notes, draft.category);
      seq(|plans|, i requires 0 <= i < |plans| =>
        if plans[i].id == selected then plans[i].(activities := plans[i].activities + [a]) else plans[i])
  }

  /** Saving an edited activity: nothing happens when none is being edited or
      its description is empty; otherwise, on the selected day only, every
      activity with the edited id is replaced by the edited activity. */
  function UpdateActivity(plans: seq<DayPlan>, selected: string, editing: Option<Activity>): (r: seq<DayPlan>)
    ensures editing.None? || editing.value.description == "" ==> r == plans
    ensures |r| == |plans|
    ensures forall i :: 0 <= i < |r| ==>
      r[i].id == plans[i].id && r[i].date == plans[i].date && |r[i].activities| == |plans[i].activities|
    ensures forall i :: 0 <= i < |r| && plans[i].id != selected ==> r[i] == plans[i]
    ensures editing.Some? && editing.value.description != "" ==>
      forall i, j :: 0 <= i < |r| && plans[i].id == selected && 0 <= j < |r[i].activities| ==>
        r[i].activities[j] ==
          if plans[i].activities[j].id == editing.value.id then editing.value else plans[i].activities[j]
  {
    if editing.None? || editing.value.description == "" then plans
    else
      var e := editing.value;
      seq(|plans|, i requires 0 <= i < |plans| =>
        if plans[i].id == selected then
          plans[i].(activities := seq(|plans[i].activities|, j requires 0 <= j < |plans[i].activities| =>
            if plans[i].activities[j].id == e.id then e else plans[i].activities[j]))
        else plans[i])
  }

  /** Saving the same edit twice changes nothing more. */
  lemma UpdateTwice(plans: seq<DayPlan>, selected: string, editing: Option<Activity>)
    ensures UpdateActivity(UpdateActivity(plans, selected, editing), selected, editing)
         == UpdateActivity(plans, selected, editing)
  {
    var once := UpdateActivity(plans, selected, editing);
    var twice := UpdateActivity(once, selected, editing);
    forall i | 0 <= i < |plans| ensures twice[i] == once[i] {
      if plans[i].id == selected && editing.Some? && editing.value.description != "" {
        assert twice[i].activities == once[i].activities;
      }
    }
  }

  function OtherActivity(id: string): Activity -> bool {
    (a: Activity) => a.id != id
  }

  /** Deleting an activity removes every activity with that id from the
      selected day; every other day is left as it was. */
  function DeleteActivity(plans: seq<DayPlan>, selected: string, activityId: string): (r: seq<DayPlan>)
    ensures |r| == |plans|
    ensures forall i :: 0 <= i < |r| ==> r[i].id == plans[i].id && r[i].date == plans[i].date
    ensures forall i :: 0 <= i < |r| && plans[i].id != selected ==> r[i] == plans[i]
    ensures forall i :: 0 <= i < |r| && plans[i].id == selected ==>
      && Subsequence(r[i].activities, plans[i].activities)
      && (forall j :: 0 <= j < |r[i].activities| ==> r[i].activities[j].id != activityId)
      && (forall j :: 0 <= j < |plans[i].activities| && plans[i].activities[j].id != activityId ==>
            plans[i].activities[j] in r[i].activities)
      && (forall a :: multiset(r[i].activities)[a] ==
            if a.id != activityId then multiset(plans[i].activities)[a] else 0)
  {
    seq(|plans|, i requires 0 <= i < |plans| =>
      if plans[i].id == selected then plans[i].(activities := Filter(OtherActivity(activityId), plans[i].activities))
      else plans[i])
  }

  /** Deleting an activity just added under a fresh id undoes the addition. */
  lemma DeleteUndoesAdd(plans: seq<DayPlan>, selected: string, draft: Draft, freshId: string)
    requires forall i, j :: 0 <= i < |plans| && plans[i].id == selected && 0 <= j < |plans[i].activities| ==>
      plans[i].activities[j].id != freshId
    ensures DeleteActivity(AddActivity(plans, selected, draft, freshId), selected, freshId) == plans
  {
    var added := AddActivity(plans, selected, draft, freshId);
    var r := DeleteActivity(added, selected, freshId);
    forall i | 0 <= i < |plans| ensures r[i] == plans[i] {
      if plans[i].id == selected {
        var acts := plans[i].activities;
        FilterKeepsAll(OtherActivity(freshId), acts);
        if draft.description != "" {
          var a := Activity(freshId, draft.time, draft.description, draft.notes, draft.category);
          FilterAppend(OtherActivity(freshId), acts, [a]);
          assert Filter(OtherActivity(freshId), [a]) == [];
        }
      }
    }
  }

  /** Editing activities never disturbs the day plans' dates and ids, so
      plans that covered the trip still cover it. */
  lemma ActivityEditsKeepCoverage(plans: seq<DayPlan>, start: Date, end: Date, selected: string,
                                  draft: Draft, freshId: string, editing: Option<Activity>, activityId: string)
    requires Valid(start) && Valid(end) && PlansMatch(plans, start, end)
    ensures PlansMatch(AddActivity(plans, selected, draft, freshId), start, end)
    ensures PlansMatch(UpdateActivity(plans, selected, editing), start, end)
    ensures PlansMatch(DeleteActivity(plans, selected, activityId), start, end)
  {
    var a := AddActivity(plans, selected, draft, freshId);
    var u := UpdateActivity(plans, selected, editing);
    var d := DeleteActivity(plans, selected, activityId);
    forall i | 0 <= i < |plans|
      ensures PlanOfDay(a[i], start, i) && PlanOfDay(u[i], start, i) && PlanOfDay(d[i], start, i)
    {
      assert PlanOfDay(plans[i], start, i);
    }
  }

  /** Plan `i` is the first one with id `id`. */
  predicate FirstWithId(plans: seq<DayPlan>, id: string, i: int) {
    0 <= i < |plans| && plans[i].id == id && forall j :: 0 <= j < i ==> plans[j].id != id
  }

  /** The plan shown for the selected id: the first plan with that id, or,
      when there is none, an empty plan for the id's date. */
  function SelectedDayPlan(plans: seq<DayPlan>, selected: string): (r: DayPlan)
    ensures forall i :: FirstWithId(plans, selected, i) ==> r == plans[i]
    ensures (forall i :: 0 <= i < |plans| ==> plans[i].id != selected) ==>
      r == DayPlan(selected, ParseIso(selected), [])
  {
    if plans == [] then DayPlan(selected, ParseIso(selected), [])
    else if plans[0].id == selected then plans[0]
    else
      var r := SelectedDayPlan(plans[1..], selected);
      assert forall i :: FirstWithId(plans, selected, i) ==> FirstWithId(plans[1..], selected, i - 1);
      r
  }

  // ---------------------------------------------------------------------
  // The time-ordered view
  // ---------------------------------------------------------------------

  /** Code-point order on strings; for the `HH:MM` values of a time input it
      coincides with `localeCompare`. */
  predicate StrLess(a: string, b: string) {
    if a == [] then b != []
    else if b == [] then false
    else if a[0] != b[0] then a[0] < b[0]
    else StrLess(a[1..], b[1..])
  }

  lemma {:induction false} StrLessIrreflexive(a: string)
    ensures !StrLess(a, a)
  {
    if a != [] {
      StrLessIrreflexive(a[1..]);
    }
  }

  lemma {:induction false} StrLessTransitive(a: string, b: string, c: string)
    requires StrLess(a, b) && StrLess(b, c)
    ensures StrLess(a, c)
  {
    if a != [] && b != [] && c != [] && a[0] == b[0] && b[0] == c[0] {
      StrLessTransitive(a[1..], b[1..], c[1..]);
    }
  }

  lemma {:induction false} StrLessTotal(a: string, b: string)
    requires a != b
    ensures StrLess(a, b) || StrLess(b, a)
  {
    if a != [] && b != [] && a[0] == b[0] {
      assert a == [a[0]] + a[1..] && b == [b[0]] + b[1..];
      StrLessTotal(a[1..], b[1..]);
    }
  }

  predicate Timed(a: Activity) {
    a.time != ""
  }

  predicate Untimed(a: Activity) {
    a.time == ""
  }

  /** `a` is shown strictly before `b`: a timed activity goes before every
      untimed one, and timed ones go by their time. */
  predicate GoesBefore(a: Activity, b: Activity) {
    Timed(a) && (!Timed(b) || StrLess(a.time, b.time))
  }

  /** Going before is a strict order: transitive and irreflexive. */
  lemma GoesBeforeOrder(a: Activity, b: Activity, c: Activity)
    ensures GoesBefore(a, b) && GoesBefore(b, c) ==> GoesBefore(a, c)
    ensures !GoesBefore(a, a)
  {
    StrLessIrreflexive(a.time);
    if GoesBefore(a, b) && GoesBefore(b, c) && Timed(c) {
      StrLessTransitive(a.time, b.time, c.time);
    }
  }

  /** No activity is shown after one it goes before. */
  predicate InShowOrder(s: seq<Activity>) {
    forall i, j :: 0 <= i < j < |s| ==> !GoesBefore(s[j], s[i])
  }

  /** Places `x` in front of the first activity it goes before, so it comes
      after every activity it ties with. */
  function Insert(s: seq<Activity>, x: Activity): (r: seq<Activity>)
    ensures multiset(r) == multiset(s) + multiset{x}
    ensures |r| == |s| + 1
  {
    if s == [] then [x]
    else if GoesBefore(x, s[0]) then [x] + s
    else
      var rest := Insert(s[1..], x);
      assert s == [s[0]] + s[1..];
      [s[0]] + rest
  }

  lemma {:induction false} InsertInOrder(s: seq<Activity>, x: Activity)
    requires InShowOrder(s)
    ensures InShowOrder(Insert(s, x))
  {
    if s == [] {
    } else if GoesBefore(x, s[0]) {
      InsertFrontInOrder(s, x);
    } else {
      assert InShowOrder(s[1..]) by {
        forall i, j | 0 <= i < j < |s[1..]| ensures !GoesBefore(s[1..][j], s[1..][i]) {
          assert s[1..][i] == s[i + 1] && s[1..][j] == s[j + 1];
        }
      }
      InsertInOrder(s[1..], x);
      InsertLaterInOrder(s, x, Insert(s[1..], x));
    }
  }

  /** `x` going before the first activity of a sorted list goes before all
      of them. */
  lemma InsertFrontInOrder(s: seq<Activity>, x: Activity)
    requires InShowOrder(s) && s != [] && GoesBefore(x, s[0])
    ensures InShowOrder([x] + s)
  {
    var r := [x] + s;
    forall i, j | 0 <= i < j < |r| ensures !GoesBefore(r[j], r[i]) {
      if i == 0 {
        GoesBeforeOrder(r[j], x, s[0]);
        assert r[j] == s[j - 1];
        if j - 1 > 0 {
          assert !GoesBefore(s[j - 1], s[0]);
        }
      } else {
        assert r[i] == s[i - 1] && r[j] == s[j - 1];
      }
    }
  }

  /** The first activity stays first when `x` is inserted into the rest. */
  lemma InsertLaterInOrder(s: seq<Activity>, x: Activity, rest: seq<Activity>)
    requires InShowOrder(s) && s != [] && !GoesBefore(x, s[0])
    requires InShowOrder(rest) && multiset(rest) == multiset(s[1..]) + multiset{x}
    ensures InShowOrder([s[0]] + rest)
  {
    var r := [s[0]] + rest;
    forall i, j | 0 <= i < j < |r| ensures !GoesBefore(r[j], r[i]) {
      if i == 0 {
        var y := r[j];
        assert y == rest[j - 1];
        assert y in multiset(rest);
        assert y in multiset(s[1..]) || y == x;
        if y != x {
          var k :| 0 <= k < |s[1..]| && s[1..][k] == y;
          assert s[k + 1] == y;
        }
      } else {
        assert r[i] == rest[i - 1] && r[j] == rest[j - 1];
      }
    }
  }

  /** The selected day's activities in show order: a stable sort, so
      activities that tie (two untimed ones, or two with the same time) keep
      the order they were added in. */
  function SortByTime(s: seq<Activity>): (r: seq<Activity>)
    ensures multiset(r) == multiset(s)
    ensures InShowOrder(r)
  {
    if s == [] then []
    else
      var init := SortByTime(s[..|s| - 1]);
      InsertInOrder(init, s[|s| - 1]);
      assert s == s[..|s| - 1] + [s[|s| - 1]];
      Insert(init, s[|s| - 1])
  }

  /** In show order every timed activity precedes every untimed one, and
      timed activities appear by non-decreasing time. */
  lemma ShowOrderMeaning(s: seq<Activity>)
    requires InShowOrder(s)
    ensures forall i, j :: 0 <= i < j < |s| && Timed(s[j]) ==> Timed(s[i])
    ensures forall i, j :: 0 <= i < j < |s| && Timed(s[i]) && Timed(s[j]) ==> !StrLess(s[j].time, s[i].time)
  {
  }

  /** An untimed activity goes after everything. */
  lemma {:induction false} InsertUntimed(s: seq<Activity>, x: Activity)
    requires Untimed(x)
    ensures Insert(s, x) == s + [x]
  {
    if s != [] {
      assert !GoesBefore(x, s[0]);
      assert Insert(s, x) == [s[0]] + Insert(s[1..], x);
      InsertUntimed(s[1..], x);
      HeadAppend(s, [x]);
    }
  }

  lemma HeadAppend(s: seq<Activity>, t: seq<Activity>)
    requires s != []
    ensures s + t == [s[0]] + (s[1..] + t)
  {
  }

  /** A timed activity leaves the untimed ones where they were. */
  lemma {:induction false} InsertTimedKeepsUntimed(s: seq<Activity>, x: Activity)
    requires Timed(x)
    ensures Filter(Untimed, Insert(s, x)) == Filter(Untimed, s)
  {
    if s == [] {
      assert Filter(Untimed, [x]) == Filter(Untimed, []);
    } else if GoesBefore(x, s[0]) {
      FilterAppend(Untimed, [x], s);
      assert Filter(Untimed, [x]) == [];
    } else {
      InsertTimedKeepsUntimed(s[1..], x);
      FilterAppend(Untimed, [s[0]], Insert(s[1..], x));
      FilterAppend(Untimed, [s[0]], s[1..]);
      assert s == [s[0]] + s[1..];
    }
  }

  /** Inserting the last activity of `s` into the sorted rest extends the
      untimed order the way `s` does. */
  lemma InsertExtendsUntimed(sorted: seq<Activity>, s: seq<Activity>)
    requires s != []
    requires Filter(Untimed, sorted) == Filter(Untimed, s[..|s| - 1])
    ensures Filter(Untimed, Insert(sorted, s[|s| - 1])) == Filter(Untimed, s)
  {
    var init, x := s[..|s| - 1], s[|s| - 1];
    assert s == init + [x];
    FilterAppend(Untimed, init, [x]);
    if Untimed(x) {
      InsertUntimed(sorted, x);
      FilterAppend(Untimed, sorted, [x]);
    } else {
      InsertTimedKeepsUntimed(sorted, x);
      assert Filter(Untimed, [x]) == [];
    }
  }

  /** Sorting keeps the untimed activities in the order they were added. */
  lemma {:induction false} UntimedKeepOrder(s: seq<Activity>)
    ensures Filter(Untimed, SortByTime(s)) == Filter(Untimed, s)
  {
    if s != [] {
      UntimedKeepOrder(s[..|s| - 1]);
      InsertExtendsUntimed(SortByTime(s[..|s| - 1]), s);
    }
  }

  // ---------------------------------------------------------------------
  // Countdown
  // ---------------------------------------------------------------------

  datatype Countdown =
    | DaysUntil(days: int)
    | StartsToday
    | OnTrip(day: int, of: int)
    | Completed(daysAgo: int)

  function Abs(x: int): nat {
    if x < 0 then -x else x
  }

  /** The countdown card for `d` days until the start and a trip of `n`
      days. */
  function Classify(d: int, n: int): (c: Countdown)
    ensures c.DaysUntil? <==> d > 0
    ensures c.StartsToday? <==> d == 0
    ensures c.OnTrip? <==> -n < d < 0
    ensures c.DaysUntil? ==> c.days == d
    ensures c.OnTrip? ==> c.of == n && c.day == 1 - d && 2 <= c.day <= n
    ensures c.Completed? ==> d < 0 && d <= -n && c.daysAgo == Abs(d + n - 1)
  {
    if d > 0 then DaysUntil(d)
    else if d == 0 then StartsToday
    else if d > -n then OnTrip(Abs(d) + 1, n)
    else Completed(Abs(d + n - 1))
  }

  /** The countdown on a given day, in calendar terms: before the trip, the
      days left; on the start day, that it starts; during the trip, which
      day of it today is, out of the shown length; after the start and past
      the end, how many days have passed since the last day. */
  function CountdownOn(today: Date, trip: TripDetails): (c: Countdown)
    requires Valid(today) && Valid(trip.startDate) && Valid(trip.endDate)
    ensures var t, s, e := DayNumber(today), DayNumber(trip.startDate), DayNumber(trip.endDate);
      && (c.DaysUntil? <==> t < s)
      && (c.StartsToday? <==> t == s)
      && (c.OnTrip? <==> s < t <= e)
      && (c.Completed? <==> s < t && e < t)
      && (t < s ==> c == DaysUntil(s - t))
      && (s < t <= e ==> c == OnTrip(t - s + 1, Duration(trip.startDate, trip.endDate)))
      && (s < t && e < t ==> c == Completed(t - e))
  {
    Classify(DayNumber(trip.startDate) - DayNumber(today), Duration(trip.startDate, trip.endDate))
  }

  /** During the trip, the day the countdown names is today's plan. */
  lemma OnTripNamesTodaysPlan(today: Date, trip: TripDetails, plans: seq<DayPlan>)
    requires Valid(today) && Valid(trip.startDate) && Valid(trip.endDate)
    requires PlansMatch(plans, trip.startDate, trip.endDate)
    requires CountdownOn(today, trip).OnTrip?
    ensures 1 <= CountdownOn(today, trip).day <= |plans|
    ensures DayNumber(plans[CountdownOn(today, trip).day - 1].date.value) == DayNumber(today)
  {
    var k := CountdownOn(today, trip).day;
    assert PlanOfDay(plans[k - 1], trip.startDate, k - 1);
  }

  // ---------------------------------------------------------------------
  // Saving trip details
  // ---------------------------------------------------------------------

  datatype PlannerState = PlannerState(trip: TripDetails, plans: seq<DayPlan>, selected: string)

  datatype Saved = Saved(state: PlannerState) | SaveTypeError

  /** Saving the trip details as written: the plans are regenerated (and the
      first day selected) when the dates differ from the INITIAL trip's
      dates, not from the dates the plans were made for. */
  function SaveAsWritten(st: PlannerState): (r: Saved)
    requires ValidTrip(st.trip)
    ensures st.trip.startDate == InitialTrip.startDate && st.trip.endDate == InitialTrip.endDate ==>
      r == Saved(st)
    ensures (st.trip.startDate != InitialTrip.startDate || st.trip.endDate != InitialTrip.endDate) ==>
      (r.Saved? <==> DayCount(st.trip.startDate, st.trip.endDate) >= 2)
    ensures (st.trip.startDate != InitialTrip.startDate || st.trip.endDate != InitialTrip.endDate) && r.Saved? ==>
      && PlansMatch(r.state.plans, st.trip.startDate, st.trip.endDate)
      && r.state.selected == FormatIso(st.trip.startDate)
      && r.state.trip == st.trip
      && r.state == st.(plans := GenerateSampleDayPlans(st.trip.startDate, st.trip.endDate),
                        selected := FormatIso(st.trip.startDate))
  {
    var t := st.trip;
    if t.startDate != InitialTrip.startDate || t.endDate != InitialTrip.endDate then
      match GenerateSampleAsWritten(t.startDate, t.endDate)
      case TypeError => SaveTypeError
      case Seeded(p) =>
        assert p == GenerateSampleDayPlans(t.startDate, t.endDate);
        Saved(st.(plans := p, selected := FormatIso(t.startDate)))
    else Saved(st)
  }

  /** Move the dates away from the initial ones and save: the plans follow.
      Move them back and save again: the plans stay on the other dates. */
  lemma ReturnToInitialDatesKeepsStalePlans(st: PlannerState)
    requires ValidTrip(st.trip)
    requires DayNumber(st.trip.startDate) < DayNumber(st.trip.endDate)
    requires DayNumber(st.trip.startDate) != DayNumber(InitialTrip.startDate)
    ensures SaveAsWritten(st).Saved?
    ensures var moved := SaveAsWritten(st).state;
      var back := moved.(trip := moved.trip.(startDate := InitialTrip.startDate, endDate := InitialTrip.endDate));
      && SaveAsWritten(back) == Saved(back)
      && !PlansMatch(back.plans, InitialTrip.startDate, InitialTrip.endDate)
  {
    var moved := SaveAsWritten(st).state;
    var p := moved.plans;
    assert PlanOfDay(p[0], st.trip.startDate, 0);
    InitialTripLastsSixDays();
  }

  /** The initial trip runs from the 15th to the 20th of June: six days. */
  lemma InitialTripLastsSixDays()
    ensures ValidTrip(InitialTrip)
    ensures Duration(InitialTrip.startDate, InitialTrip.endDate) == 6
    ensures DayCount(InitialTrip.startDate, InitialTrip.endDate) == 6
  {
  }

  /** Picking a start after the end (the start picker has no bound) shows a
      negative length: the 20th to the 15th of June is "-4 days". */
  lemma BackwardTripShowsNegativeLength()
    ensures Duration(Date(2025, 6, 20), Date(2025, 6, 15)) == -4
    ensures DayCount(Date(2025, 6, 20), Date(2025, 6, 15)) == 0
  {
  }

  /** Saving the trip details: the plans are regenerated (and the first day
      selected) exactly when they do not already cover the trip's dates, so
      activities survive a save that keeps the dates. */
  function SaveTrip(st: PlannerState): (r: PlannerState)
    requires ValidTrip(st.trip)
    ensures r.trip == st.trip
    ensures PlansMatch(r.plans, st.trip.startDate, st.trip.endDate)
    ensures PlansMatch(st.plans, st.trip.startDate, st.trip.endDate) ==> r == st
    ensures !PlansMatch(st.plans, st.trip.startDate, st.trip.endDate) ==>
      r.selected == FormatIso(st.trip.startDate)
    ensures !PlansMatch(st.plans, st.trip.startDate, st.trip.endDate) ==>
      r == st.(plans := GenerateSampleDayPlans(st.trip.startDate, st.trip.endDate),
               selected := FormatIso(st.trip.startDate))
  {
    var t := st.trip;
    if PlansMatch(st.plans, t.startDate, t.endDate) then st
    else st.(plans := GenerateSampleDayPlans(t.startDate, t.endDate), selected := FormatIso(t.startDate))
  }

  /** After a save the selected id names the trip's first day, whose plan is
      the one shown. */
  lemma SaveSelectsFirstDay(st: PlannerState)
    requires ValidTrip(st.trip)
    requires !PlansMatch(st.plans, st.trip.startDate, st.trip.endDate)
    requires DayNumber(st.trip.startDate) <= DayNumber(st.trip.endDate)
    ensures SelectedDayPlan(SaveTrip(st).plans, SaveTrip(st).selected) == SaveTrip(st).plans[0]
  {
    var r := SaveTrip(st);
    FirstPlanIsStart(r.plans, st.trip);
    assert FirstWithId(r.plans, r.selected, 0);
  }
}
