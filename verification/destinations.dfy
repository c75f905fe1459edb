/** The destination explorer: a search box and three multi-select filters
    (regions, climates, activities) narrowing a fixed list of destinations,
    the check boxes and chips that edit the selections, and Clear Filters. */
module Destinations {
  import opened Seqs
  import opened Text

  datatype Region = Asia | Europe | NorthAmerica | SouthAmerica | Africa | Oceania
  datatype Climate = Tropical | Mediterranean | Continental | Polar | Arid | Temperate
  datatype Activity = Beach | Hiking | CityExplore | Food | Culture | Wildlife | Skiing

  datatype Destination = Destination(id: string, name: string, country: string, region: Region, emoji: string,
                                     climate: seq<Climate>, activities: seq<Activity>, description: string,
                                     imageUrl: string)

  /** The explorer's filter state: the search text and the three selections,
      each kept in the order its options were checked. */
  datatype Filters = Filters(query: string, regions: seq<Region>, climates: seq<Climate>, activities: seq<Activity>)

  const NoFilters: Filters := Filters("", [], [], [])

  /** An empty query matches; otherwise the name or the country must contain
      it, ignoring case. */
  predicate MatchesSearch(d: Destination, query: string) {
    query == "" || MatchesQuery(d.name, query) || MatchesQuery(d.country, query)
  }

  /** An empty selection admits everything; otherwise at least one of the
      values the destination has must be selected (`some(... includes ...)`). */
  predicate Admits<T(==)>(selected: seq<T>, have: seq<T>) {
    |selected| == 0 || exists i :: 0 <= i < |have| && have[i] in selected
  }

  /** The four tests a destination must pass together. */
  predicate Matches(d: Destination, f: Filters) {
    && MatchesSearch(d, f.query)
    && Admits(f.regions, [d.region])
    && Admits(f.climates, d.climate)
    && Admits(f.activities, d.activities)
  }

  function Passes(f: Filters): Destination -> bool {
    (d: Destination) => Matches(d, f)
  }

  /** `filteredDestinations`: the destinations that pass every filter, in
      their listed order. */
  function Filtered(ds: seq<Destination>, f: Filters): (r: seq<Destination>)
    ensures Subsequence(r, ds)
    ensures forall i :: 0 <= i < |r| ==> Matches(r[i], f)
    ensures forall i :: 0 <= i < |ds| ==> (ds[i] in r <==> Matches(ds[i], f))
    ensures forall d :: multiset(r)[d] == if Matches(d, f) then multiset(ds)[d] else 0
  {
    Filter(Passes(f), ds)
  }

  /** What every shown destination satisfies, filter by filter. */
  lemma ShownMeetEveryFilter(ds: seq<Destination>, f: Filters, i: int)
    requires 0 <= i < |Filtered(ds, f)|
    ensures f.query != "" ==>
      MatchesQuery(Filtered(ds, f)[i].name, f.query) || MatchesQuery(Filtered(ds, f)[i].country, f.query)
    ensures |f.regions| > 0 ==> Filtered(ds, f)[i].region in f.regions
    ensures |f.climates| > 0 ==>
      exists k :: 0 <= k < |Filtered(ds, f)[i].climate| && Filtered(ds, f)[i].climate[k] in f.climates
    ensures |f.activities| > 0 ==>
      exists k :: 0 <= k < |Filtered(ds, f)[i].activities| && Filtered(ds, f)[i].activities[k] in f.activities
  {
    var d := Filtered(ds, f)[i];
    assert Matches(d, f);
    if |f.regions| > 0 {
      var k :| 0 <= k < 1 && [d.region][k] in f.regions;
    }
  }

  /** With no query and nothing selected every destination is shown. */
  lemma NoFiltersShowAll(ds: seq<Destination>)
    ensures Filtered(ds, NoFilters) == ds
  {
    FilterKeepsAll(Passes(NoFilters), ds);
  }

  /** A check box or a chip's option: one value of one of the three filters. */
  datatype Choice = RegionChoice(region: Region) | ClimateChoice(climate: Climate) | ActivityChoice(activity: Activity)

  /** Checking appends the option at the end; unchecking drops every copy of
      it and keeps the rest in order. */
  function SetChecked<T(==,!new)>(selected: seq<T>, x: T, checked: bool): (r: seq<T>)
    ensures x in r <==> checked
    ensures forall y :: y != x ==> (y in r <==> y in selected)
    ensures checked ==> r == selected + [x]
    ensures !checked ==> Subsequence(r, selected)
    ensures !checked ==> forall y :: multiset(r)[y] == if y != x then multiset(selected)[y] else 0
  {
    if checked then selected + [x] else Filter(y => y != x, selected)
  }

  /** The check box of a choice going to `checked`. Removing a chip is the
      same as unchecking its box. */
  function Check(f: Filters, c: Choice, checked: bool): (r: Filters)
    ensures r.query == f.query
    ensures c.RegionChoice? ==> r.climates == f.climates && r.activities == f.activities
    ensures c.ClimateChoice? ==> r.regions == f.regions && r.activities == f.activities
    ensures c.ActivityChoice? ==> r.regions == f.regions && r.climates == f.climates
  {
    match c
    case RegionChoice(x) => f.(regions := SetChecked(f.regions, x, checked))
    case ClimateChoice(x) => f.(climates := SetChecked(f.climates, x, checked))
    case ActivityChoice(x) => f.(activities := SetChecked(f.activities, x, checked))
  }

  /** Whether a choice's box shows checked (`selected.includes(x)`). */
  predicate IsChecked(f: Filters, c: Choice) {
    match c
    case RegionChoice(x) => x in f.regions
    case ClimateChoice(x) => x in f.climates
    case ActivityChoice(x) => x in f.activities
  }

  predicate Distinct<T(==)>(s: seq<T>) {
    forall i, j :: 0 <= i < j < |s| ==> s[i] != s[j]
  }

  /** Every option is selected at most once. */
  predicate NoRepeats(f: Filters) {
    Distinct(f.regions) && Distinct(f.climates) && Distinct(f.activities)
  }

  /** A box is toggled to the opposite of what it shows, so a selection never
      holds an option twice. */
  lemma {:induction false} ToggleKeepsDistinct<T(!new)>(selected: seq<T>, x: T, checked: bool)
    requires Distinct(selected) && checked == (x !in selected)
    ensures Distinct(SetChecked(selected, x, checked))
  {
    if !checked {
      DistinctFilter(y => y != x, selected);
    }
  }

  lemma {:induction false} DistinctFilter<T(!new)>(p: T -> bool, s: seq<T>)
    requires Distinct(s)
    ensures Distinct(Filter(p, s))
  {
    if s != [] {
      var rest := Filter(p, s[1..]);
      assert Distinct(s[1..]) by {
        forall i, j | 0 <= i < j < |s[1..]| ensures s[1..][i] != s[1..][j] {
          assert s[1..][i] == s[i + 1] && s[1..][j] == s[j + 1];
        }
      }
      DistinctFilter(p, s[1..]);
      if p(s[0]) {
        assert s[0] !in rest by {
          assert forall k :: 0 <= k < |rest| ==> rest[k] in s[1..];
          assert s[0] !in s[1..];
        }
        HeadDistinct(s[0], rest);
      }
    }
  }

  /** A fresh head in front of a sequence without repeats has none either. */
  lemma HeadDistinct<T>(h: T, t: seq<T>)
    requires Distinct(t) && h !in t
    ensures Distinct([h] + t)
  {
    var r := [h] + t;
    forall i, j | 0 <= i < j < |r| ensures r[i] != r[j] {
      assert r[j] == t[j - 1];
      if i > 0 {
        assert r[i] == t[i - 1];
      }
    }
  }

  /** Toggling any box (to the opposite of what it shows) keeps every selection free of repeats. */
  lemma ToggleKeepsNoRepeats(f: Filters, c: Choice, checked: bool)
    requires NoRepeats(f) && checked == !IsChecked(f, c)
    ensures NoRepeats(Check(f, c, checked))
    ensures IsChecked(Check(f, c, checked), c) == checked
  {
    match c
    case RegionChoice(x) => ToggleKeepsDistinct(f.regions, x, checked);
    case ClimateChoice(x) => ToggleKeepsDistinct(f.climates, x, checked);
    case ActivityChoice(x) => ToggleKeepsDistinct(f.activities, x, checked);
  }

  /** Checking an unchecked box and unchecking it again restores the
      filters. */
  lemma CheckThenUncheck(f: Filters, c: Choice)
    requires !IsChecked(f, c)
    ensures Check(Check(f, c, true), c, false) == f
  {
    match c
    case RegionChoice(x) => SetCheckedUndo(f.regions, x);
    case ClimateChoice(x) => SetCheckedUndo(f.climates, x);
    case ActivityChoice(x) => SetCheckedUndo(f.activities, x);
  }

  lemma SetCheckedUndo<T(!new)>(selected: seq<T>, x: T)
    requires x !in selected
    ensures SetChecked(SetChecked(selected, x, true), x, false) == selected
  {
    FilterKeepsAll(y => y != x, selected);
    FilterAppend(y => y != x, selected, [x]);
    assert Filter(y => y != x, [x]) == [];
  }

  /** The filters as the selections are read: only which options are
      selected matters, not their order or repetition. */
  predicate SameSelections(f: Filters, g: Filters) {
    && f.query == g.query
    && (forall x :: x in f.regions <==> x in g.regions)
    && (forall x :: x in f.climates <==> x in g.climates)
    && (forall x :: x in f.activities <==> x in g.activities)
  }

  lemma AdmitsSameSet<T>(a: seq<T>, b: seq<T>, have: seq<T>)
    requires forall x :: x in a <==> x in b
    ensures Admits(a, have) == Admits(b, have)
  {
    if |a| > 0 {
      assert a[0] in b;
    }
    if |b| > 0 {
      assert b[0] in a;
    }
  }

  /** Filters that select the same options show the same destinations. */
  lemma SameSelectionsSameResult(ds: seq<Destination>, f: Filters, g: Filters)
    requires SameSelections(f, g)
    ensures Filtered(ds, f) == Filtered(ds, g)
  {
    forall i | 0 <= i < |ds| ensures Matches(ds[i], f) == Matches(ds[i], g) {
      AdmitsSameSet(f.regions, g.regions, [ds[i].region]);
      AdmitsSameSet(f.climates, g.climates, ds[i].climate);
      AdmitsSameSet(f.activities, g.activities, ds[i].activities);
    }
    FilterSame(Passes(f), Passes(g), ds);
  }

  /** The selection a choice belongs to is empty. */
  predicate NoneSelected(f: Filters, c: Choice) {
    match c
    case RegionChoice(_) => f.regions == []
    case ClimateChoice(_) => f.climates == []
    case ActivityChoice(_) => f.activities == []
  }

  /** Checking one more option of a filter that already has a selection can
      only add destinations: options of one filter are alternatives. */
  lemma CheckingAnotherWidens(ds: seq<Destination>, f: Filters, c: Choice)
    requires !NoneSelected(f, c)
    ensures Subsequence(Filtered(ds, f), Filtered(ds, Check(f, c, true)))
  {
    var g := Check(f, c, true);
    forall i | 0 <= i < |ds| && Matches(ds[i], f) ensures Matches(ds[i], g) {
      var d := ds[i];
      match c
      case RegionChoice(x) => AdmitsMore(f.regions, x, [d.region]);
      case ClimateChoice(x) => AdmitsMore(f.climates, x, d.climate);
      case ActivityChoice(x) => AdmitsMore(f.activities, x, d.activities);
    }
    FilterWeaker(Passes(f), Passes(g), ds);
  }

  lemma AdmitsMore<T(!new)>(selected: seq<T>, x: T, have: seq<T>)
    requires |selected| > 0 && Admits(selected, have)
    ensures Admits(SetChecked(selected, x, true), have)
  {
    var i :| 0 <= i < |have| && have[i] in selected;
    assert have[i] in SetChecked(selected, x, true);
  }

  /** Checking the first option of a filter can only remove destinations:
      the filter goes from admitting everything to admitting that option. */
  lemma CheckingFirstNarrows(ds: seq<Destination>, f: Filters, c: Choice)
    requires NoneSelected(f, c)
    ensures Subsequence(Filtered(ds, Check(f, c, true)), Filtered(ds, f))
  {
    var g := Check(f, c, true);
    FilterWeaker(Passes(g), Passes(f), ds);
  }

  /** Clear Filters, offered while some option is selected: it empties the
      three selections and leaves the search text as it is. */
  function ClearFilters(f: Filters): (r: Filters)
    ensures r.query == f.query
    ensures r.regions == [] && r.climates == [] && r.activities == []
  {
    Filters(f.query, [], [], [])
  }

  /** After Clear Filters only the search narrows the list, and nothing shown
      before disappears. */
  lemma ClearFiltersKeepsSearch(ds: seq<Destination>, f: Filters)
    ensures forall i :: 0 <= i < |ds| ==>
      (ds[i] in Filtered(ds, ClearFilters(f)) <==> MatchesSearch(ds[i], f.query))
    ensures Subsequence(Filtered(ds, f), Filtered(ds, ClearFilters(f)))
  {
    forall i | 0 <= i < |ds| ensures Matches(ds[i], ClearFilters(f)) == MatchesSearch(ds[i], f.query) {
    }
    FilterWeaker(Passes(f), Passes(ClearFilters(f)), ds);
  }
}
