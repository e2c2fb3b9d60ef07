/** The itinerary page: activities sorted by their (date, start time)
    timestamp on a copy of the loaded list, then grouped by date. */
module Itinerary {
  import opened Wrappers
  import opened Strings
  import Api
  import Views
  import Grouping

  /** An activity; `date` is "YYYY-MM-DD" and the times are "HH:MM". */
  datatype ItineraryItem = ItineraryItem(id: int, title: string, description: string,
                                         location: string, startTime: string,
                                         endTime: string, date: string)

  datatype ItineraryForm = ItineraryForm(title: string, description: string, location: string,
                                         startTime: string, endTime: string, date: string)

  /** Every field of the activity form is required. */
  predicate ValidItineraryForm(f: ItineraryForm) {
    f.title != "" && f.description != "" && f.location != ""
    && f.date != "" && f.startTime != "" && f.endTime != ""
  }

  function ItineraryId(item: ItineraryItem): int {
    item.id
  }

  function DateOf(item: ItineraryItem): string {
    item.date
  }

  /** The comparator's order: `a`'s timestamp `date + "T" + start_time` is no
      later than `b`'s, read as the string order of the date, then of the
      start time. This matches the order of the instants when dates are
      `YYYY-MM-DD`, all start times share one precision (all `HH:MM` or
      all `HH:MM:SS`), and no start time falls in a daylight-saving gap of
      the browser's time zone, where `new Date` moves it an hour later. One
      instant written two ways, such as "09:00" and "09:00:00", is ordered
      by string here but tied by the comparator. */
  predicate Before(a: ItineraryItem, b: ItineraryItem): (r: bool)
    ensures r <==> StrLe(a.date, b.date) && (a.date == b.date ==> StrLe(a.startTime, b.startTime))
  {
    StrLeReflexive(a.date);
    if a.date != b.date then StrLe(a.date, b.date) else StrLe(a.startTime, b.startTime)
  }

  lemma BeforeTotal(a: ItineraryItem, b: ItineraryItem)
    ensures Before(a, b) || Before(b, a)
  {
    StrLeTotal(a.date, b.date);
    StrLeTotal(a.startTime, b.startTime);
  }

  lemma BeforeTransitive(a: ItineraryItem, b: ItineraryItem, c: ItineraryItem)
    requires Before(a, b) && Before(b, c)
    ensures Before(a, c)
  {
    if a.date == b.date && b.date == c.date {
      StrLeTransitive(a.startTime, b.startTime, c.startTime);
    } else {
      assert StrLe(a.date, b.date) && StrLe(b.date, c.date) by {
        StrLeReflexive(a.date);
        StrLeReflexive(b.date);
      }
      StrLeTransitive(a.date, b.date, c.date);
      if a.date == c.date {
        StrLeAntisymmetric(a.date, b.date);
      }
    }
  }

  predicate SortedByTime(s: seq<ItineraryItem>) {
    forall i, j :: 0 <= i < j < |s| ==> Before(s[i], s[j])
  }

  /** Puts `x` in front of the first item it is not later than. */
  function Insert(x: ItineraryItem, s: seq<ItineraryItem>): (r: seq<ItineraryItem>)
    requires SortedByTime(s)
    ensures SortedByTime(r)
    ensures multiset(r) == multiset(s) + multiset{x}
  {
    if |s| == 0 then [x]
    else if Before(x, s[0]) then
      assert forall j :: 1 <= j < |s| ==> Before(x, s[j]) by {
        forall j | 1 <= j < |s| ensures Before(x, s[j]) {
          BeforeTransitive(x, s[0], s[j]);
        }
      }
      [x] + s
    else
      var rest := Insert(x, s[1..]);
      assert forall j :: 0 <= j < |rest| ==> Before(s[0], rest[j]) by {
        forall j | 0 <= j < |rest| ensures Before(s[0], rest[j]) {
          assert rest[j] in multiset(rest);
          if rest[j] == x {
            BeforeTotal(x, s[0]);
          } else {
            assert rest[j] in multiset(s[1..]);
            var m :| 0 <= m < |s[1..]| && s[1..][m] == rest[j];
            assert Before(s[0], s[1 + m]);
          }
        }
      }
      assert s == [s[0]] + s[1..];
      [s[0]] + rest
  }

  /** `[...items].sort(...)`: a sorted permutation of the loaded items; the
      input list is a value and stays as it was. */
  function SortByTime(s: seq<ItineraryItem>): (r: seq<ItineraryItem>)
    ensures SortedByTime(r)
    ensures multiset(r) == multiset(s)
  {
    if |s| == 0 then []
    else
      assert s == [s[0]] + s[1..];
      Insert(s[0], SortByTime(s[1..]))
  }

  /** Sorted activities have non-decreasing dates. */
  lemma SortedDates(s: seq<ItineraryItem>, i: int, j: int)
    requires SortedByTime(s) && 0 <= i < j < |s|
    ensures StrLe(s[i].date, s[j].date)
  {
    assert Before(s[i], s[j]);
    StrLeReflexive(s[i].date);
  }

  /** Of two sorted activities on different dates, the earlier one's date
      is strictly smaller. */
  lemma EarlierDateFirst(s: seq<ItineraryItem>, i: int, j: int)
    requires SortedByTime(s) && 0 <= i < j < |s| && s[i].date != s[j].date
    ensures StrLt(s[i].date, s[j].date)
  {
    SortedDates(s, i, j);
  }

  /** Of two date groups of sorted activities, the one listed first has the
      strictly smaller date. */
  lemma GroupDatePairAscending(s: seq<ItineraryItem>, a: int, b: int)
    requires SortedByTime(s)
    requires 0 <= a < b < |Grouping.GroupKeys(s, DateOf)|
    ensures StrLt(Grouping.GroupKeys(s, DateOf)[a], Grouping.GroupKeys(s, DateOf)[b])
  {
    var ks := Grouping.GroupKeys(s, DateOf);
    Grouping.GroupKeysSpec(s, DateOf);
    Grouping.FirstAppearanceOrder(s, DateOf);
    var i :| 0 <= i < |s| && DateOf(s[i]) == ks[b];
    var i' :| 0 <= i' < i && DateOf(s[i']) == ks[a];
    assert ks[a] != ks[b];
    EarlierDateFirst(s, i', i);
  }

  /** On sorted activities the date groups appear in strictly ascending date
      order. */
  lemma GroupDatesAscending(s: seq<ItineraryItem>)
    requires SortedByTime(s)
    ensures forall a, b :: 0 <= a < b < |Grouping.GroupKeys(s, DateOf)| ==>
              StrLt(Grouping.GroupKeys(s, DateOf)[a], Grouping.GroupKeys(s, DateOf)[b])
  {
    forall a, b | 0 <= a < b < |Grouping.GroupKeys(s, DateOf)|
      ensures StrLt(Grouping.GroupKeys(s, DateOf)[a], Grouping.GroupKeys(s, DateOf)[b])
    {
      GroupDatePairAscending(s, a, b);
    }
  }

  /** One day's group: every activity has the group's date, and start
      times ascend. */
  predicate DayInTimeOrder(date: string, g: seq<ItineraryItem>) {
    && (forall a :: 0 <= a < |g| ==> g[a].date == date)
    && (forall a, b :: 0 <= a < b < |g| ==> StrLe(g[a].startTime, g[b].startTime))
  }

  /** Within a date group of sorted activities, every activity has the
      group's date and start times ascend. */
  lemma GroupStartTimesAscending(s: seq<ItineraryItem>, k: string)
    requires SortedByTime(s)
    ensures DayInTimeOrder(k, Grouping.Matching(s, DateOf, k))
  {
    var g := Grouping.Matching(s, DateOf, k);
    Grouping.MatchingIsSubsequence(s, DateOf, k);
    var idx := Grouping.MatchIndices(s, DateOf, k);
    forall a | 0 <= a < |g| ensures g[a].date == k {
      assert DateOf(s[idx[a]]) == k;
    }
    forall a, b | 0 <= a < b < |g| ensures StrLe(g[a].startTime, g[b].startTime) {
      assert Before(s[idx[a]], s[idx[b]]);
    }
  }

  /** Date groups in strictly ascending date order. */
  predicate DatesAscending(groups: seq<(string, seq<ItineraryItem>)>) {
    forall a, b :: 0 <= a < b < |groups| ==> StrLt(groups[a].0, groups[b].0)
  }

  /** Each date group holds only activities of its date, start times
      ascending. */
  predicate GroupsInTimeOrder(groups: seq<(string, seq<ItineraryItem>)>) {
    forall j :: 0 <= j < |groups| ==> DayInTimeOrder(groups[j].0, groups[j].1)
  }

  /** Grouping sorted activities by date lists the dates in ascending order. */
  lemma SortedGroupDates(s: seq<ItineraryItem>)
    requires SortedByTime(s)
    ensures DatesAscending(Grouping.Grouped(s, DateOf))
  {
    var ks := Grouping.GroupKeys(s, DateOf);
    var groups := Grouping.Grouped(s, DateOf);
    GroupDatesAscending(s);
    forall a, b | 0 <= a < b < |groups| ensures StrLt(groups[a].0, groups[b].0) {
      assert groups[a].0 == ks[a] && groups[b].0 == ks[b];
    }
  }

  /** Grouping sorted activities by date keeps each day in start-time order. */
  lemma SortedGroupTimes(s: seq<ItineraryItem>)
    requires SortedByTime(s)
    ensures GroupsInTimeOrder(Grouping.Grouped(s, DateOf))
  {
    var ks := Grouping.GroupKeys(s, DateOf);
    var groups := Grouping.Grouped(s, DateOf);
    forall j | 0 <= j < |groups| ensures DayInTimeOrder(groups[j].0, groups[j].1) {
      assert groups[j].0 == ks[j] && groups[j].1 == Grouping.Matching(s, DateOf, ks[j]);
      GroupStartTimesAscending(s, ks[j]);
    }
  }

  /** The page's derived view: the loaded activities sorted by timestamp and
      grouped by date, dates ascending, start times ascending in each group. */
  method GroupedItinerary(response: Option<seq<ItineraryItem>>)
    returns (groups: seq<(string, seq<ItineraryItem>)>)
    ensures groups == Grouping.Grouped(SortByTime(Views.Loaded(response)), DateOf)
    ensures response.None? ==> groups == []
    ensures DatesAscending(groups) && GroupsInTimeOrder(groups)
    ensures Grouping.SizeSum(groups) == |Views.Loaded(response)|
  {
    var sorted := SortByTime(Views.Loaded(response));
    groups := Grouping.GroupBy(sorted, DateOf);
    SortedGroupDates(sorted);
    SortedGroupTimes(sorted);
    Grouping.SizesSumToCount(sorted, DateOf);
    assert |sorted| == |multiset(sorted)| == |Views.Loaded(response)|;
  }

  method NewItineraryView(cache: Views.QueryCache)
    returns (v: Views.ResourceView<ItineraryItem, ItineraryForm>)
    ensures fresh(v)
    ensures v.key == "itinerary" && v.api == Api.ItineraryApi && v.cache == cache
    ensures v.idOf == ItineraryId && v.accepts == ValidItineraryForm
    ensures !v.isCreating && v.editingItem == None
  {
    v := new Views.ResourceView("itinerary", Api.ItineraryApi, cache, ItineraryId, ValidItineraryForm);
  }
}
