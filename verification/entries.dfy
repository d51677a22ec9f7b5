/**
 * The entry store behind `/api/timesheets/entries`: the date-range listing
 * grouped into days, and creation, partial update and removal of entries.
 * The module-level array of the route file is an explicit `Store` value here;
 * every handler takes the store and gives back the store after the call.
 */
module Entries {
  import opened Common
  import opened Text

  datatype Entry = Entry(
    id: string,
    date: string,
    projectId: string,
    projectName: string,
    workType: string,
    description: string,
    hours: int,
    createdAt: string,
    updatedAt: string)

  type Store = seq<Entry>

  /** A handler's reply together with the store it leaves behind. */
  datatype Handled<+T> = Handled(reply: Reply<T>, store: Store)

  /**
   * The clock as a handler reads it: `Date.now()`, then `new Date().toISOString()`,
   * then, where a handler calls it a second time, `laterIso`, a separate reading
   * that may differ from `iso` when the millisecond turns in between.
   */
  datatype Clock = Clock(millis: nat, iso: string, laterIso: string)

  /** JavaScript truthiness of an optional string field: present and non-empty. */
  predicate Truthy(s: Option<string>) {
    s.Some? && s.value != ""
  }

  /** JavaScript truthiness of an optional number field: present and non-zero. */
  predicate TruthyNumber(n: Option<int>) {
    n.Some? && n.value != 0
  }

  /** The project catalogue the handlers consult for `projectName`. */
  const Projects: map<string, string> :=
    map["proj-1" := "Project Alpha", "proj-2" := "Project Beta", "proj-3" := "Project Gamma"]

  function ProjectName(projectId: string): string {
    if projectId in Projects then Projects[projectId] else "Unknown Project"
  }

  /** Every stored entry has between 1 and 24 hours. */
  predicate ValidStore(store: Store) {
    forall i :: 0 <= i < |store| ==> 1 <= store[i].hours <= 24
  }

  // ---------------------------------------------------------------------------
  // GET: range filter
  // ---------------------------------------------------------------------------

  /** `entry.date >= weekStart && entry.date <= weekEnd` with JavaScript's string order. */
  predicate InWeek(e: Entry, weekStart: string, weekEnd: string) {
    !Before(e.date, weekStart) && !Before(weekEnd, e.date)
  }

  /** `entries.filter(...)` with the week test. */
  function InWeekOnly(es: seq<Entry>, weekStart: string, weekEnd: string): seq<Entry> {
    if |es| == 0 then []
    else
      var last := es[|es| - 1];
      InWeekOnly(es[..|es| - 1], weekStart, weekEnd) + (if InWeek(last, weekStart, weekEnd) then [last] else [])
  }

  /** The week filter keeps each entry, as often as it occurs, exactly when it lies in the week. */
  lemma {:induction false} InWeekOnlyCounts(es: seq<Entry>, weekStart: string, weekEnd: string)
    ensures forall e ::
      (multiset(InWeekOnly(es, weekStart, weekEnd))[e] == if InWeek(e, weekStart, weekEnd) then multiset(es)[e] else 0)
    decreases |es|
  {
    if |es| > 0 {
      var init := es[..|es| - 1];
      assert es == init + [es[|es| - 1]];
      InWeekOnlyCounts(init, weekStart, weekEnd);
    }
  }

  /** The week filter works entry by entry, left to right, so it keeps the store's order. */
  lemma {:induction false} InWeekOnlyConcat(a: seq<Entry>, b: seq<Entry>, weekStart: string, weekEnd: string)
    ensures InWeekOnly(a + b, weekStart, weekEnd) == InWeekOnly(a, weekStart, weekEnd) + InWeekOnly(b, weekStart, weekEnd)
    decreases |b|
  {
    if |b| > 0 {
      var init := b[..|b| - 1];
      assert (a + b)[..|a + b| - 1] == a + init;
      assert (a + b)[|a + b| - 1] == b[|b| - 1];
      InWeekOnlyConcat(a, init, weekStart, weekEnd);
    } else {
      assert a + b == a;
    }
  }

  /** The entries the listing looks at: the week's when both bounds are given and non-empty, else all of them. */
  function Select(store: Store, weekStart: Option<string>, weekEnd: Option<string>): seq<Entry> {
    if Truthy(weekStart) && Truthy(weekEnd) then InWeekOnly(store, weekStart.value, weekEnd.value) else store
  }

  /** With both bounds the listing keeps exactly the entries of the week, with their multiplicity; otherwise everything. */
  lemma SelectKeepsExactly(store: Store, weekStart: Option<string>, weekEnd: Option<string>)
    ensures Truthy(weekStart) && Truthy(weekEnd) ==>
      forall e :: multiset(Select(store, weekStart, weekEnd))[e] ==
        (if InWeek(e, weekStart.value, weekEnd.value) then multiset(store)[e] else 0)
    ensures !(Truthy(weekStart) && Truthy(weekEnd)) ==> Select(store, weekStart, weekEnd) == store
  {
    if Truthy(weekStart) && Truthy(weekEnd) {
      InWeekOnlyCounts(store, weekStart.value, weekEnd.value);
    }
  }

  // ---------------------------------------------------------------------------
  // GET: grouping into days
  // ---------------------------------------------------------------------------

  /** The entries of `es` dated `date`, in their order in `es`. */
  function OnDate(es: seq<Entry>, date: string): seq<Entry> {
    if |es| == 0 then []
    else
      var last := es[|es| - 1];
      OnDate(es[..|es| - 1], date) + (if last.date == date then [last] else [])
  }

  /** A day's entries are the selected entries with that date, each as often as it was selected. */
  lemma {:induction false} OnDateCounts(es: seq<Entry>, date: string)
    ensures forall e :: multiset(OnDate(es, date))[e] == if e.date == date then multiset(es)[e] else 0
    decreases |es|
  {
    if |es| > 0 {
      var init := es[..|es| - 1];
      assert es == init + [es[|es| - 1]];
      OnDateCounts(init, date);
    }
  }

  /** `reduce((sum, e) => sum + e.hours, 0)`. */
  function SumHours(es: seq<Entry>): int {
    if |es| == 0 then 0 else SumHours(es[..|es| - 1]) + es[|es| - 1].hours
  }

  /** One key of the `entriesByDate` record with the entries pushed under it. */
  datatype Bucket = Bucket(date: string, entries: seq<Entry>)

  predicate DistinctDates(bs: seq<Bucket>) {
    forall i, j :: 0 <= i < j < |bs| ==> bs[i].date != bs[j].date
  }

  /** The bucket already open for `date`, if any, among the record's own keys (`GetAsWritten` shows what inherited keys do). */
  function BucketFor(bs: seq<Bucket>, date: string): (r: Option<nat>)
    ensures r.Some? ==> r.value < |bs| && bs[r.value].date == date
    ensures r.None? ==> forall i :: 0 <= i < |bs| ==> bs[i].date != date
  {
    if |bs| == 0 then None
    else if bs[0].date == date then Some(0)
    else match BucketFor(bs[1..], date)
      case None => None
      case Some(i) => Some(i + 1)
  }

  /** One step of the `forEach`: open a bucket for a new date, then push the entry. */
  function Push(bs: seq<Bucket>, e: Entry): seq<Bucket> {
    match BucketFor(bs, e.date)
    case Some(k) => bs[k := Bucket(e.date, bs[k].entries + [e])]
    case None => bs + [Bucket(e.date, [e])]
  }

  lemma {:induction false} NoneOnDate(es: seq<Entry>, date: string)
    requires forall j :: 0 <= j < |es| ==> es[j].date != date
    ensures OnDate(es, date) == []
    decreases |es|
  {
    if |es| > 0 {
      NoneOnDate(es[..|es| - 1], date);
    }
  }

  /**
   * What the `entriesByDate` record holds after the entries `es` were pushed:
   * one bucket per date, each holding exactly that date's entries in order and
   * never empty, and a bucket for the date of every entry.
   */
  ghost predicate Grouped(es: seq<Entry>, bs: seq<Bucket>) {
    && DistinctDates(bs)
    && (forall i :: 0 <= i < |bs| ==> bs[i].entries == OnDate(es, bs[i].date) && |bs[i].entries| > 0)
    && (forall j :: 0 <= j < |es| ==> BucketFor(bs, es[j].date).Some?)
  }

  lemma PushOpen(es: seq<Entry>, bs: seq<Bucket>, e: Entry, k: nat)
    requires Grouped(es, bs)
    requires BucketFor(bs, e.date) == Some(k)
    ensures Grouped(es + [e], Push(bs, e))
  {
    var es', bs' := es + [e], Push(bs, e);
    assert es'[..|es|] == es;
    forall i | 0 <= i < |bs'| ensures bs'[i].entries == OnDate(es', bs'[i].date) {
      if i != k {
        assert bs'[i] == bs[i] && bs[i].date != e.date;
      }
    }
    forall j | 0 <= j < |es'| ensures BucketFor(bs', es'[j].date).Some? {
      if j < |es| {
        var i := BucketFor(bs, es[j].date).value;
        assert bs'[i].date == es'[j].date;
      } else {
        assert bs'[k].date == es'[j].date;
      }
    }
  }

  /** Adding one entry extends the entries of its own date and no other. */
  lemma OnDateAppend(es: seq<Entry>, e: Entry, date: string)
    ensures OnDate(es + [e], date) == OnDate(es, date) + (if e.date == date then [e] else [])
  {
    assert (es + [e])[..|es|] == es;
  }

  /** A date with no bucket yet is the date of no grouped entry. */
  lemma NewDateUnseen(es: seq<Entry>, bs: seq<Bucket>, date: string)
    requires Grouped(es, bs)
    requires BucketFor(bs, date) == None
    ensures forall j :: 0 <= j < |es| ==> es[j].date != date
  {
    forall j | 0 <= j < |es| ensures es[j].date != date {
      var i := BucketFor(bs, es[j].date).value;
      assert bs[i].date == es[j].date;
    }
  }

  /** After opening a bucket for a new date, every bucket still holds exactly its date's entries. */
  lemma PushNewExact(es: seq<Entry>, bs: seq<Bucket>, e: Entry)
    requires Grouped(es, bs)
    requires BucketFor(bs, e.date) == None
    ensures forall i :: 0 <= i < |Push(bs, e)| ==> Push(bs, e)[i].entries == OnDate(es + [e], Push(bs, e)[i].date)
  {
    var bs' := bs + [Bucket(e.date, [e])];
    assert Push(bs, e) == bs';
    NewDateUnseen(es, bs, e.date);
    forall i | 0 <= i < |bs'| ensures bs'[i].entries == OnDate(es + [e], bs'[i].date) {
      OnDateAppend(es, e, bs'[i].date);
      if i < |bs| {
        assert bs'[i] == bs[i] && bs[i].date != e.date;
      } else {
        NoneOnDate(es, e.date);
      }
    }
  }

  lemma PushNew(es: seq<Entry>, bs: seq<Bucket>, e: Entry)
    requires Grouped(es, bs)
    requires BucketFor(bs, e.date) == None
    ensures Grouped(es + [e], Push(bs, e))
  {
    var es', bs' := es + [e], bs + [Bucket(e.date, [e])];
    assert Push(bs, e) == bs';
    assert DistinctDates(bs');
    PushNewExact(es, bs, e);
    forall j | 0 <= j < |es'| ensures BucketFor(bs', es'[j].date).Some? {
      if j < |es| {
        var i := BucketFor(bs, es[j].date).value;
        assert bs'[i].date == es'[j].date;
      } else {
        assert bs'[|bs|].date == es'[j].date;
      }
    }
  }

  /** The `entriesByDate` record, keys in first-seen order. */
  function GroupByDate(es: seq<Entry>): seq<Bucket> {
    if |es| == 0 then [] else Push(GroupByDate(es[..|es| - 1]), es[|es| - 1])
  }

  /** Grouping partitions the entries by date: distinct dates, exact and non-empty buckets, every entry placed. */
  lemma {:induction false} GroupByDatePartitions(es: seq<Entry>)
    ensures Grouped(es, GroupByDate(es))
    decreases |es|
  {
    if |es| > 0 {
      var init, e := es[..|es| - 1], es[|es| - 1];
      assert es == init + [e];
      GroupByDatePartitions(init);
      match BucketFor(GroupByDate(init), e.date)
      case Some(k) => PushOpen(init, GroupByDate(init), e, k);
      case None => PushNew(init, GroupByDate(init), e);
    }
  }

  /** A `TimesheetDay` as the route returns it (the locale `dayLabel` is not modelled). */
  datatype Day = Day(date: string, entries: seq<Entry>, totalHours: int)

  function ToDay(b: Bucket): Day {
    Day(b.date, b.entries, SumHours(b.entries))
  }

  function ToDays(bs: seq<Bucket>): (ds: seq<Day>)
    ensures |ds| == |bs|
    ensures forall i :: 0 <= i < |bs| ==> ds[i] == ToDay(bs[i])
  {
    seq(|bs|, i requires 0 <= i < |bs| => ToDay(bs[i]))
  }

  /** Ascending by date, with no date twice. */
  predicate Ascending(ds: seq<Day>) {
    forall i, j :: 0 <= i < j < |ds| ==> Before(ds[i].date, ds[j].date)
  }

  /** Places `d` among days already in ascending order. */
  function Insert(d: Day, ds: seq<Day>): (r: seq<Day>)
    requires Ascending(ds)
    requires forall i :: 0 <= i < |ds| ==> ds[i].date != d.date
    ensures Ascending(r)
    ensures multiset(r) == multiset(ds) + multiset{d}
  {
    if |ds| == 0 || Before(d.date, ds[0].date) then
      assert forall j :: 0 < j < |ds| ==> Before(d.date, ds[j].date) by {
        forall j | 0 < j < |ds| ensures Before(d.date, ds[j].date) {
          BeforeTransitive(d.date, ds[0].date, ds[j].date);
        }
      }
      [d] + ds
    else
      BeforeTotal(d.date, ds[0].date);
      var rest := Insert(d, ds[1..]);
      assert ds == [ds[0]] + ds[1..];
      assert forall j :: 0 <= j < |rest| ==> Before(ds[0].date, rest[j].date) by {
        forall j | 0 <= j < |rest| ensures Before(ds[0].date, rest[j].date) {
          assert rest[j] in multiset(rest);
          if rest[j] != d {
            assert rest[j] in ds[1..];
          }
        }
      }
      [ds[0]] + rest
  }

  /** With distinct dates, a day drawn from the tail does not share the head's date. */
  lemma TailDatesDiffer(ds: seq<Day>, x: Day)
    requires |ds| > 0
    requires forall i, j :: 0 <= i < j < |ds| ==> ds[i].date != ds[j].date
    requires x in multiset(ds[1..])
    ensures x.date != ds[0].date
  {
    assert x in ds[1..];
    var k :| 0 <= k < |ds| - 1 && ds[1..][k] == x;
    assert ds[k + 1] == x;
  }

  /** `.sort((a, b) => a.date.localeCompare(b.date))` on days whose dates are distinct. */
  function SortByDate(ds: seq<Day>): (r: seq<Day>)
    requires forall i, j :: 0 <= i < j < |ds| ==> ds[i].date != ds[j].date
    ensures Ascending(r)
    ensures multiset(r) == multiset(ds)
  {
    if |ds| == 0 then []
    else
      var rest := SortByDate(ds[1..]);
      assert forall i :: 0 <= i < |rest| ==> rest[i].date != ds[0].date by {
        forall i | 0 <= i < |rest| ensures rest[i].date != ds[0].date {
          TailDatesDiffer(ds, rest[i]);
        }
      }
      assert ds == [ds[0]] + ds[1..];
      Insert(ds[0], rest)
  }

  /** The `data` of the listing response. */
  datatype Summary = Summary(days: seq<Day>, totalHours: int, targetHours: int)

  /**
   * GET /api/timesheets/entries: select the entries, group them by date,
   * total each day and the whole selection, and sort the days.
   */
  function Get(store: Store, weekStart: Option<string>, weekEnd: Option<string>): Summary {
    var selected := Select(store, weekStart, weekEnd);
    var buckets := GroupByDate(selected);
    GroupByDatePartitions(selected);
    Summary(SortByDate(ToDays(buckets)), SumHours(selected), TargetHours)
  }

  /**
   * The listing's days partition the selected entries: ascending distinct
   * dates, each day holding exactly the selected entries of its date (in
   * store order) and their hour sum, no day empty, and every selected entry's
   * date present; the overall total is the selection's hour sum and the
   * target is 40.
   */
  lemma GetGroupsByDay(store: Store, weekStart: Option<string>, weekEnd: Option<string>)
    ensures Ascending(Get(store, weekStart, weekEnd).days)
    ensures forall d :: d in Get(store, weekStart, weekEnd).days ==>
      && d.entries == OnDate(Select(store, weekStart, weekEnd), d.date)
      && |d.entries| > 0
      && d.totalHours == SumHours(d.entries)
    ensures forall e :: e in Select(store, weekStart, weekEnd) ==>
      exists d :: d in Get(store, weekStart, weekEnd).days && d.date == e.date
    ensures Get(store, weekStart, weekEnd).totalHours == SumHours(Select(store, weekStart, weekEnd))
    ensures Get(store, weekStart, weekEnd).targetHours == TargetHours
  {
    var selected := Select(store, weekStart, weekEnd);
    var buckets := GroupByDate(selected);
    GroupByDatePartitions(selected);
    var days := ToDays(buckets);
    var sorted := SortByDate(days);
    assert sorted == Get(store, weekStart, weekEnd).days;
    DaysSurviveSort(days);
    forall d | d in sorted
      ensures d.entries == OnDate(selected, d.date) && |d.entries| > 0 && d.totalHours == SumHours(d.entries)
    {
      var i :| 0 <= i < |days| && days[i] == d;
      assert d == ToDay(buckets[i]);
    }
    forall e | e in selected ensures exists d :: d in sorted && d.date == e.date {
      var j :| 0 <= j < |selected| && selected[j] == e;
      var i := BucketFor(buckets, selected[j].date).value;
      assert days[i] in sorted;
    }
  }

  lemma DaysSurviveSort(ds: seq<Day>)
    requires forall i, j :: 0 <= i < j < |ds| ==> ds[i].date != ds[j].date
    ensures forall d :: d in SortByDate(ds) <==> d in ds
  {
    var sorted := SortByDate(ds);
    forall d ensures d in sorted <==> d in ds {
      assert d in sorted <==> d in multiset(sorted);
      assert d in ds <==> d in multiset(ds);
    }
  }

  // ---------------------------------------------------------------------------
  // GET: totals
  // ---------------------------------------------------------------------------

  /** The sum of the day totals. */
  function SumDays(ds: seq<Day>): int {
    if |ds| == 0 then 0 else ds[0].totalHours + SumDays(ds[1..])
  }

  lemma {:induction false} SumDaysAppend(a: seq<Day>, b: seq<Day>)
    ensures SumDays(a + b) == SumDays(a) + SumDays(b)
    decreases |a|
  {
    if |a| > 0 {
      assert (a + b)[1..] == a[1..] + b;
      SumDaysAppend(a[1..], b);
    } else {
      assert a + b == b;
    }
  }

  lemma {:induction false} SumDaysUpdate(ds: seq<Day>, k: nat, d: Day)
    requires k < |ds|
    ensures SumDays(ds[k := d]) == SumDays(ds) - ds[k].totalHours + d.totalHours
    decreases k
  {
    if k > 0 {
      assert ds[k := d][1..] == ds[1..][k - 1 := d];
      SumDaysUpdate(ds[1..], k - 1, d);
    }
  }

  lemma {:induction false} SumDaysInsert(d: Day, ds: seq<Day>)
    requires Ascending(ds)
    requires forall i :: 0 <= i < |ds| ==> ds[i].date != d.date
    ensures SumDays(Insert(d, ds)) == d.totalHours + SumDays(ds)
    decreases |ds|
  {
    if |ds| > 0 && !Before(d.date, ds[0].date) {
      SumDaysInsert(d, ds[1..]);
    }
  }

  lemma {:induction false} SumDaysSort(ds: seq<Day>)
    requires forall i, j :: 0 <= i < j < |ds| ==> ds[i].date != ds[j].date
    ensures SumDays(SortByDate(ds)) == SumDays(ds)
    decreases |ds|
  {
    if |ds| > 0 {
      SumDaysSort(ds[1..]);
      var rest := SortByDate(ds[1..]);
      assert forall i :: 0 <= i < |rest| ==> rest[i].date != ds[0].date by {
        forall i | 0 <= i < |rest| ensures rest[i].date != ds[0].date {
          TailDatesDiffer(ds, rest[i]);
        }
      }
      SumDaysInsert(ds[0], rest);
    }
  }

  /** Pushing an entry into an open bucket adds its hours to that day's total. */
  lemma SumDaysPushOpen(bs: seq<Bucket>, e: Entry, k: nat)
    requires BucketFor(bs, e.date) == Some(k)
    ensures SumDays(ToDays(Push(bs, e))) == SumDays(ToDays(bs)) + e.hours
  {
    var b := Bucket(e.date, bs[k].entries + [e]);
    assert (bs[k].entries + [e])[..|bs[k].entries|] == bs[k].entries;
    assert ToDays(bs[k := b]) == ToDays(bs)[k := ToDay(b)];
    SumDaysUpdate(ToDays(bs), k, ToDay(b));
  }

  /** Opening a bucket for a new date adds a day holding just the entry's hours. */
  lemma SumDaysPushNew(bs: seq<Bucket>, e: Entry)
    requires BucketFor(bs, e.date) == None
    ensures SumDays(ToDays(Push(bs, e))) == SumDays(ToDays(bs)) + e.hours
  {
    var b := Bucket(e.date, [e]);
    assert Push(bs, e) == bs + [b];
    assert ToDays(bs + [b]) == ToDays(bs) + [ToDay(b)];
    SumDaysAppend(ToDays(bs), [ToDay(b)]);
    assert [e][..0] == [];
    assert SumHours([e]) == e.hours;
    assert SumDays([ToDay(b)]) == e.hours;
  }

  lemma {:induction false} SumDaysGroup(es: seq<Entry>)
    ensures SumDays(ToDays(GroupByDate(es))) == SumHours(es)
    decreases |es|
  {
    if |es| > 0 {
      var init, e := es[..|es| - 1], es[|es| - 1];
      var prev := GroupByDate(init);
      SumDaysGroup(init);
      assert GroupByDate(es) == Push(prev, e);
      match BucketFor(prev, e.date)
      case Some(k) => SumDaysPushOpen(prev, e, k);
      case None => SumDaysPushNew(prev, e);
    }
  }

  /** The overall `totalHours` equals the sum of the day totals. */
  lemma TotalIsSumOfDays(store: Store, weekStart: Option<string>, weekEnd: Option<string>)
    ensures Get(store, weekStart, weekEnd).totalHours == SumDays(Get(store, weekStart, weekEnd).days)
  {
    var selected := Select(store, weekStart, weekEnd);
    GroupByDatePartitions(selected);
    SumDaysGroup(selected);
    SumDaysSort(ToDays(GroupByDate(selected)));
  }

  lemma OnDateMember(es: seq<Entry>, date: string, e: Entry)
    ensures e in OnDate(es, date) <==> e in es && e.date == date
  {
    OnDateCounts(es, date);
    assert e in OnDate(es, date) <==> multiset(OnDate(es, date))[e] > 0;
    assert e in es <==> multiset(es)[e] > 0;
  }

  lemma DayOfEntry(selected: seq<Entry>, days: seq<Day>, e: Entry)
    requires e in selected
    requires forall d :: d in days ==> d.entries == OnDate(selected, d.date)
    requires exists d :: d in days && d.date == e.date
    ensures exists i :: 0 <= i < |days| && e in days[i].entries
    ensures forall i :: 0 <= i < |days| && e in days[i].entries ==> days[i].date == e.date
  {
    var d :| d in days && d.date == e.date;
    var i :| 0 <= i < |days| && days[i] == d;
    OnDateMember(selected, e.date, e);
    forall j | 0 <= j < |days| && e in days[j].entries ensures days[j].date == e.date {
      assert days[j] in days;
      OnDateMember(selected, days[j].date, e);
    }
  }

  /** Each selected entry is listed under exactly one day, the one carrying its date. */
  lemma EntryInExactlyOneDay(store: Store, weekStart: Option<string>, weekEnd: Option<string>, e: Entry)
    requires e in Select(store, weekStart, weekEnd)
    ensures exists i :: 0 <= i < |Get(store, weekStart, weekEnd).days| && e in Get(store, weekStart, weekEnd).days[i].entries
    ensures forall i :: 0 <= i < |Get(store, weekStart, weekEnd).days| && e in Get(store, weekStart, weekEnd).days[i].entries ==>
      Get(store, weekStart, weekEnd).days[i].date == e.date
  {
    GetGroupsByDay(store, weekStart, weekEnd);
    DayOfEntry(Select(store, weekStart, weekEnd), Get(store, weekStart, weekEnd).days, e);
  }

  // ---------------------------------------------------------------------------
  // POST
  // ---------------------------------------------------------------------------

  /** The JSON body of a POST. */
  datatype NewEntry = NewEntry(
    projectId: Option<string>,
    workType: Option<string>,
    description: Option<string>,
    hours: Option<int>,
    date: Option<string>)

  predicate AllGiven(req: NewEntry) {
    && Truthy(req.projectId)
    && Truthy(req.workType)
    && Truthy(req.description)
    && TruthyNumber(req.hours)
    && Truthy(req.date)
  }

  /** POST /api/timesheets/entries: check the fields, then append a new entry. */
  function Post(store: Store, req: NewEntry, clock: Clock): (r: Handled<Entry>)
    ensures !AllGiven(req) ==> r == Handled(Fail(400, "All fields are required"), store)
    ensures AllGiven(req) && !(1 <= req.hours.value <= 24) ==>
      r == Handled(Fail(400, "Hours must be between 1 and 24"), store)
    ensures AllGiven(req) && 1 <= req.hours.value <= 24 ==>
      && r.reply.Ok?
      && |r.store| == |store| + 1
      && r.store[..|store|] == store
      && r.store[|store|] == r.reply.data
      && r.reply.data.id == "entry-" + NatToString(clock.millis)
      && r.reply.data.projectId == req.projectId.value
      && r.reply.data.workType == req.workType.value
      && r.reply.data.description == req.description.value
      && r.reply.data.hours == req.hours.value
      && r.reply.data.date == req.date.value
      && (req.projectId.value in Projects ==> r.reply.data.projectName == Projects[req.projectId.value])
      && (req.projectId.value !in Projects ==> r.reply.data.projectName == "Unknown Project")
      && r.reply.data.createdAt == clock.iso
      && r.reply.data.updatedAt == clock.laterIso
  {
    if !AllGiven(req) then
      Handled(Fail(400, "All fields are required"), store)
    else if req.hours.value < 1 || req.hours.value > 24 then
      Handled(Fail(400, "Hours must be between 1 and 24"), store)
    else
      var entry := Entry(
        "entry-" + NatToString(clock.millis),
        req.date.value,
        req.projectId.value,
        ProjectName(req.projectId.value),
        req.workType.value,
        req.description.value,
        req.hours.value,
        clock.iso,
        clock.laterIso);
      Handled(Ok(entry), store + [entry])
  }

  // ---------------------------------------------------------------------------
  // PUT
  // ---------------------------------------------------------------------------

  /** `entries.findIndex((e) => e.id === id)`. */
  function FindIndex(store: Store, id: string): (r: Option<nat>)
    ensures r.Some? ==> r.value < |store| && store[r.value].id == id
    ensures r.Some? ==> forall j :: 0 <= j < r.value ==> store[j].id != id
    ensures r.None? ==> forall j :: 0 <= j < |store| ==> store[j].id != id
  {
    if |store| == 0 then None
    else if store[0].id == id then Some(0)
    else match FindIndex(store[1..], id)
      case None => None
      case Some(i) => Some(i + 1)
  }

  /** True when `k` is the first position holding `id`. */
  predicate FirstWithId(store: Store, id: string, k: int) {
    0 <= k < |store| && store[k].id == id && forall j :: 0 <= j < k ==> store[j].id != id
  }

  /** The JSON body of a PUT: the id and the fields to overwrite. */
  datatype Patch = Patch(
    id: Option<string>,
    projectId: Option<string>,
    workType: Option<string>,
    description: Option<string>,
    hours: Option<int>,
    date: Option<string>)

  /** The spread-and-override of the PUT handler: truthy fields replace, the rest stay. */
  function Patched(e: Entry, p: Patch, now: string): Entry {
    e.(
      projectId := if Truthy(p.projectId) then p.projectId.value else e.projectId,
      projectName := if Truthy(p.projectId) then ProjectName(p.projectId.value) else e.projectName,
      workType := if Truthy(p.workType) then p.workType.value else e.workType,
      description := if Truthy(p.description) then p.description.value else e.description,
      hours := if TruthyNumber(p.hours) then p.hours.value else e.hours,
      date := if Truthy(p.date) then p.date.value else e.date,
      updatedAt := now)
  }

  /** PUT /api/timesheets/entries: overwrite the first entry with the id, field by field. */
  function Put(store: Store, p: Patch, clock: Clock): (r: Handled<Entry>)
    ensures !Truthy(p.id) ==> r == Handled(Fail(400, "Entry ID is required"), store)
    ensures Truthy(p.id) && (forall i :: 0 <= i < |store| ==> store[i].id != p.id.value) ==>
      r == Handled(Fail(404, "Entry not found"), store)
    ensures forall k :: Truthy(p.id) && FirstWithId(store, p.id.value, k) ==>
      && |r.store| == |store|
      && r.reply == Ok(r.store[k])
      && (forall j :: 0 <= j < |store| && j != k ==> r.store[j] == store[j])
      && r.store[k].id == store[k].id
      && r.store[k].createdAt == store[k].createdAt
      && r.store[k].updatedAt == clock.iso
      && r.store[k].projectId == (if Truthy(p.projectId) then p.projectId.value else store[k].projectId)
      && r.store[k].projectName == (if Truthy(p.projectId) then ProjectName(p.projectId.value) else store[k].projectName)
      && r.store[k].workType == (if Truthy(p.workType) then p.workType.value else store[k].workType)
      && r.store[k].description == (if Truthy(p.description) then p.description.value else store[k].description)
      && r.store[k].hours == (if TruthyNumber(p.hours) then p.hours.value else store[k].hours)
      && r.store[k].date == (if Truthy(p.date) then p.date.value else store[k].date)
  {
    if !Truthy(p.id) then
      Handled(Fail(400, "Entry ID is required"), store)
    else match FindIndex(store, p.id.value)
      case None => Handled(Fail(404, "Entry not found"), store)
      case Some(k) =>
        var updated := Patched(store[k], p, clock.iso);
        Handled(Ok(updated), store[k := updated])
  }

  // ---------------------------------------------------------------------------
  // DELETE
  // ---------------------------------------------------------------------------

  /** DELETE /api/timesheets/entries?id=...: remove the first entry with the id. */
  function Delete(store: Store, id: Option<string>): (r: Handled<string>)
    ensures !Truthy(id) ==> r == Handled(Fail(400, "Entry ID is required"), store)
    ensures Truthy(id) && (forall i :: 0 <= i < |store| ==> store[i].id != id.value) ==>
      r == Handled(Fail(404, "Entry not found"), store)
    ensures forall k :: Truthy(id) && FirstWithId(store, id.value, k) ==>
      && r.reply == Ok("Entry deleted successfully")
      && |r.store| == |store| - 1
      && (forall j :: 0 <= j < k ==> r.store[j] == store[j])
      && (forall j :: k < j < |store| ==> r.store[j - 1] == store[j])
  {
    if !Truthy(id) then
      Handled(Fail(400, "Entry ID is required"), store)
    else match FindIndex(store, id.value)
      case None => Handled(Fail(404, "Entry not found"), store)
      case Some(k) => Handled(Ok("Entry deleted successfully"), store[..k] + store[k + 1..])
  }

  // ---------------------------------------------------------------------------
  // Handler sequences
  // ---------------------------------------------------------------------------

  /** No two stored entries share an id (not guaranteed: ids come from `Date.now()`). */
  predicate UniqueIds(store: Store) {
    forall i, j :: 0 <= i < j < |store| ==> store[i].id != store[j].id
  }

  /** With unique ids, a successful delete leaves no entry with the id, and deleting again answers 404. */
  lemma DeleteThenNotFound(store: Store, id: string, k: nat)
    requires id != "" && UniqueIds(store)
    requires k < |store| && store[k].id == id
    ensures Delete(store, Some(id)).reply.Ok?
    ensures forall e :: e in Delete(store, Some(id)).store ==> e.id != id
    ensures Delete(Delete(store, Some(id)).store, Some(id)) == Handled(Fail(404, "Entry not found"), Delete(store, Some(id)).store)
  {
    assert FirstWithId(store, id, k);
    var after := Delete(store, Some(id)).store;
    forall i | 0 <= i < |after| ensures after[i].id != id {
      if i < k {
        assert after[i] == store[i];
      } else {
        assert after[i] == store[i + 1];
      }
    }
  }

  /**
   * Two entries may share an id when they were created in the same
   * millisecond; then the first delete removes only the earlier one and the
   * later one stays, so a second delete succeeds too.
   */
  lemma DeleteSparesLaterDuplicate(store: Store, id: string, i: nat, j: nat)
    requires id != ""
    requires FirstWithId(store, id, i)
    requires i < j < |store| && store[j].id == id
    ensures Delete(store, Some(id)).reply.Ok?
    ensures store[j] in Delete(store, Some(id)).store
    ensures Delete(Delete(store, Some(id)).store, Some(id)).reply.Ok?
  {
    var after := Delete(store, Some(id)).store;
    assert after[j - 1] == store[j];
    var m := FindIndex(after, id);
    assert m.Some?;
    assert FirstWithId(after, id, m.value);
  }

  /**
   * Updating an entry's hours to a non-zero value and listing again shows the
   * entry, under the day of its date, with the new hours and a fresh `updatedAt`.
   */
  lemma UpdateThenList(store: Store, id: string, hours: int, clock: Clock, k: nat)
    requires id != "" && hours != 0
    requires FirstWithId(store, id, k)
    ensures
      var after := Put(store, Patch(Some(id), None, None, None, Some(hours), None), clock).store;
      exists d, e :: d in Get(after, None, None).days && e in d.entries && e.id == id && e.hours == hours && e.updatedAt == clock.iso
  {
    var after := Put(store, Patch(Some(id), None, None, None, Some(hours), None), clock).store;
    var e := after[k];
    assert e in Select(after, None, None);
    EntryInExactlyOneDay(after, None, None, e);
    var days := Get(after, None, None).days;
    var i :| 0 <= i < |days| && e in days[i].entries;
    assert days[i] in days;
  }

  /** A successful POST keeps every stored entry within 1..24 hours. */
  lemma PostKeepsValid(store: Store, req: NewEntry, clock: Clock)
    requires ValidStore(store)
    ensures ValidStore(Post(store, req, clock).store)
  {
    var r := Post(store, req, clock);
    if r.reply.Ok? {
      forall i | 0 <= i < |r.store| ensures 1 <= r.store[i].hours <= 24 {
        if i < |store| {
          assert r.store[i] == r.store[..|store|][i];
        }
      }
    }
  }

  /** A DELETE keeps every stored entry within 1..24 hours. */
  lemma DeleteKeepsValid(store: Store, id: Option<string>)
    requires ValidStore(store)
    ensures ValidStore(Delete(store, id).store)
  {
    var r := Delete(store, id);
    if r.reply.Ok? {
      var k := FindIndex(store, id.value).value;
      assert FirstWithId(store, id.value, k);
      forall i | 0 <= i < |r.store| ensures 1 <= r.store[i].hours <= 24 {
        if i >= k {
          assert r.store[i] == store[i + 1];
        }
      }
    }
  }

  /** As written, PUT stores any truthy hours: 25 hours overwrite a valid entry. */
  lemma PutStoresOutOfRangeHours()
    ensures
      var store := [Entry("entry-1", "2024-01-01", "proj-1", "Project Alpha", "Development", "Code Review", 4, "t0", "t0")];
      var r := Put(store, Patch(Some("entry-1"), None, None, None, Some(25), None), Clock(2, "t1", "t1"));
      ValidStore(store) && r.reply.Ok? && r.store[0].hours == 25 && !ValidStore(r.store)
  {
    var store := [Entry("entry-1", "2024-01-01", "proj-1", "Project Alpha", "Development", "Code Review", 4, "t0", "t0")];
    assert FirstWithId(store, "entry-1", 0);
  }

  /** PUT with the range check POST applies: truthy hours outside 1..24 are refused before anything changes. */
  function PutChecked(store: Store, p: Patch, clock: Clock): (r: Handled<Entry>)
    ensures Truthy(p.id) && TruthyNumber(p.hours) && !(1 <= p.hours.value <= 24) ==>
      r == Handled(Fail(400, "Hours must be between 1 and 24"), store)
    ensures !(Truthy(p.id) && TruthyNumber(p.hours) && !(1 <= p.hours.value <= 24)) ==> r == Put(store, p, clock)
  {
    if Truthy(p.id) && TruthyNumber(p.hours) && (p.hours.value < 1 || p.hours.value > 24) then
      Handled(Fail(400, "Hours must be between 1 and 24"), store)
    else
      Put(store, p, clock)
  }

  /** The checked PUT keeps every stored entry within 1..24 hours. */
  lemma PutCheckedKeepsValid(store: Store, p: Patch, clock: Clock)
    requires ValidStore(store)
    ensures ValidStore(PutChecked(store, p, clock).store)
  {
    var r := PutChecked(store, p, clock);
    if r.reply.Ok? {
      var k := FindIndex(store, p.id.value).value;
      assert FirstWithId(store, p.id.value, k);
      forall i | 0 <= i < |r.store| ensures 1 <= r.store[i].hours <= 24 {
        if i != k {
          assert r.store[i] == store[i];
        }
      }
    }
  }

  // ---------------------------------------------------------------------------
  // Dates that name inherited properties
  // ---------------------------------------------------------------------------

  /** The property names a plain JavaScript object `{}` inherits from `Object.prototype`. */
  const InheritedKeys: set<string> := {
    "constructor", "hasOwnProperty", "isPrototypeOf", "propertyIsEnumerable",
    "toString", "toLocaleString", "valueOf", "__proto__",
    "__defineGetter__", "__defineSetter__", "__lookupGetter__", "__lookupSetter__"}

  /**
   * GET as written. `entriesByDate` is a plain object, so for a date that names
   * an inherited property `!entriesByDate[date]` is false, no array is opened,
   * and `.push` is not a function: the throw lands in the `catch` and the reply
   * is 500. Every other selection is listed as `Get` lists it.
   */
  function GetAsWritten(store: Store, weekStart: Option<string>, weekEnd: Option<string>): (r: Reply<Summary>)
    ensures r.Fail? <==> exists e :: e in Select(store, weekStart, weekEnd) && e.date in InheritedKeys
    ensures r.Fail? ==> r == Fail(500, "Failed to fetch entries")
    ensures r.Ok? ==> r.data == Get(store, weekStart, weekEnd)
  {
    if exists e :: e in Select(store, weekStart, weekEnd) && e.date in InheritedKeys then
      Fail(500, "Failed to fetch entries")
    else
      Ok(Get(store, weekStart, weekEnd))
  }

  /**
   * As written, one accepted POST whose date is "constructor" (or any other
   * inherited name) makes every GET without week bounds answer 500 from then on.
   */
  lemma InheritedDateBreaksListing(store: Store, req: NewEntry, clock: Clock)
    requires AllGiven(req) && 1 <= req.hours.value <= 24 && req.date.value in InheritedKeys
    ensures Post(store, req, clock).reply.Ok?
    ensures GetAsWritten(Post(store, req, clock).store, None, None) == Fail(500, "Failed to fetch entries")
  {
    var after := Post(store, req, clock).store;
    assert after[|store|] in Select(after, None, None);
  }

  /** Looking buckets up among the record's own keys, as `Get` does, lists an entry dated "constructor" like any other. */
  lemma OwnKeysListInheritedDate(store: Store, e: Entry)
    requires e in store && e.date in InheritedKeys
    ensures exists d :: d in Get(store, None, None).days && d.date == e.date && e in d.entries
  {
    GetGroupsByDay(store, None, None);
    var i := DayListingEntry(store, e);
    assert Get(store, None, None).days[i] in Get(store, None, None).days;
  }

  /** The index of the day that lists `e` in the unbounded listing. */
  lemma DayListingEntry(store: Store, e: Entry) returns (i: nat)
    requires e in store
    ensures i < |Get(store, None, None).days|
    ensures e in Get(store, None, None).days[i].entries && Get(store, None, None).days[i].date == e.date
  {
    EntryInExactlyOneDay(store, None, None, e);
    i :| 0 <= i < |Get(store, None, None).days| && e in Get(store, None, None).days[i].entries;
  }

  // ---------------------------------------------------------------------------
  // A worked listing
  // ---------------------------------------------------------------------------

  lemma JanuaryFirstBeforeSecond()
    ensures Before("2024-01-01", "2024-01-02")
  {
    var d1, d2 := "2024-01-01", "2024-01-02";
    assert Before(d1[9..], d2[9..]);
    assert Before(d1[8..], d2[8..]);
    assert Before(d1[7..], d2[7..]);
    assert Before(d1[6..], d2[6..]);
    assert Before(d1[5..], d2[5..]);
    assert Before(d1[4..], d2[4..]);
    assert Before(d1[3..], d2[3..]);
    assert Before(d1[2..], d2[2..]);
    assert Before(d1[1..], d2[1..]);
  }

  lemma ExampleSelect(e1: Entry, e2: Entry, e3: Entry, d1: string, d2: string)
    requires d1 != "" && Before(d1, d2)
    requires e1.date == d1 && e2.date == d1 && e3.date == d2
    ensures Select([e1, e2, e3], Some(d1), Some(d2)) == [e1, e2, e3]
  {
    BeforeIrreflexive(d1);
    BeforeIrreflexive(d2);
    BeforeAsymmetric(d1, d2);
    assert InWeek(e1, d1, d2) && InWeek(e2, d1, d2) && InWeek(e3, d1, d2);
    assert [e1][..0] == [] && [e1, e2][..1] == [e1] && [e1, e2, e3][..2] == [e1, e2];
    assert InWeekOnly([e1], d1, d2) == [e1];
    assert InWeekOnly([e1, e2], d1, d2) == [e1, e2];
  }

  lemma ExampleGroup(e1: Entry, e2: Entry, e3: Entry, d1: string, d2: string)
    requires d1 != d2
    requires e1.date == d1 && e2.date == d1 && e3.date == d2
    ensures GroupByDate([e1, e2, e3]) == [Bucket(d1, [e1, e2]), Bucket(d2, [e3])]
  {
    var es := [e1, e2, e3];
    assert es[..2] == [e1, e2] && [e1, e2][..1] == [e1] && [e1][..0] == [];
    var b1 := [Bucket(d1, [e1])];
    assert GroupByDate([e1]) == b1;
    assert BucketFor(b1, d1) == Some(0);
    assert [e1] + [e2] == [e1, e2];
    assert Push(b1, e2) == [Bucket(d1, [e1, e2])];
    assert GroupByDate([e1, e2]) == Push(GroupByDate([e1]), e2);
    assert GroupByDate([e1, e2]) == [Bucket(d1, [e1, e2])];
    assert BucketFor([Bucket(d1, [e1, e2])], d2) == None;
  }

  lemma ExampleSort(x: Day, y: Day)
    requires x.date != y.date && Before(x.date, y.date)
    ensures SortByDate([x, y]) == [x, y]
  {
    assert [y][1..] == [];
    assert SortByDate([y]) == Insert(y, SortByDate([]));
    assert SortByDate([y]) == [y];
    assert [x, y][1..] == [y];
    assert SortByDate([x, y]) == Insert(x, [y]);
    assert Insert(x, [y]) == [x] + [y];
  }

  /** Two entries on one day and one on a later day list as two days, in that order. */
  lemma TwoDayListing(e1: Entry, e2: Entry, e3: Entry, d1: string, d2: string)
    requires d1 != "" && Before(d1, d2)
    requires e1.date == d1 && e2.date == d1 && e3.date == d2
    ensures Get([e1, e2, e3], Some(d1), Some(d2)) ==
      Summary([ToDay(Bucket(d1, [e1, e2])), ToDay(Bucket(d2, [e3]))], SumHours([e1, e2, e3]), TargetHours)
  {
    var es := [e1, e2, e3];
    var bs := [Bucket(d1, [e1, e2]), Bucket(d2, [e3])];
    var days := [ToDay(bs[0]), ToDay(bs[1])];
    BeforeIrreflexive(d1);
    assert Select(es, Some(d1), Some(d2)) == es by { ExampleSelect(e1, e2, e3, d1, d2); }
    assert GroupByDate(es) == bs by { ExampleGroup(e1, e2, e3, d1, d2); }
    assert ToDays(bs) == days;
    assert SortByDate(days) == days by { ExampleSort(days[0], days[1]); }
  }

  lemma ExampleSums(e1: Entry, e2: Entry, e3: Entry)
    requires e1.hours == 3 && e2.hours == 5 && e3.hours == 2
    ensures SumHours([e1, e2]) == 8 && SumHours([e3]) == 2 && SumHours([e1, e2, e3]) == 10
  {
    assert [e1][..0] == [] && [e3][..0] == [];
    assert SumHours([e1]) == 3;
    assert [e1, e2][..1] == [e1];
    assert SumHours([e1, e2]) == 8;
    assert [e1, e2, e3][..2] == [e1, e2];
    assert SumHours([e3]) == 2;
  }

  /** The three-entry example: two entries on one day, one on the next. */
  lemma GroupingExample(e1: Entry, e2: Entry, e3: Entry)
    requires e1.date == "2024-01-01" && e2.date == "2024-01-01" && e3.date == "2024-01-02"
    requires e1.hours == 3 && e2.hours == 5 && e3.hours == 2
    ensures Get([e1, e2, e3], Some("2024-01-01"), Some("2024-01-02")) ==
      Summary([Day("2024-01-01", [e1, e2], 8), Day("2024-01-02", [e3], 2)], 10, 40)
  {
    JanuaryFirstBeforeSecond();
    TwoDayListing(e1, e2, e3, "2024-01-01", "2024-01-02");
    ExampleSums(e1, e2, e3);
  }
}
