/**
 * The week's list view: it asks the entries route for the week and lays the
 * answer out over exactly five working days, filling the days the route did
 * not mention with empty ones.
 */
module ListView {
  import opened Common
  import opened Entries

  /** How many days the view shows, Monday to Friday. */
  const WorkDays: nat := 5

  /** The view's state: its days, the header's totals and the error line. */
  datatype ListState = ListState(days: seq<Day>, totalHours: int, targetHours: int, error: Option<string>)

  /** The state on mount: no days, nothing logged, a target of 40. */
  const Initial: ListState := ListState([], 0, TargetHours, None)

  /** `k` is the first position of `days` holding a day dated `date`. */
  predicate FirstDated(days: seq<Day>, date: string, k: int) {
    0 <= k < |days| && days[k].date == date && forall j :: 0 <= j < k ==> days[j].date != date
  }

  /** `days.find((d) => d.date === date)`: the first day with that date. */
  function FindDay(days: seq<Day>, date: string): (r: Option<Day>)
    ensures r.Some? ==> exists k :: FirstDated(days, date, k) && days[k] == r.value
    ensures r.None? ==> forall k :: 0 <= k < |days| ==> days[k].date != date
  {
    if |days| == 0 then None
    else if days[0].date == date then
      assert FirstDated(days, date, 0);
      Some(days[0])
    else
      var r := FindDay(days[1..], date);
      assert r.Some? ==> exists k :: FirstDated(days, date, k) && days[k] == r.value by {
        if r.Some? {
          var k :| FirstDated(days[1..], date, k) && days[1..][k] == r.value;
          assert FirstDated(days, date, k + 1) by {
            forall j | 0 <= j < k + 1 ensures days[j].date != date {
              if j > 0 {
                assert days[j] == days[1..][j - 1];
              }
            }
          }
        }
      }
      assert r.None? ==> forall k :: 0 <= k < |days| ==> days[k].date != date by {
        if r.None? {
          forall k | 0 <= k < |days| ensures days[k].date != date {
            if k > 0 {
              assert days[k] == days[1..][k - 1];
            }
          }
        }
      }
      r
  }

  /** One row of the five: the server's day for that date if there is one, else an empty day. */
  function MergedDay(server: seq<Day>, date: string): Day {
    match FindDay(server, date)
    case Some(d) => Day(date, d.entries, d.totalHours)
    case None => Day(date, [], 0)
  }

  /**
   * The loop in `fetchEntries` after a successful reply, then the header's
   * totals; `dateAt(i)` is the ISO date `i` days after the week's Monday. A
   * failed reply only sets the error line.
   */
  function FetchEntries(s: ListState, reply: Reply<Summary>, dateAt: nat -> string): (r: ListState)
    ensures reply.Fail? ==> r.(error := s.error) == s
    ensures reply.Fail? ==> r.error == Some(if reply.error == "" then "Failed to fetch entries" else reply.error)
    ensures reply.Ok? ==>
      && |r.days| == WorkDays
      && r.error.None?
      && r.totalHours == reply.data.totalHours
      && r.targetHours == reply.data.targetHours
    ensures reply.Ok? ==> forall i :: 0 <= i < |r.days| ==> r.days[i].date == dateAt(i)
  {
    match reply
    case Fail(_, message) => s.(error := Some(if message == "" then "Failed to fetch entries" else message))
    case Ok(summary) =>
      var days := seq(WorkDays, i requires 0 <= i => MergedDay(summary.days, dateAt(i)));
      ListState(days, summary.totalHours, summary.targetHours, None)
  }

  /**
   * The first fetch after mount: a good reply fills all five rows and the
   * header; a failed one leaves no rows, nothing logged and the target of 40.
   */
  lemma FirstFetch(reply: Reply<Summary>, dateAt: nat -> string)
    ensures reply.Ok? ==> |FetchEntries(Initial, reply, dateAt).days| == WorkDays
    ensures reply.Fail? ==>
      var r := FetchEntries(Initial, reply, dateAt);
      && r.days == []
      && r.totalHours == 0
      && r.targetHours == TargetHours
      && r.error.Some?
  {
  }

  /** Each of the five rows carries the server's entries and total for its date, or none and 0 when the server sent no such day. */
  lemma RowsFollowServerDays(s: ListState, summary: Summary, dateAt: nat -> string, i: nat)
    requires i < WorkDays
    ensures
      var r := FetchEntries(s, Ok(summary), dateAt);
      && ((exists d :: d in summary.days && d.date == dateAt(i)) ==>
            exists d :: d in summary.days && d.date == dateAt(i) && r.days[i].entries == d.entries && r.days[i].totalHours == d.totalHours)
      && ((forall d :: d in summary.days ==> d.date != dateAt(i)) ==> r.days[i].entries == [] && r.days[i].totalHours == 0)
  {
    var r := FetchEntries(s, Ok(summary), dateAt);
    assert r.days[i] == MergedDay(summary.days, dateAt(i));
    if exists d :: d in summary.days && d.date == dateAt(i) {
      var d :| d in summary.days && d.date == dateAt(i);
      var k :| 0 <= k < |summary.days| && summary.days[k] == d;
      assert FindDay(summary.days, dateAt(i)).Some?;
    }
  }

  /**
   * Fed the entries route's answer for the week, each row shows exactly the
   * stored entries of the week dated that day, in store order, and their hour
   * sum; the header shows the week's total, not a sum over the five rows.
   */
  lemma RowsShowStoredEntries(s: ListState, store: Store, dateAt: nat -> string, i: nat)
    requires i < WorkDays
    ensures
      var selected := Select(store, Some(dateAt(0)), Some(dateAt(4)));
      var r := FetchEntries(s, Ok(Get(store, Some(dateAt(0)), Some(dateAt(4)))), dateAt);
      && r.days[i].entries == OnDate(selected, dateAt(i))
      && r.days[i].totalHours == SumHours(OnDate(selected, dateAt(i)))
      && r.totalHours == SumHours(selected)
  {
    var ws, we := Some(dateAt(0)), Some(dateAt(4));
    var selected := Select(store, ws, we);
    var summary := Get(store, ws, we);
    var date := dateAt(i);
    GetGroupsByDay(store, ws, we);
    RowsFollowServerDays(s, summary, dateAt, i);
    if forall d :: d in summary.days ==> d.date != date {
      if |OnDate(selected, date)| > 0 {
        var e := OnDate(selected, date)[0];
        OnDateMember(selected, date, e);
        assert false;
      }
    }
  }
}
