/**
 * `filter_due_next_3_days` of the daily planner: keep the merged items whose
 * due instant is not before now and at most three and a half days after it,
 * attach the parsed instant and local date to them, and sort them by due
 * instant. Instants are epoch seconds, now is a `Clock`; the time zone is a
 * fixed offset in seconds east of UTC.
 */
module DueWindow {
  import opened Wrappers
  import opened CanvasData
  import opened Timestamps
  import opened Sorting
  import opened PlannerCollect
  import Seqs

  /** `timedelta(days=3, hours=12)` in seconds. */
  const Horizon: int := 3 * SecondsPerDay + 12 * 3600

  /** An item with the `due_datetime_parsed` and `due_date_parsed` the filter attaches. */
  datatype Scheduled = Scheduled(item: WorkItem, due: int, localDate: int)

  function DueOf(s: Scheduled): int {
    s.due
  }

  /** The filter's decision for one item: `None` when it is skipped. */
  function Schedule(w: WorkItem, now: Clock, offset: int): (r: Option<Scheduled>)
    ensures r.Some? ==> r.value.item == w && !BeforeNow(r.value.due, now) && r.value.due <= now.seconds + Horizon
    ensures r.Some? ==> r.value.localDate == LocalDate(r.value.due, offset)
    ensures r.Some? <==> Truthy(w.dueAt) && ParseInstant(w.dueAt.value).Some?
                         && !BeforeNow(ParseInstant(w.dueAt.value).value, now)
                         && ParseInstant(w.dueAt.value).value <= now.seconds + Horizon
  {
    if !Truthy(w.dueAt) then None
    else
      match ParseInstant(w.dueAt.value)
      case None => None
      case Some(due) =>
        if BeforeNow(due, now) then None
        else if due <= now.seconds + Horizon then Some(Scheduled(w, due, LocalDate(due, offset)))
        else None
  }

  /** The kept items in input order, before the sort. */
  function Window(items: seq<WorkItem>, now: Clock, offset: int): seq<Scheduled> {
    if items == [] then []
    else
      var last := Schedule(items[|items| - 1], now, offset);
      Window(items[..|items| - 1], now, offset) + (if last.Some? then [last.value] else [])
  }

  /** The list `filter_due_next_3_days` returns. */
  function DueSoon(items: seq<WorkItem>, now: Clock, offset: int): seq<Scheduled> {
    SortBy(Window(items, now, offset), DueOf)
  }

  lemma WindowStep(items: seq<WorkItem>, i: nat, now: Clock, offset: int)
    requires i < |items|
    ensures var last := Schedule(items[i], now, offset);
            Window(items[..i + 1], now, offset) == Window(items[..i], now, offset) + (if last.Some? then [last.value] else [])
  {
    assert items[..i + 1][..i] == items[..i];
  }

  method FilterDueSoon(items: seq<WorkItem>, now: Clock, offset: int) returns (dueSoon: seq<Scheduled>)
    ensures dueSoon == DueSoon(items, now, offset)
  {
    dueSoon := [];
    var i := 0;
    while i < |items|
      invariant 0 <= i <= |items|
      invariant dueSoon == Window(items[..i], now, offset)
    {
      WindowStep(items, i, now, offset);
      var w := items[i];
      if Truthy(w.dueAt) {
        match ParseInstant(w.dueAt.value) {
          case None =>
          case Some(due) =>
            if !BeforeNow(due, now) && due <= now.seconds + Horizon {
              dueSoon := dueSoon + [Scheduled(w, due, LocalDate(due, offset))];
            }
        }
      }
      i := i + 1;
    }
    assert items[..|items|] == items;
    dueSoon := SortBy(dueSoon, DueOf);
  }

  lemma WindowLast(items: seq<WorkItem>, now: Clock, offset: int, r: Scheduled)
    requires items != []
    ensures r in Window(items, now, offset) <==>
            r in Window(items[..|items| - 1], now, offset) || Schedule(items[|items| - 1], now, offset) == Some(r)
  {
  }

  /** The window holds exactly the items that `Schedule` keeps, each as scheduled. */
  lemma {:induction false} WindowMembers(items: seq<WorkItem>, now: Clock, offset: int, r: Scheduled)
    ensures r in Window(items, now, offset) <==> r.item in items && Schedule(r.item, now, offset) == Some(r)
  {
    if items != [] {
      WindowMembers(items[..|items| - 1], now, offset, r);
      WindowLast(items, now, offset, r);
      Seqs.InFrontOrLast(items, r.item);
    }
  }

  lemma SortKeepsMembers(win: seq<Scheduled>, r: Scheduled)
    ensures r in SortBy(win, DueOf) <==> r in win
  {
    assert r in SortBy(win, DueOf) <==> r in multiset(SortBy(win, DueOf));
    assert r in win <==> r in multiset(win);
  }

  /**
   * Every item of the result was among the merged items, has a present date
   * that parses to its attached instant, is not before now, is at most
   * 3 days 12 hours after now's second
   * and carries the local date of that instant.
   */
  lemma DueSoonSound(items: seq<WorkItem>, now: Clock, offset: int, r: Scheduled)
    requires r in DueSoon(items, now, offset)
    ensures r.item in items && !BeforeNow(r.due, now) && r.due <= now.seconds + Horizon && r.localDate == LocalDate(r.due, offset)
    ensures Truthy(r.item.dueAt) && ParseInstant(r.item.dueAt.value) == Some(r.due)
  {
    SortKeepsMembers(Window(items, now, offset), r);
    WindowMembers(items, now, offset, r);
  }

  /**
   * Every merged item whose date is present, parses, and lies in the window
   * (both ends included) is in the result; the others are dropped without an
   * error.
   */
  lemma DueSoonComplete(items: seq<WorkItem>, now: Clock, offset: int, w: WorkItem)
    requires w in items && Truthy(w.dueAt) && ParseInstant(w.dueAt.value).Some?
    requires !BeforeNow(ParseInstant(w.dueAt.value).value, now)
    requires ParseInstant(w.dueAt.value).value <= now.seconds + Horizon
    ensures var due := ParseInstant(w.dueAt.value).value;
            Scheduled(w, due, LocalDate(due, offset)) in DueSoon(items, now, offset)
  {
    var due := ParseInstant(w.dueAt.value).value;
    var r := Scheduled(w, due, LocalDate(due, offset));
    WindowMembers(items, now, offset, r);
    SortKeepsMembers(Window(items, now, offset), r);
  }

  /**
   * The result is sorted by due instant, items due at the same instant stay
   * in their merged order, and nothing is added or lost by the sort.
   */
  lemma DueSoonOrdered(items: seq<WorkItem>, now: Clock, offset: int)
    ensures SortedBy(DueSoon(items, now, offset), DueOf)
    ensures multiset(DueSoon(items, now, offset)) == multiset(Window(items, now, offset))
    ensures forall k :: WithKey(DueSoon(items, now, offset), DueOf, k) == WithKey(Window(items, now, offset), DueOf, k)
  {
    SortSorted(Window(items, now, offset), DueOf);
    forall k ensures WithKey(DueSoon(items, now, offset), DueOf, k) == WithKey(Window(items, now, offset), DueOf, k) {
      SortStable(Window(items, now, offset), DueOf, k);
    }
  }

  /**
   * An item due in the very second the planner runs is kept only when the
   * clock shows no microseconds past that second: the skip test is `due < now`
   * on the full clock.
   */
  lemma DueThisSecond(w: WorkItem, now: Clock, offset: int)
    requires Truthy(w.dueAt) && ParseInstant(w.dueAt.value) == Some(now.seconds)
    ensures Schedule(w, now, offset).Some? <==> !now.pastSecond
  {
    SameSecond(now);
  }
}
