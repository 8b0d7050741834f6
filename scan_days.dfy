/**
 * The three-day scan: the active-course filter, the collection of every
 * assignment of every kept course, the calendar-day window
 * `today <= date(due) <= today + 3` (never past), the sort by due instant,
 * and the exam-type and urgency ladders of each printed line. The zone is a
 * fixed offset in seconds.
 */
module ScanDays {
  import opened Wrappers
  import opened Text
  import opened Timestamps
  import opened Sorting
  import opened CanvasData
  import DueWindow
  import DebugBuckets

  datatype ScanAssignment = ScanAssignment(name: Option<string>, dueAt: Option<string>)

  /**
   * A course of the listing. `assignments` is `None` when its assignment
   * request did not answer 200.
   */
  datatype ScanCourse = ScanCourse(
    id: Option<int>,
    name: Option<string>,
    workflowState: Option<string>,
    endAt: Option<string>,
    assignments: Option<seq<ScanAssignment>>)

  datatype ScanInstance = ScanInstance(name: string, courses: seq<ScanCourse>)

  /** An assignment with the `course_name` and `instance_name` the loop attaches. */
  datatype Item = Item(assignment: ScanAssignment, courseName: string, instanceName: string)

  /** A kept item with its `due_datetime_parsed` (an instant) and `due_date_parsed` (a local day). */
  datatype Kept = Kept(item: Item, due: int, localDate: int)

  const EndedDays: int := 60
  const WindowDays: int := 3

  /**
   * The `end_at` test: it is set, it parses, and it lies before
   * `now - timedelta(days=60)`, written as the end plus 60 days being before now.
   */
  predicate EndedLongAgo(c: ScanCourse, now: Clock) {
    Truthy(c.endAt) && ParseInstant(c.endAt.value).Some?
    && BeforeNow(ParseInstant(c.endAt.value).value + EndedDays * SecondsPerDay, now)
  }

  /** The course filter: an id, a state other than completed or deleted, not long ended. */
  function CourseActive(c: ScanCourse, now: Clock): (r: bool)
    ensures r ==> c.id.Some?
    ensures c.workflowState == Some("completed") || c.workflowState == Some("deleted") ==> !r
    ensures r <==> c.id.Some? && GetOr(c.workflowState, "") != "completed"
                   && GetOr(c.workflowState, "") != "deleted" && !EndedLongAgo(c, now)
  {
    if c.id.None? then false
    else if GetOr(c.workflowState, "") in ["completed", "deleted"] then false
    else !EndedLongAgo(c, now)
  }

  /** `active_courses`: the kept courses in listing order. */
  function ActiveCourses(courses: seq<ScanCourse>, now: Clock): seq<ScanCourse> {
    if courses == [] then []
    else
      var c := courses[|courses| - 1];
      ActiveCourses(courses[..|courses| - 1], now) + (if CourseActive(c, now) then [c] else [])
  }

  /** The loop that builds `active_courses`. */
  method CollectActive(courses: seq<ScanCourse>, now: Clock) returns (active: seq<ScanCourse>)
    ensures active == ActiveCourses(courses, now)
  {
    active := [];
    for i := 0 to |courses|
      invariant active == ActiveCourses(courses[..i], now)
    {
      assert courses[..i + 1][..i] == courses[..i];
      var c := courses[i];
      if c.id.None? {
        continue;
      }
      var state := GetOr(c.workflowState, "");
      if state == "completed" || state == "deleted" {
        continue;
      }
      if Truthy(c.endAt) {
        match ParseInstant(c.endAt.value) {
          case None =>
          case Some(end) =>
            if BeforeNow(end + EndedDays * SecondsPerDay, now) {
              continue;
            }
        }
      }
      active := active + [c];
    }
    assert courses[..|courses|] == courses;
  }

  lemma {:induction false} ActiveCoursesMembers(courses: seq<ScanCourse>, now: Clock, c: ScanCourse)
    ensures c in ActiveCourses(courses, now) <==> c in courses && CourseActive(c, now)
  {
    if courses != [] {
      var init := courses[..|courses| - 1];
      ActiveCoursesMembers(init, now, c);
      assert courses == init + [courses[|courses| - 1]];
    }
  }

  /** An `end_at` that does not parse keeps the course, whatever else it says. */
  lemma UnparsableEndKept(c: ScanCourse, now: Clock)
    requires c.id.Some? && c.workflowState.None?
    requires Truthy(c.endAt) && ParseInstant(c.endAt.value).None?
    ensures CourseActive(c, now)
  {
  }

  /**
   * The cut-off is strict: a course that ended in the second exactly 60 days
   * before now is still scanned when the clock shows no microseconds past that
   * second, and skipped otherwise.
   */
  lemma EndedSixtyDaysAgo(c: ScanCourse, now: Clock)
    requires c.id.Some? && c.workflowState == Some("available")
    requires Truthy(c.endAt) && ParseInstant(c.endAt.value) == Some(now.seconds - EndedDays * SecondsPerDay)
    ensures CourseActive(c, now) <==> !now.pastSecond
  {
    SameSecond(now);
  }

  /** The items one kept course contributes: none when its request failed. */
  function CourseItems(instanceName: string, c: ScanCourse): (r: seq<Item>)
    ensures c.assignments.None? ==> r == []
    ensures c.assignments.Some? ==> |r| == |c.assignments.value|
    ensures c.assignments.Some? ==> forall i :: 0 <= i < |r| ==>
              r[i] == Item(c.assignments.value[i], GetOr(c.name, "Unknown"), instanceName)
  {
    match c.assignments
    case None => []
    case Some(list) =>
      seq(|list|, i requires 0 <= i < |list| => Item(list[i], GetOr(c.name, "Unknown"), instanceName))
  }

  function CoursesItems(instanceName: string, courses: seq<ScanCourse>): seq<Item> {
    if courses == [] then []
    else CoursesItems(instanceName, courses[..|courses| - 1]) + CourseItems(instanceName, courses[|courses| - 1])
  }

  /** `all_assignments`: every assignment of every kept course of every instance, in order. */
  function AllItems(instances: seq<ScanInstance>, now: Clock): seq<Item> {
    if instances == [] then []
    else
      var inst := instances[|instances| - 1];
      AllItems(instances[..|instances| - 1], now) + CoursesItems(inst.name, ActiveCourses(inst.courses, now))
  }

  /** The innermost loop: one course's assignments appended to the running list. */
  method AppendCourse(all: seq<Item>, instanceName: string, c: ScanCourse) returns (out: seq<Item>)
    ensures out == all + CourseItems(instanceName, c)
  {
    out := all;
    if c.assignments.Some? {
      var list := c.assignments.value;
      for j := 0 to |list|
        invariant out == all + CourseItems(instanceName, c)[..j]
      {
        assert CourseItems(instanceName, c)[..j + 1] == CourseItems(instanceName, c)[..j] + [Item(list[j], GetOr(c.name, "Unknown"), instanceName)];
        out := out + [Item(list[j], GetOr(c.name, "Unknown"), instanceName)];
      }
      assert CourseItems(instanceName, c)[..|list|] == CourseItems(instanceName, c);
    }
  }

  /** The loop over one instance's kept courses. */
  method AppendCourses(all: seq<Item>, instanceName: string, active: seq<ScanCourse>) returns (out: seq<Item>)
    ensures out == all + CoursesItems(instanceName, active)
  {
    out := all;
    for k := 0 to |active|
      invariant out == all + CoursesItems(instanceName, active[..k])
    {
      assert active[..k + 1][..k] == active[..k];
      assert CoursesItems(instanceName, active[..k + 1])
             == CoursesItems(instanceName, active[..k]) + CourseItems(instanceName, active[k]);
      out := AppendCourse(out, instanceName, active[k]);
    }
    assert active[..|active|] == active;
  }

  /** The collection loop over the instances. */
  method CollectAll(instances: seq<ScanInstance>, now: Clock) returns (all: seq<Item>)
    ensures all == AllItems(instances, now)
  {
    all := [];
    for i := 0 to |instances|
      invariant all == AllItems(instances[..i], now)
    {
      assert instances[..i + 1][..i] == instances[..i];
      var active := CollectActive(instances[i].courses, now);
      all := AppendCourses(all, instances[i].name, active);
    }
    assert instances[..|instances|] == instances;
  }

  lemma {:induction false} AllItemsAppend(a: seq<ScanInstance>, b: seq<ScanInstance>, now: Clock)
    ensures AllItems(a + b, now) == AllItems(a, now) + AllItems(b, now)
  {
    if b == [] {
      assert a + b == a;
    } else {
      assert (a + b)[..|a + b| - 1] == a + b[..|b| - 1];
      AllItemsAppend(a, b[..|b| - 1], now);
    }
  }

  /** Nothing is de-duplicated: an instance listed twice contributes its assignments twice. */
  lemma NoDeduplication(instances: seq<ScanInstance>, now: Clock)
    ensures AllItems(instances + instances, now) == AllItems(instances, now) + AllItems(instances, now)
    ensures |AllItems(instances + instances, now)| == 2 * |AllItems(instances, now)|
  {
    AllItemsAppend(instances, instances, now);
  }

  /** `today <= due_date <= three_days`, for an instant that is not past. */
  predicate InWindow(due: int, now: Clock, offset: int) {
    !BeforeNow(due, now)
    && LocalDate(now.seconds, offset) <= LocalDate(due, offset) <= LocalDate(now.seconds, offset) + WindowDays
  }

  /** The filter's decision for one item: `None` when it is skipped. */
  function Pick(it: Item, now: Clock, offset: int): (r: Option<Kept>)
    ensures r.Some? <==> Truthy(it.assignment.dueAt) && ParseInstant(it.assignment.dueAt.value).Some?
                         && InWindow(ParseInstant(it.assignment.dueAt.value).value, now, offset)
    ensures r.Some? ==> r.value.item == it && Some(r.value.due) == ParseInstant(it.assignment.dueAt.value)
                        && r.value.localDate == LocalDate(r.value.due, offset)
  {
    if !Truthy(it.assignment.dueAt) then None
    else
      match ParseInstant(it.assignment.dueAt.value)
      case None => None
      case Some(due) =>
        if BeforeNow(due, now) then None
        else if LocalDate(now.seconds, offset) <= LocalDate(due, offset) <= LocalDate(now.seconds, offset) + WindowDays then
          Some(Kept(it, due, LocalDate(due, offset)))
        else None
  }

  function Picks(items: seq<Item>, now: Clock, offset: int): seq<Kept> {
    if items == [] then []
    else
      var p := Pick(items[|items| - 1], now, offset);
      Picks(items[..|items| - 1], now, offset) + (if p.Some? then [p.value] else [])
  }

  function DueOf(k: Kept): int {
    k.due
  }

  /** `due_next_3_days` after the sort. */
  function NextThreeDays(items: seq<Item>, now: Clock, offset: int): seq<Kept> {
    SortBy(Picks(items, now, offset), DueOf)
  }

  /** The filtering loop and the sort. */
  method FilterNextThreeDays(items: seq<Item>, now: Clock, offset: int) returns (due: seq<Kept>)
    ensures due == NextThreeDays(items, now, offset)
  {
    var today := LocalDate(now.seconds, offset);
    var threeDays := today + WindowDays;
    due := [];
    for i := 0 to |items|
      invariant due == Picks(items[..i], now, offset)
    {
      assert items[..i + 1][..i] == items[..i];
      var a := items[i];
      if !Truthy(a.assignment.dueAt) {
        continue;
      }
      match ParseInstant(a.assignment.dueAt.value) {
        case None =>
        case Some(d) =>
          if BeforeNow(d, now) {
            continue;
          }
          var dueDate := LocalDate(d, offset);
          if today <= dueDate <= threeDays {
            due := due + [Kept(a, d, dueDate)];
          }
      }
    }
    assert items[..|items|] == items;
    due := SortBy(due, DueOf);
  }

  lemma {:induction false} PicksMembers(items: seq<Item>, now: Clock, offset: int, k: Kept)
    ensures k in Picks(items, now, offset) <==> k.item in items && Pick(k.item, now, offset) == Some(k)
  {
    if items != [] {
      var init := items[..|items| - 1];
      PicksMembers(init, now, offset, k);
      assert items == init + [items[|items| - 1]];
    }
  }

  /**
   * The window holds exactly the items whose date parses to an instant that
   * is not past and whose local date is today or one of the next three days.
   */
  lemma WindowExactly(items: seq<Item>, now: Clock, offset: int, k: Kept)
    ensures k in NextThreeDays(items, now, offset) <==>
            k.item in items && Truthy(k.item.assignment.dueAt)
            && ParseInstant(k.item.assignment.dueAt.value) == Some(k.due)
            && InWindow(k.due, now, offset) && k.localDate == LocalDate(k.due, offset)
  {
    var p := Picks(items, now, offset);
    assert k in NextThreeDays(items, now, offset) <==> k in multiset(NextThreeDays(items, now, offset));
    assert k in p <==> k in multiset(p);
    PicksMembers(items, now, offset, k);
  }

  /** A kept item is due from now on and printed with a day count between 0 and 3. */
  lemma KeptDays(items: seq<Item>, now: Clock, offset: int, k: Kept)
    requires k in NextThreeDays(items, now, offset)
    ensures !BeforeNow(k.due, now)
    ensures 0 <= k.localDate - LocalDate(now.seconds, offset) <= WindowDays
  {
    WindowExactly(items, now, offset, k);
  }

  /** Soonest first; items due at the same instant keep their collection order. */
  lemma WindowOrder(items: seq<Item>, now: Clock, offset: int)
    ensures var w := NextThreeDays(items, now, offset);
            forall i, j :: 0 <= i < j < |w| ==> w[i].due <= w[j].due
    ensures forall key :: WithKey(NextThreeDays(items, now, offset), DueOf, key)
                          == WithKey(Picks(items, now, offset), DueOf, key)
  {
    var p := Picks(items, now, offset);
    SortSorted(p, DueOf);
    forall key ensures WithKey(SortBy(p, DueOf), DueOf, key) == WithKey(p, DueOf, key) {
      SortStable(p, DueOf, key);
    }
  }

  /**
   * The window is a calendar-day bound, not an instant cut-off: when the scan
   * runs before local noon, an item due in the last second of the third day
   * ahead is kept, although it lies beyond the daily planner's horizon of
   * three days and twelve hours.
   */
  lemma CalendarWindowWiderThanPlanner(it: Item, now: Clock, offset: int)
    requires LocalTimeOfDay(now.seconds, offset) < 12 * 3600 - 1
    requires Truthy(it.assignment.dueAt)
    requires ParseInstant(it.assignment.dueAt.value)
             == Some((LocalDate(now.seconds, offset) + WindowDays + 1) * SecondsPerDay - offset - 1)
    ensures Pick(it, now, offset).Some?
    ensures Pick(it, now, offset).value.due > now.seconds + DueWindow.Horizon
  {
    var today := LocalDate(now.seconds, offset);
    var due := (today + WindowDays + 1) * SecondsPerDay - offset - 1;
    assert now.seconds + offset == today * SecondsPerDay + LocalTimeOfDay(now.seconds, offset);
    assert due + offset == (today + WindowDays) * SecondsPerDay + (SecondsPerDay - 1);
    assert LocalDate(due, offset) == today + WindowDays;
  }

  /** The exam type the ladder picks from a lowercased name: first match of midterm, final, exam, test. */
  function ExamType(nameLower: string): (r: string)
    ensures r == "MIDTERM" <==> Contains(nameLower, "midterm")
    ensures r == "FINAL" <==> !Contains(nameLower, "midterm") && Contains(nameLower, "final")
    ensures r == "EXAM" <==> !Contains(nameLower, "midterm") && !Contains(nameLower, "final")
                             && Contains(nameLower, "exam")
    ensures r == "TEST" <==> !Contains(nameLower, "midterm") && !Contains(nameLower, "final")
                             && !Contains(nameLower, "exam") && Contains(nameLower, "test")
  {
    if Contains(nameLower, "midterm") then "MIDTERM"
    else if Contains(nameLower, "final") then "FINAL"
    else if Contains(nameLower, "exam") then "EXAM"
    else if Contains(nameLower, "test") then "TEST"
    else ""
  }

  /** A name is flagged as an exam exactly when one of the four words occurs in it, in any case. */
  lemma ExamIffKeyword(name: string)
    ensures ExamType(Lower(name)) != "" <==>
            exists w :: w in ["midterm", "final", "exam", "test"] && Contains(Lower(name), w)
  {
    var s := Lower(name);
    if ExamType(s) != "" {
      if Contains(s, "midterm") {
        assert "midterm" in ["midterm", "final", "exam", "test"];
      } else if Contains(s, "final") {
        assert "final" in ["midterm", "final", "exam", "test"];
      } else if Contains(s, "exam") {
        assert "exam" in ["midterm", "final", "exam", "test"];
      } else {
        assert "test" in ["midterm", "final", "exam", "test"];
      }
    }
  }

  /** The ladder that sets `is_exam` and `exam_type` for a printed line. */
  method DetectExam(name: Option<string>) returns (isExam: bool, examType: string)
    ensures isExam <==> examType != ""
    ensures examType == ExamType(Lower(GetOr(name, "Unnamed")))
  {
    var nameLower := Lower(GetOr(name, "Unnamed"));
    isExam := false;
    examType := "";
    if Contains(nameLower, "midterm") {
      isExam := true;
      examType := "MIDTERM";
    } else if Contains(nameLower, "final") {
      isExam := true;
      examType := "FINAL";
    } else if Contains(nameLower, "exam") {
      isExam := true;
      examType := "EXAM";
    } else if Contains(nameLower, "test") {
      isExam := true;
      examType := "TEST";
    }
  }

  /** The marker of a line: red, yellow, green or blue. */
  datatype ScanMarker = Red | Yellow | Green | Blue

  /** The `urgency` of a printed line, as its marker and its words. */
  function Urgency(daysUntil: int): (r: (ScanMarker, string))
    ensures r.0 == Red <==> daysUntil == 0
    ensures r.0 == Yellow <==> daysUntil == 1
    ensures r.0 == Green <==> daysUntil == 2
    ensures r.0 == Blue <==> daysUntil != 0 && daysUntil != 1 && daysUntil != 2
  {
    if daysUntil == 0 then (Red, "DUE TODAY")
    else if daysUntil == 1 then (Yellow, "DUE TOMORROW")
    else if daysUntil == 2 then (Green, "DUE IN 2 DAYS")
    else (Blue, "DUE IN " + IntString(daysUntil) + " DAYS")
  }

  /**
   * Within the window the scan's words agree with the debug listing's for the
   * same day count; so only the day-3 line of a kept item is blue.
   */
  lemma LaddersAgree(n: int)
    requires 0 <= n <= WindowDays
    ensures Urgency(n).1 == DebugBuckets.UpcomingLabel(n).1
  {
    if n == 2 {
      assert IntString(2) == "2";
    }
  }

  lemma KeptUrgency(items: seq<Item>, now: Clock, offset: int, k: Kept)
    requires k in NextThreeDays(items, now, offset)
    ensures Urgency(k.localDate - LocalDate(now.seconds, offset)).0 == Blue ==> k.localDate == LocalDate(now.seconds, offset) + WindowDays
  {
    KeptDays(items, now, offset, k);
  }
}
