/**
 * The pure decisions of the daily planner: major-test detection, the priority
 * symbol, the split of the generated action plan into its two sections, the
 * ordinal suffix of a day of the month and the course code shown in the digest.
 */
module PlannerClassify {
  import opened Wrappers
  import opened Text
  import opened PlannerCollect

  /**
   * `is_major_test`: the lowercased name holds one of the major phrases, or
   * `exam` together with at least 50 points, or the lowercased description
   * names the proctoring browser.
   */
  function IsMajorTest(w: WorkItem): bool {
    var name := Lower(w.name);
    var description := Lower(w.description);
    if Contains(name, "midterm") || Contains(name, "final exam")
       || Contains(name, "final test") || Contains(name, "midterm exam") then true
    else if Contains(name, "exam") && w.points >= 50 then true
    else Contains(description, "respondus") || Contains(description, "lockdown browser")
  }

  lemma ContainsAt(s: string, p: string, i: nat)
    requires OccursAt(s, p, i)
    ensures Contains(s, p)
  {
    ContainsIff(s, p);
  }

  /** A text in which the one-character pattern does not occur lacks that character. */
  lemma LacksChar(s: string, c: char)
    requires !Contains(s, [c])
    ensures c !in s
  {
    if c in s {
      var i :| 0 <= i < |s| && s[i] == c;
      assert s[i..i + 1] == [c];
      ContainsAt(s, [c], i);
    }
  }

  lemma ContainsPrefix(s: string, p: string, q: string)
    requires Contains(s, p + q)
    ensures Contains(s, p)
  {
    ContainsIff(s, p + q);
    var i :| OccursAt(s, p + q, i);
    assert s[i..i + |p|] == (p + q)[..|p|] == p;
    ContainsAt(s, p, i);
  }

  lemma ContainsMiddle(a: string, p: string, b: string)
    ensures Contains(a + p + b, p)
  {
    assert (a + p + b)[|a|..|a| + |p|] == p;
    ContainsAt(a + p + b, p, |a|);
  }

  /** The fourth phrase never decides anything: a name holding `midterm exam` already holds `midterm`. */
  lemma MidtermExamRedundant(w: WorkItem)
    requires Contains(Lower(w.name), "midterm exam")
    ensures Contains(Lower(w.name), "midterm") && IsMajorTest(w)
  {
    assert "midterm exam" == "midterm" + " exam";
    ContainsPrefix(Lower(w.name), "midterm", " exam");
  }

  lemma LowerLiteral(s: string, l: string)
    requires |s| == |l| && forall i :: 0 <= i < |s| ==> LowerChar(s[i]) == l[i]
    ensures Lower(s) == l
  {
  }

  lemma LowerConcat(a: string, b: string)
    ensures Lower(a + b) == Lower(a) + Lower(b)
  {
  }

  /** "Midterm Exam 1" is major whatever its points. */
  lemma MidtermExample(points: int)
    ensures IsMajorTest(WorkItem("Midterm Exam 1", None, points, "C", "#", ""))
  {
    LowerLiteral("Midterm Exam 1", "midterm exam 1");
    ContainsAt("midterm exam 1", "midterm", 0);
  }

  /** "Exam 3" is major with 50 points and not with 40. */
  lemma ExamPointsExample()
    ensures !IsMajorTest(WorkItem("Exam 3", None, 40, "C", "#", ""))
    ensures IsMajorTest(WorkItem("Exam 3", None, 50, "C", "#", ""))
  {
    LowerLiteral("Exam 3", "exam 3");
    ContainsAt("exam 3", "exam", 0);
    assert !Contains("", "respondus");
    assert !Contains("", "lockdown browser");
  }

  /** An unrelated name is major when the description mentions the Respondus LockDown Browser. */
  lemma RespondusExample()
    ensures IsMajorTest(WorkItem("Quiz", None, 10, "C", "#", "Requires Respondus LockDown Browser"))
  {
    var a, b := "Requires ", " LockDown Browser";
    RespondusSplit();
    LowerConcat(a, "Respondus");
    LowerConcat(a + "Respondus", b);
    LowerLiteral("Respondus", "respondus");
    ContainsMiddle(Lower(a), "respondus", Lower(b));
  }

  lemma RespondusSplit()
    ensures "Requires Respondus LockDown Browser" == "Requires " + "Respondus" + " LockDown Browser"
  {
  }

  /** The four symbols of `get_priority_symbol`. */
  datatype Priority = MajorTest | DueToday | DueTomorrow | Routine

  /**
   * `get_priority_symbol`: a major test first, whatever its date; otherwise
   * the distance from `today` to the attached local due date (when there is
   * one) decides between today, tomorrow and routine.
   */
  function PriorityOf(w: WorkItem, dueDate: Option<int>, today: int): (r: Priority)
    ensures IsMajorTest(w) <==> r == MajorTest
    ensures r == DueToday <==> !IsMajorTest(w) && dueDate == Some(today)
    ensures r == DueTomorrow <==> !IsMajorTest(w) && dueDate == Some(today + 1)
    ensures r == Routine <==> !IsMajorTest(w) && (dueDate.None? || dueDate.value - today !in {0, 1})
  {
    if IsMajorTest(w) then MajorTest
    else if dueDate.Some? && dueDate.value - today == 0 then DueToday
    else if dueDate.Some? && dueDate.value - today == 1 then DueTomorrow
    else Routine
  }

  /** The two sections of the generated action plan. */
  datatype Sections = Sections(actionPlan: string, tips: string)

  /**
   * The plan used when the completion request fails. The bullets are the
   * characters the source file holds, a doubly encoded bullet sign.
   */
  const Fallback: Sections :=
    Sections("1. Review requirements\n2. Complete work\n3. Submit",
             "\U{00E2}\U{20AC}\U{00A2} Start early\n\U{00E2}\U{20AC}\U{00A2} Check rubric")

  /** The text after the first `TIPS:` of `plan` keeps no `ACTION_PLAN:` that `plan` lacks. */
  lemma SecondLacks(plan: string, sep: string, p: string)
    requires sep != [] && Contains(plan, sep) && !Contains(plan, p)
    ensures !Contains(SplitSecond(plan, sep), p)
  {
    var i := IndexOf(plan, sep).value;
    var rest := plan[i + |sep|..];
    var tips := SplitSecond(plan, sep);
    assert tips == rest[..|tips|];
    SliceLacks(plan, i + |sep|, |plan|, p);
    assert plan[i + |sep|..|plan|] == rest;
    SliceLacks(rest, 0, |tips|, p);
  }

  lemma HeadLacks(plan: string, sep: string, p: string)
    requires sep != [] && !Contains(plan, p)
    ensures !Contains(SplitHead(plan, sep), p)
  {
    var head := SplitHead(plan, sep);
    assert head == plan[..|head|];
    SliceLacks(plan, 0, |head|, p);
  }

  /** The sections cut from the text after the first `ACTION_PLAN:`. */
  function PlanSections(plan: string): (r: Sections)
    requires !Contains(plan, "ACTION_PLAN:")
    ensures !Contains(r.actionPlan, "ACTION_PLAN:") && !Contains(r.actionPlan, "TIPS:")
    ensures !Contains(r.tips, "ACTION_PLAN:") && !Contains(r.tips, "TIPS:")
  {
    if Contains(plan, "TIPS:") then
      var head := SplitHead(plan, "TIPS:");
      var tips := SplitSecond(plan, "TIPS:");
      HeadLacks(plan, "TIPS:", "ACTION_PLAN:");
      SecondLacks(plan, "TIPS:", "ACTION_PLAN:");
      StripLacks(head, "ACTION_PLAN:");
      StripLacks(head, "TIPS:");
      StripLacks(tips, "ACTION_PLAN:");
      StripLacks(tips, "TIPS:");
      Sections(Strip(head), Strip(tips))
    else
      StripLacks(plan, "ACTION_PLAN:");
      StripLacks(plan, "TIPS:");
      Sections(Strip(plan), "")
  }

  /**
   * The section split of `generate_ai_action_plan`. `None` stands for a
   * failed request or a reply whose content cannot be read.
   */
  function ParseSections(reply: Option<string>): (r: Sections)
    ensures reply.None? ==> r == Fallback
    ensures reply.Some? && !Contains(reply.value, "ACTION_PLAN:") ==> r == Sections("", "")
    ensures reply.Some? ==> !Contains(r.actionPlan, "ACTION_PLAN:") && !Contains(r.actionPlan, "TIPS:")
    ensures reply.Some? ==> !Contains(r.tips, "ACTION_PLAN:") && !Contains(r.tips, "TIPS:")
  {
    match reply
    case None => Fallback
    case Some(text) =>
      if !Contains(text, "ACTION_PLAN:") then
        assert !Contains("", "ACTION_PLAN:") && !Contains("", "TIPS:");
        Sections("", "")
      else PlanSections(SplitSecond(text, "ACTION_PLAN:"))
  }

  /** The `k`-th character of an occurrence of `p` is `p[k]`. */
  lemma OccursChar(s: string, p: string, i: int, k: int)
    requires OccursAt(s, p, i) && 0 <= k < |p|
    ensures s[i + k] == p[k]
  {
    assert s[i..i + |p|][k] == s[i + k];
  }

  lemma LacksColonPattern(s: string, p: string)
    requires p != [] && p[|p| - 1] == ':' && ':' !in s
    ensures !Contains(s, p)
  {
    ContainsIff(s, p);
    forall j | OccursAt(s, p, j) ensures false {
      OccursChar(s, p, j, |p| - 1);
    }
  }

  /** The only colon of `plan + "TIPS:" + tips` is the one of `TIPS:`. */
  lemma OnlyColon(plan: string, tips: string, j: int)
    requires ':' !in plan && ':' !in tips
    requires 0 <= j < |plan + "TIPS:" + tips| && (plan + "TIPS:" + tips)[j] == ':'
    ensures j == |plan| + 4
  {
  }

  lemma RestLacksMarker(plan: string, tips: string)
    requires ':' !in plan && ':' !in tips
    ensures !Contains(plan + "TIPS:" + tips, "ACTION_PLAN:")
  {
    var rest := plan + "TIPS:" + tips;
    assert rest[|plan|] == 'T';
    ContainsIff(rest, "ACTION_PLAN:");
    forall j | OccursAt(rest, "ACTION_PLAN:", j) ensures false {
      OccursChar(rest, "ACTION_PLAN:", j, 11);
      OnlyColon(plan, tips, j + 11);
      OccursChar(rest, "ACTION_PLAN:", j, 7);
    }
  }

  lemma RestTipsAt(plan: string, tips: string)
    requires ':' !in plan && ':' !in tips
    ensures IndexOf(plan + "TIPS:" + tips, "TIPS:") == Some(|plan|)
  {
    var rest := plan + "TIPS:" + tips;
    assert rest[|plan|..|plan| + 5] == "TIPS:";
    assert OccursAt(rest, "TIPS:", |plan|);
    var r := IndexOf(rest, "TIPS:");
    assert r.Some?;
    OccursChar(rest, "TIPS:", r.value, 4);
    OnlyColon(plan, tips, r.value + 4);
  }

  lemma SplitAfterMarker(plan: string, tips: string)
    requires ':' !in plan && ':' !in tips
    ensures Contains("ACTION_PLAN:" + plan + "TIPS:" + tips, "ACTION_PLAN:")
    ensures SplitSecond("ACTION_PLAN:" + plan + "TIPS:" + tips, "ACTION_PLAN:") == plan + "TIPS:" + tips
  {
    var text := "ACTION_PLAN:" + plan + "TIPS:" + tips;
    var rest := plan + "TIPS:" + tips;
    assert text[0..12] == "ACTION_PLAN:";
    assert IndexOf(text, "ACTION_PLAN:") == Some(0);
    assert text[12..] == rest;
    RestLacksMarker(plan, tips);
  }

  /**
   * The round trip: a reply written as `ACTION_PLAN:` + plan + `TIPS:` + tips,
   * with sections free of colons and of surrounding whitespace, gives back
   * exactly those sections.
   */
  lemma ParseSectionsRoundTrip(plan: string, tips: string)
    requires ':' !in plan && ':' !in tips
    requires Strip(plan) == plan && Strip(tips) == tips
    ensures ParseSections(Some("ACTION_PLAN:" + plan + "TIPS:" + tips)) == Sections(plan, tips)
  {
    var rest := plan + "TIPS:" + tips;
    SplitAfterMarker(plan, tips);
    RestTipsAt(plan, tips);
    assert rest[..|plan|] == plan;
    assert rest[|plan| + 5..] == tips;
    LacksColonPattern(tips, "TIPS:");
    assert SplitSecond(rest, "TIPS:") == tips;
    assert SplitHead(rest, "TIPS:") == plan;
  }

  /**
   * The ordinal suffix of the digest's date headers: `th` for 4..20 and
   * 24..30, otherwise `["st", "nd", "rd"][day % 10 - 1]`, whose index is in
   * range for every day of a month.
   */
  function OrdinalSuffix(day: int): (r: string)
    requires 1 <= day <= 31
  {
    if 4 <= day <= 20 || 24 <= day <= 30 then "th"
    else
      assert 1 <= day % 10 <= 3;
      ["st", "nd", "rd"][day % 10 - 1]
  }

  /** English ordinal suffixes: `th` for 11..13, otherwise by the last digit. */
  function EnglishSuffix(n: nat): string {
    if 11 <= n % 100 <= 13 then "th"
    else if n % 10 == 1 then "st"
    else if n % 10 == 2 then "nd"
    else if n % 10 == 3 then "rd"
    else "th"
  }

  /** The digest's suffix is the English one for every day of a month. */
  lemma OrdinalSuffixEnglish(day: int)
    requires 1 <= day <= 31
    ensures OrdinalSuffix(day) == EnglishSuffix(day)
  {
    if 4 <= day <= 20 || 24 <= day <= 30 {
    } else {
      assert day in {1, 2, 3, 21, 22, 23, 31};
    }
  }

  /** The text before the first `(`, stripped, when there is one. */
  function CourseHead(course: string): string {
    if Contains(course, "(") then Strip(SplitHead(course, "(")) else course
  }

  /**
   * The course code of a digest line: the name before its first `(`, with
   * all spaces removed ("MGMT 311 (Winter 2026; 23330)" gives "MGMT311").
   */
  function CourseCode(course: string): (r: string)
    ensures ' ' !in r && '(' !in r
    ensures forall c :: c in r ==> c in course
  {
    var head := CourseHead(course);
    assert '(' !in head by {
      if Contains(course, "(") {
        var h := SplitHead(course, "(");
        StripLacks(h, "(");
        LacksChar(Strip(h), '(');
      } else {
        LacksChar(course, '(');
      }
    }
    assert forall c :: c in head ==> c in course by {
      if Contains(course, "(") {
        StripChars(SplitHead(course, "("));
      }
    }
    RemoveCharGone(head, ' ');
    RemoveSubset(head, " ");
    ReplaceAll(head, " ", "")
  }

  lemma {:induction false} ReplaceAbsent(s: string, c: char)
    requires c !in s
    ensures ReplaceAll(s, [c], "") == s
  {
    if |s| >= 1 {
      ReplaceAbsent(s[1..], c);
      assert s[..1] != [c] by { assert s[..1][0] == s[0]; }
      assert s == [s[0]] + s[1..];
    }
  }

  /** Extracting the code of a course code changes nothing. */
  lemma CourseCodeIdempotent(course: string)
    ensures CourseCode(CourseCode(course)) == CourseCode(course)
  {
    var r := CourseCode(course);
    if Contains(r, "(") {
      ContainsIff(r, "(");
      var i :| OccursAt(r, "(", i);
    }
    assert CourseHead(r) == r;
    ReplaceAbsent(r, ' ');
  }

  lemma IndexOfChar(s: string, c: char, i: int)
    requires 0 <= i < |s| && s[i] == c && forall k :: 0 <= k < i ==> s[k] != c
    ensures IndexOf(s, [c]) == Some(i)
  {
    assert OccursAt(s, [c], i);
    var r := IndexOf(s, [c]);
    OccursChar(s, [c], r.value, 0);
  }

  lemma ExampleSplit()
    ensures Contains("MGMT 311 (Winter 2026; 23330)", "(")
    ensures SplitHead("MGMT 311 (Winter 2026; 23330)", "(") == "MGMT 311 "
  {
    var c := "MGMT 311 (Winter 2026; 23330)";
    assert c[..10] == "MGMT 311 (";
    IndexOfChar(c, '(', 9);
    ContainsAt(c, "(", 9);
  }

  lemma ExampleHead()
    ensures CourseHead("MGMT 311 (Winter 2026; 23330)") == "MGMT 311"
  {
    ExampleSplit();
    ExampleStrip();
  }

  lemma ExampleStrip()
    ensures Strip("MGMT 311 ") == "MGMT 311"
  {
    var s, t := "MGMT 311 ", "MGMT 311";
    assert !IsSpace(s[0]);
    assert TrimStart(s) == s;
    assert s[..|s| - 1] == t && IsSpace(s[|s| - 1]);
    assert !IsSpace(t[|t| - 1]);
  }

  lemma ExampleSpaces()
    ensures ReplaceAll("MGMT 311", " ", "") == "MGMT311"
  {
    assert "MGMT 311" == "MGMT" + [' '] + "311";
    ReplaceOnce("MGMT", "311", ' ');
  }

  /** Removing the one occurrence of `c` between `a` and `b` joins them. */
  lemma {:induction false} ReplaceOnce(a: string, b: string, c: char)
    requires c !in a && c !in b
    ensures ReplaceAll(a + [c] + b, [c], "") == a + b
  {
    var s := a + [c] + b;
    if a == [] {
      assert s[..1] == [c] && s[1..] == b;
      ReplaceAbsent(b, c);
    } else {
      ReplaceOnce(a[1..], b, c);
      assert s[..1] != [c] by { assert s[..1][0] == a[0]; }
      assert s[1..] == a[1..] + [c] + b;
      assert [a[0]] + (a[1..] + b) == a + b;
    }
  }

  /** The example of the source's own comment. */
  lemma CourseCodeExample()
    ensures CourseCode("MGMT 311 (Winter 2026; 23330)") == "MGMT311"
  {
    ExampleHead();
    ExampleSpaces();
  }
}
