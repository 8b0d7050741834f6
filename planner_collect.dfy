/**
 * `get_canvas_all_items` of the daily planner: the planner view and then the
 * assignments of every active course are normalised into one record shape and
 * merged, keeping the first record seen for each key `name + "_" + str(due_at)`.
 * `main` concatenates the lists of all instances without merging them again.
 */
module PlannerCollect {
  import opened Wrappers
  import opened CanvasData
  import Seqs

  /** The normalised assignment dict built by the merge. */
  datatype WorkItem = WorkItem(
    name: string,
    dueAt: Option<string>,
    points: int,
    courseName: string,
    htmlUrl: string,
    description: string)

  /** A planner entry: its date is taken as is, even when null. */
  function FromPlanner(p: PlannerRecord): WorkItem {
    WorkItem(GetOr(p.title, "Unnamed"), p.plannableDate, PointsOr0(p.points),
             GetOr(p.contextName, "Unknown"), GetOr(p.htmlUrl, "#"), GetOr(p.description, ""))
  }

  /** An assignment of course `c`. */
  function FromAssignment(a: AssignmentRecord, c: CourseRecord): WorkItem {
    WorkItem(GetOr(a.name, "Unnamed"), a.dueAt, PointsOr0(a.points),
             GetOr(c.name, "Unknown"), GetOr(a.htmlUrl, "#"), GetOr(a.description, ""))
  }

  /** `str(due_at)` inside the f-string: a null date prints as `None`. */
  function DueText(d: Option<string>): string {
    match d
    case Some(s) => s
    case None => "None"
  }

  /** The de-duplication key `f"{name}_{due_at}"`. */
  function Key(w: WorkItem): string {
    w.name + "_" + DueText(w.dueAt)
  }

  function KeysOf(s: seq<WorkItem>): set<string> {
    if s == [] then {} else KeysOf(s[..|s| - 1]) + {Key(s[|s| - 1])}
  }

  predicate NoDupKeys(s: seq<WorkItem>) {
    forall i, j :: 0 <= i < j < |s| ==> Key(s[i]) != Key(s[j])
  }

  /**
   * The merge with a set of seen keys: walk the stream and append an item
   * only when its key has not been seen.
   */
  function Dedup(s: seq<WorkItem>): seq<WorkItem> {
    if s == [] then []
    else
      var d := Dedup(s[..|s| - 1]);
      if Key(s[|s| - 1]) in KeysOf(d) then d else d + [s[|s| - 1]]
  }

  lemma KeysOfSnoc(s: seq<WorkItem>, x: WorkItem)
    ensures KeysOf(s + [x]) == KeysOf(s) + {Key(x)}
  {
    assert (s + [x])[..|s|] == s;
  }

  lemma DedupSnoc(s: seq<WorkItem>, x: WorkItem)
    ensures Dedup(s + [x]) == if Key(x) in KeysOf(Dedup(s)) then Dedup(s) else Dedup(s) + [x]
  {
    assert (s + [x])[..|s|] == s;
  }

  lemma {:induction false} KeysOfIn(s: seq<WorkItem>, k: string)
    ensures k in KeysOf(s) <==> exists i :: 0 <= i < |s| && Key(s[i]) == k
  {
    if s != [] {
      var t := s[..|s| - 1];
      KeysOfIn(t, k);
      if exists i :: 0 <= i < |t| && Key(t[i]) == k {
        var i :| 0 <= i < |t| && Key(t[i]) == k;
        assert Key(s[i]) == k;
      }
      if exists i :: 0 <= i < |s| && Key(s[i]) == k {
        var i :| 0 <= i < |s| && Key(s[i]) == k;
        if i < |t| { assert Key(t[i]) == k; }
      }
    }
  }

  /** The merge keeps exactly the keys of its input. */
  lemma {:induction false} DedupKeys(s: seq<WorkItem>)
    ensures KeysOf(Dedup(s)) == KeysOf(s)
  {
    if s != [] {
      var t := s[..|s| - 1];
      var x := s[|s| - 1];
      DedupKeys(t);
      DedupSnoc(t, x);
      Seqs.Snoc(s);
      KeysOfSnoc(t, x);
      KeysOfSnoc(Dedup(t), x);
    }
  }

  /** No two merged items share a key. */
  lemma {:induction false} DedupUnique(s: seq<WorkItem>)
    ensures NoDupKeys(Dedup(s))
  {
    if s != [] {
      var t := s[..|s| - 1];
      var x := s[|s| - 1];
      var d := Dedup(t);
      DedupUnique(t);
      if Key(x) !in KeysOf(d) {
        var r := d + [x];
        forall i, j | 0 <= i < j < |r| ensures Key(r[i]) != Key(r[j]) {
          if j == |d| {
            KeysOfIn(d, Key(x));
          }
        }
      }
    }
  }

  /** A sequence whose keys are already distinct is left unchanged. */
  lemma {:induction false} DedupNoDupId(s: seq<WorkItem>)
    requires NoDupKeys(s)
    ensures Dedup(s) == s
  {
    if s != [] {
      var t := s[..|s| - 1];
      var x := s[|s| - 1];
      DedupNoDupId(t);
      KeysOfIn(t, Key(x));
      Seqs.Snoc(s);
    }
  }

  /** `s[p]` is the first item of `s` with its key. */
  predicate FirstOfKey(s: seq<WorkItem>, p: int) {
    0 <= p < |s| && forall q :: 0 <= q < p ==> Key(s[q]) != Key(s[p])
  }

  /** Reference definition: the items of `s[..n]` that are the first with their key, in order. */
  function KeepFirsts(s: seq<WorkItem>, n: nat): seq<WorkItem>
    requires n <= |s|
  {
    if n == 0 then [] else KeepFirsts(s, n - 1) + (if FirstOfKey(s, n - 1) then [s[n - 1]] else [])
  }

  lemma {:induction false} KeepFirstsPrefix(s: seq<WorkItem>, t: seq<WorkItem>, n: nat)
    requires n <= |t| <= |s| && t == s[..|t|]
    ensures KeepFirsts(s, n) == KeepFirsts(t, n)
  {
    if n > 0 {
      KeepFirstsPrefix(s, t, n - 1);
      assert FirstOfKey(s, n - 1) == FirstOfKey(t, n - 1) by {
        assert forall q :: 0 <= q < n ==> s[q] == t[q];
      }
    }
  }

  /** The last item is the first with its key exactly when no earlier item has that key. */
  lemma FirstOfKeyLast(s: seq<WorkItem>)
    requires s != []
    ensures FirstOfKey(s, |s| - 1) <==> Key(s[|s| - 1]) !in KeysOf(s[..|s| - 1])
  {
    var t := s[..|s| - 1];
    var x := s[|s| - 1];
    KeysOfIn(t, Key(x));
    if Key(x) in KeysOf(t) {
      var i :| 0 <= i < |t| && Key(t[i]) == Key(x);
      assert s[i] == t[i];
    } else {
      forall q | 0 <= q < |t| ensures Key(s[q]) != Key(x) {
        assert s[q] == t[q];
      }
    }
  }

  /**
   * The first occurrence wins: the merge keeps, in input order, exactly the
   * items that are the first of the input to carry their key.
   */
  lemma {:induction false} DedupKeepsFirsts(s: seq<WorkItem>)
    ensures Dedup(s) == KeepFirsts(s, |s|)
  {
    if s != [] {
      var t := s[..|s| - 1];
      DedupKeepsFirsts(t);
      KeepFirstsPrefix(s, t, |t|);
      DedupKeys(t);
      FirstOfKeyLast(s);
    }
  }

  /** The merge of a longer stream extends the merge of its prefix. */
  lemma {:induction false} DedupPrefix(a: seq<WorkItem>, b: seq<WorkItem>)
    ensures Dedup(a) <= Dedup(a + b)
    decreases |b|
  {
    if b == [] {
      Seqs.AppendEmpty(a);
    } else {
      var b' := b[..|b| - 1];
      var x := b[|b| - 1];
      DedupPrefix(a, b');
      Seqs.SnocSplit(a, b);
      DedupSnoc(a + b', x);
    }
  }

  /** Merging a merged list with more items is the same as merging everything at once. */
  lemma {:induction false} DedupMerge(a: seq<WorkItem>, b: seq<WorkItem>)
    ensures Dedup(Dedup(a) + b) == Dedup(a + b)
    decreases |b|
  {
    if b == [] {
      DedupUnique(a);
      DedupNoDupId(Dedup(a));
      Seqs.AppendEmpty(Dedup(a));
      Seqs.AppendEmpty(a);
    } else {
      var b' := b[..|b| - 1];
      var x := b[|b| - 1];
      DedupMerge(a, b');
      Seqs.SnocSplit(Dedup(a), b);
      Seqs.SnocSplit(a, b);
      DedupSnoc(Dedup(a) + b', x);
      DedupSnoc(a + b', x);
    }
  }

  /**
   * The key is a plain concatenation, so two different (name, due) pairs can
   * share it and the second record is dropped although it is a different one.
   */
  lemma DedupPair(x: WorkItem, y: WorkItem)
    ensures Dedup([x]) == [x]
    ensures Dedup([x, y]) == if Key(x) == Key(y) then [x] else [x, y]
  {
    DedupSnoc([], x);
    assert [] + [x] == [x];
    DedupSnoc([x], y);
    assert [x] + [y] == [x, y];
    KeysOfSnoc([], x);
  }

  lemma KeyCollision()
    ensures var x := WorkItem("a_b", Some("c"), 10, "X", "#", "");
            var y := WorkItem("a", Some("b_c"), 20, "Y", "#", "");
            x.name != y.name && Key(x) == Key(y) && Dedup([x, y]) == [x]
  {
    var x := WorkItem("a_b", Some("c"), 10, "X", "#", "");
    var y := WorkItem("a", Some("b_c"), 20, "Y", "#", "");
    assert Key(x) == "a_b_c";
    assert Key(y) == "a_b_c";
    DedupPair(x, y);
  }

  function PlannerItems(ps: seq<PlannerRecord>): (r: seq<WorkItem>)
    ensures |r| == |ps|
  {
    seq(|ps|, i requires 0 <= i < |ps| => FromPlanner(ps[i]))
  }

  /** The items of an assignment list: those with a falsy `due_at` are skipped. */
  function AssignmentItems(recs: seq<AssignmentRecord>, c: CourseRecord): seq<WorkItem> {
    if recs == [] then []
    else
      var last := recs[|recs| - 1];
      AssignmentItems(recs[..|recs| - 1], c) + (if Truthy(last.dueAt) then [FromAssignment(last, c)] else [])
  }

  /** A course whose assignments are requested: it has an `id` and is not completed or deleted. */
  predicate Scanned(c: CourseRecord) {
    var state := GetOr(c.workflowState, "");
    c.id.Some? && state != "completed" && state != "deleted"
  }

  /** A course's contribution; a non-200 answer for its assignments contributes nothing. */
  function CourseItems(c: CourseRecord): seq<WorkItem> {
    if Scanned(c) && c.assignments.Ok? then AssignmentItems(c.assignments.body, c) else []
  }

  function CoursesItems(cs: seq<CourseRecord>): seq<WorkItem> {
    if cs == [] then [] else CoursesItems(cs[..|cs| - 1]) + CourseItems(cs[|cs| - 1])
  }

  /** A scanned course whose assignments request raises. */
  predicate CourseRaises(c: CourseRecord) {
    Scanned(c) && c.assignments.Raised?
  }

  predicate AnyCourseRaises(cs: seq<CourseRecord>) {
    exists i :: 0 <= i < |cs| && CourseRaises(cs[i])
  }

  /** What one instance's API would answer: the planner view and the course list. */
  datatype Instance = Instance(planner: Fetch<seq<PlannerRecord>>, courses: Fetch<seq<CourseRecord>>)

  predicate InstanceRaises(inst: Instance) {
    || inst.planner.Raised?
    || inst.courses.Raised?
    || (inst.courses.Ok? && AnyCourseRaises(inst.courses.body))
  }

  function PlannerPart(inst: Instance): seq<WorkItem> {
    if inst.planner.Ok? then PlannerItems(inst.planner.body) else []
  }

  function CoursesPart(inst: Instance): seq<WorkItem> {
    if inst.courses.Ok? then CoursesItems(inst.courses.body) else []
  }

  /** The records in the order the merge sees them. */
  function Stream(inst: Instance): seq<WorkItem> {
    PlannerPart(inst) + CoursesPart(inst)
  }

  /** `get_canvas_all_items`: any exception discards everything gathered so far. */
  function Collect(inst: Instance): (r: seq<WorkItem>)
    ensures InstanceRaises(inst) ==> r == []
    ensures !InstanceRaises(inst) ==> NoDupKeys(r) && KeysOf(r) == KeysOf(Stream(inst))
  {
    if InstanceRaises(inst) then []
    else
      DedupUnique(Stream(inst));
      DedupKeys(Stream(inst));
      Dedup(Stream(inst))
  }

  /** Every planner entry of the instance, merged, precedes every course item. */
  lemma PlannerFirst(inst: Instance)
    requires !InstanceRaises(inst)
    ensures Dedup(PlannerPart(inst)) <= Collect(inst)
  {
    DedupPrefix(PlannerPart(inst), CoursesPart(inst));
  }

  lemma {:induction false} AssignmentItemsDue(recs: seq<AssignmentRecord>, c: CourseRecord)
    ensures forall i :: 0 <= i < |AssignmentItems(recs, c)| ==> Truthy(AssignmentItems(recs, c)[i].dueAt)
  {
    if recs != [] {
      AssignmentItemsDue(recs[..|recs| - 1], c);
    }
  }

  /** Every item taken from the course assignments has a non-empty due date. */
  lemma {:induction false} CoursesItemsDue(cs: seq<CourseRecord>)
    ensures forall i :: 0 <= i < |CoursesItems(cs)| ==> Truthy(CoursesItems(cs)[i].dueAt)
  {
    if cs != [] {
      CoursesItemsDue(cs[..|cs| - 1]);
      var c := cs[|cs| - 1];
      if Scanned(c) && c.assignments.Ok? {
        AssignmentItemsDue(c.assignments.body, c);
      }
    }
  }

  /** The stream of an instance with one planner entry and one course holding one assignment. */
  lemma OneOfEach(p: PlannerRecord, a: AssignmentRecord, c: CourseRecord)
    requires Scanned(c) && c.assignments == Ok([a])
    ensures !InstanceRaises(Instance(Ok([p]), Ok([c])))
    ensures Stream(Instance(Ok([p]), Ok([c])))
         == [FromPlanner(p)] + (if Truthy(a.dueAt) then [FromAssignment(a, c)] else [])
  {
    assert [a][..0] == [];
    assert AssignmentItems([a], c) == AssignmentItems([], c) + (if Truthy(a.dueAt) then [FromAssignment(a, c)] else []);
    assert [c][..0] == [];
    assert CoursesItems([c]) == CoursesItems([]) + CourseItems(c);
    assert PlannerItems([p]) == [FromPlanner(p)];
    assert forall i :: 0 <= i < |[c]| ==> [c][i] == c;
  }

  /**
   * A planner entry without a date is kept, while a course assignment without
   * one is skipped.
   */
  lemma NullDueDates(p: PlannerRecord, a: AssignmentRecord, c: CourseRecord)
    requires p.plannableDate.None? && !Truthy(a.dueAt)
    requires Scanned(c) && c.assignments == Ok([a])
    ensures Collect(Instance(Ok([p]), Ok([c]))) == [FromPlanner(p)]
  {
    OneOfEach(p, a, c);
    assert [FromPlanner(p)] + [] == [FromPlanner(p)];
    DedupPair(FromPlanner(p), FromPlanner(p));
  }

  /**
   * A non-200 answer only skips that request: it behaves exactly like an
   * empty list.
   */
  lemma BadStatusIsEmpty(inst: Instance)
    requires inst.planner.BadStatus?
    ensures Collect(inst) == Collect(Instance(Ok([]), inst.courses))
  {
    assert PlannerItems([]) == [];
    assert Stream(inst) == Stream(Instance(Ok([]), inst.courses));
  }

  /** A record seen by the planner and again by the course scan is kept once, in its planner form. */
  lemma PlannerWins(p: PlannerRecord, a: AssignmentRecord, c: CourseRecord)
    requires Truthy(a.dueAt) && Scanned(c) && c.assignments == Ok([a])
    requires Key(FromPlanner(p)) == Key(FromAssignment(a, c))
    ensures Collect(Instance(Ok([p]), Ok([c]))) == [FromPlanner(p)]
  {
    OneOfEach(p, a, c);
    assert [FromPlanner(p)] + [FromAssignment(a, c)] == [FromPlanner(p), FromAssignment(a, c)];
    DedupPair(FromPlanner(p), FromAssignment(a, c));
  }

  /** One merge step: what appending `w` to the stream does to the merged list. */
  lemma Step(stream: seq<WorkItem>, items: seq<WorkItem>, seen: set<string>, w: WorkItem)
    requires items == Dedup(stream) && seen == KeysOf(items)
    ensures Key(w) in seen ==> Dedup(stream + [w]) == items
    ensures Key(w) !in seen ==> Dedup(stream + [w]) == items + [w] && KeysOf(items + [w]) == seen + {Key(w)}
  {
    DedupSnoc(stream, w);
    KeysOfSnoc(items, w);
  }

  lemma PlannerItemsStep(ps: seq<PlannerRecord>, i: nat)
    requires i < |ps|
    ensures PlannerItems(ps[..i + 1]) == PlannerItems(ps[..i]) + [FromPlanner(ps[i])]
  {
  }

  lemma AssignmentItemsStep(recs: seq<AssignmentRecord>, k: nat, c: CourseRecord, before: seq<WorkItem>)
    requires k < |recs|
    ensures before + AssignmentItems(recs[..k + 1], c) ==
            (before + AssignmentItems(recs[..k], c)) + (if Truthy(recs[k].dueAt) then [FromAssignment(recs[k], c)] else [])
  {
    assert recs[..k + 1][..k] == recs[..k];
  }

  /** The planner-view loop, starting from an empty list and an empty seen-set. */
  method MergePlanner(ps: seq<PlannerRecord>) returns (items: seq<WorkItem>, seen: set<string>)
    ensures items == Dedup(PlannerItems(ps)) && seen == KeysOf(items)
  {
    items := [];
    seen := {};
    var i := 0;
    while i < |ps|
      invariant 0 <= i <= |ps|
      invariant items == Dedup(PlannerItems(ps[..i]))
      invariant seen == KeysOf(items)
    {
      var w := FromPlanner(ps[i]);
      Step(PlannerItems(ps[..i]), items, seen, w);
      PlannerItemsStep(ps, i);
      if Key(w) !in seen {
        seen := seen + {Key(w)};
        items := items + [w];
      }
      i := i + 1;
    }
    assert ps[..|ps|] == ps;
  }

  /** The loop over one course's assignments, continuing the merge of `before`. */
  method MergeAssignments(recs: seq<AssignmentRecord>, c: CourseRecord, ghost before: seq<WorkItem>,
                          items0: seq<WorkItem>, seen0: set<string>)
    returns (items: seq<WorkItem>, seen: set<string>)
    requires items0 == Dedup(before) && seen0 == KeysOf(items0)
    ensures items == Dedup(before + AssignmentItems(recs, c)) && seen == KeysOf(items)
  {
    items, seen := items0, seen0;
    var k := 0;
    assert before + AssignmentItems(recs[..0], c) == before;
    while k < |recs|
      invariant 0 <= k <= |recs|
      invariant items == Dedup(before + AssignmentItems(recs[..k], c))
      invariant seen == KeysOf(items)
    {
      var a := recs[k];
      AssignmentItemsStep(recs, k, c, before);
      if Truthy(a.dueAt) {
        var w := FromAssignment(a, c);
        Step(before + AssignmentItems(recs[..k], c), items, seen, w);
        if Key(w) !in seen {
          seen := seen + {Key(w)};
          items := items + [w];
        }
      } else {
        Seqs.AppendEmpty(before + AssignmentItems(recs[..k], c));
      }
      k := k + 1;
    }
    assert recs[..|recs|] == recs;
  }

  lemma CoursesItemsStep(cs: seq<CourseRecord>, j: nat, front: seq<WorkItem>)
    requires j < |cs|
    ensures front + CoursesItems(cs[..j + 1]) == (front + CoursesItems(cs[..j])) + CourseItems(cs[j])
  {
    assert cs[..j + 1][..j] == cs[..j];
  }

  lemma RaisesStep(cs: seq<CourseRecord>, j: nat)
    requires j < |cs|
    ensures AnyCourseRaises(cs[..j + 1]) <==> AnyCourseRaises(cs[..j]) || CourseRaises(cs[j])
  {
    if AnyCourseRaises(cs[..j + 1]) {
      var i :| 0 <= i < j + 1 && CourseRaises(cs[..j + 1][i]);
      if i < j {
        assert cs[..j][i] == cs[i];
      }
    }
    if AnyCourseRaises(cs[..j]) {
      var i :| 0 <= i < j && CourseRaises(cs[..j][i]);
      assert cs[..j + 1][i] == cs[i];
    }
    if CourseRaises(cs[j]) {
      assert cs[..j + 1][j] == cs[j];
    }
  }

  lemma RaisesAt(cs: seq<CourseRecord>, j: nat)
    requires j < |cs| && CourseRaises(cs[j])
    ensures AnyCourseRaises(cs)
  {
  }

  /** One pass of the course loop: course `c` continues the merge of `before`. */
  method MergeCourse(c: CourseRecord, ghost before: seq<WorkItem>, items0: seq<WorkItem>, seen0: set<string>)
    returns (raised: bool, items: seq<WorkItem>, seen: set<string>)
    requires items0 == Dedup(before) && seen0 == KeysOf(items0)
    ensures raised <==> CourseRaises(c)
    ensures !raised ==> items == Dedup(before + CourseItems(c)) && seen == KeysOf(items)
  {
    items, seen := items0, seen0;
    raised := false;
    if Scanned(c) {
      match c.assignments {
        case Raised =>
          return true, [], {};
        case BadStatus =>
          assert before + [] == before;
        case Ok(recs) =>
          items, seen := MergeAssignments(recs, c, before, items, seen);
      }
    } else {
      assert before + [] == before;
    }
  }

  /**
   * The loop over the course list, continuing the merge of `front`; it stops
   * at the first scanned course whose assignments request raises.
   */
  method MergeCourses(cs: seq<CourseRecord>, ghost front: seq<WorkItem>,
                      items0: seq<WorkItem>, seen0: set<string>)
    returns (raised: bool, items: seq<WorkItem>, seen: set<string>)
    requires items0 == Dedup(front) && seen0 == KeysOf(items0)
    ensures raised <==> AnyCourseRaises(cs)
    ensures !raised ==> items == Dedup(front + CoursesItems(cs)) && seen == KeysOf(items)
  {
    items, seen := items0, seen0;
    raised := false;
    assert front + CoursesItems(cs[..0]) == front;
    var j := 0;
    while j < |cs|
      invariant 0 <= j <= |cs|
      invariant items == Dedup(front + CoursesItems(cs[..j]))
      invariant seen == KeysOf(items)
      invariant !AnyCourseRaises(cs[..j])
    {
      CoursesItemsStep(cs, j, front);
      RaisesStep(cs, j);
      raised, items, seen := MergeCourse(cs[j], front + CoursesItems(cs[..j]), items, seen);
      if raised {
        RaisesAt(cs, j);
        return;
      }
      j := j + 1;
    }
    Seqs.FullPrefix(cs);
  }

  /** `get_canvas_all_items` for one instance. */
  method CollectInstance(inst: Instance) returns (items: seq<WorkItem>)
    ensures items == Collect(inst)
  {
    var seen: set<string>;
    match inst.planner {
      case Raised =>
        return [];
      case BadStatus =>
        items, seen := [], {};
      case Ok(ps) =>
        items, seen := MergePlanner(ps);
    }
    ghost var front := PlannerPart(inst);
    assert front + [] == front;
    match inst.courses
    case Raised =>
      assert InstanceRaises(inst);
      return [];
    case BadStatus =>
      assert Stream(inst) == front + [];
    case Ok(cs) =>
      var raised;
      raised, items, seen := MergeCourses(cs, front, items, seen);
      if raised {
        assert InstanceRaises(inst);
        return [];
      }
      assert !InstanceRaises(inst);
      assert Stream(inst) == front + CoursesItems(cs);
  }

  /** `main`: the instance lists are concatenated, not merged again. */
  function CollectAll(insts: seq<Instance>): seq<WorkItem> {
    if insts == [] then [] else CollectAll(insts[..|insts| - 1]) + Collect(insts[|insts| - 1])
  }

  method CollectInstances(insts: seq<Instance>) returns (all: seq<WorkItem>)
    ensures all == CollectAll(insts)
  {
    all := [];
    var i := 0;
    while i < |insts|
      invariant 0 <= i <= |insts|
      invariant all == CollectAll(insts[..i])
    {
      var items := CollectInstance(insts[i]);
      assert insts[..i + 1][..i] == insts[..i];
      all := all + items;
      i := i + 1;
    }
    assert insts[..|insts|] == insts;
  }

  /**
   * The merge is per instance: an item that two instances both return is
   * listed twice, so the total can repeat keys.
   */
  lemma CrossInstanceRepeats(a: Instance, b: Instance, x: WorkItem)
    requires x in Collect(a) && x in Collect(b)
    ensures multiset(CollectAll([a, b]))[x] >= 2
    ensures !NoDupKeys(CollectAll([a, b]))
  {
    CollectAllPair(a, b);
    var i, j := Seqs.SharedElement(Collect(a), Collect(b), x);
  }

  lemma CollectAllPair(a: Instance, b: Instance)
    ensures CollectAll([a, b]) == Collect(a) + Collect(b)
  {
    assert [a, b][..1] == [a];
    assert [a][..0] == [];
    assert CollectAll([a]) == Collect(a);
  }
}
