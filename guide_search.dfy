/**
 * The interactive study guide generator: `search_canvas_assignment`
 * (collect every assignment of every course of every Canvas instance, then
 * keep those whose lowercased name contains the lowercased query), the
 * choice of the first match in `main`, and the `modules_info` resource list
 * built from the first 10 modules. Requests are inputs: `Fetch` values,
 * or `Option` where the script does not look at the status code.
 */
module GuideSearch {
  import opened Wrappers
  import opened Text
  import opened CanvasData
  import Seqs

  /** An assignment as returned by the API; only its name is read. */
  datatype SearchAssignment = SearchAssignment(name: Option<string>)

  /** A course and the response its assignments request would get. */
  datatype SearchCourse = SearchCourse(id: Option<int>, name: Option<string>, assignments: Fetch<seq<SearchAssignment>>)

  /**
   * A Canvas instance and its course list: `None` when the courses request
   * raises. A status code is not checked there; an error body that is not a
   * course list is not part of this model.
   */
  datatype Instance = Instance(url: string, courses: Option<seq<SearchCourse>>)

  /** An assignment annotated with `course_name`, `course_id` and `canvas_url`. */
  datatype Found = Found(assignment: SearchAssignment, courseName: string, courseId: int, url: string)

  function Annotate(asgs: seq<SearchAssignment>, c: SearchCourse, url: string): (r: seq<Found>)
    requires c.id.Some?
    ensures |r| == |asgs|
    ensures forall k :: 0 <= k < |asgs| ==> r[k] == Found(asgs[k], GetOr(c.name, "Unknown"), c.id.value, url)
  {
    if asgs == [] then []
    else Annotate(asgs[..|asgs| - 1], c, url) + [Found(asgs[|asgs| - 1], GetOr(c.name, "Unknown"), c.id.value, url)]
  }

  /**
   * The course loop of one instance, inside its `try`: courses without `id`
   * and failed assignment requests are passed over; an exception ends the
   * instance, keeping what was appended.
   */
  function FromCourses(courses: seq<SearchCourse>, url: string): seq<Found>
    decreases |courses|
  {
    if courses == [] then []
    else
      var c := courses[0];
      if c.id.None? then FromCourses(courses[1..], url)
      else
        match c.assignments
        case Raised => []
        case BadStatus => FromCourses(courses[1..], url)
        case Ok(asgs) => Annotate(asgs, c, url) + FromCourses(courses[1..], url)
  }

  function FromInstance(inst: Instance): seq<Found> {
    match inst.courses
    case None => []
    case Some(cs) => FromCourses(cs, inst.url)
  }

  /** `all_assignments`: instance, then course, then assignment order. */
  function AllAssignments(instances: seq<Instance>): seq<Found> {
    if instances == [] then [] else FromInstance(instances[0]) + AllAssignments(instances[1..])
  }

  /** `query_lower in a.get('name', '').lower()` */
  predicate NameMatches(f: Found, queryLower: string) {
    Contains(Lower(GetOr(f.assignment.name, "")), queryLower)
  }

  /** The comprehension `[a for a in all_assignments if query_lower in a.get('name', '').lower()]`. */
  function Matching(all: seq<Found>, queryLower: string): seq<Found> {
    if all == [] then []
    else Matching(all[..|all| - 1], queryLower) + (if NameMatches(all[|all| - 1], queryLower) then [all[|all| - 1]] else [])
  }

  function SearchResult(instances: seq<Instance>, query: string): seq<Found> {
    Matching(AllAssignments(instances), Lower(query))
  }

  /** The course loop of one instance. */
  method CollectCourses(courses: seq<SearchCourse>, url: string) returns (found: seq<Found>)
    ensures found == FromCourses(courses, url)
  {
    found := [];
    var i := 0;
    while i < |courses|
      invariant 0 <= i <= |courses|
      invariant found + FromCourses(courses[i..], url) == FromCourses(courses, url)
    {
      var c := courses[i];
      Seqs.SuffixStep(courses, i);
      if c.id.Some? {
        match c.assignments {
          case Raised =>
            return;
          case BadStatus =>
          case Ok(asgs) =>
            found := AppendAnnotated(found, asgs, c, url);
        }
      }
      i := i + 1;
    }
  }

  /** The loop over one course's assignments. */
  method AppendAnnotated(found0: seq<Found>, asgs: seq<SearchAssignment>, c: SearchCourse, url: string)
    returns (found: seq<Found>)
    requires c.id.Some?
    ensures found == found0 + Annotate(asgs, c, url)
  {
    found := found0;
    ghost var all := Annotate(asgs, c, url);
    for j := 0 to |asgs|
      invariant found == found0 + all[..j]
    {
      Seqs.PrefixStep(all, j);
      found := found + [Found(asgs[j], GetOr(c.name, "Unknown"), c.id.value, url)];
    }
    Seqs.FullPrefix(all);
  }

  /** The instance loop of `search_canvas_assignment`. */
  method CollectAll(instances: seq<Instance>) returns (all: seq<Found>)
    ensures all == AllAssignments(instances)
  {
    all := [];
    var i := 0;
    while i < |instances|
      invariant 0 <= i <= |instances|
      invariant all + AllAssignments(instances[i..]) == AllAssignments(instances)
    {
      assert instances[i..][1..] == instances[i + 1..];
      var more: seq<Found> := [];
      if instances[i].courses.Some? {
        more := CollectCourses(instances[i].courses.value, instances[i].url);
      }
      all := all + more;
      i := i + 1;
    }
    assert instances[i..] == [];
  }

  /** The name filter of `search_canvas_assignment`. */
  method FilterByName(all: seq<Found>, queryLower: string) returns (matches: seq<Found>)
    ensures matches == Matching(all, queryLower)
  {
    matches := [];
    var k := 0;
    while k < |all|
      invariant 0 <= k <= |all|
      invariant matches == Matching(all[..k], queryLower)
    {
      assert all[..k + 1][..k] == all[..k];
      if Contains(Lower(GetOr(all[k].assignment.name, "")), queryLower) {
        matches := matches + [all[k]];
      }
      k := k + 1;
    }
    assert all[..k] == all;
  }

  /** `search_canvas_assignment` */
  method SearchAssignments(instances: seq<Instance>, query: string) returns (matches: seq<Found>)
    ensures matches == SearchResult(instances, query)
  {
    var all := CollectAll(instances);
    matches := FilterByName(all, Lower(query));
  }

  /** A match is exactly a collected assignment whose name contains the query, ignoring case. */
  lemma {:induction false} MatchingMembers(all: seq<Found>, queryLower: string, f: Found)
    ensures f in Matching(all, queryLower) <==> f in all && NameMatches(f, queryLower)
  {
    if all != [] {
      MatchingMembers(all[..|all| - 1], queryLower, f);
      Seqs.InFrontOrLast(all, f);
    }
  }

  /** Matches keep collection order. */
  lemma {:induction false} MatchingAppend(a: seq<Found>, b: seq<Found>, queryLower: string)
    ensures Matching(a + b, queryLower) == Matching(a, queryLower) + Matching(b, queryLower)
  {
    if b != [] {
      Seqs.AppendFront(a, b);
      MatchingAppend(a, b[..|b| - 1], queryLower);
    } else {
      Seqs.AppendEmpty(a);
      Seqs.AppendEmpty(Matching(a, queryLower));
    }
  }

  lemma {:induction false} MatchingAll(all: seq<Found>, queryLower: string)
    requires forall k :: 0 <= k < |all| ==> NameMatches(all[k], queryLower)
    ensures Matching(all, queryLower) == all
  {
    if all != [] {
      var init := all[..|all| - 1];
      forall k | 0 <= k < |init| ensures NameMatches(init[k], queryLower) {
        assert init[k] == all[k];
      }
      MatchingAll(init, queryLower);
      Seqs.Snoc(all);
    }
  }

  /** The empty query matches every collected assignment. */
  lemma EmptyQueryMatchesAll(instances: seq<Instance>)
    ensures SearchResult(instances, "") == AllAssignments(instances)
  {
    var all := AllAssignments(instances);
    assert Lower("") == "";
    forall k | 0 <= k < |all| ensures NameMatches(all[k], "") {
      assert OccursAt(Lower(GetOr(all[k].assignment.name, "")), "", 0);
      ContainsIff(Lower(GetOr(all[k].assignment.name, "")), "");
    }
    MatchingAll(all, "");
  }

  lemma LowerUpperChar(c: char)
    ensures LowerChar(UpperChar(c)) == LowerChar(c)
  {
  }

  /** The search ignores the case of the query. */
  lemma SearchIgnoresCase(instances: seq<Instance>, query: string)
    ensures SearchResult(instances, Upper(query)) == SearchResult(instances, query)
  {
    forall k | 0 <= k < |query| ensures LowerChar(UpperChar(query[k])) == LowerChar(query[k]) {
      LowerUpperChar(query[k]);
    }
    assert Lower(Upper(query)) == Lower(query);
  }

  /** A course without `id` adds nothing, wherever it stands. */
  lemma CourseWithoutIdSkipped(c: SearchCourse, rest: seq<SearchCourse>, url: string)
    requires c.id.None?
    ensures FromCourses([c] + rest, url) == FromCourses(rest, url)
  {
    assert ([c] + rest)[1..] == rest;
  }

  /** An exception on an assignments request keeps the instance's earlier courses and drops the later ones. */
  lemma {:induction false} RaisedEndsInstance(before: seq<SearchCourse>, c: SearchCourse, after: seq<SearchCourse>, url: string)
    requires c.id.Some? && c.assignments.Raised?
    ensures FromCourses(before + [c] + after, url) == FromCourses(before, url) + FromCourses([c], url)
    ensures FromCourses([c], url) == []
    decreases |before|
  {
    if before == [] {
      assert [] + [c] + after == [c] + after;
    } else {
      assert (before + [c] + after)[1..] == before[1..] + [c] + after;
      assert (before + [c] + after)[0] == before[0];
      RaisedEndsInstance(before[1..], c, after, url);
    }
  }

  /**
   * The assignment `main` goes on with: the first match, or none, in which
   * case the script notifies and exits with status 1.
   */
  function Chosen(instances: seq<Instance>, query: string): (r: Option<Found>)
    ensures r.None? <==> forall f :: f in AllAssignments(instances) ==> !NameMatches(f, Lower(query))
    ensures r.Some? ==> r.value in AllAssignments(instances) && NameMatches(r.value, Lower(query))
  {
    var matches := SearchResult(instances, query);
    forall f ensures f in matches <==> f in AllAssignments(instances) && NameMatches(f, Lower(query)) {
      MatchingMembers(AllAssignments(instances), Lower(query), f);
    }
    if matches == [] then None
    else
      assert matches[0] in matches;
      Some(matches[0])
  }

  /** A module of the course and the response its items request would get. */
  datatype ResourceModule = ResourceModule(name: Option<string>, items: Fetch<seq<ResourceItem>>)
  datatype ResourceItem = ResourceItem(title: Option<string>, kind: Option<string>)

  const MaxModules: nat := 10
  const MaxPromptResources: nat := 20
  const MaxDocResources: nat := 30

  /** `get_assignment_modules` / `get_module_items`: the list on status 200, otherwise `[]`. */
  function ListOrEmpty<T>(resp: Fetch<seq<T>>): (r: seq<T>)
    ensures resp.Ok? ==> r == resp.body
    ensures !resp.Ok? ==> r == []
  {
    match resp
    case Ok(xs) => xs
    case BadStatus => []
    case Raised => []
  }

  /**
   * The separator between module and item as the source file spells it: the
   * three characters U+201A U+00DC U+00ED, a mis-decoded right arrow.
   */
  const Arrow: string := "\U{201A}\U{00DC}\U{00ED}"

  /** The module name, the separator, the item's title and its type in parentheses. */
  function ResourceLine(moduleName: string, it: ResourceItem): string {
    moduleName + " " + Arrow + " " + GetOr(it.title, "Unknown") + " (" + GetOr(it.kind, "Unknown") + ")"
  }

  function ModuleLines(m: ResourceModule): (r: seq<string>)
    ensures |r| == |ListOrEmpty(m.items)|
    ensures forall k :: 0 <= k < |r| ==> r[k] == ResourceLine(GetOr(m.name, "Unknown Module"), ListOrEmpty(m.items)[k])
  {
    var items := ListOrEmpty(m.items);
    seq(|items|, k requires 0 <= k < |items| => ResourceLine(GetOr(m.name, "Unknown Module"), items[k]))
  }

  function LinesOf(ms: seq<ResourceModule>): seq<string> {
    if ms == [] then [] else LinesOf(ms[..|ms| - 1]) + ModuleLines(ms[|ms| - 1])
  }

  /** `modules_info`: one line per item of the first 10 modules, in order. */
  function ModulesInfo(modules: Fetch<seq<ResourceModule>>): seq<string> {
    LinesOf(Take(ListOrEmpty(modules), MaxModules))
  }

  lemma LinesOfStep(ms: seq<ResourceModule>, i: nat)
    requires i < |ms|
    ensures LinesOf(ms[..i + 1]) == LinesOf(ms[..i]) + ModuleLines(ms[i])
  {
    assert ms[..i + 1][..i] == ms[..i];
  }

  /** The inner loop over one module's items. */
  method AppendModuleLines(info0: seq<string>, m: ResourceModule) returns (info: seq<string>)
    ensures info == info0 + ModuleLines(m)
  {
    var name := GetOr(m.name, "Unknown Module");
    var items := ListOrEmpty(m.items);
    ghost var lines := ModuleLines(m);
    info := info0;
    for j := 0 to |items|
      invariant info == info0 + lines[..j]
    {
      Seqs.PrefixStep(lines, j);
      info := info + [ResourceLine(name, items[j])];
    }
    Seqs.FullPrefix(lines);
  }

  /** The loop of `main` that builds `modules_info`. */
  method BuildModulesInfo(modules: Fetch<seq<ResourceModule>>) returns (info: seq<string>)
    ensures info == ModulesInfo(modules)
  {
    var ms := ListOrEmpty(modules);
    var n := if |ms| < MaxModules then |ms| else MaxModules;
    info := [];
    for i := 0 to n
      invariant info == LinesOf(ms[..i])
    {
      LinesOfStep(ms, i);
      info := AppendModuleLines(info, ms[i]);
    }
    assert ms[..n] == Take(ms, MaxModules);
  }

  lemma {:induction false} LinesOfAppend(a: seq<ResourceModule>, b: seq<ResourceModule>)
    ensures LinesOf(a + b) == LinesOf(a) + LinesOf(b)
  {
    if b != [] {
      Seqs.AppendFront(a, b);
      LinesOfAppend(a, b[..|b| - 1]);
    } else {
      Seqs.AppendEmpty(a);
      Seqs.AppendEmpty(LinesOf(a));
    }
  }

  /** Every resource line names one of the first 10 modules and one of its items. */
  lemma LinesOfSound(ms: seq<ResourceModule>, line: string)
    requires line in LinesOf(ms)
    ensures exists i, k :: 0 <= i < |ms| && 0 <= k < |ListOrEmpty(ms[i].items)| &&
              line == ResourceLine(GetOr(ms[i].name, "Unknown Module"), ListOrEmpty(ms[i].items)[k])
  {
    var i, k := LinesOfWitness(ms, line);
  }

  /** The module and item a resource line comes from. */
  lemma {:induction false} LinesOfWitness(ms: seq<ResourceModule>, line: string) returns (i: nat, k: nat)
    requires line in LinesOf(ms)
    ensures i < |ms| && k < |ListOrEmpty(ms[i].items)|
    ensures line == ResourceLine(GetOr(ms[i].name, "Unknown Module"), ListOrEmpty(ms[i].items)[k])
  {
    var init := ms[..|ms| - 1];
    var m := ms[|ms| - 1];
    if line in LinesOf(init) {
      i, k := LinesOfWitness(init, line);
      assert init[i] == ms[i];
    } else {
      var lines := ModuleLines(m);
      assert line in lines;
      var j :| 0 <= j < |lines| && lines[j] == line;
      i, k := |ms| - 1, j;
    }
  }

  /** Modules after the tenth never appear in the resources. */
  lemma LaterModulesIgnored(ms: seq<ResourceModule>, more: seq<ResourceModule>)
    requires |ms| >= MaxModules
    ensures ModulesInfo(Ok(ms + more)) == ModulesInfo(Ok(ms))
  {
    assert (ms + more)[..MaxModules] == ms[..MaxModules];
  }

  /** A module whose items request fails contributes no line, and the rest keep their order. */
  lemma FailedModuleAddsNothing(a: seq<ResourceModule>, m: ResourceModule, b: seq<ResourceModule>)
    requires !m.items.Ok?
    ensures LinesOf(a + [m] + b) == LinesOf(a) + LinesOf(b)
  {
    LinesOfAppend(a + [m], b);
    LinesOfAppend(a, [m]);
    LinesOfSingle(m);
    Seqs.AppendEmpty(LinesOf(a));
  }

  lemma LinesOfSingle(m: ResourceModule)
    ensures LinesOf([m]) == ModuleLines(m)
  {
    assert [m][..0] == [];
  }

  /** `resources_text`: the first 20 lines, each as a list entry, joined by line breaks. */
  function ResourcesText(info: seq<string>): string {
    Join(ResourceEntries(Take(info, MaxPromptResources)), '\n')
  }

  function ResourceEntries(lines: seq<string>): (r: seq<string>)
    ensures |r| == |lines|
    ensures forall k :: 0 <= k < |r| ==> r[k] == "- " + lines[k]
  {
    seq(|lines|, k requires 0 <= k < |lines| => "- " + lines[k])
  }

  /** What the prompt shows under the resources heading. */
  function PromptResources(info: seq<string>): (r: string)
    ensures r == "No specific resources listed" <==> info == []
  {
    var text := ResourcesText(info);
    ResourcesTextStart(info);
    if text != "" then text else "No specific resources listed"
  }

  lemma ResourcesTextStart(info: seq<string>)
    ensures info == [] ==> ResourcesText(info) == ""
    ensures info != [] ==> ResourcesText(info) != "" && ResourcesText(info)[0] == '-'
  {
    if info != [] {
      var parts := ResourceEntries(Take(info, MaxPromptResources));
      assert parts[0][0] == '-';
    }
  }

  /** The resources listed in the document: the first 30 lines, under a heading only when there are any. */
  function DocResources(info: seq<string>): (r: seq<string>)
    ensures |r| <= MaxDocResources
    ensures r <= info
    ensures |info| <= MaxDocResources ==> r == info
  {
    Take(info, MaxDocResources)
  }
}
