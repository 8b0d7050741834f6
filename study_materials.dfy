/**
 * The material curation of the exam study guide generator: which course
 * modules count as exam material (`get_modules_before_exam`), and the
 * content entries gathered from their items (`get_all_content_before_exam`).
 * Instants are epoch seconds; the exam instant is a parameter.
 */
module StudyMaterials {
  import opened Wrappers
  import opened Text
  import opened Html
  import opened Timestamps
  import opened CanvasData
  import opened SafeName

  /**
   * The decoded response a module item's own request would get: a page's
   * `title`/`body`, an assignment's `name`/`description`, or a discussion's
   * `title`/`message`.
   */
  datatype ItemDetail = ItemDetail(title: Option<string>, text: Option<string>)

  /** An entry of a module's `items`, with the response its follow-up request would get. */
  datatype ModuleItem = ModuleItem(
    kind: Option<string>,
    title: Option<string>,
    url: Option<string>,
    htmlUrl: Option<string>,
    pageUrl: Option<string>,
    detail: Fetch<ItemDetail>)

  /** An entry of `/api/v1/courses/{id}/modules?include[]=items`. */
  datatype ModuleRecord = ModuleRecord(name: Option<string>, unlockAt: Option<string>, items: seq<ModuleItem>)

  datatype EntryKind = PageEntry | AssignmentEntry | DiscussionEntry

  /** One element of `all_content`. */
  datatype ContentEntry = ContentEntry(kind: EntryKind, moduleName: string, title: string, content: string)

  /** Module names that mark course-administration modules. */
  const ExcludeKeywords: seq<string> := [
    "course essentials", "microsoft teams", "library research", "library guide",
    "instruction guide", "getting started", "syllabus", "resources", "how to", "orientation"]

  /** Name fragments that mark a content module when it has no unlock date. */
  const ContentIndicators: seq<string> := ["week", "chapter", "ch ", "module"]

  /** `any(word in name for word in words)` */
  predicate MentionsAny(name: string, words: seq<string>) {
    exists k :: 0 <= k < |words| && Contains(name, words[k])
  }

  /** The per-module decision of `get_modules_before_exam`. */
  predicate Selected(m: ModuleRecord, exam: int) {
    var name := Lower(GetOr(m.name, ""));
    if MentionsAny(name, ExcludeKeywords) then false
    else if Truthy(m.unlockAt) then
      match ParseInstant(m.unlockAt.value)
      case None => false
      case Some(t) => t < exam
    else MentionsAny(name, ContentIndicators)
  }

  /** The selected modules of a list, in list order. */
  function Filter(ms: seq<ModuleRecord>, exam: int): seq<ModuleRecord> {
    if ms == [] then []
    else Filter(ms[..|ms| - 1], exam) + (if Selected(ms[|ms| - 1], exam) then [ms[|ms| - 1]] else [])
  }

  /** What `get_modules_before_exam` returns for a response to its module request. */
  function ModulesBeforeExam(resp: Fetch<seq<ModuleRecord>>, exam: int): seq<ModuleRecord> {
    match resp
    case Ok(ms) => Filter(ms, exam)
    case BadStatus => []
    case Raised => []
  }

  method MentionsAnyLoop(name: string, words: seq<string>) returns (found: bool)
    ensures found == MentionsAny(name, words)
  {
    found := false;
    var k := 0;
    while k < |words|
      invariant 0 <= k <= |words|
      invariant found == exists j :: 0 <= j < k && Contains(name, words[j])
    {
      if Contains(name, words[k]) {
        found := true;
      }
      k := k + 1;
    }
  }

  method SelectModules(resp: Fetch<seq<ModuleRecord>>, exam: int) returns (selected: seq<ModuleRecord>)
    ensures selected == ModulesBeforeExam(resp, exam)
  {
    match resp {
      case BadStatus =>
        return [];
      case Raised =>
        return [];
      case Ok(all) =>
        selected := [];
        var i := 0;
        while i < |all|
          invariant 0 <= i <= |all|
          invariant selected == Filter(all[..i], exam)
        {
          FilterStep(all, i, exam);
          var keep := KeepModule(all[i], exam);
          if keep {
            selected := selected + [all[i]];
          }
          i := i + 1;
        }
        assert all[..|all|] == all;
    }
  }

  /** The three rules applied to one module, in the order the loop body checks them. */
  method KeepModule(m: ModuleRecord, exam: int) returns (keep: bool)
    ensures keep == Selected(m, exam)
  {
    var name := Lower(GetOr(m.name, ""));
    var skip := MentionsAnyLoop(name, ExcludeKeywords);
    keep := false;
    if !skip {
      if Truthy(m.unlockAt) {
        match ParseInstant(m.unlockAt.value) {
          case None =>
          case Some(t) =>
            keep := t < exam;
        }
      } else {
        keep := MentionsAnyLoop(name, ContentIndicators);
      }
    }
  }

  lemma FilterStep(ms: seq<ModuleRecord>, i: nat, exam: int)
    requires i < |ms|
    ensures Filter(ms[..i + 1], exam) == Filter(ms[..i], exam) + (if Selected(ms[i], exam) then [ms[i]] else [])
  {
    assert ms[..i + 1][..i] == ms[..i];
  }

  /** A module is kept exactly when it is in the response and passes the three rules. */
  lemma {:induction false} FilterMembers(ms: seq<ModuleRecord>, exam: int, m: ModuleRecord)
    ensures m in Filter(ms, exam) <==> m in ms && Selected(m, exam)
  {
    if ms != [] {
      FilterMembers(ms[..|ms| - 1], exam, m);
      assert ms == ms[..|ms| - 1] + [ms[|ms| - 1]];
    }
  }

  /** Selection keeps the response's order: it distributes over concatenation. */
  lemma {:induction false} FilterAppend(a: seq<ModuleRecord>, b: seq<ModuleRecord>, exam: int)
    ensures Filter(a + b, exam) == Filter(a, exam) + Filter(b, exam)
  {
    if b != [] {
      FilterAppend(a, b[..|b| - 1], exam);
      assert (a + b)[..|a + b| - 1] == a + b[..|b| - 1];
    } else {
      assert a + b == a;
    }
  }

  /** A denylisted module is never selected, whatever its unlock date. */
  lemma ExcludedNeverSelected(m: ModuleRecord, exam: int, k: int)
    requires 0 <= k < |ExcludeKeywords| && Contains(Lower(GetOr(m.name, "")), ExcludeKeywords[k])
    ensures !Selected(m, exam)
  {
  }

  /** With an unlock date, a module that is not denylisted is selected iff the date parses and is strictly before the exam. */
  lemma UnlockRule(m: ModuleRecord, exam: int)
    requires !MentionsAny(Lower(GetOr(m.name, "")), ExcludeKeywords) && Truthy(m.unlockAt)
    ensures Selected(m, exam) <==> ParseInstant(m.unlockAt.value).Some? && ParseInstant(m.unlockAt.value).value < exam
  {
  }

  lemma LowerLiteralWeek()
    ensures Lower("Week 5") == "week 5"
  {
  }

  lemma LowerLiteralLibrary()
    ensures Lower("Library Guide") == "library guide"
  {
  }

  /** A text shorter than a word does not contain it. */
  lemma TooShort(s: string, p: string)
    requires |s| < |p|
    ensures !Contains(s, p)
  {
    ContainsIff(s, p);
  }

  /** "Week 5" with no unlock date is selected by the name fallback. */
  lemma WeekFallbackExample(exam: int)
    ensures Selected(ModuleRecord(Some("Week 5"), None, []), exam)
  {
    var name := "week 5";
    LowerLiteralWeek();
    assert !MentionsAny(name, ExcludeKeywords) by {
      forall k | 0 <= k < |ExcludeKeywords| ensures !Contains(name, ExcludeKeywords[k]) {
        if |ExcludeKeywords[k]| > |name| {
          TooShort(name, ExcludeKeywords[k]);
        } else {
          assert ExcludeKeywords[k] == "how to";
          ContainsIff(name, "how to");
          assert name[0] != 'h';
        }
      }
    }
    assert OccursAt(name, "week", 0);
    ContainsIff(name, "week");
    assert Contains(name, ContentIndicators[0]);
  }

  /** "Library Guide" is excluded even though it unlocked long before the exam. */
  lemma LibraryGuideExample(exam: int)
    ensures !Selected(ModuleRecord(Some("Library Guide"), Some("2000-01-01T00:00:00Z"), []), exam)
  {
    LowerLiteralLibrary();
    assert OccursAt("library guide", "library guide", 0);
    ContainsIff("library guide", "library guide");
    assert Contains("library guide", ExcludeKeywords[3]);
  }

  /**
   * The `if page_url:` check for a page item: `item.get('url') or
   * item.get('html_url', '')`, empty when neither is set.
   */
  function PageUrl(it: ModuleItem): string {
    if Truthy(it.url) then it.url.value else GetOr(it.htmlUrl, "")
  }

  /** The entry one module item contributes, if any. */
  function ItemEntry(moduleName: string, it: ModuleItem): (r: Option<ContentEntry>)
    ensures r.Some? ==> r.value.moduleName == moduleName && r.value.content != ""
    ensures r.Some? ==> it.detail.Ok? && r.value.content == CleanHtml(it.detail.body.text)
    ensures r.Some? && r.value.kind == PageEntry ==> it.kind == Some("Page") && PageUrl(it) != ""
    ensures r.Some? && r.value.kind == AssignmentEntry ==> it.kind == Some("Assignment") && Truthy(it.pageUrl)
    ensures r.Some? && r.value.kind == DiscussionEntry ==> it.kind == Some("Discussion")
  {
    var itemTitle := GetOr(it.title, "Item");
    match it.detail
    case BadStatus => None
    case Raised => None
    case Ok(d) =>
      var text := CleanHtml(d.text);
      if text == "" then None
      else if it.kind == Some("Page") then
        if PageUrl(it) != "" then Some(ContentEntry(PageEntry, moduleName, GetOr(d.title, "Untitled"), text)) else None
      else if it.kind == Some("Assignment") then
        if Truthy(it.pageUrl) then Some(ContentEntry(AssignmentEntry, moduleName, GetOr(d.title, itemTitle), text)) else None
      else if it.kind == Some("Discussion") then
        Some(ContentEntry(DiscussionEntry, moduleName, GetOr(d.title, itemTitle), text))
      else None
  }

  /** The entries of the items `items` of a module named `moduleName`, in item order. */
  function ItemsContent(moduleName: string, items: seq<ModuleItem>): seq<ContentEntry> {
    if items == [] then []
    else
      var e := ItemEntry(moduleName, items[|items| - 1]);
      ItemsContent(moduleName, items[..|items| - 1]) + (if e.Some? then [e.value] else [])
  }

  /** `module.get('name', 'Module')` */
  function ModuleName(m: ModuleRecord): string {
    GetOr(m.name, "Module")
  }

  /** The entries of the modules `ms`: module order, then item order. */
  function ContentOf(ms: seq<ModuleRecord>): seq<ContentEntry> {
    if ms == [] then []
    else ContentOf(ms[..|ms| - 1]) + ItemsContent(ModuleName(ms[|ms| - 1]), ms[|ms| - 1].items)
  }

  /** What `get_all_content_before_exam` returns. */
  function AllContentBeforeExam(resp: Fetch<seq<ModuleRecord>>, exam: int): seq<ContentEntry> {
    ContentOf(ModulesBeforeExam(resp, exam))
  }

  /** The inner loop of `get_all_content_before_exam`, over one module's items. */
  method GatherItems(name: string, items: seq<ModuleItem>) returns (entries: seq<ContentEntry>)
    ensures entries == ItemsContent(name, items)
  {
    entries := [];
    var j := 0;
    while j < |items|
      invariant 0 <= j <= |items|
      invariant entries == ItemsContent(name, items[..j])
    {
      assert items[..j + 1][..j] == items[..j];
      var e := ItemEntry(name, items[j]);
      if e.Some? {
        entries := entries + [e.value];
      }
      j := j + 1;
    }
    assert items[..|items|] == items;
  }

  method GatherContent(modules: seq<ModuleRecord>) returns (entries: seq<ContentEntry>)
    ensures entries == ContentOf(modules)
  {
    entries := [];
    var i := 0;
    while i < |modules|
      invariant 0 <= i <= |modules|
      invariant entries == ContentOf(modules[..i])
    {
      assert modules[..i + 1][..i] == modules[..i];
      var m := modules[i];
      var name := ModuleName(m);
      var fromItems := GatherItems(name, m.items);
      entries := entries + fromItems;
      i := i + 1;
    }
    assert modules[..|modules|] == modules;
  }

  /** Every entry came from an item of one of the modules, and its content is non-empty clean text. */
  lemma {:induction false} ContentSound(ms: seq<ModuleRecord>, e: ContentEntry)
    requires e in ContentOf(ms)
    ensures exists i, j :: 0 <= i < |ms| && 0 <= j < |ms[i].items| && ItemEntry(ModuleName(ms[i]), ms[i].items[j]) == Some(e)
    ensures e.content != "" && Normalized(e.content)
  {
    var init := ms[..|ms| - 1];
    var m := ms[|ms| - 1];
    if e in ContentOf(init) {
      ContentSound(init, e);
      var i, j :| 0 <= i < |init| && 0 <= j < |init[i].items| && ItemEntry(ModuleName(init[i]), init[i].items[j]) == Some(e);
      assert ms[i] == init[i];
    } else {
      var j := ItemsSound(ModuleName(m), m.items, e);
      assert ms[|ms| - 1] == m;
    }
  }

  lemma {:induction false} ItemsSound(name: string, items: seq<ModuleItem>, e: ContentEntry) returns (j: int)
    requires e in ItemsContent(name, items)
    ensures 0 <= j < |items| && ItemEntry(name, items[j]) == Some(e)
    ensures e.content != "" && Normalized(e.content)
  {
    var init := items[..|items| - 1];
    if e in ItemsContent(name, init) {
      j := ItemsSound(name, init, e);
    } else {
      j := |items| - 1;
    }
    CleanHtmlNormalized(items[j].detail.body.text);
  }

  /** Content follows module order: it distributes over concatenation of module lists. */
  lemma {:induction false} ContentAppend(a: seq<ModuleRecord>, b: seq<ModuleRecord>)
    ensures ContentOf(a + b) == ContentOf(a) + ContentOf(b)
  {
    if b != [] {
      ContentAppend(a, b[..|b| - 1]);
      assert (a + b)[..|a + b| - 1] == a + b[..|b| - 1];
    } else {
      assert a + b == a;
    }
  }

  /**
   * Entries are not de-duplicated: a module listed twice contributes its
   * entries twice.
   */
  lemma RepeatedModuleRepeats(m: ModuleRecord)
    ensures ContentOf([m, m]) == ContentOf([m]) + ContentOf([m])
  {
    ContentAppend([m], [m]);
    assert [m] + [m] == [m, m];
  }

  /** An assignment item without `page_url` contributes nothing, whatever its description. */
  lemma AssignmentNeedsPageUrl(name: string, it: ModuleItem)
    requires it.kind == Some("Assignment") && !Truthy(it.pageUrl)
    ensures ItemEntry(name, it).None?
  {
  }

  /**
   * `generate_study_guide`: no study guide when no content was found or the
   * analysis came back empty; otherwise the path of the comprehensive guide,
   * `{safe_name}-COMPREHENSIVE-study-guide.docx` joined to `outputDir` (the
   * home directory's `Documents/Canvas Study Guides`).
   */
  function GenerateStudyGuide(resp: Fetch<seq<ModuleRecord>>, exam: int, examName: string,
                              analysis: Option<string>, outputDir: string): (r: Option<string>)
    ensures r.Some? <==> AllContentBeforeExam(resp, exam) != [] && Truthy(analysis)
    ensures r.Some? ==> r.value == JoinPath(outputDir, ComprehensiveFileName(examName))
  {
    if AllContentBeforeExam(resp, exam) == [] then None
    else if !Truthy(analysis) then None
    else Some(JoinPath(outputDir, ComprehensiveFileName(examName)))
  }

  /**
   * A generated guide sits directly in the output directory and its file name
   * is the sanitised exam name followed by the comprehensive suffix.
   */
  lemma GuidePathNamesExam(resp: Fetch<seq<ModuleRecord>>, exam: int, examName: string,
                           analysis: Option<string>, outputDir: string)
    requires GenerateStudyGuide(resp, exam, examName, analysis, outputDir).Some?
    ensures var p := GenerateStudyGuide(resp, exam, examName, analysis, outputDir).value;
            var f := Sanitize(examName) + "-COMPREHENSIVE-study-guide.docx";
            StartsWith(p, outputDir) && EndsWith(p, f) && '/' !in f
            && (outputDir != [] ==> p[|p| - |f| - 1] == '/')
  {
    ComprehensiveInDirectory(outputDir, examName);
  }
}
