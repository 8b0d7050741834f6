/**
 * The parts of `extract_key_concepts_from_content` that are not prompt
 * wording: the chapter list picked out of the exam name by the regex
 * `ch[apter]*\s*([\d\s,]+)` (searched in the lowercased name), and the
 * course material placed in the prompt: the first 25 entries, each as a
 * header line and its first 2000 characters, cut to 12000 characters.
 */
module StudyPrompt {
  import opened Wrappers
  import opened Text
  import opened StudyMaterials
  import Seqs

  /** The character class `[apter]`. */
  predicate IsApter(c: char) {
    c == 'a' || c == 'p' || c == 't' || c == 'e' || c == 'r'
  }

  /** The character class `[\d\s,]` of the captured group. */
  predicate IsListChar(c: char) {
    IsDigit(c) || IsSpace(c) || c == ','
  }

  /**
   * The group the regex captures when its match starts at `i`, as a pair of
   * bounds. After `ch`, `[apter]*` and `\s*` take their longest runs; if the
   * next character is a digit or a comma the group is the longest run of
   * `[\d\s,]` from there; otherwise the regex backs off one whitespace
   * character (when `\s*` took any), and that one space is the group.
   */
  function MatchAt(s: string, i: nat): (r: Option<(nat, nat)>)
    ensures r.Some? ==> OccursAt(s, "ch", i)
    ensures r.Some? ==> i + 2 <= r.value.0 < r.value.1 <= |s|
    ensures r.Some? ==> forall k :: r.value.0 <= k < r.value.1 ==> IsListChar(s[k])
  {
    if i + 2 <= |s| && s[i..i + 2] == "ch" then
      var j := RunEnd(s, i + 2, IsApter);
      var k := RunEnd(s, j, IsSpace);
      if k < |s| && IsListChar(s[k]) then Some((k, RunEnd(s, k, IsListChar)))
      else if k > j then Some((k - 1, k))
      else None
    else None
  }

  /** `re.search`: the leftmost position at or after `from` where the regex matches. */
  function Search(s: string, from: nat): (r: Option<nat>)
    ensures r.Some? ==> from <= r.value && MatchAt(s, r.value).Some?
    ensures r.Some? ==> forall i :: from <= i < r.value ==> MatchAt(s, i).None?
    ensures r.None? ==> forall i :: from <= i ==> MatchAt(s, i).None?
    decreases |s| - from
  {
    if from + 2 > |s| then None
    else if MatchAt(s, from).Some? then Some(from)
    else Search(s, from + 1)
  }

  /** `chapters_match.group(1).strip()`, or `None` when the regex does not match. */
  function ChaptersCovered(examName: string): (r: Option<string>)
    ensures r.Some? ==> forall k :: 0 <= k < |r.value| ==> IsListChar(r.value[k])
    ensures r.Some? ==> r.value == [] || (!IsSpace(r.value[0]) && !IsSpace(r.value[|r.value| - 1]))
    ensures r.None? <==> forall i :: MatchAt(Lower(examName), i).None?
  {
    var s := Lower(examName);
    match Search(s, 0)
    case None => None
    case Some(i) =>
      var g := MatchAt(s, i).value;
      var group := s[g.0..g.1];
      StripListChars(group);
      Some(Strip(group))
  }

  /** Stripping a run of list characters leaves only list characters. */
  lemma StripListChars(group: string)
    requires forall k :: 0 <= k < |group| ==> IsListChar(group[k])
    ensures forall k :: 0 <= k < |Strip(group)| ==> IsListChar(Strip(group)[k])
  {
    var i, j := StripBounds(group);
    forall k | 0 <= k < |Strip(group)| ensures IsListChar(Strip(group)[k]) {
      assert Strip(group)[k] == group[i + k];
    }
  }

  lemma LowerChSpaceOne()
    ensures Lower("Ch 1, 2") == "ch 1, 2"
  {
  }

  /** A chapter list is picked out of the exam name, case-insensitively. */
  lemma ChapterListExample()
    ensures ChaptersCovered("Ch 1, 2") == Some("1, 2")
  {
    LowerChSpaceOne();
    MatchChOneTwo();
    TrimOneTwo();
    assert "ch 1, 2"[3..7] == "1, 2";
  }

  lemma MatchChOneTwo()
    ensures MatchAt("ch 1, 2", 0) == Some((3, 7))
  {
    var s := "ch 1, 2";
    assert RunEnd(s, 2, IsApter) == 2;
    assert RunEnd(s, 2, IsSpace) == 3;
    assert RunEnd(s, 3, IsListChar) == 7;
  }

  lemma TrimOneTwo()
    ensures TrimStart("1, 2") == "1, 2" && TrimEnd("1, 2") == "1, 2"
  {
    var s := "1, 2";
    assert !IsSpace(s[0]) && !IsSpace(s[|s| - 1]);
  }

  lemma LowerChReview()
    ensures Lower("Ch review") == "ch review"
  {
  }

  /**
   * A name with `ch` followed by a space and a word matches too: the regex
   * backs off to capture the single space, so the chapter list is empty.
   */
  lemma EmptyChapterListExample()
    ensures ChaptersCovered("Ch review") == Some("")
  {
    LowerChReview();
    var s := "ch review";
    assert RunEnd(s, 2, IsApter) == 2;
    assert RunEnd(s, 2, IsSpace) == 3;
    assert !IsListChar(s[3]);
    assert MatchAt(s, 0) == Some((2, 3));
    assert s[2..3] == " ";
  }

  /** A name without `ch` followed by `[apter]` letters, spaces and a list has no chapter list. */
  lemma NoChapterListWithoutCh(examName: string)
    requires !Contains(Lower(examName), "ch")
    ensures ChaptersCovered(examName).None?
  {
    ContainsIff(Lower(examName), "ch");
  }

  const MaxEntries: nat := 25
  const MaxEntryChars: nat := 2000
  const MaxMaterialChars: nat := 12000

  function KindName(k: EntryKind): string {
    match k
    case PageEntry => "Page"
    case AssignmentEntry => "Assignment"
    case DiscussionEntry => "Discussion"
  }

  /** The header line of one entry. */
  function Header(e: ContentEntry): string {
    "\n\n=== " + KindName(e.kind) + ": " + e.title + " ===\n"
  }

  /** The text one entry adds: its header and its first 2000 characters. */
  function Block(e: ContentEntry): (r: string)
    ensures |Header(e)| <= |r| <= |Header(e)| + MaxEntryChars
    ensures |r| <= |Header(e)| + |e.content|
    ensures r == Header(e) + e.content[..|r| - |Header(e)|]
  {
    Header(e) + Take(e.content, MaxEntryChars)
  }

  function Blocks(items: seq<ContentEntry>): string {
    if items == [] then "" else Blocks(items[..|items| - 1]) + Block(items[|items| - 1])
  }

  /** `content_text`: the blocks of the first 25 entries. */
  function ContentText(items: seq<ContentEntry>): string {
    Blocks(Take(items, MaxEntries))
  }

  /** `content_text[:12000]`, the material placed in the prompt. */
  function PromptMaterial(items: seq<ContentEntry>): (r: string)
    ensures |r| <= MaxMaterialChars
    ensures r <= ContentText(items)
    ensures |ContentText(items)| <= MaxMaterialChars ==> r == ContentText(items)
  {
    Take(ContentText(items), MaxMaterialChars)
  }

  lemma BlocksStep(items: seq<ContentEntry>, i: nat)
    requires i < |items|
    ensures Blocks(items[..i + 1]) == Blocks(items[..i]) + Block(items[i])
  {
    assert items[..i + 1][..i] == items[..i];
  }

  lemma BlockAppended(text: string, e: ContentEntry)
    ensures text + Header(e) + Take(e.content, MaxEntryChars) == text + Block(e)
  {
    assert Block(e) == Header(e) + Take(e.content, MaxEntryChars);
  }

  /** The loop that builds `content_text`. */
  method BuildContentText(items: seq<ContentEntry>) returns (text: string)
    ensures text == ContentText(items)
  {
    var n := if |items| < MaxEntries then |items| else MaxEntries;
    text := "";
    var i := 0;
    while i < n
      invariant 0 <= i <= n
      invariant text == Blocks(items[..i])
    {
      var item := items[i];
      ghost var before := text;
      text := text + Header(item);
      text := text + Take(item.content, MaxEntryChars);
      BlockAppended(before, item);
      BlocksStep(items, i);
      i := i + 1;
    }
    assert items[..n] == Take(items, MaxEntries);
  }

  lemma {:induction false} BlocksAppend(a: seq<ContentEntry>, b: seq<ContentEntry>)
    ensures Blocks(a + b) == Blocks(a) + Blocks(b)
  {
    if b != [] {
      Seqs.AppendFront(a, b);
      BlocksAppend(a, b[..|b| - 1]);
    } else {
      Seqs.AppendEmpty(a);
    }
  }

  /**
   * Each of the first 25 entries contributes its block, in entry order:
   * the block of entry `i` follows the blocks of the entries before it.
   */
  lemma EntryBlockPlaced(items: seq<ContentEntry>, i: nat)
    requires i < |items| && i < MaxEntries
    ensures ContentText(items) == Blocks(items[..i]) + Block(items[i]) + Blocks(Take(items, MaxEntries)[i + 1..])
  {
    var t := Take(items, MaxEntries);
    assert t == items[..i] + [items[i]] + t[i + 1..];
    BlocksAppend(items[..i] + [items[i]], t[i + 1..]);
    BlocksAppend(items[..i], [items[i]]);
    assert Blocks([items[i]]) == Block(items[i]) by {
      assert [items[i]][..0] == [];
    }
  }

  /** Entries after the 25th never reach the prompt. */
  lemma LaterEntriesIgnored(items: seq<ContentEntry>, more: seq<ContentEntry>)
    requires |items| >= MaxEntries
    ensures ContentText(items + more) == ContentText(items)
  {
    assert (items + more)[..MaxEntries] == items[..MaxEntries];
  }

  /** More material only extends the prompt: what fewer entries showed is kept as its start. */
  lemma MaterialGrows(items: seq<ContentEntry>, more: seq<ContentEntry>)
    ensures PromptMaterial(items) <= PromptMaterial(items + more)
  {
    if |items| >= MaxEntries {
      LaterEntriesIgnored(items, more);
    } else {
      var t := Take(items + more, MaxEntries);
      assert t == items + t[|items|..];
      BlocksAppend(items, t[|items|..]);
    }
  }
}
