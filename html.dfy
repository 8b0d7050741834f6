/**
 * `clean_html`, defined identically in the daily planner and in both study-guide
 * generators: remove every match of the regex `<[^<]+?>`, replace each run of
 * whitespace (`\s+`) by one space, then `strip()`. A missing or empty text
 * gives the empty string.
 */
module Html {
  import opened Wrappers
  import opened Text
  import Seqs

  /**
   * Where the lazy match of `<[^<]+?>` that starts at `s[0] == '<'` ends: the
   * first `>` at index 2 or later, provided no `<` comes before it (the
   * character right after `<` is always consumed by `[^<]+?`, even a `>`).
   */
  function TagEndFrom(s: string, j: nat): (r: Option<nat>)
    requires 1 <= j
    ensures r.Some? ==> j <= r.value < |s| && 2 <= r.value && s[r.value] == '>'
    ensures r.Some? ==> forall i :: j <= i < r.value ==> s[i] != '<'
    decreases |s| - j
  {
    if j >= |s| || s[j] == '<' then None
    else if s[j] == '>' && j >= 2 then Some(j)
    else TagEndFrom(s, j + 1)
  }

  function TagEnd(s: string): (r: Option<nat>)
    requires s != [] && s[0] == '<'
    ensures r.Some? ==> 2 <= r.value < |s| && s[r.value] == '>'
    ensures r.Some? ==> forall i :: 1 <= i < r.value ==> s[i] != '<'
  {
    TagEndFrom(s, 1)
  }

  /** `re.sub('<[^<]+?>', '', s)`: one left-to-right pass removing non-overlapping matches. */
  function StripTags(s: string): (r: string)
    ensures |r| <= |s|
    ensures forall c :: c in r ==> c in s
  {
    if s == [] then []
    else if s[0] == '<' && TagEnd(s).Some? then StripTags(s[TagEnd(s).value + 1..])
    else [s[0]] + StripTags(s[1..])
  }

  /** Only plain spaces, never two in a row. */
  predicate SingleSpaced(s: string) {
    && (forall i :: 0 <= i < |s| && IsSpace(s[i]) ==> s[i] == ' ')
    && (forall i :: 0 <= i < |s| - 1 ==> !(s[i] == ' ' && s[i + 1] == ' '))
  }

  /** What `clean_html` promises of its result. */
  predicate Normalized(s: string) {
    SingleSpaced(s) && (s == [] || (s[0] != ' ' && s[|s| - 1] != ' '))
  }

  /** `re.sub(r'\s+', ' ', s)` */
  function Collapse(s: string): (r: string)
    ensures SingleSpaced(r)
    ensures (r != [] && r[0] == ' ') <==> (s != [] && IsSpace(s[0]))
    ensures r == [] <==> s == []
    ensures forall c :: c in r && c != ' ' ==> c in s
    decreases |s|
  {
    if s == [] then []
    else if IsSpace(s[0]) then [' '] + Collapse(TrimStart(s))
    else [s[0]] + Collapse(s[1..])
  }

  lemma {:induction false} SingleSpacedSlice(s: string, i: int, j: int)
    requires SingleSpaced(s) && 0 <= i <= j <= |s|
    ensures SingleSpaced(s[i..j])
  {
    var t := s[i..j];
    forall k | 0 <= k < |t| - 1 ensures !(t[k] == ' ' && t[k + 1] == ' ') {
      assert t[k] == s[i + k] && t[k + 1] == s[i + k + 1];
    }
  }

  /** Strip of a single-spaced text is normalized. */
  lemma StripNormalizes(s: string)
    requires SingleSpaced(s)
    ensures Normalized(Strip(s))
  {
    var i, j := StripBounds(s);
    SingleSpacedSlice(s, i, j);
  }

  /** `clean_html(text)`; `None` stands for a missing or `None` text. */
  function CleanHtml(text: Option<string>): string {
    match text
    case None => ""
    case Some(s) => CleanText(s)
  }

  /** `clean_html` of a text that is present: the empty text stays empty. */
  function CleanText(s: string): string {
    if s == [] then "" else Strip(Collapse(StripTags(s)))
  }

  /**
   * The result never starts or ends with whitespace, and its only whitespace
   * is single spaces between words.
   */
  lemma CleanHtmlNormalized(text: Option<string>)
    ensures Normalized(CleanHtml(text))
  {
    if text.Some? && text.value != [] {
      StripNormalizes(Collapse(StripTags(text.value)));
    }
  }

  lemma {:induction false} StripTagsNoTag(s: string)
    requires '<' !in s
    ensures StripTags(s) == s
  {
    if s != [] {
      StripTagsNoTag(s[1..]);
      assert s == [s[0]] + s[1..];
    }
  }

  lemma {:induction false} CollapseSingleSpaced(s: string)
    requires SingleSpaced(s)
    ensures Collapse(s) == s
  {
    if s != [] {
      SingleSpacedSlice(s, 1, |s|);
      CollapseSingleSpaced(s[1..]);
      Seqs.Cons(s);
      if IsSpace(s[0]) {
        LoneSpace(s);
      }
    }
  }

  /** In single-spaced text a leading space is a plain space followed by no other. */
  lemma LoneSpace(s: string)
    requires SingleSpaced(s) && s != [] && IsSpace(s[0])
    ensures s[0] == ' ' && TrimStart(s) == s[1..]
  {
    if |s| > 1 {
      assert !(s[0] == ' ' && s[1] == ' ');
      assert !IsSpace(s[1..][0]);
    }
  }

  lemma {:induction false} StripNormalizedId(s: string)
    requires Normalized(s)
    ensures Strip(s) == s
  {
  }

  /**
   * Text that has no `<` and is already normalized comes back unchanged: in
   * particular a second cleaning of such output is a no-op.
   */
  lemma CleanHtmlFixpoint(s: string)
    requires '<' !in s && Normalized(s)
    ensures CleanHtml(Some(s)) == s
  {
    if s != [] {
      StripTagsNoTag(s);
      CollapseSingleSpaced(s);
      StripNormalizedId(s);
    }
  }

  lemma StripTagsExample()
    ensures StripTags("<a<b>c>") == "<ac>"
  {
    var s := "<a<b>c>";
    assert TagEndFrom(s, 2) == None;
    StripPlain(s);
    assert s[0] == '<' && s[1..] == "a<b>c>";
    PlainThenTag();
    assert ['<'] + "ac>" == "<ac>";
  }

  lemma PlainThenTag()
    ensures StripTags("a<b>c>") == "ac>"
  {
    var t := "a<b>c>";
    StripPlain(t);
    assert t[0] == 'a' && t[1..] == "<b>c>";
    InnerTag();
    assert ['a'] + "c>" == "ac>";
  }

  lemma InnerTag()
    ensures StripTags("<b>c>") == "c>"
  {
    var t := "<b>c>";
    assert TagEndFrom(t, 2) == Some(2);
    assert t[3..] == "c>";
    StripTagsNoTag("c>");
  }

  /** A character that does not open a tag is kept. */
  lemma StripPlain(s: string)
    requires s != [] && (s[0] != '<' || TagEnd(s).None?)
    ensures StripTags(s) == [s[0]] + StripTags(s[1..])
  {
  }

  /**
   * One pass of the regex is not enough to remove every tag: removing `<b>`
   * from `<a<b>c>` leaves `<ac>`, a tag of its own, which a second cleaning removes.
   */
  lemma SinglePassLeavesTag()
    ensures CleanHtml(Some("<a<b>c>")) == "<ac>"
    ensures CleanHtml(Some(CleanHtml(Some("<a<b>c>")))) == ""
  {
    StripTagsExample();
    LeftTagClean();
    SecondPassExample();
    assert Strip(Collapse("")) == "";
  }

  lemma LeftTagClean()
    ensures Strip(Collapse("<ac>")) == "<ac>"
  {
    var r := "<ac>";
    assert Normalized(r);
    CollapseSingleSpaced(r);
    StripNormalizedId(r);
  }

  lemma SecondPassExample()
    ensures StripTags("<ac>") == ""
  {
    var r := "<ac>";
    assert TagEndFrom(r, 2) == Some(3);
    assert r[4..] == [];
  }
}
