/**
 * The file-name sanitiser both study-guide generators apply to an assignment
 * name: `re.sub(r'[^\w\s-]', '', name)` and then `re.sub(r'[-\s]+', '-', ...)`.
 */
module SafeName {
  import opened Wrappers
  import opened Text
  import Seqs

  predicate IsSeparator(c: char) {
    c == '-' || IsSpace(c)
  }

  /** The characters the first substitution keeps: `\w`, `\s` and `-`. */
  predicate IsKept(c: char) {
    IsWordChar(c) || IsSeparator(c)
  }

  /** `re.sub(r'[^\w\s-]', '', s)` */
  function DropOthers(s: string): (r: string)
    ensures forall i :: 0 <= i < |r| ==> IsKept(r[i])
  {
    if s == [] then []
    else if IsKept(s[0]) then [s[0]] + DropOthers(s[1..])
    else DropOthers(s[1..])
  }

  function DropSeparators(s: string): (r: string)
    ensures |r| <= |s| && r == s[|s| - |r|..]
    ensures r == [] || !IsSeparator(r[0])
  {
    if s != [] && IsSeparator(s[0]) then DropSeparators(s[1..]) else s
  }

  /** `re.sub(r'[-\s]+', '-', s)`: every run of hyphens and whitespace becomes one hyphen. */
  function JoinWithHyphens(s: string): (r: string)
    ensures forall i :: 0 <= i < |r| ==> !IsSpace(r[i])
    ensures forall i :: 0 <= i < |r| - 1 ==> !(r[i] == '-' && r[i + 1] == '-')
    ensures (r != [] && r[0] == '-') <==> (s != [] && IsSeparator(s[0]))
    ensures forall i :: 0 <= i < |r| ==> r[i] == '-' || r[i] in s
    decreases |s|
  {
    if s == [] then []
    else if IsSeparator(s[0]) then "-" + JoinWithHyphens(DropSeparators(s))
    else [s[0]] + JoinWithHyphens(s[1..])
  }

  /** `safe_name` as both generators compute it. */
  function Sanitize(name: string): string {
    JoinWithHyphens(DropOthers(name))
  }

  /** A file-name-safe text: word characters and single hyphens only. */
  predicate Safe(s: string) {
    && (forall i :: 0 <= i < |s| ==> IsWordChar(s[i]) || s[i] == '-')
    && (forall i :: 0 <= i < |s| - 1 ==> !(s[i] == '-' && s[i + 1] == '-'))
  }

  /** The sanitised name has no whitespace, no `--`, and nothing but `[A-Za-z0-9_-]`. */
  lemma SanitizeSafe(name: string)
    ensures Safe(Sanitize(name))
  {
    var d := DropOthers(name);
    var r := JoinWithHyphens(d);
    forall i | 0 <= i < |r| ensures IsWordChar(r[i]) || r[i] == '-' {
      if r[i] != '-' {
        var j :| 0 <= j < |d| && d[j] == r[i];
        assert IsKept(d[j]);
      }
    }
  }

  lemma {:induction false} DropOthersSafe(s: string)
    requires Safe(s)
    ensures DropOthers(s) == s
  {
    if s != [] {
      assert Safe(s[1..]) by {
        forall i | 0 <= i < |s[1..]| - 1 ensures !(s[1..][i] == '-' && s[1..][i + 1] == '-') {
          assert s[1..][i] == s[i + 1] && s[1..][i + 1] == s[i + 2];
        }
      }
      DropOthersSafe(s[1..]);
      assert s == [s[0]] + s[1..];
    }
  }

  lemma SafeTail(s: string)
    requires Safe(s) && s != []
    ensures Safe(s[1..])
    ensures s[0] == '-' ==> s[1..] == [] || !IsSeparator(s[1])
  {
    var t := s[1..];
    forall i | 0 <= i < |t| - 1 ensures !(t[i] == '-' && t[i + 1] == '-') {
      assert t[i] == s[i + 1] && t[i + 1] == s[i + 2];
    }
    if s[0] == '-' && t != [] {
      assert !(s[0] == '-' && s[1] == '-');
    }
  }

  lemma {:induction false} JoinSafe(s: string)
    requires Safe(s)
    ensures JoinWithHyphens(s) == s
  {
    if s != [] {
      var t := s[1..];
      SafeTail(s);
      JoinSafe(t);
      Seqs.Cons(s);
      if IsSeparator(s[0]) {
        assert s[0] == '-';
        JoinHyphen(t);
      } else {
        JoinWord(s[0], t);
      }
    }
  }

  /** A hyphen followed by no separator stays a single hyphen. */
  lemma JoinHyphen(t: string)
    requires t == [] || !IsSeparator(t[0])
    ensures JoinWithHyphens(['-'] + t) == ['-'] + JoinWithHyphens(t)
  {
    var s := ['-'] + t;
    assert s[1..] == t;
    assert DropSeparators(s) == DropSeparators(t) == t;
  }

  /** A character that is not a separator is copied. */
  lemma JoinWord(c: char, t: string)
    requires !IsSeparator(c)
    ensures JoinWithHyphens([c] + t) == [c] + JoinWithHyphens(t)
  {
    assert ([c] + t)[1..] == t;
  }

  /** Sanitising an already sanitised name changes nothing. */
  lemma SanitizeIdempotent(name: string)
    ensures Sanitize(Sanitize(name)) == Sanitize(name)
  {
    var r := Sanitize(name);
    SanitizeSafe(name);
    DropOthersSafe(r);
    JoinSafe(r);
  }

  /** The word characters of a name, in order: what the sanitiser preserves. */
  function WordChars(s: string): string {
    if s == [] then []
    else if IsWordChar(s[0]) then [s[0]] + WordChars(s[1..])
    else WordChars(s[1..])
  }

  lemma {:induction false} WordCharsDrop(s: string)
    ensures WordChars(DropOthers(s)) == WordChars(s)
  {
    if s != [] {
      WordCharsDrop(s[1..]);
      if IsKept(s[0]) {
        assert DropOthers(s) == [s[0]] + DropOthers(s[1..]);
      }
    }
  }

  lemma {:induction false} WordCharsSeparators(s: string)
    ensures WordChars(DropSeparators(s)) == WordChars(s)
  {
    if s != [] && IsSeparator(s[0]) {
      WordCharsSeparators(s[1..]);
      SeparatorStep(s);
    }
  }

  /** A leading separator is dropped by both sides alike. */
  lemma SeparatorStep(s: string)
    requires s != [] && IsSeparator(s[0])
    ensures DropSeparators(s) == DropSeparators(s[1..])
    ensures WordChars(s) == WordChars(s[1..])
  {
    assert !IsWordChar(s[0]);
  }

  lemma {:induction false} WordCharsJoin(s: string)
    ensures WordChars(JoinWithHyphens(s)) == WordChars(s)
    decreases |s|
  {
    if s != [] {
      if IsSeparator(s[0]) {
        WordCharsJoin(DropSeparators(s));
        WordCharsSeparators(s);
        JoinSeparator(s);
        WordCharsCons('-', JoinWithHyphens(DropSeparators(s)));
      } else {
        WordCharsJoin(s[1..]);
        Seqs.Cons(s);
        JoinWord(s[0], s[1..]);
        WordCharsCons(s[0], JoinWithHyphens(s[1..]));
        WordCharsCons(s[0], s[1..]);
      }
    }
  }

  lemma JoinSeparator(s: string)
    requires s != [] && IsSeparator(s[0])
    ensures JoinWithHyphens(s) == ['-'] + JoinWithHyphens(DropSeparators(s))
  {
  }

  lemma WordCharsCons(c: char, t: string)
    ensures WordChars([c] + t) == (if IsWordChar(c) then [c] else []) + WordChars(t)
  {
    assert ([c] + t)[1..] == t;
  }

  /** Letters, digits and underscores of the name all survive, in order; only separators change. */
  lemma SanitizeKeepsWords(name: string)
    ensures WordChars(Sanitize(name)) == WordChars(name)
  {
    WordCharsDrop(name);
    WordCharsJoin(DropOthers(name));
  }

  /**
   * The output file of the exam study guide generator:
   * `{safe_name}-COMPREHENSIVE-study-guide.docx`.
   */
  function ComprehensiveFileName(examName: string): (r: string)
    ensures EndsWith(r, "-COMPREHENSIVE-study-guide.docx")
  {
    Sanitize(examName) + "-COMPREHENSIVE-study-guide.docx"
  }

  /** A safe text holds no `/`. */
  lemma SafeNoSlash(s: string)
    requires Safe(s)
    ensures '/' !in s
  {
    forall i | 0 <= i < |s|
      ensures s[i] != '/'
    {
      assert IsWordChar(s[i]) || s[i] == '-';
    }
  }

  lemma NotInAppend(a: string, b: string, c: char)
    requires c !in a && c !in b
    ensures c !in a + b
  {
    forall i | 0 <= i < |a + b|
      ensures (a + b)[i] != c
    {
      if i < |a| { assert (a + b)[i] == a[i]; } else { assert (a + b)[i] == b[i - |a|]; }
    }
  }

  /** The exam guide's file name is a single path component: it holds no `/`. */
  lemma ComprehensiveNoSlash(examName: string)
    ensures '/' !in ComprehensiveFileName(examName)
  {
    SanitizeSafe(examName);
    SafeNoSlash(Sanitize(examName));
    var t := "-COMPREHENSIVE-study-guide.docx";
    assert '/' !in t;
    NotInAppend(Sanitize(examName), t, '/');
  }

  /**
   * `os.path.join(directory, name)` for a relative `name`: a `/` goes between
   * the two unless the directory is empty or already ends in one.
   */
  function JoinPath(directory: string, name: string): (r: string)
    ensures StartsWith(r, directory) && EndsWith(r, name)
    ensures |r| == |directory| + |name| + (if directory == [] || directory[|directory| - 1] == '/' then 0 else 1)
    ensures directory != [] && directory[|directory| - 1] != '/' ==> r[|directory|] == '/'
  {
    if directory == [] || directory[|directory| - 1] == '/' then directory + name
    else directory + "/" + name
  }

  /**
   * The exam guide lands directly in the output directory: what follows the
   * last `/` of the joined path is exactly the guide's file name.
   */
  lemma ComprehensiveInDirectory(directory: string, examName: string)
    ensures var p := JoinPath(directory, ComprehensiveFileName(examName));
            var f := ComprehensiveFileName(examName);
            EndsWith(p, f) && '/' !in f && (directory != [] ==> p[|p| - |f| - 1] == '/')
  {
    ComprehensiveNoSlash(examName);
  }

  /**
   * The output file of the interactive generator: the name defaults to
   * `study-guide` when the assignment has none; `{safe_name}-study-guide.docx`.
   */
  function StudyGuideFileName(name: Option<string>): (r: string)
    ensures EndsWith(r, "-study-guide.docx")
  {
    var n := match name case Some(v) => v case None => "study-guide";
    Sanitize(n) + "-study-guide.docx"
  }
}
