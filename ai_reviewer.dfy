/**
 * The pull-request review stub (scripts/ci/ai_reviewer_stub.py): flags
 * commit subjects that are not conventional commits, and notes changed
 * documentation and scripts. The output of `git diff --name-only` and
 * `git log --pretty=%s` are inputs; the notes are kept as values rather
 * than as their Markdown text.
 */
module AiReviewer {
  import opened Wrappers
  import opened Strings
  import opened Sequences

  predicate HasPrefix(s: string, p: string) {
    |p| <= |s| && s[..|p|] == p
  }

  predicate HasSuffix(s: string, p: string) {
    |p| <= |s| && s[|s| - |p|..] == p
  }

  /** `str.splitlines()` for text whose only line break is `\n`: no final empty line. */
  function SplitLines(s: string): (lines: seq<string>)
    ensures forall i :: 0 <= i < |lines| ==> '\n' !in lines[i]
  {
    var parts := Split(s, '\n');
    if parts[|parts| - 1] == "" then parts[..|parts| - 1] else parts
  }

  /**
   * The lines are the text's pieces: joined with line breaks, plus the final
   * line break that `splitlines` drops, they give the text back.
   */
  lemma SplitLinesRoundTrip(s: string)
    ensures Join(SplitLines(s), '\n') + (if s != "" && s[|s| - 1] == '\n' then "\n" else "") == s
  {
    var parts := Split(s, '\n');
    JoinSplit(s, '\n');
    var last := parts[|parts| - 1];
    if |parts| == 1 {
      assert s == last;
      if s != "" {
        assert s[|s| - 1] in last;
      }
    } else {
      var init := parts[..|parts| - 1];
      assert parts == init + [last];
      JoinSnoc(init, last, '\n');
      if last != "" {
        assert s[|s| - 1] == last[|last| - 1];
        assert last[|last| - 1] in last;
      }
    }
  }

  // ---------------------------------------------------------------- check_msgs

  /** The commit types the pattern accepts. */
  const Types: seq<string> := ["feat", "fix", "docs", "chore", "refactor", "test", "ci", "build"]

  /**
   * What the pattern asks of the text after the type, stated as the regex
   * reads: `: ` at once, or a `(`, a non-empty scope without a line break,
   * and `): ` somewhere after it.
   */
  predicate AfterTypeSpec(rest: string) {
    HasPrefix(rest, ": ")
    || (|rest| >= 1 && rest[0] == '('
        && exists j :: 2 <= j && j + 3 <= |rest| && rest[j..j + 3] == "): " && '\n' !in rest[1..j])
  }

  /** `re.match(pattern, msg)` succeeds. */
  predicate ConventionalSpec(msg: string) {
    exists t :: t in Types && HasPrefix(msg, t) && AfterTypeSpec(msg[|t|..])
  }

  /** Scans for the closing `): `, from position `k` on, the scope so far being `rest[1..k-1]`. */
  function ScopeCloses(rest: string, k: nat): bool
    requires k >= 2
    decreases |rest| - k
  {
    if k + 3 > |rest| then false
    else if rest[k - 1] == '\n' then false
    else if rest[k..k + 3] == "): " then true
    else ScopeCloses(rest, k + 1)
  }

  function AfterType(rest: string): bool {
    HasPrefix(rest, ": ") || (|rest| >= 1 && rest[0] == '(' && ScopeCloses(rest, 2))
  }

  /** The type a message starts with; no type is a prefix of another, so there is at most one. */
  function TypeOf(msg: string): (r: Option<string>)
    ensures r.Some? ==> r.value in Types && HasPrefix(msg, r.value)
    ensures r.None? ==> forall t :: t in Types ==> !HasPrefix(msg, t)
  {
    TypeFrom(msg, 0)
  }

  function TypeFrom(msg: string, i: nat): (r: Option<string>)
    requires i <= |Types|
    ensures r.Some? ==> r.value in Types && HasPrefix(msg, r.value)
    ensures r.None? ==> forall j :: i <= j < |Types| ==> !HasPrefix(msg, Types[j])
    decreases |Types| - i
  {
    if i == |Types| then None
    else if HasPrefix(msg, Types[i]) then Some(Types[i])
    else TypeFrom(msg, i + 1)
  }

  /** The message predicate of `check_msgs`. */
  function IsConventional(msg: string): bool {
    match TypeOf(msg)
    case None => false
    case Some(t) => AfterType(msg[|t|..])
  }

  /** `rest[1..k-1]`, the scope read so far, holds no line break. */
  predicate NoBreakBefore(rest: string, k: nat) {
    forall i :: 1 <= i < k - 1 && i < |rest| ==> rest[i] != '\n'
  }

  lemma {:induction false} ScopeClosesSpec(rest: string, k: nat)
    requires k >= 2 && NoBreakBefore(rest, k)
    ensures ScopeCloses(rest, k) <==>
      exists j :: k <= j && j + 3 <= |rest| && rest[j..j + 3] == "): " && '\n' !in rest[1..j]
    decreases |rest| - k
  {
    if k + 3 > |rest| {
    } else if rest[k - 1] == '\n' {
      forall j | k <= j && j + 3 <= |rest|
        ensures '\n' in rest[1..j]
      {
        assert rest[1..j][k - 2] == rest[k - 1];
      }
    } else if rest[k..k + 3] == "): " {
      assert forall i :: 0 <= i < k - 1 ==> rest[1..k][i] == rest[i + 1];
      assert '\n' !in rest[1..k];
    } else {
      ScopeClosesSpec(rest, k + 1);
      forall j | k + 1 <= j && j + 3 <= |rest| && '\n' !in rest[1..j]
        ensures '\n' !in rest[1..k]
      {
        assert rest[1..k] == rest[1..j][..k - 1];
      }
    }
  }

  /** Every accepted type is told apart by its first two characters. */
  lemma TypesByFirstTwo(t: string, u: string)
    requires t in Types && u in Types && t[..2] == u[..2]
    ensures t == u
  {
    var i :| 0 <= i < |Types| && Types[i] == t;
    var j :| 0 <= j < |Types| && Types[j] == u;
    assert Types[i][0] == Types[j][0] && Types[i][1] == Types[j][1];
  }

  /** No accepted type is a prefix of another. */
  lemma TypesPrefixFree(msg: string, t: string, u: string)
    requires t in Types && u in Types && HasPrefix(msg, t) && HasPrefix(msg, u)
    ensures t == u
  {
    assert t[..2] == msg[..2] == u[..2];
    TypesByFirstTwo(t, u);
  }

  /** The scanning predicate is the pattern: a message passes exactly when the regex matches it. */
  lemma IsConventionalIff(msg: string)
    ensures IsConventional(msg) <==> ConventionalSpec(msg)
  {
    var r := TypeOf(msg);
    if r.Some? {
      var rest := msg[|r.value|..];
      if |rest| >= 1 {
        ScopeClosesSpec(rest, 2);
      }
      forall t | t in Types && HasPrefix(msg, t)
        ensures t == r.value
      {
        TypesPrefixFree(msg, t, r.value);
      }
    }
  }

  /** Messages that are flagged: `check_msgs`. */
  function BadMessages(log: string): seq<string> {
    Filter(SplitLines(log), (l: string) => !IsConventional(l))
  }

  /** The flagged messages are exactly the log lines the pattern rejects, in log order. */
  lemma BadMessagesExactly(log: string)
    ensures IsSubsequence(BadMessages(log), SplitLines(log))
    ensures forall l :: l in BadMessages(log) <==> l in SplitLines(log) && !ConventionalSpec(l)
  {
    FilterIsSubsequence(SplitLines(log), (l: string) => !IsConventional(l));
    forall l
      ensures l in BadMessages(log) <==> l in SplitLines(log) && !ConventionalSpec(l)
    {
      FilterMembers(SplitLines(log), (l: string) => !IsConventional(l), l);
      IsConventionalIff(l);
    }
  }

  // ---------------------------------------------------------------- get_changed_files

  predicate NonBlank(x: string) {
    Strip(x) != ""
  }

  /** `[x.strip() for x in lines if x.strip()]`. */
  function StrippedLines(lines: seq<string>): seq<string> {
    Map(Filter(lines, NonBlank), Strip)
  }

  /** `get_changed_files`: the stripped, non-blank lines of `git diff --name-only`, in order. */
  function ChangedFiles(diff: string): seq<string> {
    StrippedLines(SplitLines(diff))
  }

  /** Every changed file is a non-blank line with its surrounding whitespace removed. */
  lemma StrippedLinesStripped(lines: seq<string>)
    ensures forall i :: 0 <= i < |StrippedLines(lines)| ==>
      StrippedLines(lines)[i] != "" && Strip(StrippedLines(lines)[i]) == StrippedLines(lines)[i]
  {
    var kept := Filter(lines, NonBlank);
    forall i | 0 <= i < |StrippedLines(lines)|
      ensures StrippedLines(lines)[i] != "" && Strip(StrippedLines(lines)[i]) == StrippedLines(lines)[i]
    {
      assert NonBlank(kept[i]);
      assert StrippedLines(lines)[i] == Strip(kept[i]);
    }
  }

  /** The changed files keep the order of the lines and miss no non-blank line. */
  lemma StrippedLinesComplete(lines: seq<string>)
    ensures IsSubsequence(StrippedLines(lines), Map(lines, Strip))
    ensures forall x :: x in lines && NonBlank(x) ==> Strip(x) in StrippedLines(lines)
  {
    FilterMapSubsequence(lines, NonBlank, Strip);
    forall x | x in lines && NonBlank(x)
      ensures Strip(x) in StrippedLines(lines)
    {
      FilterMapMember(lines, NonBlank, Strip, x);
    }
  }

  // ---------------------------------------------------------------- main

  /** A review note, without its Markdown text. */
  datatype Note = CommitNote(messages: seq<string>) | DocsNote | ScriptsNote

  /** What `main` prints: `Looks good. ✅`, or the notes separated by a blank line. */
  datatype Review = LooksGood | Notes(notes: seq<Note>)

  const MaxListedCommits := 10

  predicate AnyDocs(files: seq<string>) {
    exists i :: 0 <= i < |files| && HasSuffix(files[i], ".md")
  }

  predicate AnyScripts(files: seq<string>) {
    exists i :: 0 <= i < |files| && HasPrefix(files[i], "scripts/")
  }

  /** `any(f.endswith(".md") for f in files)`, scanning in order. */
  method ScanDocs(files: seq<string>) returns (found: bool)
    ensures found == AnyDocs(files)
  {
    for i := 0 to |files|
      invariant forall j :: 0 <= j < i ==> !HasSuffix(files[j], ".md")
    {
      if HasSuffix(files[i], ".md") {
        return true;
      }
    }
    return false;
  }

  /** `any(f.startswith("scripts/") for f in files)`, scanning in order. */
  method ScanScripts(files: seq<string>) returns (found: bool)
    ensures found == AnyScripts(files)
  {
    for i := 0 to |files|
      invariant forall j :: 0 <= j < i ==> !HasPrefix(files[j], "scripts/")
    {
      if HasPrefix(files[i], "scripts/") {
        return true;
      }
    }
    return false;
  }

  /** `bad[:10]`. */
  function FirstListed(bad: seq<string>): seq<string> {
    bad[..if |bad| < MaxListedCommits then |bad| else MaxListedCommits]
  }

  /** The notes, in the order commit, docs, scripts. */
  function ReviewNotes(files: seq<string>, bad: seq<string>): seq<Note> {
    (if bad != [] then [CommitNote(FirstListed(bad))] else [])
      + (if AnyDocs(files) then [DocsNote] else [])
      + (if AnyScripts(files) then [ScriptsNote] else [])
  }

  function ReviewSpec(files: seq<string>, bad: seq<string>): Review {
    var notes := ReviewNotes(files, bad);
    if notes == [] then LooksGood else Notes(notes)
  }

  /** The notes `main` collects, in the order it appends them. */
  method CollectNotes(files: seq<string>, bad: seq<string>) returns (out: Review)
    ensures out == ReviewSpec(files, bad)
  {
    var notes: seq<Note> := [];
    if bad != [] {
      notes := notes + [CommitNote(FirstListed(bad))];
    }
    var docs := ScanDocs(files);
    if docs {
      notes := notes + [DocsNote];
    }
    var scripts := ScanScripts(files);
    if scripts {
      notes := notes + [ScriptsNote];
    }
    out := if notes == [] then LooksGood else Notes(notes);
  }

  /** `main`, given the two git outputs. */
  method RunReview(diff: string, log: string) returns (out: Review)
    ensures out == ReviewSpec(ChangedFiles(diff), BadMessages(log))
  {
    out := CollectNotes(ChangedFiles(diff), BadMessages(log));
  }

  /**
   * The review looks good exactly when no message is flagged and no changed
   * file is documentation or a script; a commit note lists the first ten
   * flagged messages at most, in order, and comes before the others.
   */
  lemma ReviewShape(files: seq<string>, bad: seq<string>)
    ensures ReviewSpec(files, bad) == LooksGood <==> bad == [] && !AnyDocs(files) && !AnyScripts(files)
    ensures ReviewSpec(files, bad).Notes? && ReviewSpec(files, bad).notes[0].CommitNote? ==>
      var shown := ReviewSpec(files, bad).notes[0].messages;
      |shown| <= MaxListedCommits && shown == bad[..|shown|] && (|bad| >= MaxListedCommits || shown == bad)
      && shown == bad[..if |bad| < MaxListedCommits then |bad| else MaxListedCommits]
    ensures var notes := ReviewNotes(files, bad);
      (CommitNote(FirstListed(bad)) in notes <==> bad != [])
      && (DocsNote in notes <==> AnyDocs(files)) && (ScriptsNote in notes <==> AnyScripts(files))
    ensures var notes := ReviewNotes(files, bad);
      forall i, j :: 0 <= i < j < |notes| ==> NoteRank(notes[i]) < NoteRank(notes[j])
  {
  }

  function NoteRank(n: Note): nat {
    match n
    case CommitNote(_) => 0
    case DocsNote => 1
    case ScriptsNote => 2
  }
}
