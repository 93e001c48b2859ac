/**
 * Repair of a wiki's storage container permissions: a first, failure-tolerant run of the
 * SetContainersAccess maintenance script, a scan of its output for the containers it
 * could not set up, one `swift post` per such container granting `mw:media` read and
 * write access, and a final run of the maintenance script that must succeed.
 */
module SwiftPerms {
  import opened Wrappers
  import opened Strings

  /** The text before a container name in a line the maintenance script prints. */
  const Prefix: string := "Making sure 'mwstore://miraheze-swift/"
  /** The text right after the name. */
  const ExistsMark: string := "' exists..."
  /** What the script prints on the same line when the container could not be set up. */
  const Failed: string := "failed."

  /** A slice of a slice is a slice of the whole. */
  lemma SliceOfSlice(s: string, a: nat, b: nat, i: nat, j: nat)
    requires a <= b <= |s| && i <= j <= b - a
    ensures s[a..b][i..j] == s[a + i..a + j]
  {
    assert forall k :: 0 <= k < j - i ==> s[a..b][i..j][k] == s[a + i..a + j][k];
  }

  /** Length of the first line of `s`: up to its first newline, or all of it. */
  function LineLength(s: string): (n: nat)
    ensures n <= |s| && '\n' !in s[..n]
    ensures n < |s| ==> s[n] == '\n'
  {
    if '\n' in s then FirstIndex(s, '\n') else |s|
  }

  /** `pat` occurs in `s` starting at `j`. */
  predicate OccursAt(s: string, pat: string, j: nat) {
    j + |pat| <= |s| && s[j..j + |pat|] == pat
  }

  /** Start of the last occurrence of `pat` in `s`, if any. */
  function LastOccurrence(s: string, pat: string): (k: Option<nat>)
    requires pat != []
    ensures k.Some? ==> OccursAt(s, pat, k.value)
    ensures k.Some? ==> forall j :: k.value < j ==> !OccursAt(s, pat, j)
    ensures k.None? ==> forall j :: !OccursAt(s, pat, j)
  {
    if |s| < |pat| then None
    else if EndsWith(s, pat) then Some(|s| - |pat|)
    else
      var init := s[..|s| - 1];
      var k := LastOccurrence(init, pat);
      forall j: nat | OccursAt(s, pat, j) ensures OccursAt(init, pat, j) {
        assert j != |s| - |pat|;
        assert init[j..j + |pat|] == s[j..j + |pat|];
      }
      if k.Some? then
        assert s[k.value..k.value + |pat|] == init[k.value..k.value + |pat|];
        k
      else k
  }

  /**
   * `text[i..e]` is a match of the scan: the prefix, a container name, the exists mark,
   * then, with no newline in between, `failed.` ending at `e`.
   */
  predicate MatchSpan(text: string, i: nat, name: string, e: nat) {
    var j := i + |Prefix|;
    var q := j + |name|;
    var p := q + |ExistsMark|;
    && p + |Failed| <= e <= |text|
    && text[i..j] == Prefix && text[j..q] == name && text[q..p] == ExistsMark
    && text[e - |Failed|..e] == Failed
    && '\n' !in text[p..e - |Failed|]
  }

  /** Where the name that starts at `j` ends: at the first single quote, if the name is not empty. */
  function NameEnd(text: string, j: nat): (q: Option<nat>)
    requires j <= |text|
    ensures q.Some? ==> j < q.value < |text| && text[q.value] == '\'' && '\'' !in text[j..q.value]
    ensures q.None? ==> '\'' !in text[j..] || text[j] == '\''
  {
    if '\'' !in text[j..] then None
    else
      var f := FirstIndex(text[j..], '\'');
      assert text[j..][..f] == text[j..j + f];
      if f == 0 then None else Some(j + f)
  }

  /**
   * Where a match whose exists mark ends at `p` ends: right after the last `failed.` on
   * the rest of that line, if there is one.
   */
  function FailedEnd(text: string, p: nat): (e: Option<nat>)
    requires p <= |text|
    ensures e.Some? ==> p + |Failed| <= e.value <= |text|
    ensures e.Some? ==> text[e.value - |Failed|..e.value] == Failed && '\n' !in text[p..e.value - |Failed|]
  {
    var n := LineLength(text[p..]);
    var line := text[p..p + n];
    assert line == text[p..][..n];
    match LastOccurrence(line, Failed)
    case None => None
    case Some(k) =>
      assert OccursAt(line, Failed, k);
      SliceOfSlice(text, p, p + n, k, k + |Failed|);
      SliceOfSlice(text, p, p + n, 0, k);
      assert '\n' !in text[p..][..n];
      Some(p + k + |Failed|)
  }

  /**
   * The match of the pattern starting at `i`, if there is one: the name runs to the
   * first single quote after the prefix and is not empty; the match ends at the last
   * `failed.` on the line that follows the exists mark.
   */
  function MatchAt(text: string, i: nat): (m: Option<(string, nat)>)
    requires i <= |text|
    ensures m.Some? ==> i < m.value.1 <= |text|
    ensures m.Some? ==> m.value.0 != [] && '\'' !in m.value.0
    ensures m.Some? ==> MatchSpan(text, i, m.value.0, m.value.1)
  {
    if !StartsWith(text[i..], Prefix) then None
    else
      var j := i + |Prefix|;
      assert text[i..j] == text[i..][..|Prefix|];
      match NameEnd(text, j)
      case None => None
      case Some(q) =>
        if !StartsWith(text[q..], ExistsMark) then None
        else
          var p := q + |ExistsMark|;
          assert text[q..p] == text[q..][..|ExistsMark|];
          match FailedEnd(text, p)
          case None => None
          case Some(e) => Some((text[j..q], e))
  }

  /**
   * `re.findall` from position `i`: the names of the non-overlapping matches, left to
   * right, each search resuming where the previous match ended.
   */
  function FindAllFrom(text: string, i: nat): (names: seq<string>)
    requires i <= |text|
    ensures forall n :: n in names ==> n != [] && '\'' !in n
    ensures forall n :: n in names ==> exists s, e :: i <= s && MatchSpan(text, s, n, e)
    decreases |text| - i
  {
    if i == |text| then []
    else
      match MatchAt(text, i)
      case Some((name, e)) =>
        var rest := FindAllFrom(text, e);
        assert forall n :: n in [name] + rest ==> n == name || n in rest;
        [name] + rest
      case None => FindAllFrom(text, i + 1)
  }

  /** The containers the scan extracts from `text`. */
  function FindAll(text: string): seq<string> {
    FindAllFrom(text, 0)
  }

  /** The text the scan reads: standard output, a newline, standard error; a missing stream counts as empty. */
  function CombinedOutput(stdout: Option<string>, stderr: Option<string>): (text: string)
    ensures text == (if stdout.Some? then stdout.value else "") + "\n" + (if stderr.Some? then stderr.value else "")
  {
    match (stdout, stderr)
    case (Some(o), Some(e)) => o + "\n" + e
    case (Some(o), None) => o + "\n"
    case (None, Some(e)) => "\n" + e
    case (None, None) => "\n"
  }

  /** A line reporting one failed container is scanned to exactly that container. */
  lemma FailedLineScan(name: string, mid: string)
    requires name != [] && '\'' !in name && '\n' !in mid
    ensures FindAll(Prefix + name + ExistsMark + mid + Failed) == [name]
  {
    var text := FailureLine(name, mid);
    assert text[0..|text|] == text;
    FailureLineSpan(text, 0, name, mid);
    WholeMatch(text, name);
  }

  /** A text that is one match from start to end is scanned to that match's container. */
  lemma WholeMatch(text: string, name: string)
    requires name != [] && '\'' !in name && MatchSpan(text, 0, name, |text|)
    ensures FindAll(text) == [name]
  {
    MatchAtFinds(text, 0, name, |text|);
    assert MatchAt(text, 0) == Some((name, |text|));
    assert FindAllFrom(text, |text|) == [];
    assert FindAllFrom(text, 0) == [name] + FindAllFrom(text, |text|);
  }

  /** A `failed.` that ends a stretch with no newline in it is found by the scan of that line, or a later one. */
  lemma FailedEndComplete(text: string, p: nat, e: nat)
    requires p + |Failed| <= e <= |text|
    requires text[e - |Failed|..e] == Failed && '\n' !in text[p..e - |Failed|]
    ensures FailedEnd(text, p).Some? && e <= FailedEnd(text, p).value
  {
    forall m | p <= m < e
      ensures text[m] != '\n'
    {
      if m < e - |Failed| {
        assert text[m] == text[p..e - |Failed|][m - p];
      } else {
        assert text[m] == text[e - |Failed|..e][m - (e - |Failed|)];
      }
    }
    var n := LineLength(text[p..]);
    assert e <= p + n;
    var line := text[p..p + n];
    var k := e - |Failed| - p;
    SliceOfSlice(text, p, p + n, k, k + |Failed|);
    assert OccursAt(line, Failed, k);
  }

  /** The first single quote after position `j` ends a name of `name`'s length whenever `name` holds none and is followed by one. */
  lemma NameEndComplete(text: string, j: nat, name: string)
    requires name != [] && '\'' !in name
    requires j + |name| < |text| && text[j..j + |name|] == name && text[j + |name|] == '\''
    ensures NameEnd(text, j) == Some(j + |name|)
  {
    assert text[j..][..|name|] == name;
    assert text[j..][|name|] == '\'';
    FirstIndexAt(text[j..], '\'', |name|);
  }

  /**
   * Every match the pattern allows at `i` is found there, with the same container name,
   * and the match found extends at least as far: `[^\n]*` is greedy.
   */
  lemma MatchAtFinds(text: string, i: nat, name: string, e: nat)
    requires name != [] && '\'' !in name && MatchSpan(text, i, name, e)
    ensures MatchAt(text, i).Some?
    ensures MatchAt(text, i).value.0 == name && e <= MatchAt(text, i).value.1
  {
    var j := i + |Prefix|;
    var q := j + |name|;
    var p := q + |ExistsMark|;
    assert text[i..][..|Prefix|] == text[i..j];
    assert StartsWith(text[i..], Prefix);
    assert text[q] == text[q..p][0];
    NameEndComplete(text, j, name);
    assert text[q..][..|ExistsMark|] == text[q..p];
    assert StartsWith(text[q..], ExistsMark);
    FailedEndComplete(text, p, e);
    var end := FailedEnd(text, p).value;
    assert MatchAt(text, i) == Some((text[j..q], end));
  }

  /** A match cannot run past a newline that follows its exists mark. */
  lemma MatchStopsAtNewline(text: string, i: nat, name: string, e: nat, k: nat)
    requires MatchSpan(text, i, name, e)
    requires i + |Prefix| + |name| + |ExistsMark| <= k < |text| && text[k] == '\n'
    ensures e <= k
  {
  }

  /** The line the maintenance script prints for a container it could not set up, without its newline. */
  function FailureLine(name: string, detail: string): string {
    Prefix + name + ExistsMark + detail + Failed
  }

  /** Five pieces standing one after the other in a text from `i` on: each piece stands where it should. */
  lemma PiecesInText(text: string, i: nat, a: string, b: string, c: string, d: string, f: string)
    requires i + |a + b + c + d + f| <= |text| && text[i..i + |a + b + c + d + f|] == a + b + c + d + f
    ensures var j := i + |a|; var q := j + |b|; var p := q + |c|; var e := p + |d| + |f|;
      && text[i..j] == a && text[j..q] == b && text[q..p] == c
      && text[p..e - |f|] == d && text[e - |f|..e] == f
  {
    var whole := a + b + c + d + f;
    var n := |whole|;
    var j := |a|;
    var q := j + |b|;
    var p := q + |c|;
    assert whole[..j] == a;
    assert whole[j..q] == b;
    assert whole[q..p] == c;
    assert whole[p..n - |f|] == d;
    assert whole[n - |f|..] == f;
    SliceOfSlice(text, i, i + n, 0, j);
    SliceOfSlice(text, i, i + n, j, q);
    SliceOfSlice(text, i, i + n, q, p);
    SliceOfSlice(text, i, i + n, p, n - |f|);
    SliceOfSlice(text, i, i + n, n - |f|, n);
  }

  /** A failure line standing anywhere in a text is a match of the whole line. */
  lemma FailureLineSpan(text: string, i: nat, name: string, detail: string)
    requires '\n' !in detail
    requires i + |FailureLine(name, detail)| <= |text| && text[i..i + |FailureLine(name, detail)|] == FailureLine(name, detail)
    ensures MatchSpan(text, i, name, i + |FailureLine(name, detail)|)
  {
    PiecesInText(text, i, Prefix, name, ExistsMark, detail, Failed);
  }

  /** No match starts at a newline. */
  lemma NoMatchAtNewline(text: string, k: nat)
    requires k < |text| && text[k] == '\n'
    ensures MatchAt(text, k) == None
  {
    assert text[k..][0] != Prefix[0];
  }

  /** A match the pattern allows that ends right before a newline is the match found, and the scan resumes after the newline. */
  lemma ScanStep(text: string, i: nat, name: string, k: nat)
    requires name != [] && '\'' !in name && MatchSpan(text, i, name, k)
    requires k < |text| && text[k] == '\n'
    ensures FindAllFrom(text, i) == [name] + FindAllFrom(text, k + 1)
  {
    MatchEndsAtNewline(text, i, name, k);
    NoMatchAtNewline(text, k);
  }

  /** A match the pattern allows that ends right before a newline is the match found. */
  lemma MatchEndsAtNewline(text: string, i: nat, name: string, k: nat)
    requires name != [] && '\'' !in name && MatchSpan(text, i, name, k)
    requires k < |text| && text[k] == '\n'
    ensures MatchAt(text, i) == Some((name, k))
  {
    MatchAtFinds(text, i, name, k);
    var m := MatchAt(text, i).value;
    MatchStopsAtNewline(text, i, name, m.1, k);
  }

  /** What the maintenance script prints for a list of failed containers, each with its detail: one failure line each. */
  function Report(failures: seq<(string, string)>): string {
    if failures == [] then ""
    else FailureLine(failures[0].0, failures[0].1) + "\n" + Report(failures[1..])
  }

  /** The containers of a list of failures, in order. */
  function Containers(failures: seq<(string, string)>): (names: seq<string>)
    ensures |names| == |failures| && forall k :: 0 <= k < |failures| ==> names[k] == failures[k].0
  {
    seq(|failures|, k requires 0 <= k < |failures| => failures[k].0)
  }

  /** A well-formed failure: a non-empty name without a single quote, a detail without a newline. */
  predicate WellFormed(failures: seq<(string, string)>)
    decreases |failures|
  {
    failures != [] ==>
      && failures[0].0 != [] && '\'' !in failures[0].0 && '\n' !in failures[0].1
      && WellFormed(failures[1..])
  }

  /**
   * The failure lines of `failures` stand in `text` from `i` on, each a match followed by
   * a newline.
   */
  predicate ReportAt(text: string, i: nat, failures: seq<(string, string)>)
    decreases |failures|
  {
    if failures == [] then i <= |text|
    else
      var k := i + |FailureLine(failures[0].0, failures[0].1)|;
      && MatchSpan(text, i, failures[0].0, k) && k < |text| && text[k] == '\n'
      && ReportAt(text, k + 1, failures[1..])
  }

  /** Where the lines of `failures`, starting at `i`, end. */
  function ReportEnd(i: nat, failures: seq<(string, string)>): nat
    decreases |failures|
  {
    if failures == [] then i
    else ReportEnd(i + |FailureLine(failures[0].0, failures[0].1)| + 1, failures[1..])
  }

  /** A line, a newline and a rest standing in a text from `i` on: each piece stands where it should. */
  lemma LineInText(text: string, i: nat, line: string, rest: string)
    requires i + |line + "\n" + rest| <= |text| && text[i..i + |line + "\n" + rest|] == line + "\n" + rest
    ensures text[i..i + |line|] == line && text[i + |line|] == '\n'
    ensures text[i + |line| + 1..i + |line| + 1 + |rest|] == rest
  {
    var whole := line + "\n" + rest;
    var n := |whole|;
    assert whole[..|line|] == line;
    assert whole[|line| + 1..] == rest;
    SliceOfSlice(text, i, i + n, 0, |line|);
    SliceOfSlice(text, i, i + n, |line| + 1, n);
    assert text[i + |line|] == whole[|line|];
  }

  /** The first failure line of a report standing in a text is a match followed by a newline. */
  lemma ReportHead(text: string, i: nat, failures: seq<(string, string)>)
    requires failures != [] && '\n' !in failures[0].1
    requires i + |Report(failures)| <= |text| && text[i..i + |Report(failures)|] == Report(failures)
    ensures var k := i + |FailureLine(failures[0].0, failures[0].1)|;
      MatchSpan(text, i, failures[0].0, k) && k < |text| && text[k] == '\n'
  {
    LineInText(text, i, FailureLine(failures[0].0, failures[0].1), Report(failures[1..]));
    FailureLineSpan(text, i, failures[0].0, failures[0].1);
  }

  /** After the first failure line and its newline, the rest of the report follows. */
  lemma ReportTail(text: string, i: nat, failures: seq<(string, string)>)
    requires failures != []
    requires i + |Report(failures)| <= |text| && text[i..i + |Report(failures)|] == Report(failures)
    ensures var k := i + |FailureLine(failures[0].0, failures[0].1)| + 1;
      && k + |Report(failures[1..])| == i + |Report(failures)|
      && text[k..k + |Report(failures[1..])|] == Report(failures[1..])
  {
    LineInText(text, i, FailureLine(failures[0].0, failures[0].1), Report(failures[1..]));
  }

  /** A report standing in a text from `i` on puts its failure lines there, ending where the report ends. */
  lemma {:induction false} ReportInText(text: string, i: nat, failures: seq<(string, string)>)
    requires WellFormed(failures)
    requires i + |Report(failures)| <= |text| && text[i..i + |Report(failures)|] == Report(failures)
    ensures ReportAt(text, i, failures)
    decreases |failures|
  {
    if failures != [] {
      var k := i + |FailureLine(failures[0].0, failures[0].1)|;
      ReportHead(text, i, failures);
      ReportTail(text, i, failures);
      ReportInText(text, k + 1, failures[1..]);
    }
  }

  /** The failure lines of a report end where the report does. */
  lemma {:induction false} ReportEndLength(i: nat, failures: seq<(string, string)>)
    ensures ReportEnd(i, failures) == i + |Report(failures)|
    decreases |failures|
  {
    if failures != [] {
      var line := FailureLine(failures[0].0, failures[0].1);
      ReportEndLength(i + |line| + 1, failures[1..]);
      assert |Report(failures)| == |line| + 1 + |Report(failures[1..])|;
    }
  }

  /** `ScanStep` followed by whatever the scan finds after the newline. */
  lemma ScanStepThen(text: string, i: nat, name: string, k: nat, after: seq<string>, end: nat, all: seq<string>)
    requires name != [] && '\'' !in name && MatchSpan(text, i, name, k)
    requires k < |text| && text[k] == '\n' && k + 1 <= end <= |text|
    requires FindAllFrom(text, k + 1) == after + FindAllFrom(text, end)
    requires all == [name] + after
    ensures FindAllFrom(text, i) == all + FindAllFrom(text, end)
  {
    ScanStep(text, i, name, k);
  }

  /** Scanning failure lines, wherever they stand in the text, extracts their containers in order, then goes on after them. */
  lemma {:induction false} ReportScan(text: string, i: nat, failures: seq<(string, string)>)
    requires WellFormed(failures) && ReportAt(text, i, failures)
    ensures i <= ReportEnd(i, failures) <= |text|
    ensures FindAllFrom(text, i) == Containers(failures) + FindAllFrom(text, ReportEnd(i, failures))
    decreases |failures|
  {
    if failures != [] {
      var k := i + |FailureLine(failures[0].0, failures[0].1)|;
      var end := ReportEnd(k + 1, failures[1..]);
      assert ReportEnd(i, failures) == end;
      ReportScan(text, k + 1, failures[1..]);
      assert Containers(failures) == [failures[0].0] + Containers(failures[1..]);
      ScanStepThen(text, i, failures[0].0, k, Containers(failures[1..]), end, Containers(failures));
    }
  }

  /** The containers the repair extracts from a report on standard output are exactly the failed ones, in order. */
  lemma ReportContainers(failures: seq<(string, string)>)
    requires WellFormed(failures)
    ensures FindAll(CombinedOutput(Some(Report(failures)), None)) == Containers(failures)
  {
    var report := Report(failures);
    var text := CombinedOutput(Some(report), None);
    assert text[..|report|] == report;
    ReportInText(text, 0, failures);
    ReportEndLength(0, failures);
    ReportScan(text, 0, failures);
    NoMatchAtNewline(text, |report|);
  }

  /** A text in which the prefix never starts a match yields no container. */
  lemma {:induction false} NoPrefixNoContainers(text: string, i: nat)
    requires i <= |text|
    requires forall k :: i <= k <= |text| ==> !StartsWith(text[k..], Prefix)
    ensures FindAllFrom(text, i) == []
    decreases |text| - i
  {
    if i < |text| {
      NoPrefixNoContainers(text, i + 1);
    }
  }

  /** One command run: its argument vector, and whether a failure raises. */
  datatype Step = Step(argv: seq<string>, check: bool)

  /** The SetContainersAccess maintenance script on `wiki`. */
  function SetContainersAccess(wiki: string, check: bool): Step {
    Step(["mwscript", "CreateWiki:SetContainersAccess", wiki], check)
  }

  /** Grants `mw:media` read and write access on `miraheze-<wiki>-<container>`; a failure raises. */
  function SwiftPost(wiki: string, container: string): Step {
    Step(["swift", "post", "--read-acl", "mw:media", "--write-acl", "mw:media", "miraheze-" + wiki + "-" + container], true)
  }

  /**
   * The full repair when every command succeeds: the tolerant probe run, one post per
   * extracted container in scan order, then the strict verify run.
   */
  function RepairPlan(wiki: string, stdout: Option<string>, stderr: Option<string>): (plan: seq<Step>)
    ensures var names := FindAll(CombinedOutput(stdout, stderr));
      && |plan| == |names| + 2
      && plan[0] == SetContainersAccess(wiki, false)
      && plan[|plan| - 1] == SetContainersAccess(wiki, true)
      && forall k :: 0 <= k < |names| ==> plan[k + 1] == SwiftPost(wiki, names[k])
  {
    var names := FindAll(CombinedOutput(stdout, stderr));
    [SetContainersAccess(wiki, false)]
    + seq(|names|, k requires 0 <= k < |names| => SwiftPost(wiki, names[k]))
    + [SetContainersAccess(wiki, true)]
  }

  /** With nothing extracted, the repair is the probe and the verify run and no post. */
  lemma NoMatchesNoPosts(wiki: string, stdout: Option<string>, stderr: Option<string>)
    requires FindAll(CombinedOutput(stdout, stderr)) == []
    ensures RepairPlan(wiki, stdout, stderr) == [SetContainersAccess(wiki, false), SetContainersAccess(wiki, true)]
  {
  }

  /**
   * Every post in the plan is a `swift post` with `mw:media` read and write ACLs on a
   * container named `miraheze-<wiki>-<name>` for a non-empty, quote-free name the scan
   * found; the probe tolerates failure and the verify run does not.
   */
  lemma PlanPostsShape(wiki: string, stdout: Option<string>, stderr: Option<string>, k: nat)
    requires 0 < k < |RepairPlan(wiki, stdout, stderr)| - 1
    ensures var step := RepairPlan(wiki, stdout, stderr)[k];
      && step.check
      && step.argv[..6] == ["swift", "post", "--read-acl", "mw:media", "--write-acl", "mw:media"]
      && |step.argv| == 7
      && exists name :: name in FindAll(CombinedOutput(stdout, stderr)) && name != [] && '\'' !in name
           && step.argv[6] == "miraheze-" + wiki + "-" + name
  {
    var names := FindAll(CombinedOutput(stdout, stderr));
    assert names[k - 1] in names;
  }

  /** How the repair ended. */
  datatype FixStatus =
    | Done
    | PostFailed(container: string, code: int) // a `swift post` exited non-zero and raised
    | VerifyFailed(code: int)                  // the verify run exited non-zero and raised

  /**
   * Runs the repair: the probe (its result only feeds the scan), then one post per
   * extracted container, stopping at the first post that fails, then the verify run.
   * `postCodes[k]` is what the `k`-th post exits with; `issued` is what was run.
   */
  method FixContainerPerms(wiki: string, stdout: Option<string>, stderr: Option<string>, postCodes: seq<int>, verifyCode: int)
    returns (issued: seq<Step>, status: FixStatus)
    requires |postCodes| == |FindAll(CombinedOutput(stdout, stderr))|
    ensures var plan := RepairPlan(wiki, stdout, stderr);
      |issued| <= |plan| && issued == plan[..|issued|]
    ensures status == Done <==> verifyCode == 0 && forall k :: 0 <= k < |postCodes| ==> postCodes[k] == 0
    ensures status.PostFailed? <==> exists k :: 0 <= k < |postCodes| && postCodes[k] != 0
    ensures !status.PostFailed? ==> issued == RepairPlan(wiki, stdout, stderr)
    ensures status.PostFailed? ==>
              && 2 <= |issued| <= |postCodes| + 1
              && status.code == postCodes[|issued| - 2] != 0
              && status.container == FindAll(CombinedOutput(stdout, stderr))[|issued| - 2]
              && forall k :: 0 <= k < |issued| - 2 ==> postCodes[k] == 0
    ensures status.VerifyFailed? ==> status.code == verifyCode != 0
  {
    ghost var plan := RepairPlan(wiki, stdout, stderr);
    var matches := FindAll(CombinedOutput(stdout, stderr));
    issued := [SetContainersAccess(wiki, false)];
    var k := 0;
    while k < |matches|
      invariant 0 <= k <= |matches|
      invariant issued == plan[..k + 1]
      invariant forall j :: 0 <= j < k ==> postCodes[j] == 0
    {
      issued := issued + [SwiftPost(wiki, matches[k])];
      assert plan[..k + 2] == plan[..k + 1] + [plan[k + 1]];
      if postCodes[k] != 0 {
        return issued, PostFailed(matches[k], postCodes[k]);
      }
      k := k + 1;
    }
    issued := issued + [SetContainersAccess(wiki, true)];
    assert issued == plan;
    if verifyCode != 0 {
      return issued, VerifyFailed(verifyCode);
    }
    return issued, Done;
  }
}
