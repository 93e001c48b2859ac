/**
 * The wiki import script: validation of its parsed options, the automatic
 * `--images-sleep` estimate, the ordered list of maintenance-script command lines it
 * builds, and the sequential runner that stops at the first failing command.
 *
 * An optional string option is "" when it was not passed: the script only ever asks
 * whether such an option is truthy (None and '' alike are not) and uses its value only
 * when it is.
 */
module MwImport {
  import opened Wrappers
  import opened Strings

  /** Total file count at which the automatic images sleep becomes 1 second instead of 0. */
  const ImagesSleepAutoThreshold: nat := 1000

  /** The parsed command line. */
  datatype Args = Args(
    nolog: bool,
    confirm: bool,
    version: string,
    xml: string,
    usernamePrefix: string,
    images: string,
    imagesComment: string,
    searchRecursively: bool,
    imagesSleep: int,
    wiki: string)

  /**
   * What the script learns from the file system: whether the XML path and the images
   * path exist, and the number of files in each directory that walking the images
   * directory visits, in visiting order.
   */
  datatype PathFacts = PathFacts(xmlExists: bool, imagesExists: bool, imagesWalk: seq<nat>)

  /** The `ValueError`s option validation raises. */
  datatype ParseError =
    | XmlOrImagesRequired
    | ImagesCommentRequired
    | XmlNotFound(path: string)
    | ImagesNotFound(path: string)
  {
    function Message(): string {
      match this
      case XmlOrImagesRequired => "--xml and/or --images must be passed"
      case ImagesCommentRequired => "--images-comment must be passed when importing images"
      case XmlNotFound(p) => "Cannot find XML to import: " + Repr(p)
      case ImagesNotFound(p) => "Cannot find images to import: " + Repr(p)
    }
  }

  /**
   * The checks on the options, in the order the script makes them; the path checks only
   * when `checkPaths` is set. Each error is reported exactly when its condition holds
   * and no earlier check failed.
   */
  function Validate(a: Args, checkPaths: bool, fs: PathFacts): (e: Option<ParseError>)
    ensures e == Some(XmlOrImagesRequired) <==> a.xml == "" && a.images == ""
    ensures e == Some(ImagesCommentRequired) <==> a.images != "" && a.imagesComment == ""
    ensures e == Some(XmlNotFound(a.xml)) <==>
              && (a.xml != "" || a.images != "")
              && (a.images != "" ==> a.imagesComment != "")
              && checkPaths && a.xml != "" && !fs.xmlExists
    ensures e == Some(ImagesNotFound(a.images)) <==>
              && (a.images != "" ==> a.imagesComment != "")
              && checkPaths && a.images != "" && !fs.imagesExists
              && (a.xml != "" ==> fs.xmlExists)
    ensures e.Some? ==> e.value in {XmlOrImagesRequired, ImagesCommentRequired, XmlNotFound(a.xml), ImagesNotFound(a.images)}
  {
    if a.xml == "" && a.images == "" then Some(XmlOrImagesRequired)
    else if a.images != "" && a.imagesComment == "" then Some(ImagesCommentRequired)
    else if checkPaths && a.xml != "" && !fs.xmlExists then Some(XmlNotFound(a.xml))
    else if checkPaths && a.images != "" && !fs.imagesExists then Some(ImagesNotFound(a.images))
    else None
  }

  /** What a successful parse guarantees to the rest of the script. */
  predicate Parsed(a: Args) {
    && (a.xml != "" || a.images != "")
    && (a.images != "" ==> a.imagesComment != "" && a.imagesSleep >= 0)
  }

  /** Sum of the per-directory file counts. */
  function Total(counts: seq<nat>): nat {
    if counts == [] then 0 else Total(counts[..|counts| - 1]) + counts[|counts| - 1]
  }

  /** File counts are never negative, so a longer walk never has a smaller total. */
  lemma {:induction false} TotalPrefixBelow(counts: seq<nat>, k: nat)
    requires k <= |counts|
    ensures Total(counts[..k]) <= Total(counts)
  {
    if k < |counts| {
      var init := counts[..|counts| - 1];
      assert counts[..k] == init[..k];
      TotalPrefixBelow(init, k);
    } else {
      assert counts[..k] == counts;
    }
  }

  /**
   * The automatic images sleep: walks the directories in order keeping a running file
   * total and answers 1 as soon as the total reaches the threshold, 0 when the walk ends
   * below it. Because the total only grows, that is 1 exactly when all the files
   * together reach the threshold.
   */
  method CalculateImagesSleep(walk: seq<nat>) returns (sleep: int)
    ensures sleep == 0 || sleep == 1
    ensures sleep == 1 <==> exists k :: 0 < k <= |walk| && Total(walk[..k]) >= ImagesSleepAutoThreshold
    ensures sleep == 1 <==> Total(walk) >= ImagesSleepAutoThreshold
  {
    var total := 0;
    var i := 0;
    while i < |walk|
      invariant 0 <= i <= |walk|
      invariant total == Total(walk[..i])
      invariant forall k :: 0 < k <= i ==> Total(walk[..k]) < ImagesSleepAutoThreshold
    {
      assert walk[..i + 1][..i] == walk[..i];
      total := total + walk[i];
      i := i + 1;
      if total >= ImagesSleepAutoThreshold {
        TotalPrefixBelow(walk, i);
        return 1;
      }
    }
    assert walk[..i] == walk;
    forall k | 0 < k <= |walk|
      ensures Total(walk[..k]) < ImagesSleepAutoThreshold
    {
      TotalPrefixBelow(walk, k);
    }
    return 0;
  }

  /** The images sleep a successful parse settles on. */
  function SettledImagesSleep(a: Args, checkPaths: bool, fs: PathFacts): int {
    if a.images != "" && a.imagesSleep < 0 then
      (if checkPaths && Total(fs.imagesWalk) >= ImagesSleepAutoThreshold then 1 else 0)
    else a.imagesSleep
  }

  /**
   * Option validation after argparse has produced `a`: fails with the first failing
   * check, otherwise returns the options with a negative images sleep replaced by the
   * automatic estimate (0 when paths are not checked), every other option unchanged.
   */
  method ParseArgs(a: Args, checkPaths: bool, fs: PathFacts) returns (r: Result<Args, ParseError>)
    ensures r.Failure? <==> Validate(a, checkPaths, fs).Some?
    ensures r.Failure? ==> r.error == Validate(a, checkPaths, fs).value
    ensures r.Success? ==> Parsed(r.value)
    ensures r.Success? ==> r.value.(imagesSleep := a.imagesSleep) == a
    ensures r.Success? && (a.images == "" || a.imagesSleep >= 0) ==> r.value.imagesSleep == a.imagesSleep
    ensures r.Success? && a.images != "" && a.imagesSleep < 0 && !checkPaths ==> r.value.imagesSleep == 0
    ensures r.Success? && a.images != "" && a.imagesSleep < 0 && checkPaths ==>
              (r.value.imagesSleep == 1 <==> Total(fs.imagesWalk) >= ImagesSleepAutoThreshold)
    ensures r.Success? ==> r.value == a.(imagesSleep := SettledImagesSleep(a, checkPaths, fs))
  {
    var e := Validate(a, checkPaths, fs);
    if e.Some? {
      return Failure(e.value);
    }
    var args := a;
    if a.images != "" && a.imagesSleep < 0 {
      var sleep := 0;
      if checkPaths {
        sleep := CalculateImagesSleep(fs.imagesWalk);
      }
      args := args.(imagesSleep := sleep);
    }
    return Success(args);
  }

  /** The command line prefix that runs a maintenance script of MediaWiki `version`. */
  function MaintenanceRunner(version: string): seq<string> {
    ["sudo", "-u", "www-data", "php", "/srv/mediawiki/" + version + "/maintenance/run.php"]
  }

  /** The script name and its arguments, squeezing `--wiki=<wiki>` in after the name. */
  function OnWiki(version: string, wiki: string, script: seq<string>): seq<string>
    requires |script| >= 1
  {
    MaintenanceRunner(version) + [script[0], "--wiki=" + wiki] + script[1..]
  }

  /** `importDump`: optional flags, then `--`, then the XML path. */
  function ImportDumpScript(a: Args): seq<string> {
    ["importDump", "--no-updates"]
    + (if a.usernamePrefix != "" then ["--username-prefix=" + a.usernamePrefix] else [])
    + ["--", a.xml]
  }

  /** `importImages`: sleep, comment, optional recursion flag, then `--`, then the directory. */
  function ImportImagesScript(a: Args): seq<string> {
    ["importImages", "--sleep=" + IntToString(a.imagesSleep), "--comment=" + a.imagesComment]
    + (if a.searchRecursively then ["--search-recursively"] else [])
    + ["--", a.images]
  }

  /** The scripts to run, before the runner prefix is added. */
  function Scripts(a: Args): seq<seq<string>> {
    (if a.xml != "" then [ImportDumpScript(a)] else [])
    + (if a.images != "" then [ImportImagesScript(a)] else [])
    + (if a.xml != "" then [["rebuildall"], ["initEditCount"]] else [])
    + [["initSiteStats", "--update"]]
  }

  /** `--version` when given, otherwise the version detected for the wiki. */
  function ChosenVersion(a: Args, detected: string): string {
    if a.version != "" then a.version else detected
  }

  /** The full command lines, one per script, in script order. */
  function Pipeline(a: Args, version: string): (p: seq<seq<string>>)
    ensures |p| == |Scripts(a)|
  {
    var scripts := Scripts(a);
    seq(|scripts|, i requires 0 <= i < |scripts| => OnWiki(version, a.wiki, scripts[i]))
  }

  /**
   * Builds the command lines: appends the scripts one by one, then prefixes each with
   * the maintenance runner of the chosen version and `--wiki=<wiki>`.
   */
  method GetScripts(a: Args, detected: string) returns (commands: seq<seq<string>>)
    ensures commands == Pipeline(a, ChosenVersion(a, detected))
  {
    var scripts := BuildScripts(a);
    var version := ChosenVersion(a, detected);
    commands := [];
    var i := 0;
    while i < |scripts|
      invariant 0 <= i <= |scripts|
      invariant |commands| == i
      invariant forall j :: 0 <= j < i ==> commands[j] == OnWiki(version, a.wiki, scripts[j])
    {
      commands := commands + [OnWiki(version, a.wiki, scripts[i])];
      i := i + 1;
    }
  }

  /** Appends the scripts one by one, as the list the import is built from. */
  method BuildScripts(a: Args) returns (scripts: seq<seq<string>>)
    ensures scripts == Scripts(a)
  {
    scripts := [];
    if a.xml != "" {
      var script := ["importDump", "--no-updates"];
      if a.usernamePrefix != "" {
        script := script + ["--username-prefix=" + a.usernamePrefix];
      }
      script := script + ["--", a.xml];
      assert script == ImportDumpScript(a);
      scripts := scripts + [script];
    }
    assert scripts == (if a.xml != "" then [ImportDumpScript(a)] else []);
    if a.images != "" {
      var script := ["importImages", "--sleep=" + IntToString(a.imagesSleep), "--comment=" + a.imagesComment];
      if a.searchRecursively {
        script := script + ["--search-recursively"];
      }
      script := script + ["--", a.images];
      assert script == ImportImagesScript(a);
      scripts := scripts + [script];
    }
    assert scripts == (if a.xml != "" then [ImportDumpScript(a)] else [])
                      + (if a.images != "" then [ImportImagesScript(a)] else []);
    if a.xml != "" {
      scripts := scripts + [["rebuildall"]];
      scripts := scripts + [["initEditCount"]];
    }
    scripts := scripts + [["initSiteStats", "--update"]];
  }

  /** One command per script: `initSiteStats`, plus three more with XML and one more with images. */
  lemma PipelineLength(a: Args, version: string)
    ensures |Pipeline(a, version)| == 1 + (if a.xml != "" then 3 else 0) + (if a.images != "" then 1 else 0)
  {
  }

  /** The name of the maintenance script a command line runs. */
  function ScriptName(command: seq<string>): string
    requires |command| > 5
  {
    command[5]
  }

  /**
   * The order of the commands: `importDump` first when there is XML, then `importImages`
   * when there are images, then `rebuildall` and `initEditCount` when there is XML, and
   * `initSiteStats --update` always last.
   */
  lemma PipelineOrder(a: Args, version: string)
    ensures var p := Pipeline(a, version);
      && |p| >= 1
      && (forall i :: 0 <= i < |p| ==> |p[i]| > 6)
      && p[|p| - 1][5..] == ["initSiteStats", "--wiki=" + a.wiki, "--update"]
      && (a.xml != "" ==>
            && ScriptName(p[0]) == "importDump"
            && p[|p| - 3][5..] == ["rebuildall", "--wiki=" + a.wiki]
            && p[|p| - 2][5..] == ["initEditCount", "--wiki=" + a.wiki])
      && (a.images != "" ==> ScriptName(p[if a.xml != "" then 1 else 0]) == "importImages")
  {
    var s := Scripts(a);
    var p := Pipeline(a, version);
    forall i | 0 <= i < |p| ensures |p[i]| > 6 {
      assert |s[i]| >= 1;
    }
  }

  /**
   * Every command line is the maintenance runner of `version`, the script name,
   * `--wiki=<wiki>`, then the script's own arguments in their order.
   */
  lemma PipelineCommandShape(a: Args, version: string, i: nat)
    requires i < |Pipeline(a, version)|
    ensures var c := Pipeline(a, version)[i];
      && |c| >= 7
      && c[..5] == ["sudo", "-u", "www-data", "php", "/srv/mediawiki/" + version + "/maintenance/run.php"]
      && c[5] == Scripts(a)[i][0]
      && c[6] == "--wiki=" + a.wiki
      && c[7..] == Scripts(a)[i][1..]
  {
    assert |Scripts(a)[i]| >= 1;
  }

  /**
   * `importDump` ends with `--` and the XML path; the username prefix flag, present
   * exactly when a prefix was given, stands before the separator.
   */
  lemma ImportDumpLayout(a: Args)
    ensures var s := ImportDumpScript(a);
      && |s| >= 4
      && s[|s| - 1] == a.xml && s[|s| - 2] == "--"
      && "--" !in s[..|s| - 2]
      && (("--username-prefix=" + a.usernamePrefix) in s[..|s| - 2] <==> a.usernamePrefix != "")
  {
    var s := ImportDumpScript(a);
    assert "--" != "--no-updates";
    if a.usernamePrefix != "" {
      assert s[..|s| - 2] == ["importDump", "--no-updates", "--username-prefix=" + a.usernamePrefix];
      assert "--" != "--username-prefix=" + a.usernamePrefix;
    } else {
      assert s[..|s| - 2] == ["importDump", "--no-updates"];
      assert "--username-prefix=" + a.usernamePrefix != "--no-updates";
    }
  }

  /**
   * `importImages` ends with `--` and the images directory; the recursion flag, present
   * exactly when asked for, and the `--sleep=` flag stand before the separator.
   */
  lemma ImportImagesLayout(a: Args)
    ensures var s := ImportImagesScript(a);
      && |s| >= 5
      && s[|s| - 1] == a.images && s[|s| - 2] == "--"
      && s[1] == "--sleep=" + IntToString(a.imagesSleep)
      && ("--search-recursively" in s[..|s| - 2] <==> a.searchRecursively)
  {
    var s := ImportImagesScript(a);
    var sleep := "--sleep=" + IntToString(a.imagesSleep);
    var comment := "--comment=" + a.imagesComment;
    assert sleep[2] == 's' && "--search-recursively"[2] == 's' && sleep[3] == 'l' && "--search-recursively"[3] == 'e';
    assert comment[2] == 'c' && "--search-recursively"[2] == 's';
    if a.searchRecursively {
      assert s[..|s| - 2] == ["importImages", sleep, comment, "--search-recursively"];
    } else {
      assert s[..|s| - 2] == ["importImages", sleep, comment];
    }
  }

  /**
   * After a successful parse with images, the `--sleep=` argument is the decimal
   * digits of a non-negative number: a user value kept as given, or the estimate.
   */
  lemma ParsedSleepFlag(a: Args)
    requires Parsed(a) && a.images != ""
    ensures ImportImagesScript(a)[1] == "--sleep=" + NatToString(a.imagesSleep)
  {
  }

  /**
   * Runs the commands in order and stops at the first that exits with a non-zero code,
   * returning that code; returns 0 when all of them succeed. `exitCodes[i]` is what the
   * `i`-th command exits with; `started` are the commands that were run.
   */
  method RunScripts(scripts: seq<seq<string>>, exitCodes: seq<int>) returns (code: int, started: seq<seq<string>>)
    requires |exitCodes| == |scripts|
    ensures |started| <= |scripts| && started == scripts[..|started|]
    ensures code == 0 <==> forall i :: 0 <= i < |exitCodes| ==> exitCodes[i] == 0
    ensures code == 0 ==> started == scripts
    ensures code != 0 ==> |started| >= 1 && code == exitCodes[|started| - 1]
    ensures forall i :: 0 <= i < |started| - 1 ==> exitCodes[i] == 0
  {
    started := [];
    var i := 0;
    while i < |scripts|
      invariant 0 <= i <= |scripts|
      invariant started == scripts[..i]
      invariant forall j :: 0 <= j < i ==> exitCodes[j] == 0
    {
      started := started + [scripts[i]];
      var returncode := exitCodes[i];
      if returncode != 0 {
        return returncode, started;
      }
      i := i + 1;
    }
    assert scripts[..i] == scripts;
    return 0, started;
  }

  /** The images comment and the wiki the tests in tests/test_mwimport.py pass. */
  const TestComment: string := "Importing from https://example.com"
  const TestWiki: string := "examplewiki"

  /** The options of the recursive images import in tests/test_mwimport.py, as argparse leaves them. */
  function SearchRecursivelyTestRaw(): Args {
    Args(false, false, "0.42", "", "", "images", TestComment, true, -1, TestWiki)
  }

  /** The same options after parsing without path checks. */
  function SearchRecursivelyTestArgs(): Args {
    Args(false, false, "0.42", "", "", "images", TestComment, true, 0, TestWiki)
  }

  /**
   * Parsing the test's options without path checks passes validation and settles the
   * unset images sleep on 0, so `ParseArgs` returns `SearchRecursivelyTestArgs()`.
   */
  lemma SearchRecursivelyTestParse()
    ensures var fs := PathFacts(false, false, []);
      && Validate(SearchRecursivelyTestRaw(), false, fs) == None
      && SearchRecursivelyTestArgs() ==
           SearchRecursivelyTestRaw().(imagesSleep := SettledImagesSleep(SearchRecursivelyTestRaw(), false, fs))
  {
  }

  /** With images and no XML, the images import is the first command line. */
  lemma ImagesOnlyFirst(a: Args, version: string)
    requires a.xml == "" && a.images != ""
    ensures Pipeline(a, version)[0] == OnWiki(version, a.wiki, ImportImagesScript(a))
  {
    assert Scripts(a)[0] == ImportImagesScript(a);
  }

  /** The images import script of the recursive images test, as the code builds it. */
  lemma SearchRecursivelyTestScript()
    ensures ImportImagesScript(SearchRecursivelyTestArgs()) ==
      ["importImages", "--sleep=0", "--comment=" + TestComment, "--search-recursively", "--", "images"]
  {
    var a := SearchRecursivelyTestArgs();
    var sleep := "--sleep=" + IntToString(a.imagesSleep);
    var comment := "--comment=" + a.imagesComment;
    ZeroToString();
    assert sleep == "--sleep=0";
    assert ImportImagesScript(a) == ["importImages", sleep, comment] + ["--search-recursively"] + ["--", "images"];
  }

  lemma ZeroToString()
    ensures IntToString(0) == "0"
  {
    assert DigitChar(0) == '0';
    assert NatToString(0) == [DigitChar(0)];
  }

  /**
   * The images import command the code builds for those options carries `--sleep=0`,
   * which the list expected by the test leaves out.
   */
  lemma SearchRecursivelyTestSleep()
    ensures var p := Pipeline(SearchRecursivelyTestArgs(), "0.42");
      && |p| == 2
      && p[0] == MaintenanceRunner("0.42") + ["importImages", "--wiki=" + TestWiki, "--sleep=0",
                   "--comment=" + TestComment, "--search-recursively", "--", "images"]
      && p[0] != MaintenanceRunner("0.42") + ["importImages", "--wiki=" + TestWiki,
                   "--comment=" + TestComment, "--search-recursively", "--", "images"]
  {
    var a := SearchRecursivelyTestArgs();
    var s := ImportImagesScript(a);
    SearchRecursivelyTestScript();
    ImagesOnlyFirst(a, "0.42");
    assert s[1..] == ["--sleep=0", "--comment=" + TestComment, "--search-recursively", "--", "images"];
    assert |Pipeline(a, "0.42")[0]| == 12;
  }

  /** The options of the username prefix import in tests/test_mwimport.py. */
  function UsernamePrefixTestArgs(): Args {
    Args(false, false, "0.42", "dump.xml", "w", "", "", false, -1, TestWiki)
  }

  /** For those options the code builds the `importDump` command line the test expects. */
  lemma UsernamePrefixTestDump()
    ensures var p := Pipeline(UsernamePrefixTestArgs(), "0.42");
      && |p| == 4
      && p[0] == MaintenanceRunner("0.42") + ["importDump", "--wiki=" + TestWiki, "--no-updates",
                   "--username-prefix=w", "--", "dump.xml"]
  {
    var a := UsernamePrefixTestArgs();
    var s := ImportDumpScript(a);
    assert "--username-prefix=" + a.usernamePrefix == "--username-prefix=w";
    assert s == ["importDump", "--no-updates", "--username-prefix=w", "--", "dump.xml"];
    assert Pipeline(a, "0.42")[0] == OnWiki("0.42", TestWiki, s);
    assert s[1..] == ["--no-updates", "--username-prefix=w", "--", "dump.xml"];
  }

  /** The missing paths of the path tests in tests/test_mwimport.py. */
  const NoXmlPath: string := "/dev/no xml"
  const NoImagesPath: string := "/dev/no images"

  /**
   * A path without a single quote, a backslash or a control character is shown in single
   * quotes as it is; a double quote in it stays as it is.
   */
  lemma PlainRepr(path: string)
    requires PlainFor(path, '\'')
    ensures Repr(path) == "'" + path + "'"
  {
    assert '\'' !in path;
    ReprBodyPlain(path, '\'');
  }

  /** Neither test path holds a character `repr` escapes or a single quote. */
  lemma XmlPathPlain()
    ensures PlainFor(NoXmlPath, '\'')
  {
  }

  lemma ImagesPathPlain()
    ensures PlainFor(NoImagesPath, '\'')
  {
  }

  /** A missing path without characters to escape is shown between single quotes as it is. */
  lemma PlainPathMessages(path: string)
    requires PlainFor(path, '\'')
    ensures XmlNotFound(path).Message() == "Cannot find XML to import: '" + path + "'"
    ensures ImagesNotFound(path).Message() == "Cannot find images to import: '" + path + "'"
  {
    PlainRepr(path);
    var quoted := "'" + path + "'";
    var xmlHead := "Cannot find XML to import: ";
    var imagesHead := "Cannot find images to import: ";
    assert XmlNotFound(path).Message() == xmlHead + quoted;
    assert xmlHead + quoted == (xmlHead + "'") + path + "'";
    assert ImagesNotFound(path).Message() == imagesHead + quoted;
    assert imagesHead + quoted == (imagesHead + "'") + path + "'";
  }

  /** A missing XML dump is reported with the message the test matches. */
  lemma MissingXmlTestMessage()
    ensures XmlNotFound(NoXmlPath).Message() == "Cannot find XML to import: '/dev/no xml'"
  {
    assert "Cannot find XML to import: '" + NoXmlPath + "'" == "Cannot find XML to import: '/dev/no xml'";
    XmlPathPlain();
    PlainPathMessages(NoXmlPath);
  }

  /** A missing images directory is reported with the message the test matches. */
  lemma MissingImagesTestMessage()
    ensures ImagesNotFound(NoImagesPath).Message() == "Cannot find images to import: '/dev/no images'"
  {
    assert "Cannot find images to import: '" + NoImagesPath + "'" == "Cannot find images to import: '/dev/no images'";
    ImagesPathPlain();
    PlainPathMessages(NoImagesPath);
  }

  /** The options of the XML and images import in tests/test_mwimport.py, after parsing without path checks. */
  function XmlImagesTestArgs(): Args {
    Args(false, false, "0.42", "dump.xml", "", "images", TestComment, false, 0, TestWiki)
  }

  /** Parsing those options without path checks settles the unset images sleep on 0. */
  lemma XmlImagesTestParse()
    ensures XmlImagesTestArgs() ==
      Args(false, false, "0.42", "dump.xml", "", "images", TestComment, false, -1, TestWiki).(imagesSleep := SettledImagesSleep(
        Args(false, false, "0.42", "dump.xml", "", "images", TestComment, false, -1, TestWiki), false, PathFacts(false, false, [])))
  {
  }

  /**
   * For those options the code builds the five commands the test expects, except that
   * the images import carries `--sleep=0`, which the expected list leaves out.
   */
  lemma XmlImagesTestPipeline()
    ensures var p := Pipeline(XmlImagesTestArgs(), "0.42");
      && |p| == 5
      && p[0] == MaintenanceRunner("0.42") + ["importDump", "--wiki=" + TestWiki, "--no-updates", "--", "dump.xml"]
      && p[1] == MaintenanceRunner("0.42") + ["importImages", "--wiki=" + TestWiki, "--sleep=0",
                   "--comment=" + TestComment, "--", "images"]
      && p[1] != MaintenanceRunner("0.42") + ["importImages", "--wiki=" + TestWiki,
                   "--comment=" + TestComment, "--", "images"]
      && p[2] == MaintenanceRunner("0.42") + ["rebuildall", "--wiki=" + TestWiki]
      && p[3] == MaintenanceRunner("0.42") + ["initEditCount", "--wiki=" + TestWiki]
      && p[4] == MaintenanceRunner("0.42") + ["initSiteStats", "--wiki=" + TestWiki, "--update"]
  {
    var a := XmlImagesTestArgs();
    var dump := ImportDumpScript(a);
    var images := ImportImagesScript(a);
    var sleep := "--sleep=" + IntToString(a.imagesSleep);
    ZeroToString();
    assert sleep == "--sleep=0";
    assert images == ["importImages", sleep, "--comment=" + TestComment] + [] + ["--", "images"];
    assert dump == ["importDump", "--no-updates", "--", "dump.xml"];
    assert Scripts(a) == [dump, images, ["rebuildall"], ["initEditCount"], ["initSiteStats", "--update"]];
    assert images[1..] == ["--sleep=0", "--comment=" + TestComment, "--", "images"];
    assert dump[1..] == ["--no-updates", "--", "dump.xml"];
    assert |Pipeline(a, "0.42")[1]| == 11;
  }
}
