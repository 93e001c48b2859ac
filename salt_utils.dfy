/**
 * The salt helpers: the `salt-ssh` command template, the database cluster map, the
 * continue/skip/abort answer to a command prompt, and the lookup of the database host
 * that serves a wiki from the output of a remote `mysql` query.
 */
module SaltUtils {
  import opened Wrappers
  import opened Strings

  /** Database cluster name to the database host that serves it. */
  const DbClusters: map<string, string> :=
    map["c1" := "db151", "c2" := "db161", "c3" := "db171", "c4" := "db181"]

  /** The map holds exactly the four clusters, each sent to its own host. */
  lemma DbClustersTable()
    ensures DbClusters.Keys == {"c1", "c2", "c3", "c4"}
    ensures DbClusters.Values == {"db151", "db161", "db171", "db181"}
    ensures DbClusters["c1"] == "db151" && DbClusters["c2"] == "db161"
    ensures DbClusters["c3"] == "db171" && DbClusters["c4"] == "db181"
  {
    assert DbClusters["c1"] == "db151" && DbClusters["c2"] == "db161";
    assert DbClusters["c3"] == "db171" && DbClusters["c4"] == "db181";
  }

  const SaltHead: string := "salt-ssh -E \""
  const SaltMiddle: string := "\" cmd.run \""

  /** `salt-ssh -E "<target>" cmd.run "<command>"`. */
  function SaltCommand(target: string, command: string): string {
    SaltHead + target + SaltMiddle + command + "\""
  }

  /**
   * Reads a salt command back: the target runs to the first double quote after the
   * head, and the command is what lies between the middle and the closing quote.
   */
  function ParseSaltCommand(s: string): Option<(string, string)> {
    if !StartsWith(s, SaltHead) then None
    else
      var rest := s[|SaltHead|..];
      if '"' !in rest then None
      else
        var q := FirstIndex(rest, '"');
        var tail := rest[q..];
        if !StartsWith(tail, SaltMiddle) || |tail| <= |SaltMiddle| || tail[|tail| - 1] != '"' then None
        else Some((rest[..q], tail[|SaltMiddle|..|tail| - 1]))
  }

  /**
   * A salt command names its target and its command so that both can be read back,
   * as long as the target holds no double quote (the command may hold anything).
   */
  lemma SaltCommandRoundTrip(target: string, command: string)
    requires '"' !in target
    ensures ParseSaltCommand(SaltCommand(target, command)) == Some((target, command))
  {
    var s := SaltCommand(target, command);
    var rest := target + SaltMiddle + command + "\"";
    assert s == SaltHead + rest;
    assert s[|SaltHead|..] == rest;
    assert rest[|target|] == '"';
    var q := FirstIndex(rest, '"');
    assert q == |target|;
    var tail := rest[q..];
    assert tail == SaltMiddle + command + "\"";
    assert tail[..|SaltMiddle|] == SaltMiddle;
    assert rest[..q] == target;
    assert tail[|SaltMiddle|..|tail| - 1] == command;
  }

  /** The three answers the command prompt distinguishes. */
  datatype Answer = Continue | Skip | Abort

  /** `c`/`continue` runs the command, `s`/`skip` passes over it, anything else aborts. */
  function Dispatch(response: string): (a: Answer)
    ensures a == Continue <==> response == "c" || response == "continue"
    ensures a == Skip <==> response == "s" || response == "skip"
    ensures a == Abort <==> response !in {"c", "continue", "s", "skip"}
  {
    if response in ["c", "continue"] then Continue
    else if response in ["s", "skip"] then Skip
    else Abort
  }

  /**
   * How running a command went: it exited with a code and output, it raised an
   * `Exception` (which the helper catches), or it was interrupted by the operator
   * (a `KeyboardInterrupt`, which the helper does not catch).
   */
  datatype Run = Exited(code: int, stdout: string) | Raised | Interrupted

  /** What asking to run a salt command produces. */
  datatype Outcome =
    | Completed(stdout: string)  // the command ran and exited with 0
    | NoResult                   // skipped, failed or raised: `None`
    | SystemExit(status: int)    // aborted: the script exits
    | KeyboardInterrupt          // interrupted while running: propagates to the caller

  /**
   * The effect of an answer to the prompt for `saltCommand`: a continue runs it and hands
   * back its output when it exits with 0, nothing when it fails or raises, and lets an
   * interrupt through; a skip hands back nothing; an abort exits with status 1.
   * `run(c)` is how command `c` would go if it were run.
   */
  function ExecuteSaltCommand(saltCommand: string, response: string, run: string -> Run): (o: Outcome)
    ensures o.SystemExit? <==> Dispatch(response) == Abort
    ensures o.SystemExit? ==> o.status == 1
    ensures o.Completed? <==> Dispatch(response) == Continue && run(saltCommand).Exited? && run(saltCommand).code == 0
    ensures o.Completed? ==> o.stdout == run(saltCommand).stdout
    ensures o.KeyboardInterrupt? <==> Dispatch(response) == Continue && run(saltCommand).Interrupted?
  {
    match Dispatch(response)
    case Continue =>
      (match run(saltCommand)
       case Exited(code, out) => if code == 0 then Completed(out) else NoResult
       case Raised => NoResult
       case Interrupted => KeyboardInterrupt)
    case Skip => NoResult
    case Abort => SystemExit(1)
  }

  /** Only a continue runs the command: any other answer gives the same outcome whatever the run would do. */
  lemma OnlyContinueRuns(saltCommand: string, response: string, run1: string -> Run, run2: string -> Run)
    requires Dispatch(response) != Continue
    ensures ExecuteSaltCommand(saltCommand, response, run1) == ExecuteSaltCommand(saltCommand, response, run2)
    ensures !ExecuteSaltCommand(saltCommand, response, run1).Completed?
  {
  }

  const QueryHead: string := "SELECT wiki_dbcluster FROM mhglobal.cw_wikis "
  const MysqlHead: string := "sudo -i mysql --skip-column-names -e '"

  /** The WHERE clause that selects `wiki`. */
  function WikiFilter(wiki: string): string {
    "WHERE wiki_dbname = '" + wiki + "'"
  }

  /** The query for the cluster of `wiki`. */
  function ClusterQuery(wiki: string): string {
    QueryHead + WikiFilter(wiki)
  }

  /** The lookup: the query run through `mysql` on db171. */
  function LookupCommand(wiki: string): string {
    SaltCommand("db171", MysqlHead + ClusterQuery(wiki) + "'")
  }

  lemma EndsWithAppend(a: string, b: string)
    ensures EndsWith(a + b, b)
  {
    assert (a + b)[|a|..] == b;
  }

  /** The lookup always targets db171 and its command ends with the WHERE clause naming the wiki. */
  lemma LookupCommandTargetsDb171(wiki: string)
    ensures var parsed := ParseSaltCommand(LookupCommand(wiki));
      && parsed.Some? && parsed.value.0 == "db171"
      && EndsWith(parsed.value.1, WikiFilter(wiki) + "'")
  {
    var command := MysqlHead + ClusterQuery(wiki) + "'";
    assert '"' !in "db171";
    SaltCommandRoundTrip("db171", command);
    assert command == (MysqlHead + QueryHead) + (WikiFilter(wiki) + "'");
    EndsWithAppend(MysqlHead + QueryHead, WikiFilter(wiki) + "'");
  }

  /** Why the lookup gives no host. */
  datatype LookupError =
    | IndexError            // fewer than two lines, or fewer than five fields on the second
    | KeyError(key: string) // the field names no known cluster
    | Aborted               // skipped or failed: raised as a KeyboardInterrupt, "Impossible to skip. Aborted."
    | Interrupt             // the operator interrupted the running lookup
    | Exit(status: int)     // the operator aborted at the prompt

  /**
   * The host named by the query output: the second line of the stripped output, split
   * on single spaces, its fifth field looked up in the cluster map.
   */
  function ClusterFromOutput(stdout: string): (r: Result<string, LookupError>)
    ensures r.Success? ==> r.value in {"db151", "db161", "db171", "db181"}
    ensures var lines := Split(Strip(stdout), '\n');
      && (r == Failure(IndexError) <==> |lines| < 2 || |Split(lines[1], ' ')| < 5)
      && (|lines| >= 2 && |Split(lines[1], ' ')| >= 5 ==>
            var field := Split(lines[1], ' ')[4];
            && (field in DbClusters ==> r == Success(DbClusters[field]))
            && (field !in DbClusters ==> r == Failure(KeyError(field))))
    ensures r.Failure? ==> r.error.IndexError? || r.error.KeyError?
    ensures r.Failure? && r.error.KeyError? ==> r.error.key !in DbClusters
  {
    var lines := Split(Strip(stdout), '\n');
    if |lines| < 2 then Failure(IndexError)
    else
      var fields := Split(lines[1], ' ');
      if |fields| < 5 then Failure(IndexError)
      else if fields[4] in DbClusters then Success(DbClusters[fields[4]])
      else Failure(KeyError(fields[4]))
  }

  /**
   * The database host serving `wiki`: the operator is asked about the lookup command of
   * `wiki`, and `run(c)` is how command `c` would go if it were run.
   */
  function GetDbCluster(wiki: string, response: string, run: string -> Run): (r: Result<string, LookupError>)
    ensures r.Success? ==> r.value in DbClusters.Values
    ensures r == Failure(Exit(1)) <==> Dispatch(response) == Abort
    ensures r == Failure(Aborted) <==> ExecuteSaltCommand(LookupCommand(wiki), response, run) == NoResult
    ensures r == Failure(Interrupt) <==> Dispatch(response) == Continue && run(LookupCommand(wiki)).Interrupted?
    ensures r.Success? ==> Dispatch(response) == Continue && run(LookupCommand(wiki)).Exited? && run(LookupCommand(wiki)).code == 0
    ensures Dispatch(response) == Continue && run(LookupCommand(wiki)).Exited? && run(LookupCommand(wiki)).code == 0 ==>
              r == ClusterFromOutput(run(LookupCommand(wiki)).stdout)
  {
    match ExecuteSaltCommand(LookupCommand(wiki), response, run)
    case Completed(out) => ClusterFromOutput(out)
    case NoResult => Failure(Aborted)
    case KeyboardInterrupt => Failure(Interrupt)
    case SystemExit(status) => Failure(Exit(status))
  }

  /** What salt prints for a one-row query on `minion`: its name, a colon, then the row indented by four spaces. */
  function SaltOutput(minion: string, row: string): string {
    minion + ":\n    " + row + "\n"
  }

  /** Stripping keeps a text that neither starts nor ends with whitespace. */
  lemma StripUnpadded(s: string)
    requires s != [] && !IsSpace(s[0]) && !IsSpace(s[|s| - 1])
    ensures Strip(s) == s
  {
    assert StripStart(s) == s;
  }

  /** Stripping a text that ends with one newline removes just that newline. */
  lemma StripNewline(body: string)
    requires body != [] && !IsSpace(body[0]) && !IsSpace(body[|body| - 1])
    ensures Strip(body + "\n") == body
  {
    var text := body + "\n";
    assert StripStart(text) == text;
    assert text[..|text| - 1] == body;
    assert StripEnd(text) == StripEnd(body);
    StripUnpadded(body);
  }

  /** The known cluster names hold no whitespace. */
  lemma ClusterNameShape(cluster: string)
    requires cluster in DbClusters
    ensures cluster != [] && ' ' !in cluster && '\n' !in cluster && !IsSpace(cluster[|cluster| - 1])
  {
    assert cluster in {"c1", "c2", "c3", "c4"};
  }

  /** A row indented by four spaces splits on spaces into four empty fields and the row. */
  lemma IndentedFields(row: string)
    requires ' ' !in row
    ensures Split("    " + row, ' ') == ["", "", "", "", row]
  {
    SplitWhole(row, ' ');
    SplitAfter([], ' ', row);
    assert [] + [' '] + row == " " + row;
    SplitAfter([], ' ', " " + row);
    assert [] + [' '] + (" " + row) == "  " + row;
    SplitAfter([], ' ', "  " + row);
    assert [] + [' '] + ("  " + row) == "   " + row;
    SplitAfter([], ' ', "   " + row);
    assert [] + [' '] + ("   " + row) == "    " + row;
  }

  /**
   * Whatever the first line and the lines after the second, output whose stripped form
   * has a second line made of four spaces and a row without spaces gives the host the
   * row names, or a `KeyError` for the row when it names no cluster.
   */
  lemma SecondLineLookup(stdout: string, first: string, row: string, tail: string)
    requires Strip(stdout) == first + "\n" + ("    " + row) + tail
    requires '\n' !in first && ' ' !in row && '\n' !in row
    requires tail == [] || tail[0] == '\n'
    ensures ClusterFromOutput(stdout) ==
              if row in DbClusters then Success(DbClusters[row]) else Failure(KeyError(row))
  {
    var line2 := "    " + row;
    assert '\n' !in line2;
    assert Strip(stdout) == first + ['\n'] + (line2 + tail);
    SplitAfter(first, '\n', line2 + tail);
    var rest := Split(line2 + tail, '\n');
    if tail == [] {
      SplitWhole(line2, '\n');
      assert line2 + tail == line2;
    } else {
      assert line2 + tail == line2 + ['\n'] + tail[1..];
      SplitAfter(line2, '\n', tail[1..]);
    }
    assert rest[0] == line2;
    assert Split(Strip(stdout), '\n') == [first] + rest;
    IndentedFields(row);
  }

  /**
   * Reading salt's output for a known cluster name gives that cluster's host: the fifth
   * field of the second line is the row after its four spaces of indentation.
   */
  lemma ClusterFromSaltOutput(minion: string, cluster: string)
    requires minion != [] && !IsSpace(minion[0]) && '\n' !in minion
    requires cluster in DbClusters
    ensures ClusterFromOutput(SaltOutput(minion, cluster)) == Success(DbClusters[cluster])
  {
    var line1 := minion + ":";
    var line2 := "    " + cluster;
    var body := line1 + "\n" + line2;
    ClusterNameShape(cluster);
    assert SaltOutput(minion, cluster) == body + "\n";
    assert body[|body| - 1] == cluster[|cluster| - 1];
    StripNewline(body);
    assert body == line1 + "\n" + line2 + [];
    SecondLineLookup(SaltOutput(minion, cluster), line1, cluster, []);
  }

  /** Output whose second line has too few fields gives an `IndexError`, never a host. */
  lemma ShortOutputIsIndexError(minion: string)
    requires minion != [] && !IsSpace(minion[0]) && '\n' !in minion
    ensures ClusterFromOutput(minion + ":") == Failure(IndexError)
  {
    var text := minion + ":";
    assert StripStart(text) == text;
    assert StripEnd(text) == text;
    SplitWhole(text, '\n');
  }
}
