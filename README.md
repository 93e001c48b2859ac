# Miraheze operations scripts — verified model of their deterministic core

The repository is a set of operator scripts that shell out to MediaWiki maintenance
scripts, `salt-ssh`, `mysql` and `swift`. This project models the parts of four of them
that are plain, deterministic logic, and proves what the scripts and their tests promise:

- **Wiki import** (`miraheze/mediawiki/mwimport.py`, module `MwImport`): validation of the
  parsed options, the automatic `--images-sleep` estimate over the images directory, the
  ordered list of `run.php` command lines, and the runner that stops at the first failing
  command.
- **Salt helpers** (`miraheze/salt/utils.py`, module `SaltUtils`): the `salt-ssh` command
  template, the database cluster map, the continue/skip/abort answer to a command prompt,
  and the lookup of the host that serves a wiki from the output of a remote query.
- **Container permission repair** (`miraheze/swift/fix_container_permissions.py`, module
  `SwiftPerms`): the scan of the SetContainersAccess output for failed containers (the one
  regular expression, as `re.findall` applies it) and the ordered repair: tolerant probe
  run, one `swift post` per container, strict verify run.
- **Server selection** (`miraheze/puppet/upgrade-cp-service.py`, module `UpgradeCpService`):
  the environment table and the validation of the comma-separated `--servers` value.

`Strings` holds the Python string operations these rely on (`split` on one character,
`strip`, `join`, `str(int)`, `repr`); `Wrappers` holds `Option` and `Result`, which stand
for `None` and for raised exceptions.

What the scripts get from outside becomes a parameter: whether a path exists and the
per-directory file counts of `os.walk`, the version `getMWVersion` prints, the exit code
of each command, the captured standard output and error of a run, the operator's answer to
a prompt, and the valid server list of the current environment.

An optional string option of the import script is `""` when it was not passed: the script
only asks whether such an option is truthy, and `None` and `''` are both falsy.

## Model

| member | source | states |
|---|---|---|
| `MwImport.Validate` | miraheze/mediawiki/mwimport.py:44-57 | each `ValueError` is raised exactly when its condition holds and no earlier check failed: no XML and no images; images without a comment; a missing XML path or images path, checked only when paths are checked |
| `MwImport.ParseArgs` | miraheze/mediawiki/mwimport.py:43-62 | fails exactly with the first failing check; on success the options allow an import (XML or images, and with images a comment and a non-negative sleep), only `images_sleep` can differ from the input, a negative sleep with images becomes the estimate (0 when paths are not checked), any other sleep is kept; the options returned are exactly the input with `images_sleep` replaced by that settled value |
| `MwImport.CalculateImagesSleep` | miraheze/mediawiki/mwimport.py:65-78 | the result is 0 or 1, it is 1 exactly when the running file total reaches 1000 after some directory, and that is exactly when all the files together reach 1000 |
| `MwImport.BuildScripts` | miraheze/mediawiki/mwimport.py:98-118 | appending step by step yields the scripts: `importDump` with XML, `importImages` with images, `rebuildall` and `initEditCount` with XML, `initSiteStats --update` |
| `MwImport.GetScripts` | miraheze/mediawiki/mwimport.py:97-127 | the command lines are the scripts in order, each prefixed with the runner of `--version` (or of the detected version when none is given) and `--wiki=<wiki>` |
| `MwImport.Pipeline` | miraheze/mediawiki/mwimport.py:121-126 | one command line per script |
| `MwImport.PipelineLength` | miraheze/mediawiki/mwimport.py:100-118 | there are 1 + 3·[XML given] + 1·[images given] commands |
| `MwImport.PipelineOrder` | miraheze/mediawiki/mwimport.py:100-118 | `importDump` is first when XML is given, `importImages` follows it (or is first), `rebuildall` and `initEditCount` come next to last with XML, `initSiteStats --wiki=<wiki> --update` is always last |
| `MwImport.PipelineCommandShape` | miraheze/mediawiki/mwimport.py:121-126 | every command line is `sudo -u www-data php /srv/mediawiki/<version>/maintenance/run.php`, the script name, `--wiki=<wiki>`, then the script's own arguments in order |
| `MwImport.ImportDumpLayout` | miraheze/mediawiki/mwimport.py:100-105 | `importDump` ends with `--` and the XML path, no other `--` precedes them, and `--username-prefix=<p>` stands before the separator exactly when a prefix is given |
| `MwImport.ImportImagesLayout` | miraheze/mediawiki/mwimport.py:107-112 | `importImages` ends with `--` and the images path, its first argument is always `--sleep=<n>`, and `--search-recursively` stands before the separator exactly when asked for |
| `MwImport.ParsedSleepFlag` | miraheze/mediawiki/mwimport.py:59-60 | after a successful parse with images, the sleep flag carries the plain decimal digits of a non-negative number |
| `MwImport.RunScripts` | miraheze/mediawiki/mwimport.py:130-151 | the commands run in order; the result is the first non-zero exit code and nothing after that command runs; the result is 0 exactly when every command exits with 0, and then all of them ran |
| `MwImport.SearchRecursivelyTestParse` | tests/test_mwimport.py:148-155 | the options this test passes to `parse_args(..., False)` validate, and the unset images sleep settles on 0, giving the options the pipeline lemma starts from |
| `MwImport.SearchRecursivelyTestSleep` | tests/test_mwimport.py:148-164 | for the options of this test the code's `importImages` line carries `--sleep=0`, so it differs from the list the test expects |
| `MwImport.UsernamePrefixTestDump` | tests/test_mwimport.py:128-145 | for the options of this test the code builds four commands and the `importDump` line the test expects |
| `MwImport.XmlImagesTestPipeline` | tests/test_mwimport.py:106-125 | for the options of this test the code builds the five commands the test expects, in its order, except that the `importImages` line carries `--sleep=0`, which the expected list leaves out |
| `MwImport.PlainPathMessages` | miraheze/mediawiki/mwimport.py:52-57 | a missing path without a single quote, a backslash, a control character or DEL is named between single quotes, unchanged, in both missing-path messages; a double quote in it stays as it is |
| `MwImport.MissingXmlTestMessage` | tests/test_mwimport.py:70-75 | a missing `/dev/no xml` is reported as `Cannot find XML to import: '/dev/no xml'` |
| `MwImport.MissingImagesTestMessage` | tests/test_mwimport.py:78-84 | a missing `/dev/no images` is reported as `Cannot find images to import: '/dev/no images'` |
| `SaltUtils.DbClustersTable` | miraheze/salt/utils.py:14-19 | the map sends c1 to db151, c2 to db161, c3 to db171, c4 to db181 and has no other key or host |
| `SaltUtils.SaltCommandRoundTrip` | miraheze/salt/utils.py:22-23 | `salt-ssh -E "<target>" cmd.run "<command>"` can be read back into its target and command whenever the target holds no double quote |
| `SaltUtils.Dispatch` | miraheze/salt/utils.py:27-38 | `c`/`continue` runs, `s`/`skip` skips, every other answer aborts |
| `SaltUtils.ExecuteSaltCommand` | miraheze/salt/utils.py:26-38 | an abort exits with status 1; output comes back exactly when the answer is continue and the command it was asked about exits with 0; an interrupt while that command runs propagates, since only `Exception` is caught; otherwise the result is `None` |
| `SaltUtils.OnlyContinueRuns` | miraheze/salt/utils.py:28-37 | with any answer but continue the outcome does not depend on how the command would run, and no output comes back |
| `SaltUtils.LookupCommandTargetsDb171` | miraheze/salt/utils.py:42-43 | the lookup command targets db171 and its command ends with `WHERE wiki_dbname = '<wiki>'` and the closing quote |
| `SaltUtils.ClusterFromOutput` | miraheze/salt/utils.py:46-52 | a host comes back only as one of the four db hosts; `IndexError` exactly when the stripped output has fewer than two lines or its second line fewer than five space-separated fields; otherwise the fifth field of the second line is looked up: its host when it is a cluster, a `KeyError` naming that field when it is not |
| `SaltUtils.GetDbCluster` | miraheze/salt/utils.py:41-53 | the command asked about is the lookup command of the wiki; a host is one of the map's hosts and needs a continue and a successful run of that command, whose output is then parsed; an abort exits with 1; a skipped or failed lookup raises "Impossible to skip. Aborted."; an interrupt during the run propagates |
| `SaltUtils.SecondLineLookup` | miraheze/salt/utils.py:46-52 | whatever the first line and the lines after the second, output whose stripped second line is four spaces and a row without spaces gives the row's host when the row is a cluster, and a `KeyError` naming the row otherwise |
| `SaltUtils.ClusterFromSaltOutput` | miraheze/salt/utils.py:46-52 | salt's output for a one-row answer (`<minion>:`, then the cluster name indented by four spaces) gives that cluster's host |
| `SaltUtils.ShortOutputIsIndexError` | miraheze/salt/utils.py:48 | output with only the minion line is an `IndexError`; miraheze/salt/mwcli/partial_reset_wiki.py:10-14 reports it as an unknown cluster, while rename_wiki.py catches only `KeyError` |
| `SwiftPerms.MatchAt` | miraheze/swift/fix_container_permissions.py:17-18 | a match at a position spans the prefix, a non-empty name without a single quote, `' exists...`, and then `failed.` later on the same line |
| `SwiftPerms.MatchAtFinds` | miraheze/swift/fix_container_permissions.py:17-18 | conversely, whenever the pattern can match at a position with some name and end, the match found there has that name and ends no earlier: `[^']+` stops at the first quote and `[^\n]*` is greedy |
| `SwiftPerms.MatchStopsAtNewline` | miraheze/swift/fix_container_permissions.py:17-18 | no match runs past a newline that follows its exists mark |
| `SwiftPerms.FindAllFrom` | miraheze/swift/fix_container_permissions.py:17-20 | every extracted name is non-empty, holds no single quote, and is the name of a match in the text |
| `SwiftPerms.ScanStep` | miraheze/swift/fix_container_permissions.py:17-20 | when a match is possible at a position and ends right before a newline, the scan from there yields its name and resumes after the newline |
| `SwiftPerms.ReportScan` | miraheze/swift/fix_container_permissions.py:17-20 | scanning consecutive failure lines, each followed by a newline and wherever they stand in the text, yields their containers in order and then whatever follows them |
| `SwiftPerms.ReportContainers` | miraheze/swift/fix_container_permissions.py:16-20 | standard output made of n failure lines yields exactly those n containers, in order |
| `SwiftPerms.CombinedOutput` | miraheze/swift/fix_container_permissions.py:19 | the scanned text is standard output, a newline, then standard error, a missing stream counting as empty |
| `SwiftPerms.FailedLineScan` | miraheze/swift/fix_container_permissions.py:17-18 | a line reporting one failed container yields exactly that container |
| `SwiftPerms.NoPrefixNoContainers` | miraheze/swift/fix_container_permissions.py:17-18 | a text where the prefix never appears yields no container |
| `SwiftPerms.RepairPlan` | miraheze/swift/fix_container_permissions.py:15-34 | the plan is the probe run with `check=False`, one post per extracted container in scan order, then the verify run with `check=True` |
| `SwiftPerms.NoMatchesNoPosts` | miraheze/swift/fix_container_permissions.py:16-34 | with nothing extracted the plan is the probe and the verify run and no post |
| `SwiftPerms.PlanPostsShape` | miraheze/swift/fix_container_permissions.py:22-32 | every step between probe and verify is a checked `swift post --read-acl mw:media --write-acl mw:media miraheze-<wiki>-<name>` for an extracted name |
| `SwiftPerms.FixContainerPerms` | miraheze/swift/fix_container_permissions.py:15-34 | what runs is a prefix of the plan; the repair ends well exactly when every post and the verify run exit with 0; the repair stops at a failing post exactly when some post exits non-zero, naming the first such container and its code, with nothing run after it; otherwise the whole plan ran |
| `UpgradeCpService.EnvironmentsTable` | miraheze/puppet/upgrade-cp-service.py:16-42 | beta has the single server test151; prod has ten distinct servers, none of them in beta; neither is named `all` |
| `UpgradeCpService.ParseServers` | miraheze/puppet/upgrade-cp-service.py:56-63 | the value is split on commas; `all` anywhere selects exactly the valid servers; otherwise the value is rejected exactly when some name is not valid, the error giving all such names; an accepted list keeps the input order and repeats and holds only valid servers |
| `UpgradeCpService.SelectFromEnvironment` | miraheze/puppet/upgrade-cp-service.py:56-59 | in either environment `all` selects its server list and any one of its servers is accepted alone |
| `UpgradeCpService.ProdServerRejectedOnBeta` | miraheze/puppet/upgrade-cp-service.py:60-62 | on beta, `test151,mw151` is rejected naming only `mw151` |
| `Strings.Split` | miraheze/salt/utils.py:47-48 | `str.split` on one character gives one more piece than separators, no piece holds the separator, and joining the pieces with it gives the text back |

## Code and tests

`get_scripts` always passes `--sleep=<n>` to `importImages` (mwimport.py:108), and when
`parse_args` does not check paths a negative sleep becomes 0 (mwimport.py:59-60). The
lists expected at tests/test_mwimport.py:117 and :158 leave `--sleep=0` out, so those
tests disagree with the code. The model follows the code; `MwImport.SearchRecursivelyTestSleep`
and `MwImport.XmlImagesTestPipeline` show the difference for the tests at :148-164 and :106-125.

## Left out

- `log`, `get_version`, `subprocess.Popen`/`wait` and the `KeyboardInterrupt` handling in `run_scripts`, and all printing: external processes and I/O; the version and the exit codes are parameters.
- `run` in mwimport.py: the confirmation prompt and the start/end log messages around `parse_args`, `get_scripts` and `run_scripts`; its only logic is returning 1 on a `ValueError` or a declined prompt.
- argparse itself: flag spellings, aliases, the conversion of `--images-sleep` to int and the required positional wiki; the model starts from the parsed options.
- `os.path.exists` and `os.walk`: file system access; existence is a boolean and the walk a list of per-directory file counts.
- `ParseArgs`: the `repr` in the missing-path messages escapes backslashes, the chosen quote, newline, return and tab; Python's further `\x`/`\u` escapes of other non-printable characters are not modelled.
- `ExecuteSaltCommand`: any `Exception` other than a non-zero exit is one `Raised` outcome, and any `BaseException` that is not an `Exception` is the `Interrupted` outcome; the shell, stdout and text arguments and the printed messages are not modelled.
- `GetDbCluster`: the `print` of the fields and the query's execution on the database are not modelled; how each command would run is a parameter. The source raises `KeyboardInterrupt` both for a skipped or failed lookup and for an interrupt; the model keeps the two apart as `Aborted` and `Interrupt`.
- `FixContainerPerms`: a `swift` or `mwscript` binary that cannot be started raises in the source; here every run has an exit code. The captured output of the verify run is not used by the source and is not modelled.
- `ParseServers`: the error message lists the invalid names in Python set iteration order, which depends on string hashing; the model gives the set of names. `parser.error` also prints usage and exits with status 2.
- `get_environment_info` is not defined in upgrade-cp-service.py: the valid server list is a parameter.
- `run_command`, `wait_for_ping`, `check_up`, `process_server` and the main loop of upgrade-cp-service.py: shell commands, wall-clock polling, ping and HTTP; the file also lacks several imports and uses an undefined `port`.
- rename_wiki.py, partial_reset_wiki.py and disable_puppet.py: fixed command templates passed to salt or `os.system` with no logic beyond `generate_salt_command`; rename_wiki.py:8 calls `get_db_cluster` outside its `try`.
- setup.py: packaging metadata.
