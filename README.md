# paloversion-gui: a Dafny model of the front-end's decision logic

`paloversion-gui.py` is the touch-screen front-end of a batch upgrader for Palo Alto
Networks firewalls. The operator picks a PAN-OS version and presses some toggles. START
then launches the `paloversion.sh` upgrade script. A status screen polls the script's
per-device logs and colours every device yellow (in progress), green (finished) or red
(failed).

This project models the non-graphical logic of the front-end:

- `text.dfy` (`Text`): the string notions Python provides. These are character classes,
  substring search, the first line of a file, and `str` ordering.
- `files.dfy` (`Files`): the abstract filesystem. A directory tree is the sequence of
  files `os.walk` yields, in walk order. Each file has its base name and the outcome of
  reading it: either the text read or the exception's message. The text is what
  Python's text mode yields, after decoding and newline translation, so `\r\n` arrives as `\n`.
  For `authkey.txt`, `FirstLine` of that text is what `readline().rstrip('\n')` returns.
- `patterns.dfy` (`Patterns`): the five regular expressions. The bundle pattern is
  decided by a recursive procedure that is proved equal to a regular-expression-style
  existential definition.
- `status.dfy` (`Status`): the status poller `monitor_files`, and the aggregate colour
  and row layout that `Panel2.refresher` computes.
- `versions.dfy` (`Versions`): version discovery, `get_versions`. It scans the CSV
  manifests, deduplicates the tokens and sorts them in reverse.
- `logs.dfy` (`Logs`): the log drill-down `tail_file` and the start-up purge `cleanup`.
- `launch.dfy` (`Launch`): the lookups `find_content`, `find_antivirus` and
  `find_authkey`, and the START handler `Panel1.close`.
  - START either does nothing, opens one of three error screens, or builds the shell
    command.
  - A decoder reads the command back, and the model proves it recovers every chosen option.

Python's `$`, which also matches just before one final newline, is modelled in the anchored patterns.

The code of the source that works step by step is modelled as methods:
- The loops of `monitor_files` and `get_versions` are proved equal to the functions `DeviceStatuses` and `Versions` of their inputs.
- `Panel1.close`, straight-line `+=` code with early returns, is proved equal to the function `Decide`.

The source's promises are then proved about those functions. The loop of `cleanup` is proved directly: its ensures say which files remain.

## Model

| member | source | states |
|---|---|---|
| Text.FirstLine | paloversion-gui.py:162 | `readline().rstrip('\n')` gives a prefix of the file holding no newline, ending at the first newline or at the end of the file |
| Text.LexLessTotal | paloversion-gui.py:141 | the `str` order that `sort` uses is total: of two different strings, one is smaller |
| Text.LexLessTransitive | paloversion-gui.py:141 | the `str` order is transitive |
| Text.LexLessIrreflexive | paloversion-gui.py:141 | no string is smaller than itself |
| Patterns.VersionTokenUnquoted | paloversion-gui.py:66 | a token `regexver` accepts holds no double quote and no blank |
| Patterns.DashAfterDigitsSpec | paloversion-gui.py:68-69 | the recursive matcher for the tail of `\d+-\d+` accepts exactly the strings of digits, a dash and a digit |
| Patterns.BundleNameMatchesSpec | paloversion-gui.py:68-69 | a name is accepted by the bundle matcher if and only if it starts with the prefix, then a digit run, a dash and a digit |
| Patterns.ContentBundleExample | paloversion-gui.py:68 | `panupv2-all-contents-1-2.tgz` is a content bundle name (`re.match` anchors only at the start) |
| Patterns.HexSerialIsNotLogName | paloversion-gui.py:67 | `001122AABBCC.log` does not match `regexlogs` |
| Patterns.IsLogName | paloversion-gui.py:67 | defines `regexlogs`: a stem `PaloVersionBatch`, a digit run or `fe80` followed by word characters and colons, then `.log`, with at most one final newline |
| Patterns.IsCsvName | paloversion-gui.py:65 | defines `regexcsv`: word characters then `.csv`, with at most one final newline |
| Patterns.IsVersionToken | paloversion-gui.py:66 | defines `regexver`: one or more of digits, letters, dots and dashes, with at most one final newline |
| Patterns.IsBundleName | paloversion-gui.py:68-69 | defines `re.match(prefix + r"\d+-\d+", name)`: the prefix, a digit, then what `DashAfterDigits` accepts, anything after |
| Status.Classify | paloversion-gui.py:80-92 | an empty log gives no row; an unreadable log or one holding `---FAILED---` is red; else `---FINISHED---` makes it green; any other non-empty log is yellow (each an if-and-only-if) |
| Status.StatusOf | paloversion-gui.py:80-93 | defines the rows one file adds: none unless it is a device log other than the batch log, else one row in its `Classify` colour, or none when it is empty |
| Status.DeviceStatuses | paloversion-gui.py:76-94 | a walk yields at most one row per file |
| Status.DeviceStatusesSpec | paloversion-gui.py:76-94 | every row is a device log of the walk in the colour its contents give, and every device log with a colour has its row |
| Status.DeviceStatusesAppend | paloversion-gui.py:77-78 | rows come in walk order: the rows of a concatenated walk are the rows of its parts, concatenated |
| Status.EmptyLogOmitted | paloversion-gui.py:84 | an empty log file contributes nothing |
| Status.HexSerialNotPolled | paloversion-gui.py:80 | a finished log named after a hexadecimal serial is not polled |
| Status.MonitorFiles | paloversion-gui.py:76-94 | the loop returns exactly `DeviceStatuses` of the walk |
| Status.BatchColour | paloversion-gui.py:327-336 | red if and only if some row is red; yellow if and only if none is red and some row is yellow or there are none; green if and only if there are rows and all are green |
| Status.RefreshRows | paloversion-gui.py:320-349 | hint first, batch row second in the aggregate colour, the "with errors" or "without errors" banner exactly when that colour is red or green, then the device rows |
| Versions.ScanRowsSpec | paloversion-gui.py:136-138 | scanning the rows keeps what was found, adds no duplicate, and adds exactly the column-1 tokens that `regexver` accepts |
| Versions.ScanRows | paloversion-gui.py:136-138 | defines the inner loop: append each accepted column-1 token not yet found, and stop at the first short row |
| Versions.Collect | paloversion-gui.py:122-140 | defines `matches` before the sort: the rows of every scanned manifest in walk order, starting from an empty list |
| Versions.ScanFileSpec | paloversion-gui.py:126-140 | one file adds exactly the tokens it contributes: only a readable manifest other than `content.csv` contributes |
| Versions.ScanFilesSpec | paloversion-gui.py:122-140 | the walk keeps the list duplicate-free and adds exactly the tokens some manifest contributes |
| Versions.CollectSpec | paloversion-gui.py:121-140 | before the sort the list is duplicate-free, holds only version tokens, and holds exactly the contributed tokens |
| Versions.ScanFilesAppend | paloversion-gui.py:122-123 | scanning a concatenated walk is scanning its parts in turn |
| Versions.ContentCsvIgnored | paloversion-gui.py:131-132 | a file named `content.csv` changes nothing, whatever it holds |
| Versions.ShortRowStopsFile | paloversion-gui.py:136-140 | a row with fewer than two fields ends its file: the rows after it are never read |
| Versions.InsertDescending | paloversion-gui.py:141 | inserting a new element into a strictly descending list keeps it strictly descending, with that element added |
| Versions.SortDescending | paloversion-gui.py:141 | `sort(reverse=True)` on a duplicate-free list yields a strictly descending list with the same elements |
| Versions.DescendingUnique | paloversion-gui.py:141 | two strictly descending lists with the same elements are equal: the sorted result does not depend on the algorithm |
| Versions.VersionsSpec | paloversion-gui.py:121-142 | the version list is strictly descending, duplicate-free, made of version tokens, and holds exactly the contributed tokens |
| Versions.Versions | paloversion-gui.py:121-142 | defines what `get_versions` returns: `Collect` sorted in reverse |
| Versions.GetVersions | paloversion-gui.py:121-142 | the nested loops and the sort return exactly `Versions` of the walk |
| Versions.VersionsScenario | paloversion-gui.py:137-141 | a manifest listing 10.1.3 twice and 9.0.1 gives `["9.0.1", "10.1.3"]`: the order is by code point |
| Logs.TailFile | paloversion-gui.py:97-118 | no selection gives ""; a readable log gives its text; an unreadable log gives the error message, with the BATCH_MAX guidance appended exactly for the batch log |
| Logs.ReadError | paloversion-gui.py:114-117 | defines the error text for an unreadable log: the serial and the exception text |
| Logs.Cleanup | paloversion-gui.py:145-153 | exactly the files that are not removable log-pattern files remain |
| Launch.FindBundle | paloversion-gui.py:168-181 | a non-empty result matches the bundle pattern |
| Launch.FindBundleFirstMatch | paloversion-gui.py:168-173 | the result is the first matching name in walk order |
| Launch.FindBundleNoMatch | paloversion-gui.py:168-173 | with no matching name the result is "" |
| Launch.FindContent | paloversion-gui.py:168-173 | defines `find_content`: `FindBundle` with the prefix `panupv2-all-contents-` |
| Launch.FindAntivirus | paloversion-gui.py:176-181 | defines `find_antivirus`: `FindBundle` with the prefix `panup-all-antivirus-` |
| Launch.FindAuthkey | paloversion-gui.py:156-165 | the key holds no newline |
| Launch.FindAuthkeyFirstReadable | paloversion-gui.py:156-165 | the key is the first line of the first readable `authkey.txt`; unreadable ones are skipped |
| Launch.FindAuthkeyNoneReadable | paloversion-gui.py:156-165 | with no readable `authkey.txt` the key is "" |
| Launch.AddFlag | paloversion-gui.py:244-258 | a flag is appended exactly when its toggle condition holds |
| Launch.OptArgs | paloversion-gui.py:243-279 | defines `OPT_ARGS`: the flags `-m -d -s -i -k`, then `-t "…" -a "…" `, then `-c `, then `-p "…"`, each present or absent, in that fixed order |
| Launch.FormatCommand | paloversion-gui.py:281-284 | defines the command text around `OPT_ARGS` and the version: the script path, `-f`, `-z "" "" ""`, then the firmware path, the version and `eth0`, each in double quotes |
| Launch.Command | paloversion-gui.py:243-284 | defines the command for a set of options and a version |
| Launch.Decide | paloversion-gui.py:242-284 | defines START's decision: no action on the placeholder, then the content, antivirus and authkey error screens in that order, else a launch of `Command` |
| Launch.Close | paloversion-gui.py:241-289 | START's outcome is `Decide` applied to the version, the toggles and the three lookups on the media |
| Launch.DecideOutcomes | paloversion-gui.py:242-278 | no action if and only if the placeholder is selected; each error screen exactly when its lookup is the first one that finds nothing |
| Launch.ContentErrorSkipsLaterLookups | paloversion-gui.py:261-264 | a failed content lookup ends START before the antivirus and authkey lookups matter |
| Launch.VersionTokenIsNotPlaceholder | paloversion-gui.py:242 | any version offered from the manifests is not the placeholder and holds no quote |
| Launch.OptArgsRoundTrip | paloversion-gui.py:243-279 | the options are read back from `OPT_ARGS`, in its fixed flag order, when names and key hold no quote |
| Launch.CommandRoundTrip | paloversion-gui.py:281-283 | the command line determines the options and the version it was built from |
| Launch.LaunchCarriesToggles | paloversion-gui.py:241-283 | when the bundle names, the authkey and the version hold no double quote, a launched command carries `-m` exactly when the MAC toggle is up, every other flag exactly when its toggle is down, and the names and key the lookups found |

## Left out

- The Kivy user interface is not modelled: screens, buttons, scroll views, fonts and the screen manager. Error screens are outcome values, and `Panel1.close`'s widget-tree lookups become the `Toggles` record.
- The 10-second refresh timer (`Clock.schedule_interval`) is not modelled. `Panel2.refresher` is modelled as one call on the poller's result.
- The process launch (`subprocess.Popen`), the `print`, the `time.sleep(1)` and the switch to the status screen are left out. The model stops at the command line.
- `check_features` runs the shell script and is not modelled. A disabled toggle is one that stays up, and the toggles are inputs.
- The start-up wait for the USB key and the application's `build` are left out.
- Logging to `/home/pi/app.logs` is left out, as are the `Panel3`, `Panel4` and error-screen classes. `Panel4` only stores the chosen version, which is an input here.
- Real filesystem I/O is abstracted as the walk-order sequence of (name, read outcome). The order in which `os.walk` lists files is an input.
- Versions.GetVersions: does not model the `shutil.copyfile` of each manifest to the working directory. The copy has no effect on the result.
- Versions.GetVersions: the CSV tokenising of `csv.reader` is not modelled. A manifest is given as its rows of fields.
- Versions.SortDescending: models `list.sort(reverse=True)` only on duplicate-free lists, the only lists the source sorts.
- Logs.Cleanup: the model returns the files that remain rather than removing them from a directory. Nested directories are flattened into walk order.
- `\d` and `\w` are taken over ASCII only. Python 3 also accepts non-ASCII digits and letters there.
- Launch.CommandRoundTrip: holds only when the bundle names, the authkey and the version contain no double quote. Only the version's freedom from quotes is guaranteed by `regexver`.
- Launch.LaunchCarriesToggles: holds only under the same condition. `find_authkey` returns any text, so a key holding `"` can break the quoting, and the decoder then need not read back the chosen options.
- Logs named after hexadecimal serials (such as `001122AABBCC.log`) are never polled, because `regexlogs` accepts only all-digit, `PaloVersionBatch` and `fe80…` stems. The model follows the code here (`Status.HexSerialNotPolled`) and does not treat such logs as devices.
