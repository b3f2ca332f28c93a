# Network configuration backup and WLC client inventory, modelled in Dafny

This project models two scripts that drive network devices over interactive SSH
sessions.

- `config_backup.py` reads an address list file and, for each valid address,
  detects the device type from the prompt and the parsed `show version` record.
  It then looks up the vendor's configuration command, retrieves the
  configuration, and saves a non-empty one as `<dir>/<ip>_<YYYYmmdd_HHMMSS>.cfg`.
- `test.py` connects to a wireless LAN controller (WLC) and disables paging. It
  lists the access points (APs) whose names start with a prefix, lists each AP's
  802.11a clients, and asks for each client's details. The resulting
  `[MAC, IP, AP]` rows go to a CSV file under a fixed header.

The network, the file system and the clock are inputs to the model.
- A device probe is `Option<Probe>`, and `None` stands for an exception.
- A configuration reply is `Option<string>`.
- The clock reading is a `DateTime` for each list entry.
- The WLC is a flag saying whether connecting succeeded, plus a function from
  command text to `Option<string>`.

Each loop of the two `main` functions and of the three WLC parsers is a `method`
proved equal to a recursive specification function. The list comprehension of
`read_ip_list` is the function `IpList.Entries`. The properties are proved as
lemmas about those functions:
- round trips (list file, timestamp, backup path);
- first-match precedence of the classifier;
- leftmost and longest regular-expression matches;
- command order;
- which devices reach each step;
- what the CSV file holds.

Modules, by source file:

- `config_backup.py`: `IpList`, `DeviceClassifier`, `ConfigCommands`,
  `BackupFile`, `BackupBatch`.
- `test.py`: `WlcPatterns` (the two regular expressions), `WlcParsers` (the
  three output parsers) and `WlcCollect` (`main`).
- Shared: `Text` models Python `str` behaviour: `isspace`, `strip`,
  `splitlines`, text-mode line iteration, `split()[0]`, `in` and `lower`.
  `Wrappers` holds `Option`.

The model follows what the code does:

- The prompt check accepts `>` or `#` anywhere in the prompt, not only at its end.
- Classification matches the `hardware` and `version` fields of the first parsed
  record separately. It does not match them against the whole output.
- The code rewrites no address list and writes no failure log.

## Model

| member | source | states |
|---|---|---|
| IpList.ReadIpList | config_backup.py:12-21 | an unreadable file gives the empty list; every entry of the list is non-empty and has no surrounding whitespace |
| IpList.Entries | config_backup.py:17 | at most one entry per line; every entry is non-empty and has no surrounding whitespace |
| IpList.EntriesOfLine | config_backup.py:17 | a line yields its stripped form exactly when it is not all whitespace |
| IpList.EntriesAppend | config_backup.py:17 | the entries of a file are the entries of its parts, in file order |
| IpList.ReadWrittenList | config_backup.py:12-21 | a list of trimmed entries written one per line is read back unchanged |
| IpList.EntriesOfTrimmed | config_backup.py:17 | lines that are already trimmed and non-empty are kept as they are |
| Text.IsSpace | config_backup.py:17 | Python's `str.isspace()` for one character, which decides what `strip()` and `split()` remove (definition) |
| Text.Strip | config_backup.py:17 | `strip()`; StripTrimmed, StripSplit and StripIdempotent state its properties (definition) |
| Text.IsBreak | test.py:36 | the line boundaries of `splitlines()` and of universal-newline file iteration (definition) |
| Text.SplitLines | test.py:36 | `str.splitlines()`, as `Lines` over the `splitlines()` boundaries (definition) |
| Text.FirstToken | test.py:40 | `split()[0]`, `None` where it raises; FirstTokenShape states its properties (definition) |
| Text.Contains | config_backup.py:53-60 | Python's substring `in`; ContainsAtIndex and ContainsOccurs tie it to an occurrence at some position (definition) |
| Text.ContainsOccurs | config_backup.py:53-60 | a contained string occurs at some position of the containing one |
| Text.Lower | config_backup.py:50-51 | `lower()` restricted to ASCII letters, keeping the length |
| Text.SpaceEnd | config_backup.py:17 | the first non-whitespace index at or after `i`, with whitespace everywhere before it |
| Text.SpaceStart | config_backup.py:17 | the index after the last non-whitespace character before `j`, with whitespace everywhere after it |
| Text.StripTrimmed | config_backup.py:17 | `strip()` leaves no whitespace at either end, and leaves nothing exactly for an all-whitespace string |
| Text.StripSplit | test.py:39 | a string is leading whitespace, then its stripped form, then trailing whitespace |
| Text.StripIdempotent | config_backup.py:17 | stripping twice is stripping once |
| Text.LineEnd | test.py:36 | the first line break at or after `i`, with none before it |
| Text.Lines | test.py:36 | no line holds a break character, and there are no more lines than characters |
| Text.LinesOfTerminated | config_backup.py:15-17 | splitting text written one line per `\n` gives the lines back |
| Text.TokenEnd | test.py:40 | the first whitespace index at or after `i`, with no whitespace before it |
| Text.FirstTokenShape | test.py:40 | `split()[0]` raises exactly for an all-whitespace line, and is otherwise a non-empty run without whitespace |
| Text.PrefixOfStrippedIsPrefixOfToken | test.py:39-40 | a non-empty, whitespace-free prefix of the stripped line is a prefix of its first token |
| Text.ContainsAtIndex | config_backup.py:53-60 | an occurrence at any position makes the substring test succeed |
| Text.LowerIdempotent | config_backup.py:50-51 | lowercasing twice is lowercasing once |
| DeviceClassifier.DeviceTypeOf | config_backup.py:53-62 | a tag maps to the device type with that tag, and to none when no type has it |
| DeviceClassifier.TagRoundTrip | config_backup.py:53-62 | the five tags are distinct, and reading a type's tag back gives the type |
| DeviceClassifier.LoweredField | config_backup.py:50-51 | `record.get(key, '').lower()`: `''` for a missing key, `None` where `.lower()` raises on a non-string value (definition) |
| DeviceClassifier.ClassifyFields | config_backup.py:53-62 | the signature of the type the chain reports matches the fields |
| DeviceClassifier.IsCliPrompt | config_backup.py:47 | the prompt check `'>' in prompt or '#' in prompt` (definition) |
| DeviceClassifier.ClassifyFieldsFirstMatch | config_backup.py:53-62 | the chain reports `d` exactly when `d`'s signature matches and no earlier signature does; `cisco_ios` is the fallback |
| DeviceClassifier.Classify | config_backup.py:46-62 | a type is reported exactly for a `>`/`#` prompt and a non-empty parsed list whose first record has string-valued (or missing) `version` and `hardware` fields; it is the chain applied to the lowercased fields |
| DeviceClassifier.ClassifyReadsFirstRecord | config_backup.py:49-51 | records after the first do not affect the result |
| DeviceClassifier.ClassifyDefaultsToIos | config_backup.py:61-62 | a first record, whatever other fields it holds, whose lowercased `hardware` and `version` match no vendor signature gives `cisco_ios` |
| DeviceClassifier.ClassifyEmptyRecord | config_backup.py:50-51 | missing fields read as `''`, giving `cisco_ios` |
| DeviceClassifier.LowerFields | config_backup.py:50-51 | a record with every string field lowercased (definition) |
| DeviceClassifier.LoweredFieldOfLowerFields | config_backup.py:50-51 | reading a field of the lowercased record gives what reading the original gives |
| DeviceClassifier.ClassifyIgnoresCase | config_backup.py:50-51 | lowercasing every string field of any first record beforehand does not change the result |
| DeviceClassifier.GetDeviceType | config_backup.py:43-65 | a type is reported exactly when connecting succeeded, the prompt has `>` or `#`, and `show version` parsed to a non-empty list whose first record has readable `version` and `hardware` fields; the type is the chain applied to those lowercased fields |
| ConfigCommands.CommandFor | config_backup.py:78-84 | `config_commands[device_type]` over the five-entry table `ConfigCommands`, `None` where it raises `KeyError` (definition) |
| ConfigCommands.VendorCommand | config_backup.py:78-84 | the WLC command, the Junos command, and `show running-config` for the other three types |
| ConfigCommands.TableKeysAreTags | config_backup.py:78-84 | the table's keys are exactly the five tags the classifier can report |
| ConfigCommands.CommandForEveryType | config_backup.py:78-89 | the lookup never raises `KeyError` for a classified type, and yields that vendor's command |
| ConfigCommands.GetConfig | config_backup.py:86-93 | the configuration is what sending the command returned, or `None` when that raised |
| BackupFile.Padded | config_backup.py:100 | a number zero-padded to exactly `width` decimal digits |
| BackupFile.PaddedValue | config_backup.py:100 | reading a padded number back gives the number |
| BackupFile.DatePart | config_backup.py:100 | `%Y%m%d` is eight digits |
| BackupFile.TimePart | config_backup.py:100 | `%H%M%S` is six digits |
| BackupFile.Timestamp | config_backup.py:100 | 15 characters: eight digits, `_`, then six digits |
| BackupFile.TimestampFields | config_backup.py:100 | the year, month, day, hour, minute and second sit at the positions `%Y%m%d_%H%M%S` gives them |
| BackupFile.ParseTimestampOfTimestamp | config_backup.py:100 | a timestamp is read back as the clock reading it was made from |
| BackupFile.TimestampInjective | config_backup.py:100 | different clock readings give different timestamps |
| BackupFile.BackupName | config_backup.py:101 | the file name is 20 characters longer than the address |
| BackupFile.BackupPath | config_backup.py:101 | the path starts with `<dir>/`, and its length is the directory plus the address plus 21 |
| BackupFile.NameParts | config_backup.py:101 | where the address, the `_`, the timestamp and `.cfg` sit in a file name |
| BackupFile.ParseBackupNameOfBackupName | config_backup.py:100-101 | a file name is read back as its address and clock reading |
| BackupFile.ParseBackupPathOfBackupPath | config_backup.py:100-101 | a path is read back as its address and clock reading |
| BackupFile.BackupPathInjective | config_backup.py:100-101 | two saves into one directory write the same file only for the same address at the same second |
| BackupBatch.Steps | config_backup.py:125-141 | the steps of the list entries from index `k` on, entry by entry (definition) |
| BackupBatch.Backup | config_backup.py:120-141 | the whole run: no steps for an empty list, otherwise the steps of every entry (definition) |
| BackupBatch.DeviceSteps | config_backup.py:125-141 | an entry takes steps exactly when its address is valid; all its steps are for its address, and the first is detection |
| BackupBatch.DeviceStepsContents | config_backup.py:126-141 | detection happens exactly for a valid address; retrieval exactly for a detected type; saving exactly for a non-empty configuration, under the path made from the address and the clock |
| BackupBatch.ProcessDevice | config_backup.py:126-141 | one pass of the loop body, with its `continue`s, takes exactly the entry's steps |
| BackupBatch.BackupDevices | config_backup.py:120-141 | the loop takes exactly the steps of the whole run, and none for an empty or unreadable list |
| BackupBatch.EntryOfStep | config_backup.py:125-141 | every step of the run belongs to some list entry |
| BackupBatch.StepOfEntryInSteps | config_backup.py:125-141 | every step of every list entry is in the run |
| BackupBatch.StepsOnlyForValidAddresses | config_backup.py:125-127 | every step is for a valid address of the list |
| BackupBatch.SavesComeFromDetectedDevices | config_backup.py:132-141 | a retrieval or save belongs to an entry whose type was detected; a save holds that entry's non-empty reply and its path |
| BackupBatch.DetectedAppend | config_backup.py:125 | the detections of a concatenation are the detections of the parts |
| BackupBatch.DetectedOfDevice | config_backup.py:126-132 | an entry is detected once if its address is valid, and not at all otherwise |
| BackupBatch.DetectedAreValidEntries | config_backup.py:125-132 | the detected addresses are exactly the valid entries, in list order, with duplicates kept |
| BackupBatch.OrderedAppend | config_backup.py:125-141 | appending the steps of one entry keeps the pipeline order |
| BackupBatch.StepsInPipelineOrder | config_backup.py:125-141 | a retrieval directly follows its address's detection, and a save directly follows its address's retrieval |
| WlcPatterns.IsMac | test.py:51 | six two-digit hex groups separated by `:` (definition) |
| WlcPatterns.IsDottedQuad | test.py:63 | four non-empty digit groups separated by single dots (definition) |
| WlcPatterns.MacIndex | test.py:51 | the leftmost index at or after `from` where the MAC pattern matches, with none before it; `None` when it matches nowhere |
| WlcPatterns.FindMac | test.py:51-53 | `None` exactly when no MAC address occurs; otherwise the leftmost MAC address in the line |
| WlcPatterns.DigitRunEnd | test.py:63 | the maximal run of ASCII digits starting at `i` |
| WlcPatterns.GroupsEnd | test.py:63 | a match of `n` greedy digit groups ends after its start and within the string |
| WlcPatterns.GroupsEndSound | test.py:63 | the greedy match is `n` dot-separated digit groups, and is not followed by a digit |
| WlcPatterns.GroupsEndComplete | test.py:63 | any `n`-group match at `i` ends no later than the greedy one |
| WlcPatterns.QuadIndex | test.py:63 | the leftmost index where a dotted quad starts, with none before it; `None` when there is none |
| WlcPatterns.FindQuad | test.py:63-65 | a result is always a dotted quad |
| WlcPatterns.QuadFoundNoLaterThan | test.py:63 | a dotted quad anywhere makes the search succeed at or before its start |
| WlcPatterns.FindQuadNone | test.py:63-64 | `None` exactly when no substring of the line is a dotted quad |
| WlcPatterns.NoQuadBefore | test.py:63 | no dotted quad starts before the match |
| WlcPatterns.NoLongerQuad | test.py:63 | no dotted quad from the match's start runs past its end |
| WlcPatterns.FindQuadLeftmostLongest | test.py:63-65 | the result is the leftmost dotted quad of the line, and the longest one starting there |
| WlcPatterns.DottedQuadStartsWithDigit | test.py:63 | a dotted quad starts with a digit |
| WlcParsers.Selected | test.py:39 | `re.match(ap_prefix, line.strip())` with the prefix as literal text (definition) |
| WlcParsers.ClientsCommand | test.py:46 | the per-AP command `show client ap 802.11a <ap>` (definition) |
| WlcParsers.DetailCommand | test.py:58 | the per-client command `show client detail <mac>` (definition) |
| WlcParsers.ApNames | test.py:36-42 | at most one name per line; on success every name is non-empty and has no whitespace |
| WlcParsers.GetApNames | test.py:33-42 | the loop over the summary lines gives the AP name list, or fails where `split()[0]` raises |
| WlcParsers.ApNamesAppend | test.py:38-41 | the names of a summary are the names of its parts, in order, and parsing fails if either part fails |
| WlcParsers.ApNamesOfLine | test.py:39-41 | a selected line contributes its first token; an unselected line contributes nothing; a selected blank line fails |
| WlcParsers.ApNamesFails | test.py:39-40 | parsing fails exactly for the empty prefix together with a blank line |
| WlcParsers.ApNamesHavePrefix | test.py:39-41 | with a non-empty, whitespace-free prefix, parsing succeeds and every name starts with the prefix |
| WlcParsers.ClientsForAp | test.py:49-53 | at most one pair per line; each pair is a MAC address and the AP asked about |
| WlcParsers.GetClientsForAp | test.py:44-54 | the loop over the listing lines gives the client pairs |
| WlcParsers.ClientsForApAppend | test.py:49-53 | the pairs of a listing are the pairs of its parts, in order |
| WlcParsers.ClientsForApOfLine | test.py:51-53 | a line yields the pair of its leftmost MAC address, or nothing |
| WlcParsers.ClientMacsComeFromLines | test.py:49-53 | every collected MAC address is the leftmost MAC address of some listing line |
| WlcParsers.ClientIp | test.py:60-67 | the result is the sentinel `Unknown` or a dotted quad |
| WlcParsers.GetClientDetails | test.py:56-67 | the loop, with its `break`, gives the client's IP address |
| WlcParsers.ClientIpFirstMarker | test.py:61-66 | the first line holding `IP Address` alone decides the result: its first dotted quad, or the sentinel |
| WlcParsers.ClientIpWithoutMarker | test.py:60-62 | without a marker line the result is the sentinel |
| WlcParsers.ClientIpStopsAtMarker | test.py:62-66 | a marker line without a dotted quad ends the scan with the sentinel, whatever follows |
| WlcParsers.UnknownIsNotAnAddress | test.py:60-65 | the sentinel is never a dotted quad |
| WlcCollect.ThenAssoc | test.py:96-105 | running traces in sequence is associative |
| WlcCollect.ThenDone | test.py:96-105 | the empty trace is neutral on both sides |
| WlcCollect.IpFor | test.py:104 | the IP address a client's detail reply gives, or the sentinel where the command raised (definition) |
| WlcCollect.DetailsTrace | test.py:102-105 | the inner loop over one AP's clients, stopping at the first command that raises; DetailsTraceComplete and DetailsTraceCommands state its properties (definition) |
| WlcCollect.ApTrace | test.py:96-105 | one AP's turn: its listing command, then the inner loop over its clients (definition) |
| WlcCollect.ApsTrace | test.py:96-105 | the outer loop over the APs, stopping at the first command that raises; ApsTraceRows and ApsTraceCommands state its properties (definition) |
| WlcCollect.Collect | test.py:76-118 | `main`: connecting, paging, the summary, the loops, and the ending: failed, no APs, no client data, or the saved CSV (definition) |
| WlcCollect.PairsOfAp | test.py:98 | the client pairs of one AP's listing (definition) |
| WlcCollect.CollectDetails | test.py:102-105 | the inner loop's commands, rows and completion are those of the inner-loop trace |
| WlcCollect.CollectAp | test.py:96-105 | one AP's turn issues its listing command and then the inner loop over its clients |
| WlcCollect.CollectAps | test.py:96-105 | the outer loop's commands, rows and completion are those of the outer-loop trace |
| WlcCollect.CollectClients | test.py:76-118 | the commands sent and the ending of `main` are those of the session function |
| WlcCollect.RowsOf | test.py:102-105 | one row per client |
| WlcCollect.DetailCommands | test.py:102-104 | one detail command per client |
| WlcCollect.PairsOf | test.py:96-105 | every client of every AP has a MAC address and one of the listed APs |
| WlcCollect.RowsOfAppend | test.py:102-105 | the rows of a concatenation are the rows of its parts |
| WlcCollect.DetailsTraceComplete | test.py:102-105 | the inner loop completes exactly when every detail command answers; it then sends one detail command per client, in order, and makes one `[mac, ip, ap]` row per client |
| WlcCollect.ApsTraceRows | test.py:95-105 | a completed outer loop's rows are those of all clients of all APs, in AP order and then listing order |
| WlcCollect.CommandsOf | test.py:96-105 | each AP's listing command followed by one detail command per client, AP by AP (definition) |
| WlcCollect.DetailsTraceCommands | test.py:102-104 | the inner loop sends a prefix of its clients' detail commands, in order |
| WlcCollect.ApsTraceCommands | test.py:96-105 | the outer loop sends a prefix of the commands of all APs, and all of them when it completes |
| WlcCollect.CollectCommands | test.py:80-105 | once the summary is parsed, a run sends paging, the summary, then each AP's listing followed by its clients' detail commands; a failed run stops partway through that sequence, and any other run sends all of it |
| WlcCollect.CollectCommandOrder | test.py:80-98 | commands are sent exactly when connecting succeeds; paging is disabled first, then the summary is requested, then the first AP's listing |
| WlcCollect.CollectNoAccessPoints | test.py:88-91 | the run ends with no APs exactly when the summary parses to the empty list, and then only the paging and summary commands were sent |
| WlcCollect.CollectSavedRows | test.py:107-112 | a saved CSV is the header followed by one row per client of the found APs, in order; "no client data" means there were no clients |
| WlcCollect.RowShape | test.py:102-105 | every row is a MAC address, an IP address that is a dotted quad or the sentinel, and one of the found APs |

## Left out

- SSH, netmiko and paramiko are left out. Connecting, `find_prompt`, `send_command` with TextFSM, `invoke_shell`, `send`, `recv`, UTF-8 decoding and the timed waits are all inputs. Each exception they raise is `None`, or a failed connection.
- `validate_ip` is the predicate `isValid`, given as an input. `ipaddress.ip_address` is not part of this model.
- File I/O is not modelled: opening and reading the address list, `os.makedirs`, writing the `.cfg` file, and the CSV writer's quoting. The model records the path and contents of a save and the rows of the CSV file.
- BackupBatch.BackupDevices: the failures of `save_config` are not modelled. A `makedirs` error outside the `try` would end the loop; an open or write error only returns `False`, which `main` ignores.
- WlcCollect.CollectClients: a failed write of the CSV file is not modelled; a run with rows always ends in `Saved`.
- `logging`, `print` and `sys.argv` are left out. The AP prefix and the output directory are parameters.
- `datetime.now()` is the `now` field of each entry's input. Years run from 1000 to 9999, and days are not checked against the month's calendar.
- WlcParsers.ApNames: `re.match(ap_prefix, …)` treats the prefix as literal text. A prefix with regular-expression metacharacters is not modelled.
- WlcPatterns.FindQuad: `\d` is ASCII digits only, whereas Python also accepts other Unicode decimal digits.
- Text.Lower: lowercases ASCII letters only. Python's full Unicode case mapping is not modelled.
- WlcCollect.Collect: the WLC answers each command text the same way every time, so two identical commands, such as repeated detail requests for one MAC address, get the same reply.
- WlcCollect.Collect: when connecting fails, `finally: ssh.close()` in test.py refers to an unbound `ssh`. The resulting `UnboundLocalError` is modelled as the ending `ConnectFailed`, with no commands sent.
- Nothing rewrites the address list or writes a failure log, because the code does neither.
