# Resumable S3 download tracker — a Dafny model

The program copies the objects under one S3 prefix to a local directory in
three steps:

- **Listing.** It lists the keys once. Each key goes to one of two manifest
  files, in listing order. Keys ending in "/" go to `dir_list.txt` and all
  other keys to `file_list.txt`. Each line reads `"{i}, {key}"`, and each file
  numbers its lines from 0.
- **Resumable passes.** Two passes, `mkdirs` and `download_data`, walk their
  manifest from a cursor. The cursor is kept by a `Tracker`: a counter beside an
  append-only progress log (`mkdir.log`, `download.log`). The log gets one line
  `"{i}"` or `"{i}, {note}"` per entry that is done.
- **Recovery.** When a pass starts again after a crash, the tracker recovers the
  cursor from the last log line and skips the entries before it.

The model has these modules:

- `Wrappers`: `Option` and `Result`.
- `Text`: the parts of Python's `str` the program uses:
  - `strip`;
  - `split(sep)`;
  - `endswith`;
  - `str(n)`;
  - `int` of digits.
- `LocalFiles`: a text file is `Option<seq<string>>`: the lines written to it,
  in order and with their "\n", or `None` when the file does not exist. Append
  mode is `AppendLines`. This is what `readlines()` returns as long as every
  line written is whole (`IsLine`: one final "\n" and no other "\n" or "\r").
  `LogLineIsLine`, `RenderWhole` and `ManifestLineIsLine` say when the program's
  lines are whole.
- `Progress`: the `Tracker` class, with a field each for its log file and its
  counter. It also holds the log format and the recovery functions, both as
  written and as intended, with their lemmas.
- `Listing`: the manifest format, the split of keys by kind, and the listing
  loop `ListManifests`. `get_file_list` and `Downloader.download_file_list` share
  this loop.
- `Transfer`: the resumable loop over a manifest.
  - `Run` is its specification and `Resume` is the imperative loop over a
    `Tracker`.
  - `Pass` / `TrackedPass` are one whole pass.
  - The `Downloader` class holds its four files.
  - It also holds the crash-safety lemmas.
- `Scenarios`: end-to-end runs worked out on concrete manifests.

The action of a pass is outside the model: creating a directory, or opening the
local file and downloading the object. It is the parameter `succeeds: nat ->
bool`, which says whether the action on the entry at a manifest position
succeeds in this run. A failed action stops the pass before its entry is
recorded, as an exception from `mkdir` / `download_fileobj` does.

The model follows the code as written, in particular where the code contradicts
itself:

- `update` writes the whole counter at the start of each log line
  (main.py:29), yet recovery reads back only the first character of the last
  line (main.py:20). See Findings.
- The code raises `IndexError` on an empty log file and `ValueError` on a
  non-digit. `records[-1][0]` would also raise `IndexError` on an empty last
  line; `readlines()` never returns one, so only the model's file abstraction,
  which may hold a "" line (not a whole line), reaches that case. The model keeps these as the three
  `RecoverError` cases. Tracker construction raises them even when the pass is
  about to restart, because `__init__` recovers before `clear` runs.

## Model

| member | source | states |
|---|---|---|
| Transfer.IsNotEdf | main.py:6-7 | true exactly when the name does not end with the four characters ".edf" |
| Progress.Tracker.Init | main.py:10-13 | a tracker before recovery holds the given log and name, with the cursor at the placeholder -1 |
| Progress.Tracker.Open | main.py:10-14 | construction succeeds exactly when recovery does, with the recovered cursor (never -1); otherwise it fails with recovery's error |
| Progress.Tracker.Recover | main.py:16-23 | no file gives cursor 0. Otherwise it sets the cursor to the value recovery computes, or reports its error and leaves the cursor unchanged |
| Progress.RecoveredCounter | main.py:16-23 | no file gives Ok(0). An existing log succeeds exactly when its last line exists and starts with a digit `d`, giving `d + 1`, always in 1..10. Otherwise the error names the failure: an empty log gives `NoLastLine` (IndexError), an empty last line `EmptyLastLine`, a non-digit `c` gives `NotADigit(c)` (ValueError) |
| Progress.IntendedCounter | main.py:20 | the corrected recovery: it succeeds in the same cases, and the cursor is one past the whole integer the last line starts with |
| Progress.Tracker.Update | main.py:25-30 | appends exactly the line for the old cursor (with ", msg" when there is a message), keeps every earlier line, and advances the cursor by one |
| Progress.Tracker.Clear | main.py:32-35 | leaves no log file and cursor 0, whether or not a file existed |
| Progress.ClearTwice | main.py:32-35 | clearing twice leaves the same state as clearing once |
| Progress.Tracker.GetStatus | main.py:37-38 | returns the cursor and changes nothing |
| Progress.LogLineNumber | main.py:28-29 | `LogLine`, the line `update` writes for cursor `c`, starts with the number `c` |
| Progress.LogLineIsLine | main.py:28-29 | the line `update` writes is a whole line, one final "\n" and no other line break, whenever its message has no line break |
| Progress.Render | main.py:25-30 | a run of updates writes one line per update |
| Progress.RenderWhole | main.py:25-30 | a run of updates whose messages have no line break writes only whole lines |
| Progress.RenderAt | main.py:25-30 | after a run of updates, line `k` is the line written for cursor `start + k` with the `k`-th note |
| Progress.RenderConcat | main.py:25-30 | two runs of updates, one after the other, write the lines of the first and then those of the second |
| Progress.RenderNumbered | main.py:25-30 | the lines of a run of updates are numbered contiguously from the first cursor |
| Progress.UpdateExtendsLog | main.py:25-30 | one more update after a run of updates extends the log by exactly the next line: the log only grows at its end |
| Progress.RecoveryReadsLeadingDigit | main.py:20 | after `k >= 1` updates from no file, recovery as written yields the leading decimal digit of `k - 1`, plus one |
| Progress.RecoveryAfterUpdates | main.py:16-30 | after `k <= 10` updates from no file, recovery as written yields exactly `k` |
| Progress.ElevenUpdatesRecoverToTwo | main.py:20 | after 11 updates from no file, recovery as written yields 2, not 11 |
| Progress.IntendedRecoveryAfterUpdates | main.py:20 | after any number `k` of updates from no file, the corrected recovery yields exactly `k` |
| LocalFiles.AppendLines | main.py:27-29 | appending keeps the existing lines in front and adds the new ones after them. A missing file comes into existence only when a line is written |
| LocalFiles.AppendLinesTwice | main.py:27-29 | two appends in a row leave the same file as one append of both |
| Text.NatToDecimal | main.py:29 | `str(n)` is a non-empty string of digits, one digit exactly when `n < 10`, with no leading zero |
| Text.DecimalRoundTrip | main.py:20 | `int(str(n)) == n` |
| Text.FirstCharOfDecimal | main.py:20 | the first character of `str(n)` is `n`'s most significant digit |
| Text.Strip | main.py:80 | `strip()` keeps at most the characters it was given, and what it keeps neither starts nor ends with white space |
| Text.StripKeepsMiddle | main.py:80 | `strip()` keeps a contiguous middle of its input and drops only white space before and after it; with `Strip`'s own contract this pins the result down |
| Text.Split | main.py:80 | the pieces joined by `sep` give back `s`. No piece contains `sep`, and there is more than one piece exactly when `s` contains `sep` |
| Listing.ManifestKey | main.py:80 | reading a key succeeds exactly when the stripped line contains ", ", and the key it reads never contains ", " |
| Listing.ManifestKeyRoundTrip | main.py:63 | a key that is non-empty, has no ", " and no trailing white space is read back from the line written for it, whatever its index |
| Listing.EmptyKeyLineIsMalformed | main.py:96 | reading the line written for an empty key raises IndexError |
| Listing.ManifestLineNumber | main.py:68 | `ManifestLine`, the line written for the `i`-th key of a kind, starts with its own index `i` |
| Listing.ManifestLineIsLine | main.py:63-68 | a manifest line is a whole line whenever its key has no line break |
| Listing.IsDirKey | main.py:60 | a key is a directory key exactly when its last character is "/" |
| Listing.ManifestFile | main.py:52-69 | a manifest file exists exactly when some key of its kind was listed, and has one line per such key |
| Listing.Select | main.py:60-69 | a manifest holds at most as many keys as were listed |
| Listing.PartitionContents | main.py:55-69 | the two manifests together hold exactly the listed keys, each as often as listed |
| Listing.PartitionCounts | main.py:55-69 | the dir count plus the file count is the number of listed keys |
| Listing.SelectMembership | main.py:60-69 | a key is in the dir manifest exactly when it is listed and ends with "/", and in the file manifest exactly when it is listed and does not |
| Listing.SelectFromPositions | main.py:57-69 | the `j`-th key of a manifest is the listed key at the `j`-th recorded position, and is of that manifest's kind |
| Listing.PositionsIncrease | main.py:57-69 | the recorded positions are in range and strictly increasing: each manifest keeps the listing order |
| Listing.PositionsComplete | main.py:57-69 | every listed key of a kind is recorded in that kind's manifest |
| Listing.ManifestContents | main.py:55-69 | a manifest has one line per key of its kind. Line `i` starts with `i`, its key reads back when well formed, and it is a whole line when its key has no line break |
| Listing.ManifestFileAppend | main.py:62-64 | one more key of a kind appends exactly its numbered line to that manifest |
| Listing.ListingStep | main.py:57-69 | listing one more key appends its line to the manifest of its kind, with the next index, and leaves the other manifest unchanged |
| Listing.ListManifests | main.py:120-137 | the listing loop leaves each manifest holding exactly the numbered lines of its kind's keys, in listing order, and no file for a kind with no keys |
| Transfer.Downloader.constructor | main.py:42-48 | a downloader starts with the given manifests and logs |
| Transfer.Downloader.DownloadFileList | main.py:51-69 | rebuilds both manifests from the listed keys, as `ListManifests` does |
| Transfer.Rejected | main.py:99-100 | with no filter nothing is rejected. With a filter, a key is rejected exactly when the filter returns false for it |
| Transfer.EdfFilterRejects | main.py:99-100 | with `is_not_edf` as the filter, a key is rejected exactly when it ends with ".edf" |
| Transfer.Run | main.py:95-108 | the loop from a cursor: it acts on no more entries than it records, and stops only at an unreadable line or a failed action. The lemmas below characterise it fully |
| Transfer.RunLength | main.py:79-83 | an uninterrupted loop from cursor `s` over `n` entries records exactly `max(n - s, 0)` lines. A loop that stops records the entries before the one it stops at, which is a real entry |
| Transfer.RunNoteAt | main.py:95-108 | the `k`-th recorded note is for entry `s + k`: "skip" when the filter rejects its key, else the key |
| Transfer.RunHalt | main.py:95-108 | a loop stops only at a line whose key cannot be read, or at an accepted entry whose action failed |
| Transfer.RunActedExactly | main.py:93-108 | the loop acts on an entry exactly when it gets through the entry and the filter accepts it. Entries before the cursor and rejected entries are never acted on |
| Transfer.RunActedInOrder | main.py:95-108 | each entry is acted on at most once, in manifest order, and only by an action that succeeded |
| Transfer.RunResume | main.py:86-108 | a loop that failed at `p`, followed by a loop from `p`, does what one uninterrupted loop does when the entries before `p` fare the same |
| Transfer.Resume | main.py:95-108 | the imperative loop over a tracker acts on the positions, and stops for the reason, the specification gives. It leaves the tracker's log extended by exactly the specification's lines, and its cursor advanced by their number |
| Transfer.TrackedPass | main.py:86-93 | opening the tracker, clearing it on restart, reading the manifest and running the loop give the result of `Pass` |
| Transfer.Downloader.Mkdirs | main.py:71-83 | `mkdirs` leaves the "mkdir" log, the directories created and the stop reason given by `Pass` over the dir manifest, with no filter |
| Transfer.Downloader.DownloadData | main.py:86-108 | `download_data` leaves the "download" log, the files fetched and the stop reason given by `Pass` over the file manifest, with the filter |
| Transfer.PassWith | main.py:71-93 | a pass given the outcome of recovery. A recovery error ends it at once with the log untouched and nothing done. Otherwise it keeps the log it starts from (no file after a restart) in front, and a missing manifest ends it with nothing done. It finishes only when recovery and the manifest are both there |
| Transfer.Pass | main.py:86-108 | a pass as written: a corrupt log stops it with the log untouched, even on restart. Without restart it only appends to the log. On restart the log is exactly the lines of a loop from entry 0 |
| Transfer.IntendedPass | main.py:86-108 | a pass with the corrected recovery: a corrupt log stops it with the log untouched. Without restart it only appends, and it acts on exactly the entries a loop from the recovered cursor (or 0 on restart) acts on |
| Transfer.PassAppends | main.py:71-83 | a pass only appends to the log it recovered from, or to no file after a restart. It adds one line per entry it gets through, numbered on from the cursor, and `max(n - s, 0)` of them when it runs to the end |
| Transfer.ResumeAfterFailure | main.py:86-108 | a fresh pass whose action fails at entry `p <= 10`, resumed by a second pass, leaves the same log, acts on the same entries and ends the same way as one uninterrupted pass. The recovered cursor is `p` |
| Transfer.IntendedResumeAfterFailure | main.py:20 | with the corrected recovery, the same crash safety holds for a failure at any entry |
| Transfer.ResumeAfterElevenRestartsAtTwo | main.py:20 | with recovery as written, after a failure at entry 11 the next pass restarts at entry 2. It repeats entries 2..10 and numbers its lines from 2 again |
| Scenarios.ListingScenario | main.py:55-69 | listing "a/", "x.edf", "b/", "y.csv" writes dir lines "0, a/", "1, b/" and file lines "0, x.edf", "1, y.csv" |
| Scenarios.MkdirsScenario | main.py:71-83 | `mkdirs` over "0, a/", "1, b/" from no log creates both directories and logs "0, a/", "1, b/" |
| Scenarios.CrashScenario | main.py:86-108 | a download pass over three files fails on the third. The next pass recovers cursor 2, downloads only that file, and leaves three log lines |
| Scenarios.EdfFilterScenario | main.py:86-108 | with `is_not_edf`, "x.edf" is logged as "skip" and not downloaded, "y.csv" is downloaded, and the log recovers to cursor 2 |

## Left out

- The S3 client is not modelled:
  - the boto3 resource and bucket;
  - the `objects.filter(Prefix="EEG/")` enumeration;
  - `download_fileobj`.

  The listing is the key sequence given to `ListManifests`. Each action is the
  outcome `succeeds(position)`.
- The filesystem is not modelled: paths, `mkdir(parents=True, exist_ok=True)`,
  `open(..., 'wb')`, `unlink` and `is_file`. Files are `Option<seq<string>>`
  values, and a `Tracker`'s path is its `log` field.
- A failed download can leave a truncated local file behind. The model does not
  record it.
- A crash in the middle of writing a log line is not modelled. Every append
  writes whole lines.
- `print` logging is output only and is left out.
- The `__main__` block, with its paths and access point, is left out.
- `Downloader`'s `arn`, `local_dir`, `s3` and `bdsp_bucket` fields are left out.
- Nothing is concurrent.
- Each manifest is read once, at the start of a pass, as the code does.
  Changes to a manifest during a pass are not modelled.
- Progress.RecoveredCounter: treats only '0'..'9' as digits. Python's `int` also
  accepts other Unicode decimal digits, such as Arabic-Indic ones. A log whose
  last line starts with one of these recovers in the source but fails with
  `NotADigit` here.
- Text.IsSpace: follows `str.isspace` on single code points. The model has no
  Unicode normalisation or encoding.
- LocalFiles.AppendLines: keeps the lines as written. `readlines()` reads a
  line with a "\n" or "\r" inside it as two lines. It also joins a line
  appended after a last line that lacks its final "\n". Neither case is
  modelled. The program's own lines are whole when keys and messages have no
  line break (`RenderWhole`, `ManifestLineIsLine`). An existing log that ends
  without "\n", from a torn write or an edit, is not modelled.
- Listing.ManifestContents: "one line per key" is the model's view. For a key
  with a "\n" or "\r" inside it, `readlines()` gives more than one line, and
  `mkdirs` / `download_data` then read the pieces as separate entries. That
  case is not modelled. The lemma states the line is whole only when the key
  has no line break.
- Text.Strip: its own contract gives only the shape of the result. That the
  result is the middle of the input, with only white space dropped at either
  end, is stated by the lemma `StripKeepsMiddle` instead, which keeps the
  proofs that unfold `Strip` within the verifier's resource limit.
- Transfer.ResumeAfterFailure: is stated only for a failure at `p <= 10`. With
  recovery as written, crash safety holds only there (see
  `ResumeAfterElevenRestartsAtTwo`).
- The outcome of an action is a function of the manifest position within one
  run. Outcomes that depend on time or on earlier attempts are expressed as a
  different `succeeds` for each run.

## Findings

| source | as written | input that shows it | evidently intended | confidence | as-written member | corrected member |
|---|---|---|---|---|---|---|
| main.py:20 | `int(records[-1][0]) + 1` parses only the first character of the last log line | a log of 11 lines written from no file: the last line starts "10", so recovery gives cursor 2 instead of 11, and the next pass repeats entries 2..10 | parse the whole leading integer of the last line, giving cursor `n + 1` | high; not executed | Progress.ElevenUpdatesRecoverToTwo | Progress.IntendedRecoveryAfterUpdates |

The `Tracker`, `Pass` and the `Downloader` follow the code as written.
`IntendedCounter` is the corrected recovery. `IntendedPass` runs a pass with it,
and `Transfer.IntendedResumeAfterFailure` proves crash safety for a failure at
any entry.
