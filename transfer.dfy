/**
 * The resumable passes over a manifest: `mkdirs` over the dir manifest and
 * `download_data` over the file manifest. Each opens its own tracker, may
 * clear it, skips the entries before the tracker's cursor and, for each
 * remaining entry, either records "skip" (rejected by the filter) or performs
 * its action and records the key. A failing action stops the pass before its
 * entry is recorded.
 *
 * The action (creating a directory, downloading an object) is external; its
 * outcome is the parameter `succeeds`, which says whether the action on the
 * entry at a given manifest position succeeds in this run.
 */
module Transfer {
  import opened Wrappers
  import opened Text
  import opened LocalFiles
  import opened Progress
  import opened Listing

  /** Why a pass stops before the end of its manifest. */
  datatype Halt =
    | Unrecoverable(error: RecoverError) // constructing the tracker raised
    | NoManifest                         // the manifest file does not exist
    | MalformedLine(pos: nat)            // reading the key of this entry raised IndexError
    | ActionFailed(pos: nat)             // the action on this entry raised

  /**
   * What the loop does from manifest position `i` on: the annotations it
   * records, in order; the positions it acted on; and why it stopped, if it did.
   */
  datatype Trace = Trace(notes: seq<Option<string>>, acted: seq<nat>, halt: Option<Halt>)

  /** The steps of `front` followed by those of `back`. */
  function Then(front: Trace, back: Trace): Trace
  {
    Trace(front.notes + back.notes, front.acted + back.acted, back.halt)
  }

  /** `filter is not None and not filter(key)`. */
  predicate Rejected(filter: Option<string -> bool>, key: string)
    ensures filter.None? ==> !Rejected(filter, key)
    ensures filter.Some? ==> (Rejected(filter, key) <==> !filter.value(key))
  {
    filter.Some? && !filter.value(key)
  }

  /** `is_not_edf`: the download filter the program runs with. */
  function IsNotEdf(fileName: string): (r: bool)
    ensures r <==> !(|fileName| >= 4 && fileName[|fileName| - 4] == '.' && fileName[|fileName| - 3] == 'e'
                     && fileName[|fileName| - 2] == 'd' && fileName[|fileName| - 1] == 'f')
  {
    !EndsWith(fileName, ".edf")
  }

  /** With `is_not_edf` as the filter, exactly the ".edf" names are skipped. */
  lemma EdfFilterRejects(key: string)
    ensures Rejected(Some(IsNotEdf), key) <==> EndsWith(key, ".edf")
  {
  }

  /** The annotation the loop records for an entry it gets through. */
  function Note(filter: Option<string -> bool>, key: string): string
  {
    if Rejected(filter, key) then "skip" else key
  }

  /** What `readKey` gives for each line, in manifest order. */
  function ParseEach(readKey: string -> Option<string>, lines: seq<string>): (keys: seq<Option<string>>)
    ensures |keys| == |lines|
  {
    seq(|lines|, j requires 0 <= j < |lines| => readKey(lines[j]))
  }

  /**
   * The key the loop reads from each manifest line, `line.strip().split(', ')[1]`;
   * `None` where that raises.
   */
  function Keys(lines: seq<string>): seq<Option<string>>
  {
    ParseEach(ManifestKey, lines)
  }

  /** The loop body, entry by entry, from manifest position `i`. */
  function Run(keys: seq<Option<string>>, i: nat, filter: Option<string -> bool>, succeeds: nat -> bool): (t: Trace)
    decreases |keys| - i
    ensures |t.acted| <= |t.notes|
    ensures t.halt.Some? ==> t.halt.value.MalformedLine? || t.halt.value.ActionFailed?
  {
    if i >= |keys| then Trace([], [], None)
    else match keys[i]
      case None => Trace([], [], Some(MalformedLine(i)))
      case Some(key) =>
        if Rejected(filter, key) then
          Then(Trace([Some("skip")], [], None), Run(keys, i + 1, filter, succeeds))
        else if succeeds(i) then
          Then(Trace([Some(key)], [i], None), Run(keys, i + 1, filter, succeeds))
        else
          Trace([], [], Some(ActionFailed(i)))
  }

  /** One entry the loop gets through: it records its note and goes on with the next entry. */
  lemma RunStep(keys: seq<Option<string>>, i: nat, filter: Option<string -> bool>, succeeds: nat -> bool)
    requires i < |keys| && keys[i].Some?
    requires Rejected(filter, keys[i].value) || succeeds(i)
    ensures Run(keys, i, filter, succeeds)
            == Then(Trace([Some(Note(filter, keys[i].value))], if Rejected(filter, keys[i].value) then [] else [i], None),
                    Run(keys, i + 1, filter, succeeds))
  {
  }

  /** Steps taken one after another compose. */
  lemma ThenThen(done: Trace, step: Trace, rest: Trace)
    requires done.halt.None? && step.halt.None?
    ensures Then(done, Then(step, rest))
            == Then(Trace(done.notes + step.notes, done.acted + step.acted, None), rest)
  {
    assert done.notes + (step.notes + rest.notes) == done.notes + step.notes + rest.notes;
    assert done.acted + (step.acted + rest.acted) == done.acted + step.acted + rest.acted;
  }

  /** Nothing after the steps taken so far. */
  lemma ThenStop(done: Trace, halt: Option<Halt>)
    ensures Then(done, Trace([], [], halt)) == Trace(done.notes, done.acted, halt)
  {
    assert done.notes + [] == done.notes;
    assert done.acted + [] == done.acted;
  }

  /** Nothing before the steps that follow. */
  lemma NothingThen(rest: Trace)
    ensures Then(Trace([], [], None), rest) == rest
  {
  }

  /**
   * A pass records one line per entry it gets through: all remaining
   * `max(n - i, 0)` when it finishes, and exactly those before the entry it
   * stops at otherwise.
   */
  lemma {:induction false} RunLength(keys: seq<Option<string>>, i: nat, filter: Option<string -> bool>, succeeds: nat -> bool)
    ensures var t := Run(keys, i, filter, succeeds);
      && (t.halt.None? ==> |t.notes| == if i <= |keys| then |keys| - i else 0)
      && (t.halt.Some? ==> (t.halt.value.MalformedLine? || t.halt.value.ActionFailed?)
                           && i + |t.notes| == t.halt.value.pos < |keys|)
    decreases |keys| - i
  {
    if i < |keys| && keys[i].Some? {
      RunLength(keys, i + 1, filter, succeeds);
    }
  }

  /** The `k`-th line a pass records is for entry `i + k`: "skip" if rejected, else its key. */
  lemma {:induction false} RunNoteAt(keys: seq<Option<string>>, i: nat, filter: Option<string -> bool>, succeeds: nat -> bool, k: nat)
    requires k < |Run(keys, i, filter, succeeds).notes|
    ensures i + k < |keys| && keys[i + k].Some?
    ensures Run(keys, i, filter, succeeds).notes[k] == Some(Note(filter, keys[i + k].value))
    decreases |keys| - i
  {
    assert i < |keys|;
    var parsed := keys[i];
    assert parsed.Some?;
    var key := parsed.value;
    var rest := Run(keys, i + 1, filter, succeeds);
    var note := Some(Note(filter, key));
    assert Run(keys, i, filter, succeeds).notes == [note] + rest.notes;
    if k > 0 {
      RunNoteAt(keys, i + 1, filter, succeeds, k - 1);
    }
  }

  /** The entry a pass stops at: a line that cannot be read, or an accepted entry whose action failed. */
  lemma {:induction false} RunHalt(keys: seq<Option<string>>, i: nat, filter: Option<string -> bool>, succeeds: nat -> bool)
    ensures var t := Run(keys, i, filter, succeeds);
      && (t.halt.Some? && t.halt.value.MalformedLine? ==>
            t.halt.value.pos < |keys| && keys[t.halt.value.pos].None?)
      && (t.halt.Some? && t.halt.value.ActionFailed? ==>
            var p := t.halt.value.pos;
            p < |keys| && keys[p].Some? && !Rejected(filter, keys[p].value) && !succeeds(p))
    decreases |keys| - i
  {
    RunLength(keys, i, filter, succeeds);
    if i < |keys| && keys[i].Some? {
      RunHalt(keys, i + 1, filter, succeeds);
    }
  }

  /**
   * A pass acts on an entry exactly when it gets through the entry and the
   * filter accepts it; in particular entries before the cursor are never acted on.
   */
  lemma {:induction false} RunActedExactly(keys: seq<Option<string>>, i: nat, filter: Option<string -> bool>, succeeds: nat -> bool)
    ensures var t := Run(keys, i, filter, succeeds);
      forall p :: p in t.acted <==>
        i <= p < i + |t.notes| && p < |keys| && keys[p].Some? && !Rejected(filter, keys[p].value)
    decreases |keys| - i
  {
    RunLength(keys, i, filter, succeeds);
    if i < |keys| && keys[i].Some? && (Rejected(filter, keys[i].value) || succeeds(i)) {
      RunStep(keys, i, filter, succeeds);
      RunActedExactly(keys, i + 1, filter, succeeds);
    }
  }

  /** Each entry is acted on at most once, in manifest order, and only by an action that succeeded. */
  lemma {:induction false} RunActedInOrder(keys: seq<Option<string>>, i: nat, filter: Option<string -> bool>, succeeds: nat -> bool)
    ensures var t := Run(keys, i, filter, succeeds);
      && (forall p :: p in t.acted ==> i <= p && succeeds(p))
      && (forall a, b :: 0 <= a < b < |t.acted| ==> t.acted[a] < t.acted[b])
    decreases |keys| - i
  {
    if i < |keys| && keys[i].Some? && (Rejected(filter, keys[i].value) || succeeds(i)) {
      RunStep(keys, i, filter, succeeds);
      RunActedInOrder(keys, i + 1, filter, succeeds);
      var t, rest := Run(keys, i, filter, succeeds), Run(keys, i + 1, filter, succeeds);
      if !Rejected(filter, keys[i].value) {
        assert t.acted == [i] + rest.acted;
        forall a, b | 0 <= a < b < |t.acted| ensures t.acted[a] < t.acted[b] {
          assert t.acted[b] == rest.acted[b - 1] && rest.acted[b - 1] in rest.acted;
          if a > 0 {
            assert t.acted[a] == rest.acted[a - 1];
          }
        }
      }
    }
  }

  /**
   * Resuming after a failed action: the run that failed at `p`, followed by a
   * run from `p` with new outcomes, does what one uninterrupted run with the
   * new outcomes does, provided the entries before `p` fare the same.
   */
  lemma {:induction false} RunResume(keys: seq<Option<string>>, i: nat, filter: Option<string -> bool>, first: nat -> bool, again: nat -> bool, p: nat)
    requires Run(keys, i, filter, first).halt == Some(ActionFailed(p))
    requires forall q :: i <= q < p ==> again(q) == first(q)
    ensures var t := Run(keys, i, filter, first);
      Run(keys, i, filter, again) == Then(Trace(t.notes, t.acted, None), Run(keys, p, filter, again))
    decreases |keys| - i
  {
    RunLength(keys, i, filter, first);
    if i < p {
      var key := keys[i].value;
      RunStep(keys, i, filter, first);
      RunStep(keys, i, filter, again);
      RunResume(keys, i + 1, filter, first, again, p);
      var t1 := Run(keys, i + 1, filter, first);
      ThenThen(Trace([Some(Note(filter, key))], if Rejected(filter, key) then [] else [i], None),
               Trace(t1.notes, t1.acted, None), Run(keys, p, filter, again));
    } else {
      NothingThen(Run(keys, p, filter, again));
    }
  }

  /** The state a pass leaves: the log file, the positions acted on, and why it stopped. */
  datatype PassResult = PassResult(log: File, acted: seq<nat>, halt: Option<Halt>)

  /**
   * One whole pass, from the log file and the manifest file, given the
   * outcome `recovered` of the tracker's recovery from `log`: construction
   * raises on a corrupt log (even when restarting), the tracker is cleared if
   * `restart`, reading the manifest raises when it is missing, and the loop
   * runs from the cursor.
   */
  function PassWith(recovered: Result<nat, RecoverError>, log: File, manifest: File, restart: bool,
                    filter: Option<string -> bool>, succeeds: nat -> bool): (r: PassResult)
    ensures recovered.Err? ==> r == PassResult(log, [], Some(Unrecoverable(recovered.error)))
    ensures recovered.Ok? ==> Lines(if restart then None else log) <= Lines(r.log)
    ensures recovered.Ok? && manifest.None? ==> r.acted == [] && r.halt == Some(NoManifest)
    ensures r.halt.None? ==> recovered.Ok? && manifest.Some?
  {
    match recovered
    case Err(e) => PassResult(log, [], Some(Unrecoverable(e)))
    case Ok(c) =>
      var base := if restart then None else log;
      var start := if restart then 0 else c;
      if manifest.None? then PassResult(base, [], Some(NoManifest))
      else
        var t := Run(Keys(manifest.value), start, filter, succeeds);
        PassResult(AppendLines(base, Render(start, t.notes)), t.acted, t.halt)
  }

  /** A pass as the source runs it: recovery parses the first character of the last log line. */
  function Pass(log: File, manifest: File, restart: bool, filter: Option<string -> bool>, succeeds: nat -> bool): (r: PassResult)
    ensures RecoveredCounter(log).Err? ==> r.log == log && r.acted == [] && r.halt.Some? && r.halt.value.Unrecoverable?
    ensures !restart ==> Lines(log) <= Lines(r.log)
    ensures restart && RecoveredCounter(log).Ok? && manifest.Some? ==>
              r.log == AppendLines(None, Render(0, Run(Keys(manifest.value), 0, filter, succeeds).notes))
  {
    PassWith(RecoveredCounter(log), log, manifest, restart, filter, succeeds)
  }

  /** A pass with the intended recovery, which parses the whole leading number. */
  function IntendedPass(log: File, manifest: File, restart: bool, filter: Option<string -> bool>, succeeds: nat -> bool): (r: PassResult)
    ensures IntendedCounter(log).Err? ==> r.log == log && r.acted == [] && r.halt.Some? && r.halt.value.Unrecoverable?
    ensures !restart ==> Lines(log) <= Lines(r.log)
    ensures IntendedCounter(log).Ok? && manifest.Some? ==>
              var s := if restart then 0 else IntendedCounter(log).value;
              r.acted == Run(Keys(manifest.value), s, filter, succeeds).acted
  {
    PassWith(IntendedCounter(log), log, manifest, restart, filter, succeeds)
  }

  /**
   * A pass only ever appends to the log it recovered from (or to nothing,
   * after a restart): one line per entry it gets through, numbered on from the
   * cursor, `max(n - s, 0)` of them when it runs to the end.
   */
  lemma PassAppends(log: File, lines: seq<string>, restart: bool, filter: Option<string -> bool>, succeeds: nat -> bool)
    requires RecoveredCounter(log).Ok?
    ensures var s := if restart then 0 else RecoveredCounter(log).value;
      var base := if restart then None else log;
      var r := Pass(log, Some(lines), restart, filter, succeeds);
      var added := Render(s, Run(Keys(lines), s, filter, succeeds).notes);
      && Lines(r.log) == Lines(base) + added
      && (r.halt.None? ==> |added| == if s <= |lines| then |lines| - s else 0)
      && NumberedFrom(added, s)
  {
    var s := if restart then 0 else RecoveredCounter(log).value;
    var base := if restart then None else log;
    var t := Run(Keys(lines), s, filter, succeeds);
    assert Pass(log, Some(lines), restart, filter, succeeds).log == AppendLines(base, Render(s, t.notes));
    RunLength(Keys(lines), s, filter, succeeds);
    RenderNumbered(s, t.notes);
  }

  /**
   * Crash safety: a fresh pass whose action fails at entry `p <= 10`, resumed
   * by a second pass, leaves the same log and acts on the same entries as one
   * uninterrupted pass; the first entry the second pass tries is `p`.
   */
  lemma ResumeAfterFailure(lines: seq<string>, filter: Option<string -> bool>, first: nat -> bool, again: nat -> bool, p: nat)
    requires Pass(None, Some(lines), false, filter, first).halt == Some(ActionFailed(p))
    requires p <= 10
    requires forall q :: 0 <= q < p ==> again(q) == first(q)
    ensures var r1 := Pass(None, Some(lines), false, filter, first);
      var r2 := Pass(r1.log, Some(lines), false, filter, again);
      var whole := Pass(None, Some(lines), false, filter, again);
      && RecoveredCounter(r1.log) == Ok(p)
      && r2.log == whole.log && r1.acted + r2.acted == whole.acted && r2.halt == whole.halt
  {
    var t1 := Run(Keys(lines), 0, filter, first);
    RunLength(Keys(lines), 0, filter, first);
    assert |t1.notes| == p;
    RecoveryAfterUpdates(t1.notes);
    RunResume(Keys(lines), 0, filter, first, again, p);
    var t2 := Run(Keys(lines), p, filter, again);
    RenderConcat(0, t1.notes, t2.notes);
    AppendLinesTwice(None, Render(0, t1.notes), Render(p, t2.notes));
  }

  /**
   * Crash safety with the intended recovery, for a failure at any entry: the
   * interrupted pass and its resumption together do what one uninterrupted
   * pass does.
   */
  lemma IntendedResumeAfterFailure(lines: seq<string>, filter: Option<string -> bool>, first: nat -> bool, again: nat -> bool, p: nat)
    requires IntendedPass(None, Some(lines), false, filter, first).halt == Some(ActionFailed(p))
    requires forall q :: 0 <= q < p ==> again(q) == first(q)
    ensures var r1 := IntendedPass(None, Some(lines), false, filter, first);
      var r2 := IntendedPass(r1.log, Some(lines), false, filter, again);
      var whole := IntendedPass(None, Some(lines), false, filter, again);
      && IntendedCounter(r1.log) == Ok(p)
      && r2.log == whole.log && r1.acted + r2.acted == whole.acted && r2.halt == whole.halt
  {
    var t1 := Run(Keys(lines), 0, filter, first);
    RunLength(Keys(lines), 0, filter, first);
    assert |t1.notes| == p;
    IntendedRecoveryAfterUpdates(t1.notes);
    RunResume(Keys(lines), 0, filter, first, again, p);
    var t2 := Run(Keys(lines), p, filter, again);
    RenderConcat(0, t1.notes, t2.notes);
    AppendLinesTwice(None, Render(0, t1.notes), Render(p, t2.notes));
  }

  /**
   * The same resumption with the source's recovery after eleven recorded
   * entries: the second pass restarts at entry 2 instead of 11, repeating
   * nine entries and numbering its lines from 2 again.
   */
  lemma ResumeAfterElevenRestartsAtTwo(lines: seq<string>, filter: Option<string -> bool>, first: nat -> bool, again: nat -> bool)
    requires Pass(None, Some(lines), false, filter, first).halt == Some(ActionFailed(11))
    ensures var r1 := Pass(None, Some(lines), false, filter, first);
      var t := Run(Keys(lines), 2, filter, again);
      Pass(r1.log, Some(lines), false, filter, again)
        == PassResult(AppendLines(r1.log, Render(2, t.notes)), t.acted, t.halt)
  {
    var t1 := Run(Keys(lines), 0, filter, first);
    RunLength(Keys(lines), 0, filter, first);
    ElevenUpdatesRecoverToTwo(t1.notes);
  }

  /** Appending no line leaves the file as it was. */
  lemma AppendNothing(f: File)
    ensures AppendLines(f, []) == f
  {
    if f.Some? {
      assert f.value + [] == f.value;
    }
  }

  /**
   * The loop gets through one more entry, `key` at position `i`: the trace so
   * far grows by its note (and by `i` when it is acted on), the log by its line.
   */
  lemma Advance(keys: seq<Option<string>>, start: nat, i: nat, notes: seq<Option<string>>, acted: seq<nat>,
                filter: Option<string -> bool>, succeeds: nat -> bool, log0: File,
                key: string, note: Option<string>, step: seq<nat>)
    requires i == start + |notes| && i < |keys| && keys[i] == Some(key)
    requires Rejected(filter, key) || succeeds(i)
    requires note == Some(Note(filter, key)) && step == if Rejected(filter, key) then [] else [i]
    requires Run(keys, start, filter, succeeds) == Then(Trace(notes, acted, None), Run(keys, i, filter, succeeds))
    ensures Run(keys, start, filter, succeeds)
            == Then(Trace(notes + [note], acted + step, None), Run(keys, i + 1, filter, succeeds))
    ensures AppendLines(AppendLines(log0, Render(start, notes)), [LogLine(i, note)])
            == AppendLines(log0, Render(start, notes + [note]))
  {
    RunStep(keys, i, filter, succeeds);
    ThenThen(Trace(notes, acted, None), Trace([note], step, None), Run(keys, i + 1, filter, succeeds));
    UpdateExtendsLog(log0, start, notes, note);
  }

  /**
   * The loop of `mkdirs` / `download_data` over an open tracker: from the
   * tracker's cursor on, read each entry's key with `readKey`, record "skip"
   * for a rejected key, otherwise act and record the key. The two passes read
   * keys with `ManifestKey`.
   */
  method Resume(tracker: Tracker, lines: seq<string>, readKey: string -> Option<string>,
                filter: Option<string -> bool>, succeeds: nat -> bool)
    returns (acted: seq<nat>, halt: Option<Halt>)
    requires tracker.Valid()
    modifies tracker
    ensures tracker.Valid()
    ensures var t := Run(ParseEach(readKey, lines), old(tracker.counter), filter, succeeds);
      && acted == t.acted && halt == t.halt
      && tracker.log == AppendLines(old(tracker.log), Render(old(tracker.counter), t.notes))
      && tracker.counter == old(tracker.counter) + |t.notes|
  {
    var i := tracker.GetStatus();
    ghost var start, keys, log0 := i, ParseEach(readKey, lines), tracker.log;
    ghost var notes: seq<Option<string>> := [];
    acted, halt := [], None;
    AppendNothing(log0);
    NothingThen(Run(keys, start, filter, succeeds));
    while i < |lines|
      invariant start <= i && tracker.Valid() && tracker.counter == i && |notes| == i - start
      invariant tracker.log == AppendLines(log0, Render(start, notes))
      invariant Run(keys, start, filter, succeeds)
                == Then(Trace(notes, acted, None), Run(keys, i, filter, succeeds))
      decreases |lines| - i
    {
      var key := readKey(lines[i]);
      if key.None? {
        halt := Some(MalformedLine(i));
        break;
      }
      var rejected := Rejected(filter, key.value);
      if !rejected && !succeeds(i) {
        halt := Some(ActionFailed(i));
        break;
      }
      var note := Some(Note(filter, key.value));
      var step := if rejected then [] else [i];
      Advance(keys, start, i, notes, acted, filter, succeeds, log0, key.value, note, step);
      tracker.Update(note);
      acted := acted + step;
      notes := notes + [note];
      i := i + 1;
    }
    ThenStop(Trace(notes, acted, None), halt);
  }

  /** One whole pass of `mkdirs` or `download_data`, with its own tracker. */
  method TrackedPass(log: File, manifest: File, name: string, restart: bool,
                     filter: Option<string -> bool>, succeeds: nat -> bool)
    returns (log': File, acted: seq<nat>, halt: Option<Halt>)
    ensures PassResult(log', acted, halt) == Pass(log, manifest, restart, filter, succeeds)
  {
    var recovered := Tracker.Open(log, name);
    if recovered.Err? {
      return log, [], Some(Unrecoverable(recovered.error));
    }
    var tracker := recovered.value;
    if restart {
      tracker.Clear();
    }
    if manifest.None? {
      return tracker.log, [], Some(NoManifest);
    }
    acted, halt := Resume(tracker, manifest.value, ManifestKey, filter, succeeds);
    log' := tracker.log;
  }

  /**
   * The downloader's view of its local directory: the two manifests and the
   * two progress logs (`None` for a file that does not exist).
   */
  class Downloader {
    var dirList: File
    var fileList: File
    var mkdirLog: File
    var downloadLog: File

    constructor (dirList: File, fileList: File, mkdirLog: File, downloadLog: File)
      ensures this.dirList == dirList && this.fileList == fileList
      ensures this.mkdirLog == mkdirLog && this.downloadLog == downloadLog
    {
      this.dirList := dirList;
      this.fileList := fileList;
      this.mkdirLog := mkdirLog;
      this.downloadLog := downloadLog;
    }

    /** `download_file_list`: rebuild both manifests from the listed keys. */
    method DownloadFileList(keys: seq<string>)
      modifies this`dirList, this`fileList
      ensures dirList == ManifestFile(Select(keys, true))
      ensures fileList == ManifestFile(Select(keys, false))
    {
      dirList, fileList := ListManifests(keys);
    }

    /** `mkdirs(restart)`: create the listed directories, resuming from the "mkdir" log. */
    method Mkdirs(restart: bool, succeeds: nat -> bool) returns (created: seq<nat>, halt: Option<Halt>)
      modifies this`mkdirLog
      ensures var r := Pass(old(mkdirLog), dirList, restart, None, succeeds);
        mkdirLog == r.log && created == r.acted && halt == r.halt
    {
      mkdirLog, created, halt := TrackedPass(mkdirLog, dirList, "mkdir", restart, None, succeeds);
    }

    /** `download_data(filter, restart)`: fetch the listed files, resuming from the "download" log. */
    method DownloadData(filter: Option<string -> bool>, restart: bool, succeeds: nat -> bool)
      returns (downloaded: seq<nat>, halt: Option<Halt>)
      modifies this`downloadLog
      ensures var r := Pass(old(downloadLog), fileList, restart, filter, succeeds);
        downloadLog == r.log && downloaded == r.acted && halt == r.halt
    {
      downloadLog, downloaded, halt := TrackedPass(downloadLog, fileList, "download", restart, filter, succeeds);
    }
  }
}
