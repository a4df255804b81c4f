/**
 * The resumable-transfer tracker: an integer cursor kept beside an append-only
 * progress log, one line per completed manifest entry, each line starting with
 * the entry's index and optionally followed by ", " and an annotation.
 */
module Progress {
  import opened Wrappers
  import opened Text
  import opened LocalFiles

  /** Why recovery from an existing log raises. */
  datatype RecoverError =
    | NoLastLine        // the log file is empty: `records[-1]` raises IndexError
    | EmptyLastLine     // the last line is "": `records[-1][0]` would raise IndexError; only
                        // a model file holding a "" line reaches this, since `readlines()`
                        // never returns an empty line
    | NotADigit(c: char) // `int(c)` raises ValueError

  /** The line `update(msg)` writes when the cursor is `counter`. */
  function LogLine(counter: nat, msg: Option<string>): (line: string)
  {
    NatToDecimal(counter) + (if msg.Some? then ", " + msg.value else "") + "\n"
  }

  /** A log line is a whole line unless its message holds a line break. */
  lemma LogLineIsLine(counter: nat, msg: Option<string>)
    requires msg.None? || NoLineBreak(msg.value)
    ensures IsLine(LogLine(counter, msg))
  {
    var body := NatToDecimal(counter) + (if msg.Some? then ", " + msg.value else "");
    assert NoLineBreak(body);
    assert LogLine(counter, msg) == body + "\n";
    LineOf(body);
  }

  /** A log line starts with the index it was written for. */
  lemma LogLineNumber(counter: nat, msg: Option<string>)
    ensures LeadingNumber(LogLine(counter, msg)) == Some(counter)
  {
    var rest := (if msg.Some? then ", " + msg.value else "") + "\n";
    assert LogLine(counter, msg) == NatToDecimal(counter) + rest;
    LeadingNumberOfDecimal(counter, rest);
  }

  /**
   * The cursor `recover` computes, as the code runs it: no file gives 0;
   * otherwise only the FIRST CHARACTER of the last line is parsed, plus one.
   */
  function RecoveredCounter(log: File): (r: Result<nat, RecoverError>)
    ensures log.None? ==> r == Ok(0)
    ensures r.Ok? <==> (log.None? || (|log.value| > 0 && |log.value[|log.value| - 1]| > 0
                                      && IsDigit(log.value[|log.value| - 1][0])))
    ensures log.Some? && r.Ok? ==> 1 <= r.value <= 10
    ensures log.Some? && r.Ok? ==> r.value == DigitValue(log.value[|log.value| - 1][0]) + 1
    ensures log.Some? && |log.value| == 0 ==> r == Err(NoLastLine)
    ensures log.Some? && |log.value| > 0 && |log.value[|log.value| - 1]| == 0 ==> r == Err(EmptyLastLine)
    ensures (log.Some? && |log.value| > 0 && |log.value[|log.value| - 1]| > 0
             && !IsDigit(log.value[|log.value| - 1][0]))
            ==> r == Err(NotADigit(log.value[|log.value| - 1][0]))
  {
    match log
    case None => Ok(0)
    case Some(records) =>
      if |records| == 0 then Err(NoLastLine)
      else
        var last := records[|records| - 1];
        if |last| == 0 then Err(EmptyLastLine)
        else if !IsDigit(last[0]) then Err(NotADigit(last[0]))
        else Ok(DigitValue(last[0]) + 1)
  }

  /**
   * The cursor recovery evidently means: one past the whole number `update`
   * wrote at the start of the last line.
   */
  function IntendedCounter(log: File): (r: Result<nat, RecoverError>)
    ensures log.None? ==> r == Ok(0)
    ensures r.Ok? <==> RecoveredCounter(log).Ok?
    ensures log.Some? && r.Ok? ==>
              Some(r.value - 1) == LeadingNumber(log.value[|log.value| - 1])
  {
    match log
    case None => Ok(0)
    case Some(records) =>
      if |records| == 0 then Err(NoLastLine)
      else
        var last := records[|records| - 1];
        if |last| == 0 then Err(EmptyLastLine)
        else match LeadingNumber(last)
          case None => Err(NotADigit(last[0]))
          case Some(n) => Ok(n + 1)
  }

  /** The lines written by updates with annotations `notes`, the first with cursor `start`. */
  function Render(start: nat, notes: seq<Option<string>>): (lines: seq<string>)
    decreases |notes|
    ensures |lines| == |notes|
  {
    if notes == [] then [] else [LogLine(start, notes[0])] + Render(start + 1, notes[1..])
  }

  /** Line `k` of a rendered run is the line written for cursor `start + k`. */
  lemma {:induction false} RenderAt(start: nat, notes: seq<Option<string>>, k: nat)
    requires k < |notes|
    ensures Render(start, notes)[k] == LogLine(start + k, notes[k])
    decreases |notes|
  {
    if k > 0 {
      RenderAt(start + 1, notes[1..], k - 1);
    }
  }

  /** Rendering two runs of updates one after the other. */
  lemma {:induction false} RenderConcat(start: nat, a: seq<Option<string>>, b: seq<Option<string>>)
    ensures Render(start, a + b) == Render(start, a) + Render(start + |a|, b)
    decreases |a|
  {
    if a == [] {
      assert a + b == b;
    } else {
      assert (a + b)[1..] == a[1..] + b;
      RenderConcat(start + 1, a[1..], b);
    }
  }

  /** Line `k` starts with the number `start + k`, for every `k`. */
  predicate NumberedFrom(lines: seq<string>, start: nat)
  {
    forall k :: 0 <= k < |lines| ==> LeadingNumber(lines[k]) == Some(start + k)
  }

  /** Rendered lines are numbered contiguously from the first cursor. */
  lemma RenderNumbered(start: nat, notes: seq<Option<string>>)
    ensures NumberedFrom(Render(start, notes), start)
  {
    forall k | 0 <= k < |notes| ensures LeadingNumber(Render(start, notes)[k]) == Some(start + k) {
      RenderAt(start, notes, k);
      LogLineNumber(start + k, notes[k]);
    }
  }

  /** A run of updates whose messages hold no line break writes only whole lines. */
  lemma RenderWhole(start: nat, notes: seq<Option<string>>)
    requires forall k :: 0 <= k < |notes| ==> notes[k].None? || NoLineBreak(notes[k].value)
    ensures forall k :: 0 <= k < |notes| ==> IsLine(Render(start, notes)[k])
  {
    forall k | 0 <= k < |notes| ensures IsLine(Render(start, notes)[k]) {
      RenderAt(start, notes, k);
      LogLineIsLine(start + k, notes[k]);
    }
  }

  /** The log a tracker leaves when it starts without a file and records `notes` in order. */
  function LogOf(notes: seq<Option<string>>): File
  {
    AppendLines(None, Render(0, notes))
  }

  /**
   * One more update after a run of updates from cursor `start` extends the
   * log by exactly the line for the next cursor: the log only ever grows at its end.
   */
  lemma UpdateExtendsLog(log0: File, start: nat, notes: seq<Option<string>>, msg: Option<string>)
    ensures AppendLines(AppendLines(log0, Render(start, notes)), [LogLine(start + |notes|, msg)])
            == AppendLines(log0, Render(start, notes + [msg]))
  {
    RenderConcat(start, notes, [msg]);
    assert Render(start + |notes|, [msg]) == [LogLine(start + |notes|, msg)];
    AppendLinesTwice(log0, Render(start, notes), [LogLine(start + |notes|, msg)]);
  }

  /**
   * After `k` updates from a fresh tracker, recovery as written reads the
   * leading digit of `k - 1`, so it yields that digit plus one.
   */
  lemma {:induction false} RecoveryReadsLeadingDigit(notes: seq<Option<string>>)
    requires |notes| >= 1
    ensures RecoveredCounter(LogOf(notes)) == Ok(LeadingDigit(|notes| - 1) + 1)
  {
    var k := |notes| - 1;
    var lines := Render(0, notes);
    RenderAt(0, notes, k);
    FirstCharOfDecimal(k);
    assert lines[k][0] == NatToDecimal(k)[0];
  }

  /** Recovery as written is right for a log of at most ten lines. */
  lemma {:induction false} RecoveryAfterUpdates(notes: seq<Option<string>>)
    requires |notes| <= 10
    ensures RecoveredCounter(LogOf(notes)) == Ok(|notes|)
  {
    if |notes| >= 1 {
      RecoveryReadsLeadingDigit(notes);
    }
  }

  /** Recovery as written goes wrong at eleven lines: the last line is "10...", read as 1. */
  lemma {:induction false} ElevenUpdatesRecoverToTwo(notes: seq<Option<string>>)
    requires |notes| == 11
    ensures RecoveredCounter(LogOf(notes)) == Ok(2)
  {
    RecoveryReadsLeadingDigit(notes);
  }

  /** The intended recovery is right for a log of any length. */
  lemma {:induction false} IntendedRecoveryAfterUpdates(notes: seq<Option<string>>)
    ensures IntendedCounter(LogOf(notes)) == Ok(|notes|)
  {
    if |notes| >= 1 {
      var k := |notes| - 1;
      RenderAt(0, notes, k);
      LogLineNumber(k, notes[k]);
    }
  }

  /**
   * The tracker as the source has it. `log` is the file at the tracker's path
   * (`None` when it does not exist), `counter` the cursor, `name` the label
   * used only in its messages.
   */
  class Tracker {
    var log: File
    var counter: int
    const name: string

    /** The cursor of a constructed tracker is never the placeholder -1. */
    ghost predicate Valid()
      reads this
    {
      counter >= 0
    }

    /** `__init__` before its call to `recover`: the cursor holds -1. */
    constructor Init(log: File, name: string)
      ensures this.log == log && this.name == name && counter == -1
    {
      this.log := log;
      this.name := name;
      counter := -1;
    }

    /** `Tracker(fp, name)`: construct, then recover; a raised error aborts construction. */
    static method Open(log: File, name: string) returns (r: Result<Tracker, RecoverError>)
      ensures r.Ok? <==> RecoveredCounter(log).Ok?
      ensures r.Err? ==> r.error == RecoveredCounter(log).error
      ensures r.Ok? ==> fresh(r.value) && r.value.Valid() && r.value.name == name
      ensures r.Ok? ==> r.value.log == log && r.value.counter == RecoveredCounter(log).value
    {
      var t := new Tracker.Init(log, name);
      var failure := t.Recover();
      if failure.Some? {
        return Err(failure.value);
      }
      return Ok(t);
    }

    /** `recover`: derive the cursor from the log, or raise. */
    method Recover() returns (failure: Option<RecoverError>)
      modifies this`counter
      ensures RecoveredCounter(log).Ok? ==> failure == None && counter == RecoveredCounter(log).value
      ensures RecoveredCounter(log).Err? ==>
                failure == Some(RecoveredCounter(log).error) && counter == old(counter)
    {
      if log.None? {
        counter := 0;
        return None;
      }
      var records := log.value;
      if |records| == 0 {
        return Some(NoLastLine);
      }
      var last := records[|records| - 1];
      if |last| == 0 {
        return Some(EmptyLastLine);
      }
      if !IsDigit(last[0]) {
        return Some(NotADigit(last[0]));
      }
      counter := DigitValue(last[0]) + 1;
      return None;
    }

    /** `update(msg)`: append one line for the current cursor, then advance it. */
    method Update(msg: Option<string>)
      requires Valid()
      modifies this`log, this`counter
      ensures Valid()
      ensures log == AppendLines(old(log), [LogLine(old(counter), msg)])
      ensures counter == old(counter) + 1
    {
      log := AppendLines(log, [LogLine(counter, msg)]);
      counter := counter + 1;
    }

    /** `clear`: delete the log (a missing one is fine) and reset the cursor. */
    method Clear()
      modifies this`log, this`counter
      ensures Valid()
      ensures log == None && counter == 0
    {
      log := None;
      counter := 0;
    }

    /** `get_status`: the cursor, with nothing changed. */
    method GetStatus() returns (status: int)
      ensures status == counter
    {
      status := counter;
    }
  }

  /** Clearing twice leaves the tracker as clearing once does. */
  method ClearTwice(t: Tracker)
    modifies t
    ensures t.log == None && t.counter == 0
  {
    t.Clear();
    t.Clear();
  }
}
