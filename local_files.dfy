/**
 * A text file on the local disk, seen as the list of lines written to it, in
 * order (each with its trailing "\n"), or `None` when there is no file. This is
 * the list `readlines()` returns as long as every line written is a whole line
 * (`IsLine`): text mode splits at every "\n" and "\r", wherever they occur.
 */
module LocalFiles {
  import opened Wrappers

  type File = Option<seq<string>>

  /** The lines of a file; a missing file reads as no lines. */
  function Lines(f: File): (ls: seq<string>)
    ensures f.None? ==> ls == []
  {
    if f.Some? then f.value else []
  }

  /** Text with no line break that text-mode reading would split at. */
  predicate NoLineBreak(s: string)
  {
    forall k :: 0 <= k < |s| ==> s[k] != '\n' && s[k] != '\r'
  }

  /** A whole line: one final "\n" and no other line break, so `readlines()` gives it back as it is. */
  predicate IsLine(s: string)
  {
    |s| > 0 && s[|s| - 1] == '\n' && NoLineBreak(s[..|s| - 1])
  }

  /** Text without line breaks followed by "\n" is a whole line. */
  lemma LineOf(body: string)
    ensures NoLineBreak(body) ==> IsLine(body + "\n")
  {
    assert (body + "\n")[..|body|] == body;
  }

  /**
   * Opening a file in append mode and writing `more`: a missing file is created
   * (only once something is written), existing lines are kept in front.
   */
  function AppendLines(f: File, more: seq<string>): (g: File)
    ensures g.Some? <==> (f.Some? || more != [])
    ensures Lines(g) == Lines(f) + more
  {
    if f.None? && more == [] then None else Some(Lines(f) + more)
  }

  /** Two appends in a row leave the same file as one append of both. */
  lemma AppendLinesTwice(f: File, a: seq<string>, b: seq<string>)
    ensures AppendLines(AppendLines(f, a), b) == AppendLines(f, a + b)
  {
    assert Lines(f) + a + b == Lines(f) + (a + b);
  }
}
