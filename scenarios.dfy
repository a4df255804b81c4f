/**
 * End-to-end runs worked out on concrete manifests: listing,
 * creating two directories, resuming a download pass after a failure, and the
 * ".edf" filter.
 */
module Scenarios {
  import opened Wrappers
  import opened Text
  import opened LocalFiles
  import opened Progress
  import opened Listing
  import opened Transfer

  /** A non-empty key with no comma and no trailing white space survives the manifest format. */
  lemma CommaFree(key: string)
    requires |key| > 0 && !IsSpace(key[|key| - 1])
    requires forall j :: 0 <= j < |key| ==> key[j] != ','
    ensures WellFormedKey(key)
  {
    forall j | 0 <= j <= |key| - 2 ensures !IsAt(key, ", ", j) {
      assert key[j..j + 2][0] == key[j];
    }
  }

  /** Such a key is read back from its manifest line. */
  lemma ReadsBack(i: nat, key: string, line: string)
    requires |key| > 0 && !IsSpace(key[|key| - 1])
    requires forall j :: 0 <= j < |key| ==> key[j] != ','
    requires line == ManifestLine(i, key)
    ensures ManifestKey(line) == Some(key)
  {
    CommaFree(key);
    ManifestKeyRoundTrip(i, key);
  }

  /** Writing lines to a file that does not exist creates it with those lines. */
  lemma FileOf(lines: seq<string>)
    requires lines != []
    ensures AppendLines(None, lines) == Some(lines)
  {
    assert [] + lines == lines;
  }

  /** `ParseEach` on two lines, element by element. */
  lemma ParseTwo(readKey: string -> Option<string>, l0: string, l1: string)
    ensures ParseEach(readKey, [l0, l1]) == [readKey(l0), readKey(l1)]
  {
  }

  /** `ParseEach` on three lines, element by element. */
  lemma ParseThree(readKey: string -> Option<string>, l0: string, l1: string, l2: string)
    ensures ParseEach(readKey, [l0, l1, l2]) == [readKey(l0), readKey(l1), readKey(l2)]
  {
  }

  /** Line `line`, written as `ManifestLine(i, key)`, reads back as `key`. */
  lemma KeyLine(i: nat, key: string, line: string)
    requires |key| > 0 && !IsSpace(key[|key| - 1])
    requires forall j :: 0 <= j < |key| ==> key[j] != ','
    requires i < 10 && line == [DigitChar(i)] + ", " + key + "\n"
    ensures ManifestKey(line) == Some(key)
  {
    ReadsBack(i, key, line);
  }

  // The concrete manifest lines below read back as their keys.
  lemma KeyA() ensures ManifestKey("0, a/\n") == Some("a/") { KeyLine(0, "a/", "0, a/\n"); }
  lemma KeyB() ensures ManifestKey("1, b/\n") == Some("b/") { KeyLine(1, "b/", "1, b/\n"); }
  lemma KeyF() ensures ManifestKey("0, f\n") == Some("f") { KeyLine(0, "f", "0, f\n"); }
  lemma KeyG() ensures ManifestKey("1, g\n") == Some("g") { KeyLine(1, "g", "1, g\n"); }
  lemma KeyH() ensures ManifestKey("2, h\n") == Some("h") { KeyLine(2, "h", "2, h\n"); }
  lemma KeyX() ensures ManifestKey("0, x.edf\n") == Some("x.edf") { KeyLine(0, "x.edf", "0, x.edf\n"); }
  lemma KeyY() ensures ManifestKey("1, y.csv\n") == Some("y.csv") { KeyLine(1, "y.csv", "1, y.csv\n"); }

  /** The listing keeps each kind in order. */
  lemma SelectScenario()
    ensures Select(["a/", "x.edf", "b/", "y.csv"], true) == ["a/", "b/"]
    ensures Select(["a/", "x.edf", "b/", "y.csv"], false) == ["x.edf", "y.csv"]
  {
    var k4 := ["a/", "x.edf", "b/", "y.csv"];
    var k3, k2, k1 := k4[..3], k4[..2], k4[..1];
    assert IsDirKey("a/") && !IsDirKey("x.edf") && IsDirKey("b/") && !IsDirKey("y.csv");
    assert k1[..0] == [] && k2[..1] == k1 && k3[..2] == k2;
    assert Select(k1, true) == ["a/"] && Select(k1, false) == [];
    assert Select(k2, true) == ["a/"] && Select(k2, false) == ["x.edf"];
    assert Select(k3, true) == ["a/", "b/"] && Select(k3, false) == ["x.edf"];
  }

  /** Listing two directories and two files writes one manifest for each kind, numbered from 0. */
  lemma ListingScenario()
    ensures ManifestFile(Select(["a/", "x.edf", "b/", "y.csv"], true)) == Some(["0, a/\n", "1, b/\n"])
    ensures ManifestFile(Select(["a/", "x.edf", "b/", "y.csv"], false)) == Some(["0, x.edf\n", "1, y.csv\n"])
  {
    SelectScenario();
    assert NatToDecimal(0) == "0" && NatToDecimal(1) == "1";
    assert ManifestLine(0, "a/") == "0, a/\n" && ManifestLine(1, "b/") == "1, b/\n";
    assert ManifestLine(0, "x.edf") == "0, x.edf\n" && ManifestLine(1, "y.csv") == "1, y.csv\n";
    assert Numbered(["a/", "b/"]) == ["0, a/\n", "1, b/\n"];
    assert Numbered(["x.edf", "y.csv"]) == ["0, x.edf\n", "1, y.csv\n"];
    FileOf(["0, a/\n", "1, b/\n"]);
    FileOf(["0, x.edf\n", "1, y.csv\n"]);
  }

  /** The keys of the two-directory manifest. */
  lemma DirKeys()
    ensures Keys(["0, a/\n", "1, b/\n"]) == [Some("a/"), Some("b/")]
  {
    KeyA();
    KeyB();
    ParseTwo(ManifestKey, "0, a/\n", "1, b/\n");
  }

  /** `mkdirs` from no log, every directory created: both entries are recorded with their keys. */
  lemma MkdirsScenario(succeeds: nat -> bool)
    requires succeeds(0) && succeeds(1)
    ensures Pass(None, Some(["0, a/\n", "1, b/\n"]), false, None, succeeds)
            == PassResult(Some(["0, a/\n", "1, b/\n"]), [0, 1], None)
  {
    var m := ["0, a/\n", "1, b/\n"];
    var keys := Keys(m);
    DirKeys();
    assert Run(keys, 2, None, succeeds) == Trace([], [], None);
    assert Run(keys, 1, None, succeeds) == Trace([Some("b/")], [1], None);
    assert Run(keys, 0, None, succeeds) == Trace([Some("a/"), Some("b/")], [0, 1], None);
    assert NatToDecimal(0) == "0" && NatToDecimal(1) == "1";
    assert LogLine(0, Some("a/")) == "0, a/\n" && LogLine(1, Some("b/")) == "1, b/\n";
    assert Render(0, [Some("a/"), Some("b/")]) == m;
    FileOf(m);
  }

  /** The keys of the three-file manifest. */
  lemma FileKeys()
    ensures Keys(["0, f\n", "1, g\n", "2, h\n"]) == [Some("f"), Some("g"), Some("h")]
  {
    KeyF();
    KeyG();
    KeyH();
    ParseThree(ManifestKey, "0, f\n", "1, g\n", "2, h\n");
  }

  /**
   * A download pass over three files fails on the third after recording the
   * first two; the next pass recovers cursor 2, downloads only that file and
   * leaves a log of three lines.
   */
  lemma CrashScenario(first: nat -> bool, again: nat -> bool)
    requires first(0) && first(1) && !first(2) && again(2)
    ensures var m := Some(["0, f\n", "1, g\n", "2, h\n"]);
      var r1 := Pass(None, m, false, None, first);
      && r1 == PassResult(Some(["0, f\n", "1, g\n"]), [0, 1], Some(ActionFailed(2)))
      && RecoveredCounter(r1.log) == Ok(2)
      && Pass(r1.log, m, false, None, again) == PassResult(Some(["0, f\n", "1, g\n", "2, h\n"]), [2], None)
  {
    var m := ["0, f\n", "1, g\n", "2, h\n"];
    var keys := Keys(m);
    FileKeys();
    assert Run(keys, 2, None, first) == Trace([], [], Some(ActionFailed(2)));
    assert Run(keys, 1, None, first) == Trace([Some("g")], [1], Some(ActionFailed(2)));
    assert Run(keys, 0, None, first) == Trace([Some("f"), Some("g")], [0, 1], Some(ActionFailed(2)));
    assert NatToDecimal(0) == "0" && NatToDecimal(1) == "1" && NatToDecimal(2) == "2";
    assert LogLine(0, Some("f")) == "0, f\n" && LogLine(1, Some("g")) == "1, g\n";
    assert Render(0, [Some("f"), Some("g")]) == ["0, f\n", "1, g\n"];
    FileOf(["0, f\n", "1, g\n"]);
    assert Run(keys, 3, None, again) == Trace([], [], None);
    assert Run(keys, 2, None, again) == Trace([Some("h")], [2], None);
    assert LogLine(2, Some("h")) == "2, h\n";
    assert Render(2, [Some("h")]) == ["2, h\n"];
    var log1 := Some(["0, f\n", "1, g\n"]);
    assert RecoveredCounter(log1) == Ok(2) by { assert "1, g\n"[0] == '1'; }
    assert ["0, f\n", "1, g\n"] + ["2, h\n"] == m;
  }

  /** The keys of the ".edf" / ".csv" manifest. */
  lemma EdfKeys()
    ensures Keys(["0, x.edf\n", "1, y.csv\n"]) == [Some("x.edf"), Some("y.csv")]
  {
    KeyX();
    KeyY();
    ParseTwo(ManifestKey, "0, x.edf\n", "1, y.csv\n");
  }

  /**
   * `download_data(filter=is_not_edf)`: the ".edf" entry is recorded as
   * "skip" and not downloaded, the ".csv" entry is downloaded, and the log
   * recovers to cursor 2.
   */
  lemma EdfFilterScenario(succeeds: nat -> bool)
    requires succeeds(1)
    ensures var r := Pass(None, Some(["0, x.edf\n", "1, y.csv\n"]), false, Some(IsNotEdf), succeeds);
      && r == PassResult(Some(["0, skip\n", "1, y.csv\n"]), [1], None)
      && RecoveredCounter(r.log) == Ok(2)
  {
    var m := ["0, x.edf\n", "1, y.csv\n"];
    var keys := Keys(m);
    EdfKeys();
    assert !IsNotEdf("x.edf") && IsNotEdf("y.csv");
    var filter := Some(IsNotEdf);
    assert Run(keys, 2, filter, succeeds) == Trace([], [], None);
    assert Run(keys, 1, filter, succeeds) == Trace([Some("y.csv")], [1], None);
    assert Run(keys, 0, filter, succeeds) == Trace([Some("skip"), Some("y.csv")], [1], None);
    assert NatToDecimal(0) == "0" && NatToDecimal(1) == "1";
    assert LogLine(0, Some("skip")) == "0, skip\n" && LogLine(1, Some("y.csv")) == "1, y.csv\n";
    assert Render(0, [Some("skip"), Some("y.csv")]) == ["0, skip\n", "1, y.csv\n"];
    FileOf(["0, skip\n", "1, y.csv\n"]);
  }
}
