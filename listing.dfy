/**
 * The lister: keys under the listed prefix go, in listing order, to one of two
 * manifests, "dir" for keys ending in "/" and "file" for the others, each line
 * reading "{i}, {key}" with its own count from 0.
 */
module Listing {
  import opened Wrappers
  import opened Text
  import opened LocalFiles

  /** The manifest line written for the `i`-th key of its kind. */
  function ManifestLine(i: nat, key: string): (line: string)
  {
    NatToDecimal(i) + ", " + key + "\n"
  }

  /** A manifest line is a whole line unless its key holds a line break. */
  lemma ManifestLineIsLine(i: nat, key: string)
    requires NoLineBreak(key)
    ensures IsLine(ManifestLine(i, key))
  {
    var body := NatToDecimal(i) + ", " + key;
    assert NoLineBreak(body);
    assert ManifestLine(i, key) == body + "\n";
    LineOf(body);
  }

  /**
   * `line.strip().split(', ')[1]`, the key the transfer loops read back from a
   * manifest line; `None` where the indexing raises IndexError.
   */
  function ManifestKey(line: string): (r: Option<string>)
    ensures r.Some? <==> Contains(Strip(line), ", ")
    ensures r.Some? ==> !Contains(r.value, ", ")
  {
    var parts := Split(Strip(line), ", ");
    if |parts| > 1 then Some(parts[1]) else None
  }

  /** A key that survives the manifest format: non-empty, no ", ", no trailing white space. */
  predicate WellFormedKey(key: string)
  {
    |key| > 0 && !IsSpace(key[|key| - 1]) && !Contains(key, ", ")
  }

  /** Reading back a manifest line gives the key it was written for. */
  lemma ManifestKeyRoundTrip(i: nat, key: string)
    requires WellFormedKey(key)
    ensures ManifestKey(ManifestLine(i, key)) == Some(key)
  {
    var d := NatToDecimal(i);
    var t := d + ", " + key;
    assert ManifestLine(i, key) == t + "\n";
    StripTrailingSpace(t, "\n");
    SplitFirst(d, ", ", key);
    SplitWhole(key, ", ");
  }

  /** A line whose key is empty has nothing after the stripped ", ": reading it raises. */
  lemma EmptyKeyLineIsMalformed(i: nat)
    ensures ManifestKey(ManifestLine(i, "")) == None
  {
    var d := NatToDecimal(i);
    assert ManifestLine(i, "") == d + ", \n";
    assert Strip(d + ", \n") == d + "," by {
      StripTrailingSpace(d + ",", " \n");
      assert d + ", \n" == (d + ",") + " \n";
    }
    var s := d + ",";
    assert forall j :: 0 <= j < |d| ==> s[j] == d[j];
    assert !Contains(s, ", ");
  }

  /** A manifest line starts with its own index. */
  lemma ManifestLineNumber(i: nat, key: string)
    ensures LeadingNumber(ManifestLine(i, key)) == Some(i)
  {
    assert ManifestLine(i, key) == NatToDecimal(i) + (", " + key + "\n");
    LeadingNumberOfDecimal(i, ", " + key + "\n");
  }

  /** A directory key ends with "/". */
  predicate IsDirKey(key: string)
    ensures IsDirKey(key) <==> |key| > 0 && key[|key| - 1] == '/'
  {
    EndsWith(key, "/")
  }

  /** The keys of one kind (`dir` for directory keys), in listing order. */
  function Select(keys: seq<string>, dir: bool): (ks: seq<string>)
    ensures |ks| <= |keys|
  {
    if keys == [] then []
    else
      var last := keys[|keys| - 1];
      Select(keys[..|keys| - 1], dir) + (if IsDirKey(last) == dir then [last] else [])
  }

  /** The listing positions of the keys of one kind, in increasing order. */
  function Positions(keys: seq<string>, dir: bool): seq<nat>
  {
    if keys == [] then []
    else
      var n := |keys| - 1;
      Positions(keys[..n], dir) + (if IsDirKey(keys[n]) == dir then [n] else [])
  }

  /** The lines of a manifest listing `keys`, numbered from 0. */
  function Numbered(keys: seq<string>): (lines: seq<string>)
  {
    seq(|keys|, i requires 0 <= i < |keys| => ManifestLine(i, keys[i]))
  }

  /** The manifest file after listing: lines are appended one by one, so no key, no file. */
  function ManifestFile(keys: seq<string>): (f: File)
    ensures f.Some? <==> keys != []
    ensures |Lines(f)| == |keys|
  {
    AppendLines(None, Numbered(keys))
  }

  /** Every key lands in exactly one manifest: together they hold the listing's keys, each as often. */
  lemma {:induction false} PartitionContents(keys: seq<string>)
    ensures multiset(Select(keys, true)) + multiset(Select(keys, false)) == multiset(keys)
  {
    if keys != [] {
      var n := |keys| - 1;
      var front, last := keys[..n], keys[n];
      PartitionContents(front);
      assert keys == front + [last];
      assert multiset(keys) == multiset(front) + multiset{last};
    }
  }

  /** The dir count plus the file count is the number of listed keys. */
  lemma PartitionCounts(keys: seq<string>)
    ensures |Select(keys, true)| + |Select(keys, false)| == |keys|
  {
    PartitionContents(keys);
    assert |multiset(Select(keys, true)) + multiset(Select(keys, false))| == |multiset(keys)|;
  }

  /** Each manifest line comes from the listing position recorded for it, and holds a key of its kind. */
  lemma {:induction false} SelectFromPositions(keys: seq<string>, dir: bool)
    ensures var ks, ps := Select(keys, dir), Positions(keys, dir);
      && |ks| == |ps|
      && forall j :: 0 <= j < |ps| ==> ps[j] < |keys| && IsDirKey(keys[ps[j]]) == dir && ks[j] == keys[ps[j]]
  {
    if keys != [] {
      var n := |keys| - 1;
      SelectFromPositions(keys[..n], dir);
    }
  }

  /** The recorded positions increase: each manifest keeps the listing order. */
  lemma {:induction false} PositionsIncrease(keys: seq<string>, dir: bool)
    ensures forall j :: 0 <= j < |Positions(keys, dir)| ==> Positions(keys, dir)[j] < |keys|
    ensures forall j, l :: 0 <= j < l < |Positions(keys, dir)| ==> Positions(keys, dir)[j] < Positions(keys, dir)[l]
  {
    if keys != [] {
      var n := |keys| - 1;
      PositionsIncrease(keys[..n], dir);
    }
  }

  /** Every listed key of a kind is recorded: no key is dropped from its manifest. */
  lemma {:induction false} PositionsComplete(keys: seq<string>, dir: bool)
    ensures forall p :: 0 <= p < |keys| && IsDirKey(keys[p]) == dir ==> p in Positions(keys, dir)
  {
    if keys != [] {
      var n := |keys| - 1;
      PositionsComplete(keys[..n], dir);
    }
  }

  /** A key is in the dir manifest exactly when it is listed and ends with "/". */
  lemma {:induction false} SelectMembership(keys: seq<string>, dir: bool, key: string)
    ensures key in Select(keys, dir) <==> key in keys && IsDirKey(key) == dir
  {
    if keys != [] {
      var n := |keys| - 1;
      var front, last := keys[..n], keys[n];
      SelectMembership(front, dir, key);
      assert keys == front + [last];
      var tail := if IsDirKey(last) == dir then [last] else [];
      assert Select(keys, dir) == Select(front, dir) + tail;
      assert key in Select(keys, dir) <==> key in Select(front, dir) || key in tail;
    }
  }

  /**
   * Line `i` of a manifest is "{i}, {key_i}": numbered 0..n-1 with no gap, keys
   * read back, and a whole line when its key has no line break.
   */
  lemma ManifestContents(keys: seq<string>, i: nat)
    requires i < |keys|
    ensures var lines := Lines(ManifestFile(keys));
      |lines| == |keys| && LeadingNumber(lines[i]) == Some(i)
      && (WellFormedKey(keys[i]) ==> ManifestKey(lines[i]) == Some(keys[i]))
      && (NoLineBreak(keys[i]) ==> IsLine(lines[i]))
  {
    var lines := Lines(ManifestFile(keys));
    assert lines == Numbered(keys);
    var line := ManifestLine(i, keys[i]);
    assert lines[i] == line;
    ManifestLineNumber(i, keys[i]);
    if WellFormedKey(keys[i]) {
      ManifestKeyRoundTrip(i, keys[i]);
    }
    if NoLineBreak(keys[i]) {
      ManifestLineIsLine(i, keys[i]);
    }
  }

  /** One more key of a kind appends exactly its line to that manifest. */
  lemma ManifestFileAppend(keys: seq<string>, key: string)
    ensures ManifestFile(keys + [key]) == AppendLines(ManifestFile(keys), [ManifestLine(|keys|, key)])
  {
    assert Numbered(keys + [key]) == Numbered(keys) + [ManifestLine(|keys|, key)];
    AppendLinesTwice(None, Numbered(keys), [ManifestLine(|keys|, key)]);
  }

  /** What listing one more key does to the manifest of each kind. */
  lemma ListingStep(keys: seq<string>, i: nat, dir: bool)
    requires i < |keys|
    ensures var before, after := Select(keys[..i], dir), Select(keys[..i + 1], dir);
      if IsDirKey(keys[i]) == dir
      then |after| == |before| + 1
           && ManifestFile(after) == AppendLines(ManifestFile(before), [ManifestLine(|before|, keys[i])])
      else after == before
  {
    assert keys[..i + 1][..i] == keys[..i];
    if IsDirKey(keys[i]) == dir {
      ManifestFileAppend(Select(keys[..i], dir), keys[i]);
    }
  }

  /**
   * `get_file_list` / `Downloader.download_file_list`: delete both manifests,
   * then append each listed key to its manifest under its own counter.
   */
  method ListManifests(keys: seq<string>) returns (dirList: File, fileList: File)
    ensures dirList == ManifestFile(Select(keys, true))
    ensures fileList == ManifestFile(Select(keys, false))
  {
    dirList, fileList := None, None;
    var dirCounter, fileCounter := 0, 0;
    for i := 0 to |keys|
      invariant dirCounter == |Select(keys[..i], true)| && fileCounter == |Select(keys[..i], false)|
      invariant dirList == ManifestFile(Select(keys[..i], true))
      invariant fileList == ManifestFile(Select(keys[..i], false))
    {
      var key := keys[i];
      ListingStep(keys, i, true);
      ListingStep(keys, i, false);
      if EndsWith(key, "/") {
        dirList := AppendLines(dirList, [ManifestLine(dirCounter, key)]);
        dirCounter := dirCounter + 1;
      } else {
        fileList := AppendLines(fileList, [ManifestLine(fileCounter, key)]);
        fileCounter := fileCounter + 1;
      }
    }
    assert keys[..|keys|] == keys;
  }
}
