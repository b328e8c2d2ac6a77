/** `_results_key_for_transcript_key`: where the summary of a transcript is
    written, `results/<stem>-results.txt`, with the stem taken as Python 3.11's
    `pathlib.PurePosixPath(key).stem` takes it. */
module ResultKey {
  import opened Text

  const ResultsPrefix := "results/"
  const ResultsSuffix := "-results.txt"

  /** The text after the last `/` of `path`, or all of `path` if it has none. */
  function LastSegment(path: string): (r: string)
    ensures |r| <= |path| && r == path[|path| - |r|..]
    ensures '/' !in r
    ensures |r| < |path| ==> path[|path| - |r| - 1] == '/'
  {
    if path == "" || path[|path| - 1] == '/' then ""
    else LastSegment(path[..|path| - 1]) + [path[|path| - 1]]
  }

  /** `PurePosixPath(path).name`: pathlib drops empty and `.` components
      (repeated, leading and trailing slashes, `./`), and the name is the last
      component left, or "" when none is. */
  function Name(path: string): (r: string)
    ensures '/' !in r && r != "."
    ensures |r| <= |path|
    decreases |path|
  {
    var segment := LastSegment(path);
    if segment != "" && segment != "." then segment
    else if |segment| == |path| then ""
    else Name(path[..|path| - |segment| - 1])
  }

  /** `s.rfind(c)`: the index of the last `c` in `s`, or -1. */
  function RFind(s: string, c: char): (i: int)
    ensures -1 <= i < |s|
    ensures i == -1 ==> c !in s
    ensures 0 <= i ==> s[i] == c && c !in s[i + 1..]
  {
    if s == "" then -1
    else if s[|s| - 1] == c then |s| - 1
    else
      var init, last := s[..|s| - 1], s[|s| - 1];
      var j := RFind(init, c);
      assert s == init + [last];
      assert 0 <= j ==> s[j + 1..] == init[j + 1..] + [last];
      j
  }

  /** `PurePath.stem` of a path whose name is `name`: the name without its
      final suffix, where a suffix is a last `.` that is neither the first
      nor the last character of the name. */
  function Stem(name: string): (r: string)
    ensures r == name <==> (|name| <= 1 || name[|name| - 1] == '.' || '.' !in name[1..])
    ensures r <= name
    ensures r != name ==> 0 < |r| < |name| - 1 && r == name[..|r|] && name[|r|] == '.' && '.' !in name[|r| + 1..]
  {
    var i := RFind(name, '.');
    if 0 < i < |name| - 1 then
      assert '.' in name[1..] by { assert name[1..][i - 1] == '.'; }
      name[..i]
    else
      assert |name| > 1 && name[|name| - 1] != '.' ==> '.' !in name[1..] by {
        if i == 0 {
          assert forall j :: 1 <= j < |name| ==> name[j] == name[i + 1..][j - 1];
        }
      }
      name
  }

  /** The object key the summary of `transcriptKey` is written to. */
  function ResultsKeyFor(transcriptKey: string): (r: string)
    ensures ResultsPrefix <= r && EndsWith(r, ResultsSuffix)
    ensures |r| >= |ResultsPrefix| + |ResultsSuffix|
    ensures '/' !in r[|ResultsPrefix|..]
  {
    var name := Name(transcriptKey);
    var stem := Stem(name);
    PrefixExcludes(stem, name, '/');
    Framed(ResultsPrefix, stem, ResultsSuffix);
    ResultsPrefix + stem + ResultsSuffix
  }

  lemma PrefixExcludes(a: string, b: string, c: char)
    requires a <= b && c !in b
    ensures c !in a
  {
    assert forall j :: 0 <= j < |a| ==> a[j] == b[j];
  }

  lemma Framed(prefix: string, middle: string, suffix: string)
    requires '/' !in middle && '/' !in suffix
    ensures var r := prefix + middle + suffix;
      prefix <= r && EndsWith(r, suffix) && '/' !in r[|prefix|..]
  {
    var r := prefix + middle + suffix;
    assert r[..|prefix|] == prefix;
    assert r[|r| - |suffix|..] == suffix;
    assert r[|prefix|..] == middle + suffix;
  }

  // ---------------------------------------------------------------------
  // Properties

  lemma {:induction false} LastSegmentOfJoin(dir: string, name: string)
    requires dir == "" || dir[|dir| - 1] == '/'
    requires '/' !in name
    ensures LastSegment(dir + name) == name
  {
    if name == "" {
      assert dir + name == dir;
    } else {
      var init, last := name[..|name| - 1], name[|name| - 1];
      assert name == init + [last];
      assert '/' !in init by { assert forall j :: 0 <= j < |init| ==> init[j] == name[j]; }
      assert dir + name == (dir + init) + [last];
      LastSegmentOfJoin(dir, init);
      LastSegmentSnoc(dir + init, last);
    }
  }

  /** One more character other than `/` extends the last segment by it. */
  lemma LastSegmentSnoc(path: string, c: char)
    requires c != '/'
    ensures LastSegment(path + [c]) == LastSegment(path) + [c]
  {
    assert (path + [c])[..|path|] == path;
  }

  /** The name of `dir/name` is `name`. */
  lemma NameOfJoin(dir: string, name: string)
    requires dir == "" || dir[|dir| - 1] == '/'
    requires '/' !in name && name != "" && name != "."
    ensures Name(dir + name) == name
  {
    LastSegmentOfJoin(dir, name);
  }

  /** The empty path and `.` have the empty name. The path is passed as a
      parameter rather than written as a literal to keep the solver fast. */
  lemma NameOfEmptyPath(p: string)
    requires p == []
    ensures Name(p) == ""
  {
  }

  lemma NameOfCurrentDirectory(p: string)
    requires p == ['.']
    ensures Name(p) == ""
  {
    assert p[..0] == [] && LastSegment(p[..0]) == [];
    assert LastSegment(p) == p;
  }

  /** A trailing slash does not change the name. */
  lemma NameIgnoresTrailingSlash(path: string)
    ensures Name(path + "/") == Name(path)
  {
    assert (path + "/")[..|path|] == path;
  }

  /** Nor does a trailing `/.` component. */
  lemma NameIgnoresCurrentDirectory(path: string)
    ensures Name(path + "/.") == Name(path)
  {
    LastSegmentOfJoin(path + "/", ".");
    assert path + "/." == (path + "/") + ".";
    assert (path + "/.")[..|path|] == path;
  }

  /** The stem of `base.ext` is `base`, for a non-empty `base` and a
      non-empty `ext` without a dot. */
  lemma StemOfSuffixed(base: string, ext: string)
    requires base != "" && ext != "" && '.' !in ext
    ensures Stem(base + "." + ext) == base
  {
    var name := base + "." + ext;
    assert name[|base| + 1..] == ext;
    assert name[1..][|base| - 1] == '.';
  }

  /** A key `dir/base.ext` has its summary written to
      `results/base-results.txt`. */
  lemma ResultsKeyOfTranscript(dir: string, base: string, ext: string)
    requires dir == "" || dir[|dir| - 1] == '/'
    requires base != "" && '/' !in base
    requires ext != "" && '/' !in ext && '.' !in ext
    ensures ResultsKeyFor(dir + base + "." + ext) == ResultsPrefix + base + ResultsSuffix
  {
    var name := base + "." + ext;
    assert '/' !in name;
    assert name != "." by { assert |name| >= 3; }
    assert dir + base + "." + ext == dir + name;
    NameOfJoin(dir, name);
    StemOfSuffixed(base, ext);
  }

  /** The example of the handler's unit test. */
  lemma SampleTranscriptKey()
    ensures ResultsKeyFor("demo/sample-transcript.json") == "results/sample-transcript-results.txt"
  {
    SampleKeyParts();
    SampleResultParts();
    ResultsKeyOfTranscript("demo/", "sample-transcript", "json");
  }

  /** Literal facts of the example, stated apart so the solver evaluates
      each literal once. */
  lemma SampleKeyParts()
    ensures "demo/sample-transcript.json" == "demo/" + "sample-transcript" + "." + "json"
  {
  }

  lemma SampleResultParts()
    ensures ResultsPrefix + "sample-transcript" + ResultsSuffix == "results/sample-transcript-results.txt"
  {
  }

  /** A name whose only dot is its first character has no suffix. */
  lemma DotFileKey()
    ensures ResultsKeyFor("demo/.transcript") == "results/.transcript-results.txt"
  {
    DotFileKeyParts();
    DotFileResultParts();
    NameOfJoin("demo/", ".transcript");
  }

  /** Literal facts of the example, stated apart so the solver evaluates
      each literal once. */
  lemma DotFileKeyParts()
    ensures "demo/.transcript" == "demo/" + ".transcript"
    ensures '.' !in ".transcript"[1..]
  {
  }

  lemma DotFileResultParts()
    ensures ResultsPrefix + ".transcript" + ResultsSuffix == "results/.transcript-results.txt"
  {
  }
}
