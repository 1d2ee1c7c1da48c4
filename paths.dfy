/** Object paths seen by the upload trigger: splitting on '/', the base name,
    the guards that decide whether an upload starts a job, and the paths a job
    derives from its upload id. */
module Paths {

  const UploadsRoot: string := "uploads/"
  const StlSuffix: string := ".stl"
  const LeaseName: string := "_PROCESSING"

  /** Python's `s.startswith(p)`. */
  predicate StartsWith(s: string, p: string) {
    p <= s
  }

  /** Python's `s.endswith(p)`. */
  predicate EndsWith(s: string, p: string) {
    |p| <= |s| && s[|s| - |p|..] == p
  }

  /** Python's `s.split("/")`: the maximal slash-free pieces, including empty
      ones at the ends and between adjacent slashes. */
  function Split(s: string): (parts: seq<string>)
    ensures |parts| >= 1
    ensures forall k :: 0 <= k < |parts| ==> '/' !in parts[k]
    decreases |s|
  {
    if s == [] then [""]
    else
      var rest := Split(s[1..]);
      if s[0] == '/' then [""] + rest
      else [[s[0]] + rest[0]] + rest[1..]
  }

  /** Python's `"/".join(parts)`. */
  function Join(parts: seq<string>): (s: string)
    decreases |parts|
  {
    if parts == [] then ""
    else if |parts| == 1 then parts[0]
    else parts[0] + "/" + Join(parts[1..])
  }

  /** Python's `os.path.basename(s)`: what follows the last '/', or all of
      `s` when it has none. */
  function Basename(s: string): (b: string)
    ensures '/' !in b
    ensures EndsWith(s, b)
    ensures b == s || s[|s| - |b| - 1] == '/'
    decreases |s|
  {
    if '/' !in s then s else Basename(s[1..])
  }

  /** Joining the pieces of a split gives the string back. */
  lemma {:induction false} JoinSplit(s: string)
    ensures Join(Split(s)) == s
    decreases |s|
  {
    if s != [] {
      var rest := Split(s[1..]);
      JoinSplit(s[1..]);
      if s[0] == '/' {
        assert Split(s) == [""] + rest;
        assert s == "/" + s[1..];
      } else if |rest| == 1 {
        assert s == [s[0]] + s[1..];
      } else {
        assert Join(rest) == rest[0] + "/" + Join(rest[1..]);
        assert Split(s)[1..] == rest[1..];
        assert s == [s[0]] + s[1..];
      }
    }
  }

  /** A string without a slash is a single piece. */
  lemma {:induction false} SplitNoSlash(s: string)
    requires '/' !in s
    ensures Split(s) == [s]
    decreases |s|
  {
    if s != [] {
      SplitNoSlash(s[1..]);
      assert s == [s[0]] + s[1..];
    }
  }

  /** Splitting at a separating slash splits each side independently. */
  lemma {:induction false} SplitAround(a: string, b: string)
    ensures Split(a + "/" + b) == Split(a) + Split(b)
    decreases |a|
  {
    var s := a + "/" + b;
    if a == [] {
      assert s == "/" + b;
      assert s[1..] == b;
    } else {
      assert s[1..] == a[1..] + "/" + b;
      SplitAround(a[1..], b);
    }
  }

  /** Splitting undoes joining pieces that hold no slash: the other half of
      the round trip `JoinSplit`. */
  lemma {:induction false} SplitJoin(parts: seq<string>)
    requires |parts| >= 1
    requires forall k :: 0 <= k < |parts| ==> '/' !in parts[k]
    ensures Split(Join(parts)) == parts
    decreases |parts|
  {
    SplitNoSlash(parts[0]);
    if |parts| > 1 {
      SplitJoin(parts[1..]);
      SplitAround(parts[0], Join(parts[1..]));
      assert parts == [parts[0]] + parts[1..];
    }
  }

  /** The base name is the last piece of the split. */
  lemma BasenameIsLastPiece(s: string)
    ensures Basename(s) == Split(s)[|Split(s)| - 1]
  {
    var b := Basename(s);
    if '/' !in s {
      SplitNoSlash(s);
    } else {
      var k := |s| - |b| - 1;
      assert b != s;
      assert s[k + 1..] == b;
      assert s == s[..k] + "/" + b;
      SplitAround(s[..k], b);
      SplitNoSlash(b);
    }
  }

  /** The base name of `dir/name` is `name` when `name` holds no slash. */
  lemma {:induction false} BasenameAfterSlash(dir: string, name: string)
    requires '/' !in name
    ensures Basename(dir + "/" + name) == name
    decreases |dir|
  {
    var s := dir + "/" + name;
    assert s[|dir|] == '/';
    if dir == [] {
      assert s[1..] == name;
    } else {
      assert s[1..] == dir[1..] + "/" + name;
      BasenameAfterSlash(dir[1..], name);
    }
  }

  /** When the split has at least two pieces, the first piece followed by a
      slash opens the string. */
  lemma {:induction false} FirstPieceOpens(s: string)
    requires |Split(s)| >= 2
    ensures StartsWith(s, Split(s)[0] + "/")
    decreases |s|
  {
    var rest := Split(s[1..]);
    if s[0] != '/' {
      FirstPieceOpens(s[1..]);
      assert s == [s[0]] + s[1..];
    }
  }

  /** Why an upload does not start a job. */
  datatype IgnoreReason =
    | OutsideUploads   // not under `uploads/`
    | MetaOrOutput     // an `.stl` result or a `_PROCESSING` flag
    | TooShallow       // fewer than three `/`-separated pieces

  /** The objects one job reads and writes, all derived from its upload id. */
  datatype Job = Job(
    uploadId: string,
    inputPrefix: string,
    leasePath: string,
    outputPath: string,
    errorPath: string)

  /** What the trigger does with an uploaded object path. */
  datatype Trigger = Ignore(reason: IgnoreReason) | Run(job: Job)

  /** Joining three pieces puts a slash between each pair. */
  lemma JoinThree(a: string, b: string, c: string)
    ensures Join([a, b, c]) == a + "/" + b + "/" + c
  {
    assert [a, b, c][1..] == [b, c];
    assert [b, c][1..] == [c];
    assert Join([b, c]) == b + "/" + c;
    assert a + "/" + (b + "/" + c) == a + "/" + b + "/" + c;
  }

  /** The paths derived from an upload id. */
  function JobPaths(id: string): (job: Job) {
    Job(id,
        "uploads/" + id + "/",
        "results/" + id + "/_PROCESSING",
        "results/" + id + "/model.stl",
        "results/" + id + "/_ERROR")
  }

  /** The trigger's guards, in the order the handler applies them. */
  function Classify(path: string): (t: Trigger)
    ensures t.Ignore? <==>
              !StartsWith(path, UploadsRoot) || EndsWith(path, StlSuffix)
              || Basename(path) == LeaseName || |Split(path)| < 3
    ensures t == Ignore(OutsideUploads) <==> !StartsWith(path, UploadsRoot)
    ensures t == Ignore(MetaOrOutput) <==>
              StartsWith(path, UploadsRoot) && (EndsWith(path, StlSuffix) || Basename(path) == LeaseName)
    ensures t.Run? ==> |Split(path)| >= 3 && t.job.uploadId == Split(path)[1]
  {
    if !StartsWith(path, UploadsRoot) then Ignore(OutsideUploads)
    else if EndsWith(path, StlSuffix) || Basename(path) == LeaseName then Ignore(MetaOrOutput)
    else
      var parts := Split(path);
      if |parts| < 3 then Ignore(TooShallow)
      else Run(JobPaths(parts[1]))
  }

  /** A job's upload id holds no slash, its paths follow from the id, and the
      object that started it lies under the job's input prefix (so it is part
      of the listing the job reads). */
  lemma RunJobUnderInputPrefix(path: string)
    requires Classify(path).Run?
    ensures '/' !in Classify(path).job.uploadId
    ensures Classify(path).job == JobPaths(Classify(path).job.uploadId)
    ensures StartsWith(path, Classify(path).job.inputPrefix)
  {
    var q := path[|UploadsRoot|..];
    assert path == UploadsRoot + q;
    UploadPieces(q);
    var head := Split(q)[0] + "/";
    assert StartsWith(q, head) by {
      FirstPieceOpens(q);
    }
    PrefixExtends(UploadsRoot, head, q);
  }

  /** A path under `uploads/` splits into `uploads` and the pieces of the
      rest. */
  lemma UploadPieces(q: string)
    ensures Split(UploadsRoot + q) == ["uploads"] + Split(q)
  {
    assert UploadsRoot + q == "uploads" + "/" + q;
    SplitAround("uploads", q);
    SplitNoSlash("uploads");
  }

  /** A common start keeps a prefix a prefix. */
  lemma PrefixExtends(a: string, b: string, c: string)
    requires b <= c
    ensures a + b <= a + c
  {
    assert (a + c)[..|a + b|] == a + c[..|b|];
  }

  /** The input prefix parses back into its pieces, so the upload id can be
      read off it. */
  lemma InputPrefixParse(id: string)
    requires '/' !in id
    ensures Split(JobPaths(id).inputPrefix) == ["uploads", id, ""]
  {
    assert JobPaths(id).inputPrefix == "uploads" + "/" + id + "/" + "";
    JoinThree("uploads", id, "");
    SplitJoin(["uploads", id, ""]);
  }

  /** The lease path parses back into its pieces, and its base name is the
      one the second guard ignores. */
  lemma LeasePathParse(id: string)
    requires '/' !in id
    ensures Split(JobPaths(id).leasePath) == ["results", id, "_PROCESSING"]
    ensures Basename(JobPaths(id).leasePath) == LeaseName
  {
    assert JobPaths(id).leasePath == "results" + "/" + id + "/" + "_PROCESSING";
    JoinThree("results", id, "_PROCESSING");
    SplitJoin(["results", id, "_PROCESSING"]);
    BasenameIsLastPiece(JobPaths(id).leasePath);
  }

  /** The output path parses back into its pieces. */
  lemma OutputPathParse(id: string)
    requires '/' !in id
    ensures Split(JobPaths(id).outputPath) == ["results", id, "model.stl"]
  {
    assert JobPaths(id).outputPath == "results" + "/" + id + "/" + "model.stl";
    JoinThree("results", id, "model.stl");
    SplitJoin(["results", id, "model.stl"]);
  }

  /** The error record path parses back into its pieces. */
  lemma ErrorPathParse(id: string)
    requires '/' !in id
    ensures Split(JobPaths(id).errorPath) == ["results", id, "_ERROR"]
  {
    assert JobPaths(id).errorPath == "results" + "/" + id + "/" + "_ERROR";
    JoinThree("results", id, "_ERROR");
    SplitJoin(["results", id, "_ERROR"]);
  }

  /** The four paths of a job are pairwise distinct, so each marker can be
      checked for on its own. */
  lemma DerivedPathsDistinct(id: string)
    ensures |{JobPaths(id).inputPrefix, JobPaths(id).leasePath,
              JobPaths(id).outputPath, JobPaths(id).errorPath}| == 4
  {
    var j := JobPaths(id);
    assert j.inputPrefix != j.leasePath by { assert j.inputPrefix[0] != j.leasePath[0]; }
    assert j.inputPrefix != j.outputPath by { assert j.inputPrefix[0] != j.outputPath[0]; }
    assert j.inputPrefix != j.errorPath by { assert j.inputPrefix[0] != j.errorPath[0]; }
    assert j.leasePath != j.outputPath by { assert |j.leasePath| != |j.outputPath|; }
    assert j.leasePath != j.errorPath by { assert |j.leasePath| != |j.errorPath|; }
    assert j.outputPath != j.errorPath by { assert |j.outputPath| != |j.errorPath|; }
  }

  /** None of the markers a job writes starts a job when it is uploaded. */
  lemma MarkersNeverTrigger(id: string)
    ensures Classify(JobPaths(id).leasePath) == Ignore(OutsideUploads)
    ensures Classify(JobPaths(id).outputPath) == Ignore(OutsideUploads)
    ensures Classify(JobPaths(id).errorPath) == Ignore(OutsideUploads)
  {
    var j := JobPaths(id);
    assert j.leasePath[0] == 'r' && j.outputPath[0] == 'r' && j.errorPath[0] == 'r';
  }
}
