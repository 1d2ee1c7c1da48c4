/** The job's input set: the listed object names that are not directory
    placeholders, and the local file each of them is downloaded to. */
module Inputs {
  import opened Paths

  /** A listed name that ends in '/' is a directory placeholder. */
  predicate IsDirectory(name: string) {
    EndsWith(name, "/")
  }

  /** The names kept from a listing, in listing order. */
  function SelectInputs(names: seq<string>): (inputs: seq<string>)
    ensures forall k :: 0 <= k < |inputs| ==> !IsDirectory(inputs[k])
    ensures |inputs| <= |names|
    decreases |names|
  {
    if names == [] then []
    else
      (if IsDirectory(names[0]) then [] else [names[0]]) + SelectInputs(names[1..])
  }

  /** The names of a listing that lie under `prefix`, in listing order: what
      `bucket.list_blobs(prefix=...)` returns out of all the bucket's names. */
  function ListUnder(names: seq<string>, prefix: string): (listed: seq<string>)
    ensures forall k :: 0 <= k < |listed| ==> StartsWith(listed[k], prefix)
    decreases |names|
  {
    if names == [] then []
    else
      (if StartsWith(names[0], prefix) then [names[0]] else []) + ListUnder(names[1..], prefix)
  }

  /** A job's input set holds exactly the bucket's names under its prefix
      that are not directory placeholders. */
  lemma {:induction false} JobInputsMembers(names: seq<string>, prefix: string, n: string)
    ensures n in SelectInputs(ListUnder(names, prefix)) <==>
              n in names && StartsWith(n, prefix) && !IsDirectory(n)
    decreases |names|
  {
    SelectInputsMembers(ListUnder(names, prefix), n);
    if names != [] {
      JobInputsMembers(names[1..], prefix, n);
      SelectInputsMembers(ListUnder(names[1..], prefix), n);
      assert names == [names[0]] + names[1..];
    }
  }

  /** A name is an input exactly when it is listed and is not a directory
      placeholder. */
  lemma {:induction false} SelectInputsMembers(names: seq<string>, n: string)
    ensures n in SelectInputs(names) <==> n in names && !IsDirectory(n)
    decreases |names|
  {
    if names != [] {
      SelectInputsMembers(names[1..], n);
      assert names == [names[0]] + names[1..];
    }
  }

  /** Selection keeps listing order: selecting from a concatenation is
      concatenating the selections. */
  lemma {:induction false} SelectInputsAppend(a: seq<string>, b: seq<string>)
    ensures SelectInputs(a + b) == SelectInputs(a) + SelectInputs(b)
    decreases |a|
  {
    if a != [] {
      assert (a + b)[1..] == a[1..] + b;
      assert (a + b)[0] == a[0];
      SelectInputsAppend(a[1..], b);
      var head := if IsDirectory(a[0]) then [] else [a[0]];
      assert a + b != [];
      assert SelectInputs(a + b) == head + SelectInputs((a + b)[1..]);
      assert SelectInputs(a) == head + SelectInputs(a[1..]);
      assert head + (SelectInputs(a[1..]) + SelectInputs(b)) == (head + SelectInputs(a[1..])) + SelectInputs(b);
    } else {
      assert a + b == b;
    }
  }

  /** A non-directory name is kept, once for each time it is listed. */
  lemma {:induction false} SelectInputsCount(names: seq<string>, n: string)
    ensures multiset(SelectInputs(names))[n] == if IsDirectory(n) then 0 else multiset(names)[n]
    decreases |names|
  {
    if names != [] {
      SelectInputsCount(names[1..], n);
      assert names == [names[0]] + names[1..];
    }
  }

  /** The handler finds no input exactly when every listed name is a
      directory placeholder. */
  lemma NoInputsIffOnlyDirectories(names: seq<string>)
    ensures SelectInputs(names) == [] <==> forall k :: 0 <= k < |names| ==> IsDirectory(names[k])
  {
    if SelectInputs(names) == [] {
      forall k | 0 <= k < |names| ensures IsDirectory(names[k]) {
        SelectInputsMembers(names, names[k]);
      }
    } else {
      var n := SelectInputs(names)[0];
      SelectInputsMembers(names, n);
    }
  }

  /** Python's `os.path.join(dir, base)` for a base that holds no slash. */
  function JoinPath(dir: string, base: string): (path: string) {
    if dir == [] || dir[|dir| - 1] == '/' then dir + base else dir + "/" + base
  }

  /** The local file a blob is downloaded to: its base name inside `dir`. */
  function LocalPath(dir: string, name: string): (path: string) {
    JoinPath(dir, Basename(name))
  }

  /** The local file keeps the blob's base name. */
  lemma LocalPathBasename(dir: string, name: string)
    ensures Basename(LocalPath(dir, name)) == Basename(name)
  {
    var base := Basename(name);
    if dir == [] {
      assert LocalPath(dir, name) == base;
    } else if dir[|dir| - 1] == '/' {
      var d := dir[..|dir| - 1];
      assert dir == d + "/";
      assert LocalPath(dir, name) == d + "/" + base;
      BasenameAfterSlash(d, base);
    } else {
      BasenameAfterSlash(dir, base);
    }
  }

  /** The download loop: one local path per input, in input order. */
  method StageDownloads(dir: string, blobs: seq<string>) returns (paths: seq<string>)
    ensures |paths| == |blobs|
    ensures forall k :: 0 <= k < |blobs| ==> paths[k] == LocalPath(dir, blobs[k])
  {
    paths := [];
    for i := 0 to |blobs|
      invariant |paths| == i
      invariant forall k :: 0 <= k < i ==> paths[k] == LocalPath(dir, blobs[k])
    {
      paths := paths + [LocalPath(dir, blobs[i])];
    }
  }

  /** Two blobs in different sub-folders of one upload that share a base
      name are downloaded to the same local file: the second download
      overwrites the first, and that file is then read twice. */
  lemma NestedBlobsShareLocalPath(dir: string, d1: string, d2: string, name: string)
    requires '/' !in name
    ensures LocalPath(dir, d1 + "/" + name) == LocalPath(dir, d2 + "/" + name)
  {
    BasenameAfterSlash(d1, name);
    BasenameAfterSlash(d2, name);
  }

}
