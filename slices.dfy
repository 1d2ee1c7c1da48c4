/** Ordering the parsed slices by their location and stacking their rescaled
    pixel grids into one volume. */
module Slices {

  /** A rectangular grid of raw samples, as a two-dimensional pixel array. */
  predicate IsRect(p: seq<seq<int>>) {
    forall r :: 0 <= r < |p| ==> |p[r]| == |p[0]|
  }

  type Image = p: seq<seq<int>> | IsRect(p) witness []

  /** One parsed slice: its `SliceLocation`, pixel array and the
      `RescaleSlope` / `RescaleIntercept` calibration constants. */
  datatype Slice = Slice(location: real, pixels: Image, slope: real, intercept: real)

  /** A layer of the volume holds physical intensities. */
  type Layer = seq<seq<real>>

  datatype VolumeError =
    | NoSlices           // nothing to stack
    | ShapeMismatch      // the pixel arrays do not share one shape

  datatype VolumeResult = Built(volume: seq<Layer>) | Failed(error: VolumeError)

  /** Ordered by non-decreasing location. */
  ghost predicate SortedByLocation(s: seq<Slice>) {
    forall i, j :: 0 <= i < j < |s| ==> s[i].location <= s[j].location
  }

  /** Puts `x` after the last element whose location is at most its own, so
      that it follows every element with an equal location. */
  function Insert(s: seq<Slice>, x: Slice): (r: seq<Slice>)
    ensures |r| == |s| + 1
    decreases |s|
  {
    if s == [] || s[|s| - 1].location <= x.location then s + [x]
    else Insert(s[..|s| - 1], x) + [s[|s| - 1]]
  }

  /** A stable sort by location (Python's `list.sort` with a key): the result
      of inserting each element, in order, into the sorted prefix before it. */
  function SortByLocation(s: seq<Slice>): (r: seq<Slice>)
    ensures |r| == |s|
    decreases |s|
  {
    if s == [] then []
    else Insert(SortByLocation(s[..|s| - 1]), s[|s| - 1])
  }

  /** Inserting adds exactly the one element. */
  lemma {:induction false} InsertPermutes(s: seq<Slice>, x: Slice)
    ensures multiset(Insert(s, x)) == multiset(s) + multiset{x}
    decreases |s|
  {
    if s != [] && s[|s| - 1].location > x.location {
      var init, last := s[..|s| - 1], s[|s| - 1];
      assert Insert(s, x) == Insert(init, x) + [last];
      InsertPermutes(init, x);
      assert s == init + [last];
      assert multiset(s) == multiset(init) + multiset{last};
    }
  }

  /** The sort is a permutation of its input. */
  lemma {:induction false} SortPermutes(s: seq<Slice>)
    ensures multiset(SortByLocation(s)) == multiset(s)
    decreases |s|
  {
    if s != [] {
      var init, last := s[..|s| - 1], s[|s| - 1];
      assert SortByLocation(s) == Insert(SortByLocation(init), last);
      SortPermutes(init);
      InsertPermutes(SortByLocation(init), last);
      assert s == init + [last];
      assert multiset(s) == multiset(init) + multiset{last};
    }
  }

  /** Inserting below a bound keeps every location below it. */
  lemma {:induction false} InsertBounded(s: seq<Slice>, x: Slice, b: real)
    requires forall k :: 0 <= k < |s| ==> s[k].location <= b
    requires x.location <= b
    ensures forall k :: 0 <= k < |Insert(s, x)| ==> Insert(s, x)[k].location <= b
    decreases |s|
  {
    if s != [] && s[|s| - 1].location > x.location {
      InsertBounded(s[..|s| - 1], x, b);
    }
  }

  /** Inserting into a sorted sequence keeps it sorted. */
  lemma {:induction false} InsertSorted(s: seq<Slice>, x: Slice)
    requires SortedByLocation(s)
    ensures SortedByLocation(Insert(s, x))
    decreases |s|
  {
    if s != [] && s[|s| - 1].location > x.location {
      var init, last := s[..|s| - 1], s[|s| - 1];
      InsertSorted(init, x);
      InsertBounded(init, x, last.location);
      assert Insert(s, x) == Insert(init, x) + [last];
    }
  }

  /** The sort orders by non-decreasing location. */
  lemma {:induction false} SortIsSorted(s: seq<Slice>)
    ensures SortedByLocation(SortByLocation(s))
    decreases |s|
  {
    if s != [] {
      SortIsSorted(s[..|s| - 1]);
      InsertSorted(SortByLocation(s[..|s| - 1]), s[|s| - 1]);
    }
  }

  /** The slices at one location, in order. */
  function AtLocation(s: seq<Slice>, v: real): (r: seq<Slice>)
    decreases |s|
  {
    if s == [] then []
    else AtLocation(s[..|s| - 1], v) + (if s[|s| - 1].location == v then [s[|s| - 1]] else [])
  }

  lemma {:induction false} AtLocationAppend(a: seq<Slice>, b: seq<Slice>, v: real)
    ensures AtLocation(a + b, v) == AtLocation(a, v) + AtLocation(b, v)
    decreases |b|
  {
    if b == [] {
      assert a + b == a;
    } else {
      var b' := b[..|b| - 1];
      assert (a + b)[..|a + b| - 1] == a + b';
      assert (a + b)[|a + b| - 1] == b[|b| - 1];
      AtLocationAppend(a, b', v);
    }
  }

  /** A single slice is at `v` or not. */
  lemma AtLocationSingle(y: Slice, v: real)
    ensures AtLocation([y], v) == if y.location == v then [y] else []
  {
    assert [y][..0] == [];
  }

  /** Inserting `x` adds it after every slice of its own location. */
  lemma {:induction false} InsertAtLocation(s: seq<Slice>, x: Slice, v: real)
    ensures AtLocation(Insert(s, x), v) == AtLocation(s, v) + AtLocation([x], v)
    decreases |s|
  {
    if s == [] || s[|s| - 1].location <= x.location {
      AtLocationAppend(s, [x], v);
    } else {
      var init, last := s[..|s| - 1], s[|s| - 1];
      var t := Insert(init, x);
      var ax := AtLocation([x], v);
      var al := AtLocation([last], v);
      var ai := AtLocation(init, v);
      assert AtLocation(Insert(s, x), v) == AtLocation(t, v) + al by {
        assert Insert(s, x) == t + [last];
        AtLocationAppend(t, [last], v);
      }
      assert AtLocation(s, v) == ai + al by {
        assert s == init + [last];
        AtLocationAppend(init, [last], v);
      }
      assert AtLocation(t, v) == ai + ax by {
        InsertAtLocation(init, x, v);
      }
      assert ax + al == al + ax by {
        AtLocationSingle(x, v);
        AtLocationSingle(last, v);
      }
      assert ai + ax + al == ai + al + ax by {
        assert ai + ax + al == ai + (ax + al);
        assert ai + al + ax == ai + (al + ax);
      }
    }
  }

  /** Stability: slices that share a location keep their relative order. */
  lemma {:induction false} SortIsStable(s: seq<Slice>, v: real)
    ensures AtLocation(SortByLocation(s), v) == AtLocation(s, v)
    decreases |s|
  {
    if s != [] {
      var init, last := s[..|s| - 1], s[|s| - 1];
      SortIsStable(init, v);
      InsertAtLocation(SortByLocation(init), last, v);
      assert AtLocation([last], v) == if last.location == v then [last] else [];
    }
  }

  /** Inserting `x` at position `j`, where every later slice lies strictly
      beyond `x` and the one before does not, is what `Insert` does. */
  lemma {:induction false} InsertAtPosition(s: seq<Slice>, x: Slice, j: nat)
    requires j <= |s|
    requires j > 0 ==> s[j - 1].location <= x.location
    requires forall k :: j <= k < |s| ==> s[k].location > x.location
    ensures Insert(s, x) == s[..j] + [x] + s[j..]
    decreases |s|
  {
    if j == |s| {
      assert s[..j] == s;
      assert s[j..] == [];
    } else {
      var init, last := s[..|s| - 1], s[|s| - 1];
      assert last.location > x.location;
      assert Insert(s, x) == Insert(init, x) + [last];
      assert forall k :: j <= k < |init| ==> init[k] == s[k];
      InsertAtPosition(init, x, j);
      assert init[..j] == s[..j];
      assert init[j..] + [last] == s[j..];
      assert s[..j] + [x] + init[j..] + [last] == s[..j] + [x] + (init[j..] + [last]);
    }
  }

  /** No two members of `m` that differ share a location. */
  ghost predicate LocationsIdentify(m: multiset<Slice>) {
    forall x, y :: x in m && y in m && x.location == y.location ==> x == y
  }

  /** The arrival order does not matter when no two slices share a location:
      any two permutations of one slice set sort to the same sequence. */
  lemma SortDeterminedByLocations(a: seq<Slice>, b: seq<Slice>)
    requires multiset(a) == multiset(b)
    requires forall i, j :: 0 <= i < j < |a| ==> a[i].location != a[j].location
    ensures SortByLocation(a) == SortByLocation(b)
  {
    var sa, sb := SortByLocation(a), SortByLocation(b);
    SortPermutes(a);
    SortPermutes(b);
    SortIsSorted(a);
    SortIsSorted(b);
    forall x, y | x in multiset(a) && y in multiset(a) && x.location == y.location
      ensures x == y
    {
      assert x in a && y in a;
      var i :| 0 <= i < |a| && a[i] == x;
      var j :| 0 <= j < |a| && a[j] == y;
      assert i == j;
    }
    assert LocationsIdentify(multiset(sa));
    SortedUnique(sa, sb);
  }

  /** The tail of a sequence holds all but its first element. */
  lemma TailMultiset<T>(s: seq<T>)
    requires s != []
    ensures multiset(s[1..]) == multiset(s) - multiset{s[0]}
  {
    assert s == [s[0]] + s[1..];
  }

  /** Identification by location carries over to the tail. */
  lemma IdentifyTail(s: seq<Slice>)
    requires s != [] && LocationsIdentify(multiset(s))
    ensures LocationsIdentify(multiset(s[1..]))
  {
    forall x, y | x in multiset(s[1..]) && y in multiset(s[1..]) && x.location == y.location
      ensures x == y
    {
      assert x in s[1..] && y in s[1..];
      assert x in s && y in s;
    }
  }

  /** Two sorted non-empty sequences with one multiset whose elements are
      told apart by location start with the same element. */
  lemma SortedHeadsAgree(a: seq<Slice>, b: seq<Slice>)
    requires a != [] && b != []
    requires multiset(a) == multiset(b)
    requires SortedByLocation(a) && SortedByLocation(b)
    requires LocationsIdentify(multiset(a))
    ensures a[0] == b[0]
  {
    assert b[0] in multiset(a) && a[0] in multiset(b);
    var ka :| 0 <= ka < |a| && a[ka] == b[0];
    var kb :| 0 <= kb < |b| && b[kb] == a[0];
    assert a[0].location <= b[0].location by {
      if ka > 0 { assert a[0].location <= a[ka].location; }
    }
    assert b[0].location <= a[0].location by {
      if kb > 0 { assert b[0].location <= b[kb].location; }
    }
  }

  /** Two sorted sequences with one multiset, whose elements are told apart
      by their location, are equal. */
  lemma {:induction false} SortedUnique(a: seq<Slice>, b: seq<Slice>)
    requires multiset(a) == multiset(b)
    requires SortedByLocation(a) && SortedByLocation(b)
    requires LocationsIdentify(multiset(a))
    ensures a == b
    decreases |a|
  {
    assert |multiset(a)| == |a| && |multiset(b)| == |b|;
    if a != [] {
      SortedHeadsAgree(a, b);
      TailMultiset(a);
      TailMultiset(b);
      IdentifyTail(a);
      assert multiset(a[1..]) == multiset(b[1..]);
      assert SortedByLocation(a[1..]) && SortedByLocation(b[1..]);
      SortedUnique(a[1..], b[1..]);
      forall i | 0 <= i < |a| ensures a[i] == b[i] {
        if i > 0 {
          assert a[i] == a[1..][i - 1] && b[i] == b[1..][i - 1];
        }
      }
    }
  }

  /** Sorts the array in place, stably by location (Python's `list.sort`). */
  method SortSlices(a: array<Slice>)
    modifies a
    ensures a[..] == SortByLocation(old(a[..]))
  {
    ghost var orig := a[..];
    var i := 0;
    while i < a.Length
      invariant 0 <= i <= a.Length
      invariant a[..i] == SortByLocation(orig[..i])
      invariant a[i..] == orig[i..]
    {
      ghost var before := a[..];
      assert before[i] == orig[i];
      assert before[..i] == SortByLocation(orig[..i]);
      assert orig[..i + 1][..i] == orig[..i];
      assert SortByLocation(orig[..i + 1]) == Insert(SortByLocation(orig[..i]), orig[i]);
      InsertNext(a, i);
      assert a[i + 1..] == before[i + 1..] == orig[i + 1..];
      i := i + 1;
    }
    assert a[..] == a[..a.Length] && orig == orig[..a.Length];
  }

  /** A sequence that agrees with `prefix` before `j`, holds `x` at `j` and
      `prefix` shifted by one after it, starts with `x` inserted at `j`. */
  lemma PlacedAt(t: seq<Slice>, prefix: seq<Slice>, x: Slice, j: nat)
    requires j <= |prefix| < |t|
    requires forall k :: 0 <= k < j ==> t[k] == prefix[k]
    requires t[j] == x
    requires forall k :: j < k <= |prefix| ==> t[k] == prefix[k - 1]
    ensures t[..|prefix| + 1] == prefix[..j] + [x] + prefix[j..]
  {
    var inserted := prefix[..j] + [x] + prefix[j..];
    forall k | 0 <= k <= |prefix| ensures t[k] == inserted[k] {
      if k < j {
        assert inserted[k] == prefix[k];
      } else if k > j {
        assert inserted[k] == prefix[k - 1];
      }
    }
  }

  /** One pass of the insertion sort: moves `a[i]` left past every slice of
      the prefix that lies strictly beyond it. */
  method InsertNext(a: array<Slice>, i: nat)
    requires i < a.Length
    modifies a
    ensures a[..i + 1] == Insert(old(a[..i]), old(a[i]))
    ensures a[i + 1..] == old(a[i + 1..])
  {
    ghost var prefix := a[..i];
    var x := a[i];
    var j := ShiftPast(a, i, x);
    a[j] := x;
    assert Insert(prefix, x) == prefix[..j] + [x] + prefix[j..] by {
      InsertAtPosition(prefix, x, j);
    }
    assert a[..i + 1] == prefix[..j] + [x] + prefix[j..] by {
      PlacedAt(a[..], prefix, x, j);
    }
  }

  /** The inner loop of the insertion pass: shifts right by one every slice
      of `a[..i]`, from the end, that lies strictly beyond `x`, and returns
      the gap left behind. */
  method ShiftPast(a: array<Slice>, i: nat, x: Slice) returns (j: nat)
    requires i < a.Length
    modifies a
    ensures j <= i
    ensures forall k :: 0 <= k < j ==> a[k] == old(a[k])
    ensures forall k :: j < k <= i ==> a[k] == old(a[k - 1])
    ensures forall k :: i < k < a.Length ==> a[k] == old(a[k])
    ensures forall k :: j <= k < i ==> old(a[k]).location > x.location
    ensures j > 0 ==> old(a[j - 1]).location <= x.location
    ensures a[j] == old(a[j])
  {
    j := i;
    while j > 0 && a[j - 1].location > x.location
      invariant j <= i
      invariant forall k :: 0 <= k < j ==> a[k] == old(a[k])
      invariant forall k :: j < k <= i ==> a[k] == old(a[k - 1])
      invariant forall k :: i < k < a.Length ==> a[k] == old(a[k])
      invariant forall k :: j <= k < i ==> old(a[k]).location > x.location
      invariant a[j] == old(a[j])
    {
      a[j] := a[j - 1];
      j := j - 1;
    }
  }

  /** The shape of a pixel array: rows, and columns of the first row. */
  function Shape(p: Image): (shape: (int, int)) {
    (|p|, if |p| == 0 then 0 else |p[0]|)
  }

  /** One layer: each raw sample times the slice's own slope plus its own
      intercept. */
  function Rescale(s: Slice): (layer: Layer) {
    seq(|s.pixels|, r requires 0 <= r < |s.pixels| =>
      seq(|s.pixels[r]|, c requires 0 <= c < |s.pixels[r]| =>
        (s.pixels[r][c] as real) * s.slope + s.intercept))
  }

  /** Stacks the rescaled layers, in the given order, along a new leading
      axis (`np.stack`), which refuses an empty list and unequal shapes. */
  function BuildVolume(slices: seq<Slice>): (result: VolumeResult) {
    if slices == [] then Failed(NoSlices)
    else if exists k :: 0 <= k < |slices| && Shape(slices[k].pixels) != Shape(slices[0].pixels)
    then Failed(ShapeMismatch)
    else Built(seq(|slices|, k requires 0 <= k < |slices| => Rescale(slices[k])))
  }

  /** The volume is built exactly when there are slices and they share one
      shape; it then has one layer per slice, in order, of that shape, and
      each voxel is its own slice's sample rescaled by that slice's
      constants. */
  lemma BuildVolumeContents(slices: seq<Slice>)
    ensures BuildVolume(slices).Built? <==>
              |slices| > 0 && forall k :: 0 <= k < |slices| ==> Shape(slices[k].pixels) == Shape(slices[0].pixels)
    ensures BuildVolume(slices).Built? ==>
              var v := BuildVolume(slices).volume;
              && |v| == |slices|
              && (forall k :: 0 <= k < |v| ==> |v[k]| == Shape(slices[0].pixels).0)
              && (forall k, r :: 0 <= k < |v| && 0 <= r < |v[k]| ==> |v[k][r]| == Shape(slices[0].pixels).1)
              && forall k, r, c :: 0 <= k < |slices| && 0 <= r < Shape(slices[0].pixels).0 && 0 <= c < Shape(slices[0].pixels).1 ==>
                   r < |v[k]| && c < |v[k][r]| && v[k][r][c] == (slices[k].pixels[r][c] as real) * slices[k].slope + slices[k].intercept
  {
    if BuildVolume(slices).Built? {
      var v := BuildVolume(slices).volume;
      forall k | 0 <= k < |v|
        ensures |v[k]| == Shape(slices[0].pixels).0
        ensures forall r :: 0 <= r < |v[k]| ==> |v[k][r]| == Shape(slices[0].pixels).1
      {
        assert Shape(slices[k].pixels) == Shape(slices[0].pixels);
        forall r | 0 <= r < |v[k]| ensures |v[k][r]| == Shape(slices[0].pixels).1 {
          assert |slices[k].pixels[r]| == |slices[k].pixels[0]|;
        }
      }
      forall k, r, c | 0 <= k < |slices| && 0 <= r < Shape(slices[0].pixels).0 && 0 <= c < Shape(slices[0].pixels).1
        ensures r < |v[k]| && c < |v[k][r]| && v[k][r][c] == (slices[k].pixels[r][c] as real) * slices[k].slope + slices[k].intercept
      {
        assert Shape(slices[k].pixels) == Shape(slices[0].pixels);
        assert |slices[k].pixels[r]| == |slices[k].pixels[0]|;
      }
    }
  }

  /** The volume step of the handler: sorts the parsed slices in place by
      location, then stacks their rescaled pixel arrays in that order. */
  method AssembleVolume(slices: array<Slice>) returns (result: VolumeResult)
    modifies slices
    ensures slices[..] == SortByLocation(old(slices[..]))
    ensures result == BuildVolume(slices[..])
  {
    SortSlices(slices);
    result := BuildVolume(slices[..]);
  }

  /** The volume built from the sorted slices does not depend on the order
      the slices arrived in, when no two share a location. */
  lemma VolumeIndependentOfArrivalOrder(a: seq<Slice>, b: seq<Slice>)
    requires multiset(a) == multiset(b)
    requires forall i, j :: 0 <= i < j < |a| ==> a[i].location != a[j].location
    ensures BuildVolume(SortByLocation(a)) == BuildVolume(SortByLocation(b))
  {
    SortDeterminedByLocations(a, b);
  }
}
