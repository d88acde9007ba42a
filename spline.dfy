/// The keyframe spline of include/tpm/spline.hpp: keyframes (time, value)
/// kept in lexicographic order, a sorted insert that overwrites a keyframe
/// with the same time, and a lookup that returns a keyframe's value or a
/// cubic Hermite blend of the two keyframes around the requested time.
/// Times and values are reals (the template's value type T is a scalar
/// here).
module Spline {
  datatype Key = Key(time: real, value: real)

  /// std::pair's operator<: by time, then by value.
  predicate Less(a: Key, b: Key)
  {
    a.time < b.time || (a.time == b.time && a.value < b.value)
  }

  /// The keyframes are in lexicographic (time, value) order.
  ghost predicate Sorted(ks: seq<Key>)
  {
    forall i, j :: 0 <= i < j < |ks| ==> !Less(ks[j], ks[i])
  }

  /// Times strictly increase: no two keyframes share a time.
  ghost predicate StrictTimes(ks: seq<Key>)
  {
    forall i, j :: 0 <= i < j < |ks| ==> ks[i].time < ks[j].time
  }

  lemma StrictTimesSorted(ks: seq<Key>)
    requires StrictTimes(ks)
    ensures Sorted(ks)
  {
  }

  // ---------------------------------------------------------------------
  // std::upper_bound and std::lower_bound: the partition point of a
  // predicate that holds on a prefix of the keyframes, by binary search.

  ghost predicate Monotone(ks: seq<Key>, p: Key -> bool)
  {
    forall i, j :: 0 <= i < j < |ks| && p(ks[j]) ==> p(ks[i])
  }

  /// The first index in [lo, hi) where p fails, knowing p holds below lo
  /// and fails from hi on.
  function PartitionPoint(ks: seq<Key>, p: Key -> bool, lo: nat, hi: nat): (i: nat)
    requires Monotone(ks, p) && lo <= hi <= |ks|
    requires forall j :: 0 <= j < lo ==> p(ks[j])
    requires forall j :: hi <= j < |ks| ==> !p(ks[j])
    ensures lo <= i <= hi
    ensures forall j :: 0 <= j < i ==> p(ks[j])
    ensures forall j :: i <= j < |ks| ==> !p(ks[j])
    decreases hi - lo
  {
    if lo == hi then lo
    else
      var mid := (lo + hi) / 2;
      if p(ks[mid]) then PartitionPoint(ks, p, mid + 1, hi) else PartitionPoint(ks, p, lo, mid)
  }

  /// std::upper_bound(x): the first keyframe greater than x.
  function UpperBound(ks: seq<Key>, x: Key): (i: nat)
    requires Sorted(ks)
    ensures i <= |ks|
    ensures forall j :: 0 <= j < i ==> !Less(x, ks[j])
    ensures forall j :: i <= j < |ks| ==> Less(x, ks[j])
  {
    PartitionPoint(ks, k => !Less(x, k), 0, |ks|)
  }

  /// std::lower_bound(x): the first keyframe not less than x.
  function LowerBound(ks: seq<Key>, x: Key): (i: nat)
    requires Sorted(ks)
    ensures i <= |ks|
    ensures forall j :: 0 <= j < i ==> Less(ks[j], x)
    ensures forall j :: i <= j < |ks| ==> !Less(ks[j], x)
  {
    PartitionPoint(ks, k => Less(k, x), 0, |ks|)
  }

  // ---------------------------------------------------------------------
  // insert

  /// std::vector::insert at position i.
  function InsertAt(ks: seq<Key>, i: nat, x: Key): (r: seq<Key>)
    requires i <= |ks|
    ensures |r| == |ks| + 1 && r[i] == x
    ensures forall j :: 0 <= j < i ==> r[j] == ks[j]
    ensures forall j :: i < j < |r| ==> r[j] == ks[j - 1]
  {
    ks[..i] + [x] + ks[i..]
  }

  /// Inserting adds exactly one keyframe.
  lemma InsertAtMultiset(ks: seq<Key>, i: nat, x: Key)
    requires i <= |ks|
    ensures multiset(InsertAt(ks, i, x)) == multiset(ks) + multiset{x}
  {
    assert ks == ks[..i] + ks[i..];
  }

  /// Inserting x where everything before is not greater and everything
  /// after is not less keeps the order.
  lemma InsertAtSorted(ks: seq<Key>, i: nat, x: Key)
    requires Sorted(ks) && i <= |ks|
    requires forall j :: 0 <= j < i ==> !Less(x, ks[j])
    requires forall j :: i <= j < |ks| ==> !Less(ks[j], x)
    ensures Sorted(InsertAt(ks, i, x))
  {
    var r := InsertAt(ks, i, x);
    forall a, b | 0 <= a < b < |r|
      ensures !Less(r[b], r[a])
    {
      if b < i {
        assert r[a] == ks[a] && r[b] == ks[b];
      } else if i < a {
        assert r[a] == ks[a - 1] && r[b] == ks[b - 1];
      } else if a < i < b {
        assert r[a] == ks[a] && r[b] == ks[b - 1];
      }
    }
  }

  /// The same for strictly increasing times.
  lemma InsertAtStrict(ks: seq<Key>, i: nat, x: Key)
    requires StrictTimes(ks) && i <= |ks|
    requires forall j :: 0 <= j < i ==> ks[j].time < x.time
    requires forall j :: i <= j < |ks| ==> x.time < ks[j].time
    ensures StrictTimes(InsertAt(ks, i, x))
  {
    var r := InsertAt(ks, i, x);
    forall a, b | 0 <= a < b < |r|
      ensures r[a].time < r[b].time
    {
      if b < i {
        assert r[a] == ks[a] && r[b] == ks[b];
      } else if i < a {
        assert r[a] == ks[a - 1] && r[b] == ks[b - 1];
      } else if a < i < b {
        assert r[a] == ks[a] && r[b] == ks[b - 1];
      }
    }
  }

  /// insert(t, v) as written: find upper_bound of (t, v); when that slot
  /// has time t its value becomes v, otherwise (t, v) is inserted there.
  function Inserted(ks: seq<Key>, t: real, v: real): seq<Key>
    requires Sorted(ks)
  {
    var i := UpperBound(ks, Key(t, v));
    if i < |ks| && ks[i].time == t then ks[i := Key(t, v)] else InsertAt(ks, i, Key(t, v))
  }

  /// insert keeps the keyframes sorted and makes (t, v) a keyframe.
  lemma InsertedSorted(ks: seq<Key>, t: real, v: real)
    requires Sorted(ks)
    ensures Sorted(Inserted(ks, t, v)) && Key(t, v) in Inserted(ks, t, v)
  {
    var x := Key(t, v);
    var i := UpperBound(ks, x);
    var r := Inserted(ks, t, v);
    if i < |ks| && ks[i].time == t {
      assert r[i] == x;
      forall a, b | 0 <= a < b < |r|
        ensures !Less(r[b], r[a])
      {
        if b == i {
          assert r[a] == ks[a];
        } else if a == i {
          assert !Less(ks[b], ks[i]);
        }
      }
    } else {
      InsertAtSorted(ks, i, x);
    }
  }

  /// insert either overwrites the found slot, leaving every other keyframe
  /// as it was, or adds exactly one keyframe there.
  lemma InsertedShape(ks: seq<Key>, t: real, v: real)
    requires Sorted(ks)
    ensures var r := Inserted(ks, t, v); var i := UpperBound(ks, Key(t, v));
      if i < |ks| && ks[i].time == t then
        |r| == |ks| && r[i] == Key(t, v) && forall j :: 0 <= j < |ks| && j != i ==> r[j] == ks[j]
      else
        multiset(r) == multiset(ks) + multiset{Key(t, v)}
  {
    var i := UpperBound(ks, Key(t, v));
    if !(i < |ks| && ks[i].time == t) {
      InsertAtMultiset(ks, i, Key(t, v));
    }
  }

  /// The time the source fails to keep unique: inserting (0, 1) into the
  /// initial keyframes [(0, 0)] adds a second keyframe at time 0 instead
  /// of overwriting, because upper_bound skips the keyframe (0, 0) that is
  /// not greater than (0, 1).
  lemma InsertDuplicatesTime()
    ensures Inserted([Key(0.0, 0.0)], 0.0, 1.0) == [Key(0.0, 0.0), Key(0.0, 1.0)]
  {
    var ks := [Key(0.0, 0.0)];
    var i := UpperBound(ks, Key(0.0, 1.0));
    assert !Less(Key(0.0, 1.0), ks[0]);
    assert i == 1;
  }

  /// More generally, when no keyframe at time t has a value above v but
  /// some keyframe has time t, a second keyframe at time t appears.
  lemma InsertDuplicatesTimeWhenNotGreater(ks: seq<Key>, t: real, v: real, k: nat)
    requires Sorted(ks) && k < |ks| && ks[k].time == t
    requires forall j :: 0 <= j < |ks| && ks[j].time == t ==> ks[j].value <= v
    ensures var r := Inserted(ks, t, v);
      exists a, b :: 0 <= a < b < |r| && r[a].time == t && r[b].time == t
  {
    var x := Key(t, v);
    var i := UpperBound(ks, x);
    var r := Inserted(ks, t, v);
    assert !Less(x, ks[k]);
    assert k < i;
    assert i < |ks| ==> ks[i].time != t;
    assert r[k] == ks[k] && r[i] == x;
  }

  /// The time lookup the insert evidently intends: the first keyframe whose
  /// time is not below t.
  function TimeBound(ks: seq<Key>, t: real): (i: nat)
    requires Sorted(ks)
    ensures i <= |ks|
    ensures forall j :: 0 <= j < i ==> ks[j].time < t
    ensures forall j :: i <= j < |ks| ==> t <= ks[j].time
  {
    PartitionPoint(ks, (k: Key) => k.time < t, 0, |ks|)
  }

  /// insert(t, v) as evidently intended: a keyframe at time t gets the
  /// value v, otherwise (t, v) is inserted in time order.
  function InsertedByTime(ks: seq<Key>, t: real, v: real): seq<Key>
    requires Sorted(ks)
  {
    var i := TimeBound(ks, t);
    if i < |ks| && ks[i].time == t then ks[i := Key(t, v)] else InsertAt(ks, i, Key(t, v))
  }

  /// The intended insert keeps times strictly increasing and afterwards t
  /// has exactly the value v.
  lemma InsertedByTimeStrict(ks: seq<Key>, t: real, v: real)
    requires Sorted(ks) && StrictTimes(ks)
    ensures var r := InsertedByTime(ks, t, v);
      StrictTimes(r) && Key(t, v) in r && (forall k :: k in r && k.time == t ==> k == Key(t, v))
  {
    var x := Key(t, v);
    var i := TimeBound(ks, t);
    var r := InsertedByTime(ks, t, v);
    assert r[i] == x;
    if !(i < |ks| && ks[i].time == t) {
      InsertAtStrict(ks, i, x);
    }
    forall k | k in r && k.time == t
      ensures k == x
    {
      var j :| 0 <= j < |r| && r[j] == k;
      if j != i {
        assert r[j].time != r[i].time;
      }
    }
  }

  /// The intended insert keeps every keyframe at another time and adds
  /// none.
  lemma InsertedByTimeOthers(ks: seq<Key>, t: real, v: real, k: Key)
    requires Sorted(ks) && StrictTimes(ks) && k.time != t
    ensures k in InsertedByTime(ks, t, v) <==> k in ks
  {
    var i := TimeBound(ks, t);
    var r := InsertedByTime(ks, t, v);
    if i < |ks| && ks[i].time == t {
      if k in ks {
        var j :| 0 <= j < |ks| && ks[j] == k;
        assert r[j] == k;
      }
      if k in r {
        var j :| 0 <= j < |r| && r[j] == k;
        assert ks[j] == k;
      }
    } else {
      if k in ks {
        var j :| 0 <= j < |ks| && ks[j] == k;
        if j < i {
          assert r[j] == k;
        } else {
          assert r[j + 1] == k;
        }
      }
      if k in r {
        var j :| 0 <= j < |r| && r[j] == k;
        if j < i {
          assert ks[j] == k;
        } else if i < j {
          assert ks[j - 1] == k;
        }
      }
    }
  }

  // ---------------------------------------------------------------------
  // operator[]

  /// std::numeric_limits<float>::epsilon(), 2^-23.
  const FloatEpsilon: real := 1.0 / 8388608.0

  /// A requested time this close to a keyframe's time reads that keyframe.
  const Tolerance: real := 10.0 * FloatEpsilon

  /// The result of a lookup: a value, or the infinity/NaN that a division
  /// by a zero time difference produces in floating point (two keyframes
  /// sharing a time).
  datatype Sample = Value(v: real) | NonFinite

  /// The cubic Hermite blend of y1 (u = 0) and y2 (u = 1) with tangents m1
  /// and m2 over a time step dt.
  function Hermite(u: real, y1: real, y2: real, dt: real, m1: real, m2: real): real
  {
    (1.0 + 2.0 * u) * (1.0 - u) * (1.0 - u) * y1 +
    u * (1.0 - u) * (1.0 - u) * dt * m1 +
    u * u * (3.0 - 2.0 * u) * y2 +
    u * u * (u - 1.0) * dt * m2
  }

  /// The blend starts at y1 and ends at y2, whatever the tangents.
  lemma HermiteEnds(y1: real, y2: real, dt: real, m1: real, m2: real)
    ensures Hermite(0.0, y1, y2, dt, m1, m2) == y1
    ensures Hermite(1.0, y1, y2, dt, m1, m2) == y2
  {
  }

  /// The slope between two keyframes, or NonFinite when they share a time.
  function Slope(a: Key, b: Key): Sample
  {
    if b.time == a.time then NonFinite else Value((b.value - a.value) / (b.time - a.time))
  }

  /// Half the sum of two slopes.
  function Mean(a: Sample, b: Sample): Sample
  {
    if a.NonFinite? || b.NonFinite? then NonFinite else Value(0.5 * (a.v + b.v))
  }

  /// The lookup is defined when lower_bound does not run past the last
  /// keyframe: the source dereferences end() otherwise.
  predicate InRange(ks: seq<Key>, t: real)
  {
    |ks| > 0 && !Less(ks[|ks| - 1], Key(t, 0.0))
  }

  /// operator[](t): lower_bound of (t, T()) is p2.  At the first keyframe,
  /// or within Tolerance of p2's time, p2's value is returned; otherwise
  /// the value is blended between p1 (the keyframe before p2) and p2, with
  /// tangents averaged from the neighbouring slopes where p0 and p3 exist.
  function At(ks: seq<Key>, t: real): Sample
    requires Sorted(ks) && InRange(ks, t)
  {
    var i := LowerBound(ks, Key(t, 0.0));
    var p2 := ks[i];
    if i == 0 || t > p2.time then Value(p2.value)
    else if t <= p2.time + Tolerance && t >= p2.time - Tolerance then Value(p2.value)
    else
      var p1 := ks[i - 1];
      var s12 := Slope(p1, p2);
      var m1 := if i - 1 == 0 then s12 else Mean(s12, Slope(ks[i - 2], p1));
      var m2 := if i + 1 == |ks| then s12 else Mean(Slope(p2, ks[i + 1]), s12);
      if m1.NonFinite? || m2.NonFinite? || s12.NonFinite? then NonFinite
      else
        var u := (t - p1.time) / (p2.time - p1.time);
        Value(Hermite(u, p1.value, p2.value, p2.time - p1.time, m1.v, m2.v))
  }

  /// Before the first keyframe the lookup holds the first value.
  lemma AtBeforeFirst(ks: seq<Key>, t: real)
    requires Sorted(ks) && |ks| > 0 && t < ks[0].time
    ensures InRange(ks, t) && At(ks, t) == Value(ks[0].value)
  {
    assert !Less(ks[|ks| - 1], ks[0]);
    var i := LowerBound(ks, Key(t, 0.0));
    assert !Less(ks[0], Key(t, 0.0));
  }

  /// When times strictly increase the lookup never divides by zero.
  lemma AtFinite(ks: seq<Key>, t: real)
    requires StrictTimes(ks) && InRange(ks, t)
    ensures At(ks, t).Value?
  {
    var i := LowerBound(ks, Key(t, 0.0));
    if 0 < i && !(t <= ks[i].time + Tolerance && t >= ks[i].time - Tolerance) {
      assert ks[i - 1].time < ks[i].time;
      if i - 1 > 0 {
        assert ks[i - 2].time < ks[i - 1].time;
      }
      if i + 1 < |ks| {
        assert ks[i].time < ks[i + 1].time;
      }
    }
  }

  /// When times strictly increase, looking up a keyframe's own time reads
  /// that keyframe's value, as long as the keyframe is the last or its
  /// value is not negative (a negative value sorts it before (t, T()), and
  /// the blend from it is then used).
  lemma AtKeyframe(ks: seq<Key>, k: nat)
    requires Sorted(ks) && StrictTimes(ks) && k < |ks| && (k == |ks| - 1 ==> ks[k].value >= 0.0)
    requires ks[k].value < 0.0 ==> ks[k + 1].time - ks[k].time > Tolerance
    ensures InRange(ks, ks[k].time) && At(ks, ks[k].time) == Value(ks[k].value)
  {
    if ks[k].value >= 0.0 {
      AtKeyframeFound(ks, k);
    } else {
      AtKeyframeBlended(ks, k);
    }
  }

  lemma AtKeyframeFound(ks: seq<Key>, k: nat)
    requires Sorted(ks) && StrictTimes(ks) && k < |ks| && ks[k].value >= 0.0
    ensures InRange(ks, ks[k].time) && At(ks, ks[k].time) == Value(ks[k].value)
  {
    var t := ks[k].time;
    var x := Key(t, 0.0);
    assert !Less(ks[k], x);
    assert !Less(ks[|ks| - 1], ks[k]);
    var i := LowerBound(ks, x);
    if k > 0 {
      assert ks[k - 1].time < t;
      assert Less(ks[k - 1], x);
    }
    assert i == k;
  }

  lemma AtKeyframeBlended(ks: seq<Key>, k: nat)
    requires Sorted(ks) && StrictTimes(ks) && k + 1 < |ks| && ks[k].value < 0.0
    requires ks[k + 1].time - ks[k].time > Tolerance
    ensures InRange(ks, ks[k].time) && At(ks, ks[k].time) == Value(ks[k].value)
  {
    var t := ks[k].time;
    var x := Key(t, 0.0);
    assert ks[k].time < ks[k + 1].time;
    assert !Less(ks[k + 1], x);
    assert !Less(ks[|ks| - 1], ks[k + 1]);
    var i := LowerBound(ks, x);
    assert Less(ks[k], x);
    assert i == k + 1;
    AtFinite(ks, t);
    var p1, p2 := ks[k], ks[k + 1];
    assert (t - p1.time) / (p2.time - p1.time) == 0.0;
  }

  // ---------------------------------------------------------------------
  // Spline

  class Spline {
    /// The keyframes, (time, value) pairs in lexicographic order.
    var keyframes: seq<Key>

    ghost predicate Valid()
      reads this
    {
      |keyframes| > 0 && Sorted(keyframes)
    }

    /// Spline(v): a single keyframe (0, v).
    constructor(v: real)
      ensures keyframes == [Key(0.0, v)] && Valid() && StrictTimes(keyframes)
    {
      keyframes := [Key(0.0, v)];
    }

    /// insert(t, v) as written.
    method Insert(t: real, v: real)
      requires Valid()
      modifies this
      ensures keyframes == Inserted(old(keyframes), t, v) && Valid()
    {
      InsertedSorted(keyframes, t, v);
      var i := UpperBound(keyframes, Key(t, v));
      if i < |keyframes| && keyframes[i].time == t {
        keyframes := keyframes[i := keyframes[i].(value := v)];
      } else {
        keyframes := keyframes[..i] + [Key(t, v)] + keyframes[i..];
      }
    }

    /// insert(t, v) as evidently intended: a keyframe at time t is
    /// overwritten whatever its value.
    method InsertByTime(t: real, v: real)
      requires Valid() && StrictTimes(keyframes)
      modifies this
      ensures keyframes == InsertedByTime(old(keyframes), t, v) && Valid() && StrictTimes(keyframes)
    {
      InsertedByTimeStrict(keyframes, t, v);
      var i := TimeBound(keyframes, t);
      if i < |keyframes| && keyframes[i].time == t {
        keyframes := keyframes[i := keyframes[i].(value := v)];
      } else {
        keyframes := keyframes[..i] + [Key(t, v)] + keyframes[i..];
      }
      StrictTimesSorted(keyframes);
    }
  }
}
