/**
 * Array helpers of src/utils/Utils.ts: random picks, first-occurrence
 * removal, defaults, an in-place shuffle, extrema with their indices, sum and
 * average. Arrays are sequences; an operation that mutates its array returns
 * the new contents instead. Every `Math.random()` is an explicit draw in
 * [0, 1).
 */
module ArrayUtils {
  import opened Results

  /** A draw in [0, 1) scales a non-negative span to at most the span, strictly below it when positive. */
  lemma ScaleBelow(r: real, span: real)
    requires IsDraw(r) && 0.0 <= span
    ensures 0.0 <= r * span <= span
    ensures 0.0 < span ==> r * span < span
  {
    assert span - r * span == (1.0 - r) * span;
  }

  /** `randInt(min, max)`: `floor(random * (max - min) + min)`. */
  function RandInt(lo: int, hi: int, r: real): (k: int)
    requires IsDraw(r)
    ensures lo < hi ==> lo <= k < hi
    ensures lo == hi ==> k == lo
  {
    var span := (hi - lo) as real;
    if lo < hi then
      ScaleBelow(r, span);
      (r * span + lo as real).Floor
    else
      (r * span + lo as real).Floor
  }

  /** `randDouble(min, max)`: `random * (max - min) + min`. */
  function RandDouble(lo: real, hi: real, r: real): (x: real)
    requires IsDraw(r)
    ensures lo <= hi ==> lo <= x <= hi
    ensures lo < hi ==> x < hi
  {
    var span := hi - lo;
    var offset := r * span;
    if span < 0.0 then offset + lo
    else
      ScaleBelow(r, span);
      assert 0.0 <= offset <= span;
      assert 0.0 < span ==> offset < span;
      offset + lo
  }

  /** Every position can be picked: the draw `i / |arr|` picks position `i`. */
  lemma PickReaches<T>(arr: seq<T>, i: nat)
    requires i < |arr|
    ensures IsDraw(i as real / |arr| as real)
    ensures PickRandom(arr, i as real / |arr| as real) == Ok(arr[i])
  {
    var r := i as real / |arr| as real;
    assert r * |arr| as real == i as real;
    assert (r * |arr| as real + 0 as real).Floor == i;
    assert RandInt(0, |arr|, r) == i;
  }

  /** `pickRandom`: throws a RangeError on an empty array, otherwise one of its elements. */
  function PickRandom<T>(arr: seq<T>, r: real): (res: Result<T>)
    requires IsDraw(r)
    ensures res.Err? <==> |arr| == 0
    ensures res.Err? ==> res.error.RangeError?
    ensures res.Ok? ==> exists i :: 0 <= i < |arr| && arr[i] == res.value
  {
    if |arr| == 0 then Err(RangeError("Cannot pick from an empty array"))
    else
      var i := RandInt(0, |arr|, r);
      Ok(arr[i])
  }

  /** Position of the first occurrence of `x` in `s` (`indexOf`), `None` for -1. */
  function IndexOf<T(==)>(s: seq<T>, x: T): (r: Option<nat>)
    ensures r.None? <==> x !in s
    ensures r.Some? ==> r.value < |s| && s[r.value] == x && x !in s[..r.value]
  {
    if |s| == 0 then None
    else if s[0] == x then Some(0)
    else
      match IndexOf(s[1..], x)
      case None => None
      case Some(i) =>
        assert s[1..][..i] == s[1..i + 1];
        assert s[..i + 1] == [s[0]] + s[1..i + 1];
        Some(i + 1)
  }

  /**
   * `removeFromArray`: returns whether `elem` was present, together with the
   * array after `splice(indexOf(elem), 1)`.
   */
  function RemoveFromArray<T(==)>(arr: seq<T>, elem: T): (res: (bool, seq<T>))
    ensures !res.0 <==> elem !in arr
    ensures !res.0 ==> res.1 == arr
    ensures res.0 ==> |res.1| == |arr| - 1
    ensures res.0 ==> exists i :: 0 <= i < |arr| && arr[i] == elem && elem !in arr[..i]
                                  && res.1 == arr[..i] + arr[i + 1..]
    ensures multiset(res.1) == multiset(arr) - multiset{elem}
  {
    match IndexOf(arr, elem)
    case None => (false, arr)
    case Some(i) =>
      assert arr == arr[..i] + [arr[i]] + arr[i + 1..];
      (true, arr[..i] + arr[i + 1..])
  }

  /** `getOrDefault`: `value ?? defaultValue`, so both `undefined` and `null` fall back. */
  function GetOrDefault<T>(value: Option<T>, defaultValue: T): (r: T)
    ensures value.Some? ==> r == value.value
    ensures value.None? ==> r == defaultValue
  {
    value.GetOr(defaultValue)
  }

  /** Swap of positions `i` and `j`. */
  function Swap<T>(s: seq<T>, i: nat, j: nat): (r: seq<T>)
    requires i < |s| && j < |s|
    ensures |r| == |s| && multiset(r) == multiset(s)
    ensures r[i] == s[j] && r[j] == s[i]
    ensures forall k :: 0 <= k < |s| && k != i && k != j ==> r[k] == s[k]
  {
    s[i := s[j]][j := s[i]]
  }

  /**
   * `shuffle`: for `counter` from `length - 1` down to 1, swaps position
   * `counter` with a random position in `[0, counter)`. Iteration `t` uses
   * draw `draws[t]`.
   */
  method Shuffle<T>(arr: seq<T>, draws: seq<real>) returns (r: seq<T>)
    requires |draws| == |arr|
    requires forall t :: 0 <= t < |draws| ==> IsDraw(draws[t])
    ensures |r| == |arr|
    ensures multiset(r) == multiset(arr)
  {
    r := arr;
    var counter := |arr| - 1;
    while counter > 0
      invariant counter < |arr| || |arr| == 0
      invariant |r| == |arr|
      invariant multiset(r) == multiset(arr)
    {
      var index := RandInt(0, counter, draws[|arr| - 1 - counter]);
      r := Swap(r, counter, index);
      counter := counter - 1;
    }
  }

  /** `max`: the first element, replaced by every strictly larger one; `undefined` on `[]`. */
  method Max(arr: seq<real>) returns (m: Option<real>)
    ensures m.None? <==> |arr| == 0
    ensures m.Some? ==> m.value in arr
    ensures m.Some? ==> forall j :: 0 <= j < |arr| ==> arr[j] <= m.value
  {
    if |arr| == 0 {
      return None;
    }
    var maxValue := arr[0];
    var i := 1;
    while i < |arr|
      invariant 1 <= i <= |arr|
      invariant maxValue in arr[..i]
      invariant forall j :: 0 <= j < i ==> arr[j] <= maxValue
    {
      if arr[i] > maxValue {
        maxValue := arr[i];
      }
      i := i + 1;
    }
    assert arr[..i] == arr;
    m := Some(maxValue);
  }

  /** `maxValueIndex`: the first index holding a maximal element; 0 on `[]`. */
  method MaxValueIndex(arr: seq<real>) returns (k: nat)
    ensures |arr| == 0 ==> k == 0
    ensures |arr| > 0 ==> k < |arr|
    ensures |arr| > 0 ==> forall j :: 0 <= j < |arr| ==> arr[j] <= arr[k]
    ensures |arr| > 0 ==> forall j :: 0 <= j < k ==> arr[j] < arr[k]
  {
    if |arr| == 0 {
      return 0;
    }
    var maxValue := arr[0];
    k := 0;
    var i := 1;
    while i < |arr|
      invariant 1 <= i <= |arr|
      invariant k < i && maxValue == arr[k]
      invariant forall j :: 0 <= j < i ==> arr[j] <= maxValue
      invariant forall j :: 0 <= j < k ==> arr[j] < maxValue
    {
      if arr[i] > maxValue {
        maxValue := arr[i];
        k := i;
      }
      i := i + 1;
    }
  }

  /** `minValueIndex`: the first index holding a minimal element; 0 on `[]`. */
  method MinValueIndex(arr: seq<real>) returns (k: nat)
    ensures |arr| == 0 ==> k == 0
    ensures |arr| > 0 ==> k < |arr|
    ensures |arr| > 0 ==> forall j :: 0 <= j < |arr| ==> arr[k] <= arr[j]
    ensures |arr| > 0 ==> forall j :: 0 <= j < k ==> arr[k] < arr[j]
  {
    if |arr| == 0 {
      return 0;
    }
    var minValue := arr[0];
    k := 0;
    var i := 1;
    while i < |arr|
      invariant 1 <= i <= |arr|
      invariant k < i && minValue == arr[k]
      invariant forall j :: 0 <= j < i ==> minValue <= arr[j]
      invariant forall j :: 0 <= j < k ==> minValue < arr[j]
    {
      if arr[i] < minValue {
        minValue := arr[i];
        k := i;
      }
      i := i + 1;
    }
  }

  /** `min`: the first element, replaced by every strictly smaller one; `undefined` on `[]`. */
  method Min(arr: seq<real>) returns (m: Option<real>)
    ensures m.None? <==> |arr| == 0
    ensures m.Some? ==> m.value in arr
    ensures m.Some? ==> forall j :: 0 <= j < |arr| ==> m.value <= arr[j]
  {
    if |arr| == 0 {
      return None;
    }
    var minValue := arr[0];
    var i := 1;
    while i < |arr|
      invariant 1 <= i <= |arr|
      invariant minValue in arr[..i]
      invariant forall j :: 0 <= j < i ==> minValue <= arr[j]
    {
      if arr[i] < minValue {
        minValue := arr[i];
      }
      i := i + 1;
    }
    assert arr[..i] == arr;
    m := Some(minValue);
  }

  /** Reference definition: the left fold of `+` from 0. */
  function SeqSum(s: seq<real>): real {
    if |s| == 0 then 0.0 else SeqSum(s[..|s| - 1]) + s[|s| - 1]
  }

  /** `sum`: accumulates the elements left to right, starting from 0. */
  method Sum(arr: seq<real>) returns (total: real)
    ensures total == SeqSum(arr)
  {
    total := 0.0;
    var i := 0;
    while i < |arr|
      invariant 0 <= i <= |arr|
      invariant total == SeqSum(arr[..i])
    {
      assert arr[..i + 1][..i] == arr[..i];
      total := total + arr[i];
      i := i + 1;
    }
    assert arr[..i] == arr;
  }

  /** `avg`: `sum / length`; `NaN` (here `None`) on `[]`. */
  function Avg(arr: seq<real>): (a: Option<real>)
    ensures a.None? <==> |arr| == 0
    ensures a.Some? ==> a.value * |arr| as real == SeqSum(arr)
  {
    if |arr| == 0 then None else Some(SeqSum(arr) / |arr| as real)
  }

  /** Every element at most `hi` gives a sum at most `length * hi` (and dually for `lo`). */
  lemma {:induction false} SumBounds(s: seq<real>, lo: real, hi: real)
    requires forall j :: 0 <= j < |s| ==> lo <= s[j] <= hi
    ensures |s| as real * lo <= SeqSum(s) <= |s| as real * hi
  {
    if |s| > 0 {
      SumBounds(s[..|s| - 1], lo, hi);
    }
  }

  /** The average of a non-empty arr lies between its minimum and its maximum. */
  lemma AvgBetweenExtrema(s: seq<real>, lo: real, hi: real)
    requires |s| > 0
    requires forall j :: 0 <= j < |s| ==> lo <= s[j] <= hi
    ensures lo <= Avg(s).value <= hi
  {
    SumBounds(s, lo, hi);
    var n := |s| as real;
    var a := Avg(s).value;
    assert a * n == SeqSum(s);
    assert n * lo <= a * n <= n * hi;
  }
}
