/**
 * The second helper file, src/methods/Utils.ts. Its `randInt` and
 * `getOrDefault` coincide with `ArrayUtils.RandInt` and
 * `ArrayUtils.GetOrDefault`; the members that differ are modelled here.
 */
module MethodUtils {
  import opened Results
  import ArrayUtils

  /**
   * `pickRandom` without the emptiness check: on `[]` it reads `arr[0]`,
   * which is `undefined`.
   */
  function PickRandom<T>(arr: seq<T>, r: real): (res: Option<T>)
    requires IsDraw(r)
    ensures res.None? <==> |arr| == 0
    ensures res.Some? ==> res.value in arr
  {
    if |arr| == 0 then None else Some(arr[ArrayUtils.RandInt(0, |arr|, r)])
  }

  /** `anyMatch`: scans the array and stops at the first element equal to `target`. */
  method AnyMatch<T(==)>(arr: seq<T>, target: T) returns (found: bool)
    ensures found <==> target in arr
  {
    var i := 0;
    while i < |arr|
      invariant 0 <= i <= |arr|
      invariant target !in arr[..i]
    {
      if arr[i] == target {
        return true;
      }
      assert arr[..i + 1] == arr[..i] + [arr[i]];
      i := i + 1;
    }
    assert arr[..i] == arr;
    return false;
  }

  /**
   * `remove`: finds the first occurrence by a left-to-right scan (`indexOf`)
   * and splices it out.
   */
  method Remove<T(==)>(arr: seq<T>, elem: T) returns (removed: bool, rest: seq<T>)
    ensures !removed <==> elem !in arr
    ensures !removed ==> rest == arr
    ensures removed ==> exists i :: 0 <= i < |arr| && arr[i] == elem && elem !in arr[..i]
                                   && rest == arr[..i] + arr[i + 1..]
    ensures (removed, rest) == ArrayUtils.RemoveFromArray(arr, elem)
  {
    var i := 0;
    while i < |arr|
      invariant 0 <= i <= |arr|
      invariant elem !in arr[..i]
    {
      if arr[i] == elem {
        removed, rest := true, arr[..i] + arr[i + 1..];
        FirstOccurrenceUnique(arr, elem, i);
        return;
      }
      assert arr[..i + 1] == arr[..i] + [arr[i]];
      i := i + 1;
    }
    assert arr[..i] == arr;
    removed, rest := false, arr;
  }

  /** The first occurrence of an element is unique, so any splice of it agrees with `RemoveFromArray`. */
  lemma FirstOccurrenceUnique<T>(arr: seq<T>, elem: T, i: nat)
    requires i < |arr| && arr[i] == elem && elem !in arr[..i]
    ensures ArrayUtils.RemoveFromArray(arr, elem) == (true, arr[..i] + arr[i + 1..])
  {
  }

  /**
   * `shuffle` (Fisher-Yates): `counter` runs from the length down to 1; each
   * round picks `index` in `[0, counter)`, decrements `counter` and swaps the
   * two positions. Round `t` uses draw `draws[t]`.
   */
  method Shuffle<T>(arr: seq<T>, draws: seq<real>) returns (r: seq<T>)
    requires |draws| == |arr|
    requires forall t :: 0 <= t < |draws| ==> IsDraw(draws[t])
    ensures |r| == |arr|
    ensures multiset(r) == multiset(arr)
  {
    r := arr;
    var counter := |arr|;
    while counter > 0
      invariant 0 <= counter <= |arr|
      invariant |r| == |arr|
      invariant multiset(r) == multiset(arr)
    {
      var index := ArrayUtils.RandInt(0, counter, draws[|arr| - counter]);
      counter := counter - 1;
      r := ArrayUtils.Swap(r, counter, index);
    }
  }
}
