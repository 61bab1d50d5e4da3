/**
 * The feature registry (src/features.rs): the application keeps a vector of
 * features, indexed by the `Features` enum cast to an integer. `Insert` and
 * `ResizeWith` give the effect of the two `Vec` operations the program
 * applies to it.
 */
module Features {
  import AreaSelection

  datatype Feature = Disabled | OcrAreaSelection(feature: AreaSelection.AreaSelectionFeature)

  /** `Features::AreaSelection as usize`. */
  const AreaSelectionIndex: nat := 0

  /**
   * `Vec::insert(i, v)`: `v` lands at index `i`, the entries before it stay
   * and the entries from `i` on move one place right.
   */
  function Insert<T>(s: seq<T>, i: nat, v: T): (r: seq<T>)
    requires i <= |s|
    ensures |r| == |s| + 1
    ensures r[i] == v
    ensures forall k :: 0 <= k < i ==> r[k] == s[k]
    ensures forall k :: i <= k < |s| ==> r[k + 1] == s[k]
  {
    s[..i] + [v] + s[i..]
  }

  /**
   * `Vec::resize_with(n, f)`: the vector gets length `n`, keeps its first
   * entries and is padded with `fill` where it was shorter.
   */
  function ResizeWith<T>(s: seq<T>, n: nat, fill: T): (r: seq<T>)
    ensures |r| == n
    ensures forall k :: 0 <= k < n ==> r[k] == if k < |s| then s[k] else fill
  {
    if n <= |s| then s[..n] else s + seq(n - |s|, _ => fill)
  }
}
