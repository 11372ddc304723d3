/** Small value types shared by every part of the experiment engine. */
module Common {

  /** An optional value, used for the `error?` field of a classification record. */
  datatype Option<+T> = None | Some(value: T)

  /** A quotient kept as a pair of counts instead of a float. `Ratio(n, 0)` is a
      division by zero that the source does not guard (JavaScript would yield NaN). */
  datatype Ratio = Ratio(num: nat, den: nat)

  /** The literal `0` the source returns when it skips a division. */
  const Zero := Ratio(0, 1)

  /** The ascending run `lo, lo + 1, ..., hi - 1`. */
  function Range(lo: nat, hi: nat): (r: seq<nat>)
    requires lo <= hi
    ensures |r| == hi - lo
    ensures forall k :: 0 <= k < |r| ==> r[k] == lo + k
    decreases hi - lo
  {
    if lo == hi then [] else [lo] + Range(lo + 1, hi)
  }
}
