/** Strictly sorted sequences, and the binary search the capability checks run on them. */
module Ordering {

  ghost predicate StrictTotalOrder<T(!new)>(less: (T, T) -> bool) {
    && (forall x :: !less(x, x))
    && (forall x, y :: x == y || less(x, y) || less(y, x))
    && (forall x, y, z :: less(x, y) && less(y, z) ==> less(x, z))
  }

  /** Every adjacent pair ascends strictly. */
  predicate StrictlySorted<T>(s: seq<T>, less: (T, T) -> bool) {
    forall i | 0 <= i < |s| - 1 :: less(s[i], s[i + 1])
  }

  predicate NatLess(x: nat, y: nat) { x < y }

  /** Byte-wise string order; the built-in `<` on strings is the prefix order. */
  predicate StringLess(x: string, y: string) {
    if |y| == 0 then false
    else if |x| == 0 then true
    else x[0] < y[0] || (x[0] == y[0] && StringLess(x[1..], y[1..]))
  }

  lemma {:induction false} StringLessTransitive(x: string, y: string, z: string)
    requires StringLess(x, y) && StringLess(y, z)
    ensures StringLess(x, z)
  {
    if |x| != 0 && x[0] == y[0] && y[0] == z[0] {
      StringLessTransitive(x[1..], y[1..], z[1..]);
    }
  }

  lemma {:induction false} StringLessIrreflexive(x: string)
    ensures !StringLess(x, x)
  {
    if |x| != 0 { StringLessIrreflexive(x[1..]); }
  }

  lemma {:induction false} StringLessTotal(x: string, y: string)
    ensures x == y || StringLess(x, y) || StringLess(y, x)
  {
    if |x| != 0 && |y| != 0 {
      StringLessTotal(x[1..], y[1..]);
      assert x == [x[0]] + x[1..] && y == [y[0]] + y[1..];
    }
  }

  lemma StringOrder()
    ensures StrictTotalOrder(StringLess)
  {
    forall x, y ensures !StringLess(x, x) && (x == y || StringLess(x, y) || StringLess(y, x)) {
      StringLessIrreflexive(x);
      StringLessTotal(x, y);
    }
    forall x, y, z | StringLess(x, y) && StringLess(y, z) ensures StringLess(x, z) {
      StringLessTransitive(x, y, z);
    }
  }

  lemma {:induction false} SortedPairs<T(!new)>(s: seq<T>, less: (T, T) -> bool, i: nat, j: nat)
    requires StrictTotalOrder(less) && StrictlySorted(s, less)
    requires i < j < |s|
    ensures less(s[i], s[j])
    decreases j
  {
    if i + 1 < j {
      SortedPairs(s, less, i, j - 1);
      assert less(s[j - 1], s[j - 1 + 1]);
    }
  }

  lemma SortedDistinct(s: seq<nat>, i: nat, j: nat)
    requires StrictlySorted(s, NatLess)
    requires i < |s| && j < |s| && s[i] == s[j]
    ensures i == j
  {
    assert StrictTotalOrder(NatLess);
    if i < j { SortedPairs(s, NatLess, i, j); }
    if j < i { SortedPairs(s, NatLess, j, i); }
  }

  /** Halves the candidate range; on an unsorted input a present value may be missed. */
  predicate BinarySearch<T>(s: seq<T>, v: T, less: (T, T) -> bool) {
    if |s| == 0 then false
    else
      var m := |s| / 2;
      if less(s[m], v) then BinarySearch(s[m + 1..], v, less)
      else if less(v, s[m]) then BinarySearch(s[..m], v, less)
      else true
  }

  /** On a strictly sorted sequence the halving search is exactly membership. */
  lemma {:induction false} BinarySearchIsMembership<T(!new)>(s: seq<T>, v: T, less: (T, T) -> bool)
    requires StrictTotalOrder(less) && StrictlySorted(s, less)
    ensures BinarySearch(s, v, less) <==> v in s
    decreases |s|
  {
    if |s| != 0 {
      var m := |s| / 2;
      assert s == s[..m] + [s[m]] + s[m + 1..];
      forall k | 0 <= k < m ensures less(s[k], s[m]) { SortedPairs(s, less, k, m); }
      forall k | m < k < |s| ensures less(s[m], s[k]) { SortedPairs(s, less, m, k); }
      if less(s[m], v) {
        var rest := s[m + 1..];
        forall i | 0 <= i < |rest| - 1 ensures less(rest[i], rest[i + 1]) {
          assert less(s[m + 1 + i], s[m + 1 + i + 1]);
        }
        BinarySearchIsMembership(rest, v, less);
        assert forall k | 0 <= k <= m :: s[k] != v;
      } else if less(v, s[m]) {
        BinarySearchIsMembership(s[..m], v, less);
        assert forall k | m <= k < |s| :: s[k] != v;
      }
    }
  }
}
