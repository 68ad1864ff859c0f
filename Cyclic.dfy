/** Stepping a playlist position forward and backward modulo the playlist
    length, as all three servers do with `(i + 1) % len` and
    `(i - 1 + len) % len`. */
module Cyclic {
  import opened Common

  /** `(i + 1) % n`: the position after `i`, wrapping to 0 past the end. */
  function NextIndex(i: nat, n: nat): (r: nat)
    requires n > 0
    ensures r < n
    ensures i < n ==> r == if i == n - 1 then 0 else i + 1
  {
    (i + 1) % n
  }

  /** `(i - 1 + n) % n`: the position before `i`, wrapping to the end below 0. */
  function PrevIndex(i: nat, n: nat): (r: nat)
    requires n > 0
    ensures r < n
    ensures i < n ==> r == if i == 0 then n - 1 else i - 1
  {
    (i - 1 + n) % n
  }

  /** Going back after going forward restores the position, and vice versa. */
  lemma PrevNextInverse(i: nat, n: nat)
    requires i < n
    ensures PrevIndex(NextIndex(i, n), n) == i
    ensures NextIndex(PrevIndex(i, n), n) == i
  {
  }

  /** The position reached from `i` after `k` forward steps. */
  function Steps(i: nat, n: nat, k: nat): nat
    requires n > 0
  {
    if k == 0 then i else NextIndex(Steps(i, n, k - 1), n)
  }

  /** Within one lap, `k` forward steps from `i` land on `i + k`, wrapped once. */
  lemma {:induction false} StepsWrapOnce(i: nat, n: nat, k: nat)
    requires i < n && k <= n
    ensures Steps(i, n, k) == if i + k < n then i + k else i + k - n
  {
    if k > 0 {
      StepsWrapOnce(i, n, k - 1);
    }
  }

  /** The `n` positions of one lap started at `i`, in the order they are visited. */
  function Lap(i: nat, n: nat): seq<nat>
    requires n > 0
  {
    seq(n, (k: nat) requires k < n => Steps(i, n, k))
  }

  /** `n` forward steps from any position visit every position exactly once
      and come back to the start on the `n`-th step. */
  lemma StepsCycle(i: nat, n: nat)
    requires i < n
    ensures Steps(i, n, n) == i
    ensures NoDup(Lap(i, n))
    ensures forall j | 0 <= j < n :: j in Lap(i, n)
  {
    StepsWrapOnce(i, n, n);
    var lap := Lap(i, n);
    forall k1, k2 | 0 <= k1 < k2 < n ensures lap[k1] != lap[k2] {
      StepsWrapOnce(i, n, k1);
      StepsWrapOnce(i, n, k2);
    }
    forall j | 0 <= j < n ensures j in lap {
      var k := if i <= j then j - i else j + n - i;
      StepsWrapOnce(i, n, k);
      assert lap[k] == j;
    }
  }
}
