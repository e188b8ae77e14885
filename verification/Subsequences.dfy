/** Sequences got from others by leaving elements out. */
module Subsequences {
  /** `xs` can be got from `ys` by leaving elements out. */
  ghost predicate Subsequence<T>(xs: seq<T>, ys: seq<T>) {
    if xs == [] then true
    else if ys == [] then false
    else Subsequence(xs, ys[..|ys| - 1]) || (xs[|xs| - 1] == ys[|ys| - 1] && Subsequence(xs[..|xs| - 1], ys[..|ys| - 1]))
  }

  lemma {:induction false} SubsequenceExtends<T>(xs: seq<T>, ys: seq<T>, y: T)
    requires Subsequence(xs, ys)
    ensures Subsequence(xs, ys + [y]) && Subsequence(xs + [y], ys + [y])
  {
    assert (ys + [y])[..|ys|] == ys;
    assert (xs + [y])[..|xs|] == xs;
  }

  /** Leaving out one more element of the middle keeps a subsequence. */
  lemma {:induction false} SubsequenceSkips<T>(front: seq<T>, x: T, rear: seq<T>, ys: seq<T>)
    requires Subsequence(front + [x] + rear, ys)
    ensures Subsequence(front + rear, ys)
    decreases |ys|
  {
    var whole := front + [x] + rear;
    if front + rear != [] && ys != [] {
      var init := ys[..|ys| - 1];
      if Subsequence(whole, init) {
        SubsequenceSkips(front, x, rear, init);
      } else if rear == [] {
        assert whole[..|whole| - 1] == front && front + rear == front;
      } else {
        assert whole[..|whole| - 1] == front + [x] + rear[..|rear| - 1];
        SubsequenceSkips(front, x, rear[..|rear| - 1], init);
        assert (front + rear)[..|front + rear| - 1] == front + rear[..|rear| - 1];
      }
    }
  }

  lemma {:induction false} SubsequenceDrops<T>(front: seq<T>, rear: seq<T>, n: nat, ys: seq<T>)
    requires n <= |rear| && Subsequence(front + rear, ys)
    ensures Subsequence(front + rear[n..], ys)
  {
    if n > 0 {
      assert front + rear == front + [rear[0]] + rear[1..];
      SubsequenceSkips(front, rear[0], rear[1..], ys);
      SubsequenceDrops(front, rear[1..], n - 1, ys);
      assert rear[1..][n - 1..] == rear[n..];
    } else {
      assert rear[0..] == rear;
    }
  }
}
