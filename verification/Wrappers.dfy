/** Failure-compatible results. A `Failure` stands for an exception of the modelled code. */
module Wrappers {
  datatype Option<+T> = None | Some(value: T)

  datatype Result<+T> = Success(value: T) | Failure {
    predicate IsFailure() { Failure? }

    function PropagateFailure<U>(): Result<U>
      requires Failure?
    {
      Failure
    }

    function Extract(): T
      requires Success?
    {
      value
    }
  }

  /** `done` was produced and the rest of the list is still to come. */
  ghost function After<T>(done: seq<T>, r: Result<seq<T>>): Result<seq<T>> {
    if r.Success? then Success(done + r.value) else Failure
  }

  lemma AfterNothing<T>(r: Result<seq<T>>)
    ensures After([], r) == r
  {
    if r.Success? {
      assert [] + r.value == r.value;
    }
  }

  lemma AfterAll<T>(done: seq<T>)
    ensures After(done, Success([])) == Success(done)
  {
    assert done + [] == done;
  }

  lemma AfterTwice<T>(a: seq<T>, b: seq<T>, r: Result<seq<T>>)
    ensures After(a, After(b, r)) == After(a + b, r)
  {
    if r.Success? {
      assert a + (b + r.value) == a + b + r.value;
    }
  }

  lemma Associative<T>(a: seq<T>, b: seq<T>, c: seq<T>)
    ensures a + b + c == a + (b + c)
  {
  }

  lemma SliceOfFront<T>(s: seq<T>, x: seq<T>, i: nat, j: nat)
    requires i <= j <= |s|
    ensures (s + x)[i..j] == s[i..j]
    ensures (s + x)[j..] == s[j..] + x
  {
    assert |(s + x)[i..j]| == j - i;
    forall k | 0 <= k < j - i ensures (s + x)[i..j][k] == s[i..j][k] {
      assert (s + x)[i + k] == s[i + k];
    }
  }

  lemma SliceOfMiddle<T>(a: seq<T>, m: seq<T>, c: seq<T>)
    ensures (a + m + c)[|a|..|a| + |m|] == m
    ensures (a + m + c)[|a| + |m|..] == c
  {
  }
}
