/** Failure-compatible result types shared by every module of the model. */
module Wrappers {

  datatype Option<+T> = None | Some(value: T)

  /** A value or the error that prevented computing it (Go's `(T, error)` pair). */
  datatype Result<+T, +E> = Success(value: T) | Failure(error: E)

  /** Success without a value, or an error (Go's lone `error` return). */
  datatype Outcome<+E> = Pass | Fail(error: E)

  /** The values of the successes among `rs`, in order. */
  function Oks<T, E>(rs: seq<Result<T, E>>): seq<T>
  {
    if rs == [] then [] else (if rs[0].Success? then [rs[0].value] else []) + Oks(rs[1..])
  }

  /** The errors of the failures among `rs`, in order. */
  function Errs<T, E>(rs: seq<Result<T, E>>): seq<E>
  {
    if rs == [] then [] else (if rs[0].Failure? then [rs[0].error] else []) + Errs(rs[1..])
  }

  lemma {:induction false} OksAppend<T, E>(a: seq<Result<T, E>>, b: seq<Result<T, E>>)
    ensures Oks(a + b) == Oks(a) + Oks(b)
  {
    if a == [] {
      assert a + b == b;
    } else {
      var head := if a[0].Success? then [a[0].value] else [];
      assert (a + b)[0] == a[0];
      assert (a + b)[1..] == a[1..] + b;
      OksAppend(a[1..], b);
      calc {
        Oks(a + b);
        head + Oks(a[1..] + b);
        head + (Oks(a[1..]) + Oks(b));
        (head + Oks(a[1..])) + Oks(b);
      }
    }
  }

  lemma {:induction false} ErrsAppend<T, E>(a: seq<Result<T, E>>, b: seq<Result<T, E>>)
    ensures Errs(a + b) == Errs(a) + Errs(b)
  {
    if a == [] {
      assert a + b == b;
    } else {
      var head := if a[0].Failure? then [a[0].error] else [];
      assert (a + b)[0] == a[0];
      assert (a + b)[1..] == a[1..] + b;
      ErrsAppend(a[1..], b);
      calc {
        Errs(a + b);
        head + Errs(a[1..] + b);
        head + (Errs(a[1..]) + Errs(b));
        (head + Errs(a[1..])) + Errs(b);
      }
    }
  }

  /** An element of a permutation of `x :: tail` can be removed from it, leaving
      a permutation of `tail`. */
  lemma RemoveFromPermutation<T>(x: T, tail: seq<T>, b: seq<T>) returns (i: nat)
    requires multiset([x] + tail) == multiset(b)
    ensures i < |b| && b[i] == x
    ensures b == b[..i] + [x] + b[i + 1..]
    ensures multiset(tail) == multiset(b[..i] + b[i + 1..])
  {
    assert x in multiset(b);
    i :| 0 <= i < |b| && b[i] == x;
    assert b == b[..i] + [x] + b[i + 1..];
    calc {
      multiset(b);
      multiset(b[..i]) + multiset([x]) + multiset(b[i + 1..]);
      multiset([x]) + multiset(b[..i] + b[i + 1..]);
    }
    assert multiset(tail) == multiset(b) - multiset([x]);
  }

  /** Taking one result out of the middle of a sequence takes its part out of
      the successes. */
  lemma OksAround<T, E>(left: seq<Result<T, E>>, x: Result<T, E>, right: seq<Result<T, E>>)
    ensures multiset(Oks(left + [x] + right)) == multiset(Oks([x])) + multiset(Oks(left + right))
  {
    OksAppend(left + [x], right);
    OksAppend(left, [x]);
    OksAppend(left, right);
    var l, m, r := Oks(left), Oks([x]), Oks(right);
    calc {
      multiset(Oks(left + [x] + right));
      multiset(l + m + r);
      multiset(l) + multiset(m) + multiset(r);
      multiset(m) + multiset(l + r);
    }
  }

  /** Taking one result out of the middle of a sequence takes its part out of
      the failures. */
  lemma ErrsAround<T, E>(left: seq<Result<T, E>>, x: Result<T, E>, right: seq<Result<T, E>>)
    ensures multiset(Errs(left + [x] + right)) == multiset(Errs([x])) + multiset(Errs(left + right))
  {
    ErrsAppend(left + [x], right);
    ErrsAppend(left, [x]);
    ErrsAppend(left, right);
    var l, m, r := Errs(left), Errs([x]), Errs(right);
    calc {
      multiset(Errs(left + [x] + right));
      multiset(l + m + r);
      multiset(l) + multiset(m) + multiset(r);
      multiset(m) + multiset(l + r);
    }
  }

  /** Splitting results into successes and failures commutes with reordering. */
  lemma {:induction false} SplitPermuted<T, E>(a: seq<Result<T, E>>, b: seq<Result<T, E>>)
    requires multiset(a) == multiset(b)
    ensures multiset(Oks(a)) == multiset(Oks(b))
    ensures multiset(Errs(a)) == multiset(Errs(b))
    decreases |a|
  {
    if a == [] {
      assert |b| == |multiset(b)| == 0;
    } else {
      assert a == [a[0]] + a[1..];
      var i := RemoveFromPermutation(a[0], a[1..], b);
      SplitPermuted(a[1..], b[..i] + b[i + 1..]);
      OksAround(b[..i], a[0], b[i + 1..]);
      ErrsAround(b[..i], a[0], b[i + 1..]);
      OksAppend([a[0]], a[1..]);
      ErrsAppend([a[0]], a[1..]);
    }
  }
}
