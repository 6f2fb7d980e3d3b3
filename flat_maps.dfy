/** Concatenating the images of a sequence under a function, and why the multiset of the
    result depends only on the multiset of the argument: the fact that lets a sequential
    model of an unordered parallel loop stand for every order of execution. */
module FlatMaps {

  /** `f(s[0]) + f(s[1]) + ...` */
  function FlatMap<T, U>(f: T -> seq<U>, s: seq<T>): seq<U>
  {
    if s == [] then [] else f(s[0]) + FlatMap(f, s[1..])
  }

  lemma {:induction false} FlatMapAppend<T, U>(f: T -> seq<U>, a: seq<T>, b: seq<T>)
    ensures FlatMap(f, a + b) == FlatMap(f, a) + FlatMap(f, b)
  {
    if a == [] {
      assert a + b == b;
    } else {
      assert (a + b)[1..] == a[1..] + b;
      FlatMapAppend(f, a[1..], b);
    }
  }

  lemma FlatMapSingle<T, U>(f: T -> seq<U>, x: T)
    ensures FlatMap(f, [x]) == f(x)
  {
    assert [x][1..] == [];
  }

  /** Taking out the element at position k takes out exactly its image. */
  lemma FlatMapRemove<T, U>(f: T -> seq<U>, t: seq<T>, k: nat)
    requires k < |t|
    ensures multiset(FlatMap(f, t)) == multiset(f(t[k])) + multiset(FlatMap(f, t[..k] + t[k+1..]))
  {
    var a, x, b := t[..k], t[k], t[k+1..];
    assert t == (a + [x]) + b;
    FlatMapAppend(f, a + [x], b);
    FlatMapAppend(f, a, [x]);
    FlatMapAppend(f, a, b);
    FlatMapSingle(f, x);
    var fa, fx, fb := FlatMap(f, a), f(x), FlatMap(f, b);
    assert FlatMap(f, t) == fa + fx + fb;
    assert FlatMap(f, a + b) == fa + fb;
    assert multiset(fa + fx + fb) == multiset(fa) + multiset(fx) + multiset(fb);
    assert multiset(fa + fb) == multiset(fa) + multiset(fb);
  }

  /** Running a sub-multiset of the units, in any order, yields a sub-multiset of the outputs. */
  lemma {:induction false} FlatMapSubBag<T, U>(f: T -> seq<U>, s: seq<T>, t: seq<T>)
    requires multiset(s) <= multiset(t)
    ensures multiset(FlatMap(f, s)) <= multiset(FlatMap(f, t))
  {
    if s != [] {
      var x := s[0];
      assert s == [x] + s[1..];
      assert x in multiset(t);
      var k :| 0 <= k < |t| && t[k] == x;
      var t' := t[..k] + t[k+1..];
      assert t == t[..k] + [t[k]] + t[k+1..];
      assert multiset(t) == multiset(t') + multiset{x};
      assert multiset(s) == multiset(s[1..]) + multiset{x};
      assert multiset(s[1..]) <= multiset(t') by {
        forall y ensures multiset(s[1..])[y] <= multiset(t')[y] {
          assert multiset(s)[y] <= multiset(t)[y];
        }
      }
      FlatMapSubBag(f, s[1..], t');
      FlatMapRemove(f, t, k);
    }
  }

  /** Running all units in any order yields the outputs of the in-order run, rearranged. */
  lemma FlatMapPermutation<T, U>(f: T -> seq<U>, s: seq<T>, t: seq<T>)
    requires multiset(s) == multiset(t)
    ensures multiset(FlatMap(f, s)) == multiset(FlatMap(f, t))
  {
    FlatMapSubBag(f, s, t);
    FlatMapSubBag(f, t, s);
  }

  /** A property of every element of every image is a property of every element of the result. */
  lemma {:induction false} FlatMapEvery<T, U>(f: T -> seq<U>, s: seq<T>, P: U -> bool)
    requires forall x, y :: x in s && y in f(x) ==> P(y)
    ensures forall y :: y in FlatMap(f, s) ==> P(y)
  {
    if s != [] {
      FlatMapEvery(f, s[1..], P);
    }
  }

  /** One step of an unordered loop: taking element `k` out of what is left to do and adding
      it to what is done keeps the two together equal to the whole. */
  lemma TakeOut<T>(done: seq<T>, todo: seq<T>, all: seq<T>, k: nat)
    requires k < |todo| && multiset(done) + multiset(todo) == multiset(all)
    ensures multiset(done + [todo[k]]) + multiset(todo[..k] + todo[k+1..]) == multiset(all)
  {
    assert todo == todo[..k] + [todo[k]] + todo[k+1..];
  }

  /** `acc` is made of the images of `done`: some of them, and all of them when `exact`,
      each as often as it occurs. */
  predicate Covers<T, U(==)>(f: T -> seq<U>, done: seq<T>, acc: seq<U>, exact: bool)
  {
    && multiset(acc) <= multiset(FlatMap(f, done))
    && (exact ==> multiset(acc) == multiset(FlatMap(f, done)))
  }

  /** One step of an unordered loop: adding the images `e` of one more element `x` keeps the
      output within, or equal to, the images of the elements processed so far. */
  lemma FlatMapStep<T, U>(f: T -> seq<U>, done: seq<T>, x: T, acc: seq<U>, e: seq<U>, exact: bool, exactE: bool)
    requires Covers(f, done, acc, exact)
    requires multiset(e) <= multiset(f(x)) && (exactE ==> multiset(e) == multiset(f(x)))
    ensures Covers(f, done + [x], acc + e, exact && exactE)
  {
    FlatMapAppend(f, done, [x]);
    FlatMapSingle(f, x);
  }

  /** At the end of an unordered loop: a sub-multiset of the elements yields a sub-multiset of
      the images, all of them yield all of the images. */
  lemma FlatMapFinish<T, U>(f: T -> seq<U>, done: seq<T>, all: seq<T>, acc: seq<U>, exact: bool)
    requires multiset(done) <= multiset(all) && Covers(f, done, acc, exact)
    ensures Covers(f, all, acc, exact && multiset(done) == multiset(all))
  {
    FlatMapSubBag(f, done, all);
    if multiset(done) == multiset(all) {
      FlatMapPermutation(f, done, all);
    }
  }
}
