/** Small value types shared by the model: Java's Optional, thrown exceptions
    as a Result, and the stream `filter` that keeps order. */
module Common {

  /** java.util.Optional */
  datatype Option<+T> = None | Some(value: T)

  /** A value, or the exception a Java call would have thrown instead. */
  datatype Result<+T, +E> = Success(value: T) | Failure(error: E)

  /** `stream().filter(keep).collect(toList())`: the elements that satisfy
      `keep`, in their original order. */
  function Filter<T>(s: seq<T>, keep: T -> bool): seq<T> {
    if s == [] then []
    else
      var rest := Filter(s[..|s| - 1], keep);
      if keep(s[|s| - 1]) then rest + [s[|s| - 1]] else rest
  }

  /** The filter keeps exactly the elements that satisfy `keep`. */
  lemma {:induction false} FilterMembers<T>(s: seq<T>, keep: T -> bool)
    ensures |Filter(s, keep)| <= |s|
    ensures forall i :: 0 <= i < |Filter(s, keep)| ==> Filter(s, keep)[i] in s && keep(Filter(s, keep)[i])
    ensures forall i :: 0 <= i < |s| && keep(s[i]) ==> s[i] in Filter(s, keep)
  {
    if s != [] {
      var init := s[..|s| - 1];
      FilterMembers(init, keep);
      assert s == init + [s[|s| - 1]];
      forall i | 0 <= i < |s| && keep(s[i])
        ensures s[i] in Filter(s, keep)
      {
        if i < |init| {
          assert s[i] == init[i];
        }
      }
    }
  }

  /** Filtering distributes over concatenation, so it never reorders. */
  lemma {:induction false} FilterConcat<T>(a: seq<T>, b: seq<T>, keep: T -> bool)
    ensures Filter(a + b, keep) == Filter(a, keep) + Filter(b, keep)
  {
    if b != [] {
      var ab := a + b;
      assert ab[..|ab| - 1] == a + b[..|b| - 1];
      assert ab[|ab| - 1] == b[|b| - 1];
      FilterConcat(a, b[..|b| - 1], keep);
    } else {
      assert a + b == a;
    }
  }

  /** Filtering one element. */
  lemma FilterSingleton<T>(x: T, keep: T -> bool)
    ensures Filter([x], keep) == if keep(x) then [x] else []
  {
    assert [x][..0] == [];
  }

  /** Every element kept is kept with its full multiplicity. */
  lemma {:induction false} FilterMultiset<T>(s: seq<T>, keep: T -> bool, x: T)
    ensures multiset(Filter(s, keep))[x] == if keep(x) then multiset(s)[x] else 0
  {
    if s != [] {
      FilterMultiset(s[..|s| - 1], keep, x);
      assert s == s[..|s| - 1] + [s[|s| - 1]];
    }
  }

  /** A loop that applies `f` to each element in order and collects the
      results, stopping at the first element for which `f` throws. */
  function MapUntilFailure<A, B, E>(xs: seq<A>, f: A -> Result<B, E>): Result<seq<B>, E> {
    if xs == [] then Success([])
    else
      match MapUntilFailure(xs[..|xs| - 1], f)
      case Failure(e) => Failure(e)
      case Success(ys) =>
        match f(xs[|xs| - 1])
        case Failure(e) => Failure(e)
        case Success(y) => Success(ys + [y])
  }

  /** The loop succeeds with `f`'s result for every element, position by
      position, or fails with `f`'s exception at the first element on which
      `f` throws. */
  lemma {:induction false} MapUntilFailureSpec<A, B, E>(xs: seq<A>, f: A -> Result<B, E>)
    ensures var r := MapUntilFailure(xs, f);
      && (r.Success? ==> |r.value| == |xs|)
      && (r.Success? ==> forall i :: 0 <= i < |xs| ==> f(xs[i]) == Success(r.value[i]))
      && (r.Failure? ==> exists i ::
            && 0 <= i < |xs|
            && f(xs[i]) == Failure(r.error)
            && forall j :: 0 <= j < i ==> f(xs[j]).Success?)
  {
    if xs != [] {
      var init := xs[..|xs| - 1];
      MapUntilFailureSpec(init, f);
      var prev := MapUntilFailure(init, f);
      if prev.Failure? {
        var i :| && 0 <= i < |init|
                 && f(init[i]) == Failure(prev.error)
                 && forall j :: 0 <= j < i ==> f(init[j]).Success?;
        assert forall j :: 0 <= j <= i ==> init[j] == xs[j];
      } else {
        forall j | 0 <= j < |init|
          ensures f(xs[j]) == Success(prev.value[j])
        {
          assert init[j] == xs[j];
        }
        if f(xs[|init|]).Success? {
          var ys := prev.value + [f(xs[|init|]).value];
          forall i | 0 <= i < |xs|
            ensures f(xs[i]) == Success(ys[i])
          {
            if i < |init| {
              assert ys[i] == prev.value[i];
            }
          }
        }
      }
    }
  }

  /** One more element: the loop either appends `f`'s result or stops with
      its exception. */
  lemma MapUntilFailureStep<A, B, E>(xs: seq<A>, f: A -> Result<B, E>, i: nat)
    requires i < |xs|
    requires MapUntilFailure(xs[..i], f).Success?
    ensures MapUntilFailure(xs[..i + 1], f) ==
      match f(xs[i])
      case Failure(e) => Failure(e)
      case Success(y) => Success(MapUntilFailure(xs[..i], f).value + [y])
  {
    assert xs[..i + 1][..i] == xs[..i];
  }

  /** Once the loop has thrown, the remaining elements do not matter. */
  lemma {:induction false} MapFailureSticks<A, B, E>(xs: seq<A>, f: A -> Result<B, E>, n: nat)
    requires n <= |xs|
    requires MapUntilFailure(xs[..n], f).Failure?
    ensures MapUntilFailure(xs, f) == MapUntilFailure(xs[..n], f)
  {
    if n < |xs| {
      var init := xs[..|xs| - 1];
      assert init[..n] == xs[..n];
      MapFailureSticks(init, f, n);
    } else {
      assert xs[..n] == xs;
    }
  }
}
