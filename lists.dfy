/**
 * Concatenating per-element lists in order, the shape of a loop that pushes
 * onto one array while it walks another.
 */
module Lists {
  /** `f(xs[0]) + f(xs[1]) + ...`, built from the back as a loop pushing in order would. */
  function FlatMap<A, B>(f: A -> seq<B>, xs: seq<A>): seq<B> {
    if xs == [] then [] else FlatMap(f, xs[..|xs| - 1]) + f(xs[|xs| - 1])
  }

  /** One more element appends its list. */
  lemma FlatMapStep<A, B>(f: A -> seq<B>, xs: seq<A>, i: nat)
    requires i < |xs|
    ensures FlatMap(f, xs[..i + 1]) == FlatMap(f, xs[..i]) + f(xs[i])
  {
    assert xs[..i + 1][..i] == xs[..i];
  }

  /** The lists of consecutive stretches concatenate: the result follows the input order. */
  lemma {:induction false} FlatMapAppend<A, B>(f: A -> seq<B>, xs: seq<A>, ys: seq<A>)
    ensures FlatMap(f, xs + ys) == FlatMap(f, xs) + FlatMap(f, ys)
  {
    if ys == [] {
      assert xs + ys == xs;
    } else {
      var init := ys[..|ys| - 1];
      FlatMapAppend(f, xs, init);
      assert (xs + ys)[..|xs + ys| - 1] == xs + init;
      assert (xs + ys)[|xs + ys| - 1] == ys[|ys| - 1];
      assert FlatMap(f, xs) + FlatMap(f, init) + f(ys[|ys| - 1])
          == FlatMap(f, xs) + (FlatMap(f, init) + f(ys[|ys| - 1]));
    }
  }

  /** The result is empty exactly when every element's list is. */
  lemma {:induction false} FlatMapEmpty<A, B>(f: A -> seq<B>, xs: seq<A>)
    ensures FlatMap(f, xs) == [] <==> forall j :: 0 <= j < |xs| ==> f(xs[j]) == []
  {
    if xs != [] {
      var init := xs[..|xs| - 1];
      FlatMapEmpty(f, init);
      assert |FlatMap(f, xs)| == |FlatMap(f, init)| + |f(xs[|xs| - 1])|;
      if FlatMap(f, xs) == [] {
        forall j | 0 <= j < |xs| ensures f(xs[j]) == [] {
          if j < |init| { assert xs[j] == init[j]; }
        }
      }
    }
  }

  /** The first element of the result is the first element of the first non-empty list. */
  lemma {:induction false} FlatMapFirst<A, B>(f: A -> seq<B>, xs: seq<A>)
    requires FlatMap(f, xs) != []
    ensures exists i :: (0 <= i < |xs|
      && (forall j :: 0 <= j < i ==> f(xs[j]) == [])
      && f(xs[i]) != []
      && FlatMap(f, xs)[0] == f(xs[i])[0])
  {
    var init := xs[..|xs| - 1];
    if FlatMap(f, init) == [] {
      FlatMapEmpty(f, init);
      var i := |xs| - 1;
      forall j | 0 <= j < i ensures f(xs[j]) == [] {
        assert xs[j] == init[j];
      }
      assert FlatMap(f, xs) == f(xs[i]);
    } else {
      FlatMapFirst(f, init);
      var i :| 0 <= i < |init|
        && (forall j :: 0 <= j < i ==> f(init[j]) == [])
        && f(init[i]) != []
        && FlatMap(f, init)[0] == f(init[i])[0];
      forall j | 0 <= j <= i ensures xs[j] == init[j] { }
      assert FlatMap(f, xs)[0] == FlatMap(f, init)[0];
      assert (forall j :: 0 <= j < i ==> f(xs[j]) == []) && f(xs[i]) != [];
    }
  }

  /** Every element of the result comes from the list of some input element. */
  lemma {:induction false} FlatMapMembers<A, B>(f: A -> seq<B>, xs: seq<A>)
    ensures forall k :: 0 <= k < |FlatMap(f, xs)| ==> exists i :: 0 <= i < |xs| && FlatMap(f, xs)[k] in f(xs[i])
  {
    if xs != [] {
      var init := xs[..|xs| - 1];
      var r := FlatMap(f, xs);
      var left := FlatMap(f, init);
      FlatMapMembers(f, init);
      forall k | 0 <= k < |r| ensures exists i :: 0 <= i < |xs| && r[k] in f(xs[i]) {
        if k < |left| {
          assert r[k] == left[k];
          var i :| 0 <= i < |init| && left[k] in f(init[i]);
          assert xs[i] == init[i];
        } else {
          assert r[k] == f(xs[|xs| - 1])[k - |left|];
          assert r[k] in f(xs[|xs| - 1]);
        }
      }
    } else {
      assert FlatMap(f, xs) == [];
    }
  }

  /** With at most `n` per element, the result has at most `n` times as many elements as the input. */
  lemma {:induction false} FlatMapLength<A, B>(f: A -> seq<B>, xs: seq<A>, n: nat)
    requires forall i :: 0 <= i < |xs| ==> |f(xs[i])| <= n
    ensures |FlatMap(f, xs)| <= n * |xs|
  {
    if xs != [] {
      var init := xs[..|xs| - 1];
      forall i | 0 <= i < |init| ensures |f(init[i])| <= n {
        assert init[i] == xs[i];
      }
      FlatMapLength(f, init, n);
      assert n * |xs| == n * |init| + n;
    }
  }
}
