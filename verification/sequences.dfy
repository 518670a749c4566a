/** Keeping the images of the elements a partial function accepts, in
    order: the shape of every "parse each line, skip the ones that fail"
    loop in the monitor. */
module Sequences {
  import opened Wrappers

  function FilterMap<A, B>(f: A -> Option<B>, xs: seq<A>): (ys: seq<B>)
    ensures |ys| <= |xs|
    decreases |xs|
  {
    if xs == [] then []
    else if f(xs[0]).Some? then [f(xs[0]).value] + FilterMap(f, xs[1..])
    else FilterMap(f, xs[1..])
  }

  lemma FilterMapSingle<A, B>(f: A -> Option<B>, x: A)
    ensures f(x).Some? ==> FilterMap(f, [x]) == [f(x).value]
    ensures f(x).None? ==> FilterMap(f, [x]) == []
  {
    assert [x][0] == x;
    assert [x][1..] == [];
  }

  lemma {:induction false} FilterMapAppend<A, B>(f: A -> Option<B>, xs: seq<A>, ys: seq<A>)
    ensures FilterMap(f, xs + ys) == FilterMap(f, xs) + FilterMap(f, ys)
    decreases |xs|
  {
    if xs == [] {
      assert xs + ys == ys;
    } else {
      assert (xs + ys)[0] == xs[0];
      assert (xs + ys)[1..] == xs[1..] + ys;
      FilterMapAppend(f, xs[1..], ys);
      if f(xs[0]).Some? {
        assert FilterMap(f, xs + ys) == [f(xs[0]).value] + FilterMap(f, xs[1..] + ys);
      }
    }
  }

  /** Extending the input by one element extends the output by that
      element's image, if it has one. */
  lemma FilterMapStep<A, B>(f: A -> Option<B>, xs: seq<A>, lo: nat, i: nat)
    requires lo <= i < |xs|
    ensures f(xs[i]).Some? ==> FilterMap(f, xs[lo..i + 1]) == FilterMap(f, xs[lo..i]) + [f(xs[i]).value]
    ensures f(xs[i]).None? ==> FilterMap(f, xs[lo..i + 1]) == FilterMap(f, xs[lo..i])
  {
    assert xs[lo..i + 1] == xs[lo..i] + [xs[i]];
    FilterMapAppend(f, xs[lo..i], [xs[i]]);
    FilterMapSingle(f, xs[i]);
  }

  lemma {:induction false} FilterMapSound<A, B>(f: A -> Option<B>, xs: seq<A>, lo: nat)
    requires lo <= |xs|
    ensures forall y :: y in FilterMap(f, xs[lo..]) ==>
      exists i :: lo <= i < |xs| && f(xs[i]) == Some(y)
    decreases |xs| - lo
  {
    if lo < |xs| {
      FilterMapSound(f, xs, lo + 1);
      assert xs[lo..][0] == xs[lo];
      assert xs[lo..][1..] == xs[lo + 1..];
      forall y | y in FilterMap(f, xs[lo..])
        ensures exists i :: lo <= i < |xs| && f(xs[i]) == Some(y)
      {
        if y !in FilterMap(f, xs[lo + 1..]) {
          assert f(xs[lo]) == Some(y);
        }
      }
    }
  }

  lemma {:induction false} FilterMapComplete<A, B>(f: A -> Option<B>, xs: seq<A>, i: nat)
    requires i < |xs| && f(xs[i]).Some?
    ensures f(xs[i]).value in FilterMap(f, xs)
    decreases i
  {
    if i > 0 {
      FilterMapComplete(f, xs[1..], i - 1);
    }
  }
}
