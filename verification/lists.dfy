/** Generic sequence helpers shared by the parsers and the list views. */
module Lists {
  import opened Wrappers

  /** Keep the `Some` results of `f`, in input order (`filter_map`). */
  function FilterMap<A, B>(f: A -> Option<B>, xs: seq<A>): (r: seq<B>)
    ensures |r| <= |xs|
  {
    if xs == [] then []
    else
      match f(xs[0])
      case None => FilterMap(f, xs[1..])
      case Some(y) => [y] + FilterMap(f, xs[1..])
  }

  /** One step of `FilterMap`. */
  lemma FilterMapCons<A, B>(f: A -> Option<B>, x: A, xs: seq<A>)
    ensures FilterMap(f, [x] + xs) == (if f(x).Some? then [f(x).value] else []) + FilterMap(f, xs)
  {
    assert ([x] + xs)[0] == x;
    assert ([x] + xs)[1..] == xs;
  }

  /** Every output comes from some input. */
  lemma {:induction false} FilterMapFromInput<A, B>(f: A -> Option<B>, xs: seq<A>, k: nat)
    requires k < |FilterMap(f, xs)|
    ensures exists j :: 0 <= j < |xs| && f(xs[j]) == Some(FilterMap(f, xs)[k])
  {
    var rest := FilterMap(f, xs[1..]);
    match f(xs[0])
    case None =>
      FilterMapFromInput(f, xs[1..], k);
      var j :| 0 <= j < |xs[1..]| && f(xs[1..][j]) == Some(rest[k]);
      assert f(xs[j + 1]) == Some(FilterMap(f, xs)[k]);
    case Some(y) =>
      if k > 0 {
        FilterMapFromInput(f, xs[1..], k - 1);
        var j :| 0 <= j < |xs[1..]| && f(xs[1..][j]) == Some(rest[k - 1]);
        assert f(xs[j + 1]) == Some(FilterMap(f, xs)[k]);
      } else {
        assert f(xs[0]) == Some(FilterMap(f, xs)[k]);
      }
  }

  /** Outputs keep the order of the inputs they come from: two outputs
      `k1 < k2` come from inputs `i1 < i2`. */
  lemma {:induction false} FilterMapOrder<A, B>(f: A -> Option<B>, xs: seq<A>, k1: nat, k2: nat)
    requires k1 < k2 < |FilterMap(f, xs)|
    ensures exists i1, i2 ::
              0 <= i1 < i2 < |xs| && f(xs[i1]) == Some(FilterMap(f, xs)[k1]) && f(xs[i2]) == Some(FilterMap(f, xs)[k2])
  {
    var r := FilterMap(f, xs);
    var rest := FilterMap(f, xs[1..]);
    match f(xs[0])
    case None =>
      FilterMapOrder(f, xs[1..], k1, k2);
      var i1, i2 :| 0 <= i1 < i2 < |xs[1..]|
        && f(xs[1..][i1]) == Some(rest[k1]) && f(xs[1..][i2]) == Some(rest[k2]);
      assert f(xs[i1 + 1]) == Some(r[k1]) && f(xs[i2 + 1]) == Some(r[k2]);
    case Some(y) =>
      if k1 > 0 {
        FilterMapOrder(f, xs[1..], k1 - 1, k2 - 1);
        var i1, i2 :| 0 <= i1 < i2 < |xs[1..]|
          && f(xs[1..][i1]) == Some(rest[k1 - 1]) && f(xs[1..][i2]) == Some(rest[k2 - 1]);
        assert f(xs[i1 + 1]) == Some(r[k1]) && f(xs[i2 + 1]) == Some(r[k2]);
      } else {
        FilterMapFromInput(f, xs[1..], k2 - 1);
        var j :| 0 <= j < |xs[1..]| && f(xs[1..][j]) == Some(rest[k2 - 1]);
        assert f(xs[0]) == Some(r[k1]) && f(xs[j + 1]) == Some(r[k2]);
      }
  }

  /** Every input whose result is `Some` is kept. */
  lemma {:induction false} FilterMapKeeps<A, B>(f: A -> Option<B>, xs: seq<A>, j: nat)
    requires j < |xs| && f(xs[j]).Some?
    ensures f(xs[j]).value in FilterMap(f, xs)
  {
    if j > 0 {
      assert xs[1..][j - 1] == xs[j];
      FilterMapKeeps(f, xs[1..], j - 1);
    }
  }

  /** Keep the elements satisfying `p`, in input order (`Iterator::filter`). */
  function Filter<A>(p: A -> bool, xs: seq<A>): (r: seq<A>)
    ensures |r| <= |xs|
    ensures forall i :: 0 <= i < |r| ==> p(r[i]) && r[i] in xs
  {
    if xs == [] then []
    else if p(xs[0]) then [xs[0]] + Filter(p, xs[1..])
    else Filter(p, xs[1..])
  }

  /** `Filter` distributes over concatenation. */
  lemma {:induction false} FilterAppend<A>(p: A -> bool, a: seq<A>, b: seq<A>)
    ensures Filter(p, a + b) == Filter(p, a) + Filter(p, b)
  {
    if a != [] {
      assert (a + b)[0] == a[0];
      assert (a + b)[1..] == a[1..] + b;
      FilterAppend(p, a[1..], b);
    } else {
      assert a + b == b;
    }
  }

  /** An element the filter accepts is kept. */
  lemma {:induction false} FilterKeeps<A>(p: A -> bool, xs: seq<A>, i: nat)
    requires i < |xs| && p(xs[i])
    ensures xs[i] in Filter(p, xs)
  {
    assert xs == xs[..i] + [xs[i]] + xs[i + 1..];
    FilterAppend(p, xs[..i] + [xs[i]], xs[i + 1..]);
    FilterAppend(p, xs[..i], [xs[i]]);
    assert Filter(p, [xs[i]]) == [xs[i]];
  }

  /** A filter that accepts every element is the identity, and one that
      rejects every element yields nothing. */
  lemma {:induction false} FilterAllOrNone<A>(p: A -> bool, xs: seq<A>)
    ensures (forall i :: 0 <= i < |xs| ==> p(xs[i])) ==> Filter(p, xs) == xs
    ensures (forall i :: 0 <= i < |xs| ==> !p(xs[i])) ==> Filter(p, xs) == []
  {
    if xs != [] {
      FilterAllOrNone(p, xs[1..]);
      assert [xs[0]] + xs[1..] == xs;
    }
  }

  /** Index of the first element satisfying `p` (`Iterator::position`). */
  function FindIndex<A>(p: A -> bool, xs: seq<A>): (r: Option<nat>)
    ensures r.Some? ==> r.value < |xs| && p(xs[r.value])
    ensures r.Some? ==> forall j :: 0 <= j < r.value ==> !p(xs[j])
    ensures r.None? <==> forall j :: 0 <= j < |xs| ==> !p(xs[j])
  {
    if xs == [] then None
    else if p(xs[0]) then Some(0)
    else match FindIndex(p, xs[1..])
      case None => None
      case Some(i) => Some(i + 1)
  }
}
