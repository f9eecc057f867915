/**
 * The shape both list-building loops of the pipeline share: walk a list,
 * turn each element into at most one result, and append the results in
 * order (`for x in xs: ... continue ... out.append(...)`).
 */
module Seqs {
  import opened Wrappers

  /** What one element contributes: its result, or nothing. */
  function Contribution<A, B>(x: A, f: A -> Option<B>): seq<B> {
    match f(x)
    case Some(y) => [y]
    case None => []
  }

  /** The results of `f` over `s`, in order, with the elements `f` rejects left out. */
  function FilterMap<A, B>(s: seq<A>, f: A -> Option<B>): (r: seq<B>)
    ensures |r| <= |s|
  {
    if s == [] then [] else FilterMap(s[..|s| - 1], f) + Contribution(s[|s| - 1], f)
  }

  lemma {:induction false} FilterMapSnoc<A, B>(s: seq<A>, x: A, f: A -> Option<B>)
    ensures FilterMap(s + [x], f) == FilterMap(s, f) + Contribution(x, f)
  {
    assert (s + [x])[..|s|] == s;
  }

  /** One more step of a left-to-right walk over `s`. */
  lemma FilterMapPrefix<A, B>(s: seq<A>, n: nat, f: A -> Option<B>)
    requires n < |s|
    ensures FilterMap(s[..n + 1], f) == FilterMap(s[..n], f) + Contribution(s[n], f)
  {
    assert s[..n + 1] == s[..n] + [s[n]];
    FilterMapSnoc(s[..n], s[n], f);
  }

  /** Elements are processed independently: the results of a concatenation are the concatenated results. */
  lemma {:induction false} FilterMapConcat<A, B>(a: seq<A>, b: seq<A>, f: A -> Option<B>)
    ensures FilterMap(a + b, f) == FilterMap(a, f) + FilterMap(b, f)
    decreases |b|
  {
    if b == [] {
      assert a + b == a;
    } else {
      var b', last := b[..|b| - 1], b[|b| - 1];
      assert a + b == (a + b') + [last];
      assert b == b' + [last];
      FilterMapSnoc(a + b', last, f);
      FilterMapSnoc(b', last, f);
      FilterMapConcat(a, b', f);
    }
  }

  /** Every result comes from some element. */
  lemma {:induction false} FilterMapSound<A, B>(s: seq<A>, f: A -> Option<B>)
    ensures forall y :: y in FilterMap(s, f) ==> exists x :: x in s && f(x) == Some(y)
  {
    if s != [] {
      var init, last := s[..|s| - 1], s[|s| - 1];
      FilterMapSound(init, f);
      forall y | y in FilterMap(s, f) ensures exists x :: x in s && f(x) == Some(y) {
        if y in FilterMap(init, f) {
          var x :| x in init && f(x) == Some(y);
          assert x in s;
        } else {
          assert f(last) == Some(y);
        }
      }
    }
  }

  /** An element that `f` rejects can be dropped without changing the results. */
  lemma FilterMapSkip<A, B>(before: seq<A>, x: A, after: seq<A>, f: A -> Option<B>)
    requires f(x).None?
    ensures FilterMap(before + [x] + after, f) == FilterMap(before, f) + FilterMap(after, f)
  {
    FilterMapConcat(before + [x], after, f);
    FilterMapSnoc(before, x, f);
  }

  /** Every element that `f` accepts contributes its result. */
  lemma {:induction false} FilterMapComplete<A, B>(s: seq<A>, j: nat, f: A -> Option<B>)
    requires j < |s| && f(s[j]).Some?
    ensures f(s[j]).value in FilterMap(s, f)
  {
    if j < |s| - 1 {
      FilterMapComplete(s[..|s| - 1], j, f);
    }
  }

  /** When `f` accepts every element, nothing is dropped and the order is kept element for element. */
  lemma {:induction false} FilterMapTotal<A, B>(s: seq<A>, f: A -> Option<B>)
    requires forall i :: 0 <= i < |s| ==> f(s[i]).Some?
    ensures |FilterMap(s, f)| == |s|
    ensures forall i :: 0 <= i < |s| ==> FilterMap(s, f)[i] == f(s[i]).value
  {
    if s != [] {
      FilterMapTotal(s[..|s| - 1], f);
    }
  }

}
