/**
 * Order-preserving selections from a sequence.  Both filters of the scraper
 * (keep the items that have a title, turning each into a record; keep the
 * records whose id has not been seen) are instances of the two functions
 * here, and each is characterised against `Positions`.
 */
module Subsequences {

  import opened Wrappers

  /** The indices `i` of `s` with `p(s[i])`, in increasing order. */
  function Positions<T>(s: seq<T>, p: T -> bool): (ps: seq<nat>)
    ensures |ps| <= |s|
    ensures forall k :: 0 <= k < |ps| ==> ps[k] < |s| && p(s[ps[k]])
    ensures forall k, l :: 0 <= k < l < |ps| ==> ps[k] < ps[l]
    ensures forall i :: 0 <= i < |s| ==> (i in ps <==> p(s[i]))
  {
    if s == [] then []
    else
      var init := Positions(s[..|s| - 1], p);
      assert forall i :: 0 <= i < |s| - 1 ==> s[..|s| - 1][i] == s[i];
      if p(s[|s| - 1]) then init + [|s| - 1] else init
  }

  /** The elements of `s` that satisfy `p`, in order (a list comprehension with an `if`). */
  function Filter<T>(s: seq<T>, p: T -> bool): (r: seq<T>)
    ensures |r| <= |s|
    ensures forall x :: x in r ==> x in s && p(x)
    ensures forall x :: x in s && p(x) ==> x in r
  {
    if s == [] then []
    else
      var init, last := s[..|s| - 1], s[|s| - 1];
      assert s == init + [last];
      Filter(init, p) + if p(last) then [last] else []
  }

  /** `f` applied along `s`, keeping the results that are present, in order. */
  function FilterMap<T, U>(s: seq<T>, f: T -> Option<U>): (r: seq<U>)
    ensures |r| <= |s|
    ensures forall y :: y in r ==> exists i :: 0 <= i < |s| && f(s[i]) == Some(y)
    ensures forall i :: 0 <= i < |s| && f(s[i]).Some? ==> f(s[i]).value in r
  {
    if s == [] then []
    else
      var init := s[..|s| - 1];
      assert forall i :: 0 <= i < |init| ==> init[i] == s[i];
      FilterMap(init, f) +
      match f(s[|s| - 1])
      case None => []
      case Some(y) => [y]
  }

  /** `Filter` keeps exactly the elements at `Positions`, in order. */
  lemma {:induction false} FilterSelects<T>(s: seq<T>, p: T -> bool)
    ensures |Filter(s, p)| == |Positions(s, p)|
    ensures forall k :: 0 <= k < |Positions(s, p)| ==> Filter(s, p)[k] == s[Positions(s, p)[k]]
  {
    if s != [] {
      var init, last := s[..|s| - 1], s[|s| - 1];
      FilterSelects(init, p);
      var ps0, rs0 := Positions(init, p), Filter(init, p);
      var ps, rs := Positions(s, p), Filter(s, p);
      if p(last) {
        assert ps == ps0 + [|s| - 1] && rs == rs0 + [last];
        forall k | 0 <= k < |ps| ensures rs[k] == s[ps[k]] {
          if k < |ps0| {
            assert s[ps[k]] == init[ps0[k]];
          }
        }
      } else {
        assert ps == ps0 && rs == rs0;
        forall k | 0 <= k < |ps| ensures rs[k] == s[ps[k]] {
          assert s[ps[k]] == init[ps0[k]];
        }
      }
    }
  }

  /**
   * `FilterMap` yields one result per position where `f` gives one (where
   * `p` holds), in order.
   */
  lemma {:induction false} FilterMapSelects<T, U>(s: seq<T>, f: T -> Option<U>, p: T -> bool)
    requires forall x :: f(x).Some? == p(x)
    ensures |FilterMap(s, f)| == |Positions(s, p)|
    ensures forall k :: 0 <= k < |Positions(s, p)| ==> f(s[Positions(s, p)[k]]) == Some(FilterMap(s, f)[k])
  {
    if s != [] {
      var init, last := s[..|s| - 1], s[|s| - 1];
      FilterMapSelects(init, f, p);
      var ps0, rs0 := Positions(init, p), FilterMap(init, f);
      var ps, rs := Positions(s, p), FilterMap(s, f);
      if p(last) {
        assert ps == ps0 + [|s| - 1] && rs == rs0 + [f(last).value];
        forall k | 0 <= k < |ps| ensures f(s[ps[k]]) == Some(rs[k]) {
          if k < |ps0| {
            assert s[ps[k]] == init[ps0[k]];
          }
        }
      } else {
        assert ps == ps0 && rs == rs0;
        forall k | 0 <= k < |ps| ensures f(s[ps[k]]) == Some(rs[k]) {
          assert s[ps[k]] == init[ps0[k]];
        }
      }
    }
  }

  /** Filtering by a conjunction is filtering by one conjunct, then the other. */
  lemma {:induction false} FilterConjunction<T>(s: seq<T>, p: T -> bool, q: T -> bool, both: T -> bool)
    requires forall x :: both(x) == (p(x) && q(x))
    ensures Filter(s, both) == Filter(Filter(s, p), q)
  {
    if s != [] {
      var init, last := s[..|s| - 1], s[|s| - 1];
      FilterConjunction(init, p, q, both);
      var r0 := Filter(init, p);
      if p(last) {
        var r := r0 + [last];
        assert Filter(s, p) == r;
        assert r[..|r| - 1] == r0 && r[|r| - 1] == last;
      } else {
        assert Filter(s, p) == r0;
      }
    }
  }

  /** The concatenation of `f(x)` for each `x` of `s`, in order. */
  function ConcatMap<T>(s: seq<T>, f: T -> string): string {
    if s == [] then "" else ConcatMap(s[..|s| - 1], f) + f(s[|s| - 1])
  }

  /** Concatenating over `a + b` concatenates over `a`, then over `b`. */
  lemma {:induction false} ConcatMapAppend<T>(a: seq<T>, b: seq<T>, f: T -> string)
    ensures ConcatMap(a + b, f) == ConcatMap(a, f) + ConcatMap(b, f)
  {
    if b == [] {
      assert a + b == a;
    } else {
      var b0 := b[..|b| - 1];
      assert (a + b)[..|a + b| - 1] == a + b0;
      assert (a + b)[|a + b| - 1] == b[|b| - 1];
      ConcatMapAppend(a, b0, f);
    }
  }

  /** One more element appends its piece. */
  lemma ConcatMapStep<T>(s: seq<T>, f: T -> string, i: nat)
    requires i < |s|
    ensures ConcatMap(s[..i + 1], f) == ConcatMap(s[..i], f) + f(s[i])
  {
    assert s[..i + 1][..i] == s[..i];
  }

  /**
   * Concatenation regroups.  Dafny knows this; the lemma only names the
   * instance a proof needs, so that the solver does not have to find it.
   */
  lemma ConcatAssociative(a: string, b: string, c: string)
    ensures (a + b) + c == a + (b + c)
  {
  }
}
