/** Order-preserving filtering: what a loop that pushes the elements it keeps
    onto an initially empty array computes. */
module Sequences {

  /** The elements of `s` that satisfy `p`, in their order in `s`. Defined
      on the last element, the way a pushing loop extends its result. */
  function Filter<T>(s: seq<T>, p: T -> bool): seq<T>
    decreases |s|
  {
    if |s| == 0 then []
    else Filter(s[..|s| - 1], p) + (if p(s[|s| - 1]) then [s[|s| - 1]] else [])
  }

  /** One more element of the input extends the filtered prefix by at most it. */
  lemma FilterStep<T>(s: seq<T>, i: nat, p: T -> bool)
    requires i < |s|
    ensures Filter(s[..i + 1], p) == Filter(s[..i], p) + (if p(s[i]) then [s[i]] else [])
  {
    assert s[..i + 1][..i] == s[..i];
  }

  /** An element occurs in the result exactly as often as in the input when
      it is kept, and not at all otherwise: nothing is duplicated or invented. */
  lemma {:induction false} FilterMultiplicity<T>(s: seq<T>, p: T -> bool, x: T)
    ensures multiset(Filter(s, p))[x] == if p(x) then multiset(s)[x] else 0
    decreases |s|
  {
    if |s| > 0 {
      var init, last := s[..|s| - 1], s[|s| - 1];
      assert s == init + [last];
      FilterMultiplicity(init, p, x);
    }
  }

  lemma FilterMembership<T>(s: seq<T>, p: T -> bool, x: T)
    ensures x in Filter(s, p) <==> x in s && p(x)
  {
    FilterMultiplicity(s, p, x);
  }

  /** The result is empty exactly when no element of the input is kept. */
  lemma FilterEmpty<T>(s: seq<T>, p: T -> bool)
    ensures Filter(s, p) == [] <==> forall i :: 0 <= i < |s| ==> !p(s[i])
  {
    if Filter(s, p) != [] {
      FilterMembership(s, p, Filter(s, p)[0]);
    }
    forall i | 0 <= i < |s| && p(s[i]) ensures Filter(s, p) != [] {
      FilterMembership(s, p, s[i]);
    }
  }

  /** Filtering by a predicate and by its negation splits the input. */
  lemma {:induction false} FilterPartition<T>(s: seq<T>, p: T -> bool, q: T -> bool)
    requires forall x :: q(x) == !p(x)
    ensures |Filter(s, p)| + |Filter(s, q)| == |s|
    decreases |s|
  {
    if |s| > 0 {
      FilterPartition(s[..|s| - 1], p, q);
    }
  }

  /** The positions of `s` whose elements are kept, in increasing order. */
  function Positions<T>(s: seq<T>, p: T -> bool): (r: seq<nat>)
    ensures |r| == |Filter(s, p)|
    decreases |s|
  {
    if |s| == 0 then []
    else Positions(s[..|s| - 1], p) + (if p(s[|s| - 1]) then [|s| - 1] else [])
  }

  /** The k-th kept element is the element of `s` at the k-th position. */
  lemma {:induction false} FilterAt<T>(s: seq<T>, p: T -> bool)
    ensures forall k :: 0 <= k < |Positions(s, p)| ==>
              Positions(s, p)[k] < |s| && s[Positions(s, p)[k]] == Filter(s, p)[k]
    decreases |s|
  {
    if |s| > 0 {
      var init, last := s[..|s| - 1], s[|s| - 1];
      FilterAt(init, p);
      var pos, fil := Positions(init, p), Filter(init, p);
      assert Positions(s, p) == pos + (if p(last) then [|s| - 1] else []);
      assert Filter(s, p) == fil + (if p(last) then [last] else []);
      forall k | 0 <= k < |pos| ensures pos[k] < |s| && s[pos[k]] == fil[k] {
        assert s[pos[k]] == init[pos[k]];
      }
    }
  }

  /** The positions lie inside `s` and strictly increase: the kept elements
      keep their order in `s`. */
  lemma {:induction false} PositionsIncrease<T>(s: seq<T>, p: T -> bool)
    ensures forall k :: 0 <= k < |Positions(s, p)| ==> Positions(s, p)[k] < |s|
    ensures forall k, l :: 0 <= k < l < |Positions(s, p)| ==> Positions(s, p)[k] < Positions(s, p)[l]
    decreases |s|
  {
    if |s| > 0 {
      PositionsIncrease(s[..|s| - 1], p);
    }
  }

  /** Every position whose element is kept is listed. */
  lemma {:induction false} PositionsComplete<T>(s: seq<T>, p: T -> bool)
    ensures forall j :: 0 <= j < |s| && p(s[j]) ==> j in Positions(s, p)
    decreases |s|
  {
    if |s| > 0 {
      var init := s[..|s| - 1];
      PositionsComplete(init, p);
      forall j | 0 <= j < |s| - 1 && p(s[j]) ensures j in Positions(s, p) {
        assert s[j] == init[j];
      }
    }
  }
}
