/** Vocabulary shared by the whole model: options, bytes, instants, and sequences that are
    flattened or thinned out in order. */
module Prelude {

  datatype Option<+T> = None | Some(value: T)

  type Byte = b: int | 0 <= b < 256
  type Bytes = seq<Byte>

  /** An instant or a duration, in nanoseconds since an arbitrary origin. */
  type Time = nat

  const SECOND: Time := 1_000_000_000
  const MILLISECOND: Time := 1_000_000

  /** The elements of `xs` that `keep` accepts, in order. */
  function Retain<T>(keep: T -> bool, xs: seq<T>): seq<T> {
    if xs == [] then []
    else
      var last := xs[|xs| - 1];
      var front := Retain(keep, xs[..|xs| - 1]);
      if keep(last) then front + [last] else front
  }

  lemma RetainSnoc<T>(keep: T -> bool, xs: seq<T>, x: T)
    ensures Retain(keep, xs + [x]) == if keep(x) then Retain(keep, xs) + [x] else Retain(keep, xs)
  {
    assert (xs + [x])[..|xs|] == xs;
  }

  lemma {:induction false} RetainMembers<T>(keep: T -> bool, xs: seq<T>)
    ensures forall x :: x in Retain(keep, xs) <==> x in xs && keep(x)
    ensures (forall x :: x in xs ==> keep(x)) ==> Retain(keep, xs) == xs
  {
    if xs != [] {
      RetainMembers(keep, xs[..|xs| - 1]);
    }
  }

  lemma {:induction false} RetainSame<T>(f: T -> bool, g: T -> bool, xs: seq<T>)
    requires forall x :: f(x) == g(x)
    ensures Retain(f, xs) == Retain(g, xs)
  {
    if xs != [] {
      RetainSame(f, g, xs[..|xs| - 1]);
    }
  }

  /** Thinning out twice keeps what both predicates accept. */
  lemma {:induction false} RetainTwice<T>(first: T -> bool, second: T -> bool, both: T -> bool, xs: seq<T>)
    requires forall x :: both(x) == (first(x) && second(x))
    ensures Retain(second, Retain(first, xs)) == Retain(both, xs)
  {
    if xs != [] {
      var front, last := xs[..|xs| - 1], xs[|xs| - 1];
      RetainTwice(first, second, both, front);
      if first(last) {
        RetainSnoc(second, Retain(first, front), last);
      }
    }
  }

  /** The defined results of a partial function, in order. */
  function Chosen<A, B>(f: A -> Option<B>, xs: seq<A>): seq<B> {
    if xs == [] then []
    else
      var front, last := Chosen(f, xs[..|xs| - 1]), f(xs[|xs| - 1]);
      if last.Some? then front + [last.value] else front
  }

  lemma ChosenSnoc<A, B>(f: A -> Option<B>, xs: seq<A>, x: A)
    ensures Chosen(f, xs + [x]) == if f(x).Some? then Chosen(f, xs) + [f(x).value] else Chosen(f, xs)
  {
    assert (xs + [x])[..|xs|] == xs;
  }

  lemma {:induction false} ChosenConcat<A, B>(f: A -> Option<B>, xs: seq<A>, ys: seq<A>)
    ensures Chosen(f, xs + ys) == Chosen(f, xs) + Chosen(f, ys)
  {
    if ys == [] {
      assert xs + ys == xs;
    } else {
      var front, last := ys[..|ys| - 1], ys[|ys| - 1];
      ChosenConcat(f, xs, front);
      assert xs + ys == xs + front + [last];
      ChosenSnoc(f, xs + front, last);
    }
  }

  /** `at` are the places of the elements that have a result, in order, and `ys` the results. */
  ghost predicate Picks<A, B>(f: A -> Option<B>, xs: seq<A>, at: seq<nat>, ys: seq<B>) {
    && |at| == |ys|
    && (forall k :: 0 <= k < |at| ==> at[k] < |xs| && f(xs[at[k]]) == Some(ys[k]))
    && (forall j, k :: 0 <= j < k < |at| ==> at[j] < at[k])
    && (forall i :: 0 <= i < |xs| && f(xs[i]).Some? ==> i in at)
  }

  lemma NothingPicked<A, B>(f: A -> Option<B>)
    ensures Picks(f, [], [], Chosen(f, []))
  {
  }

  lemma PicksSnoc<A, B>(f: A -> Option<B>, xs: seq<A>, at: seq<nat>, ys: seq<B>, x: A)
    requires Picks(f, xs, at, ys)
    ensures if f(x).Some? then Picks(f, xs + [x], at + [|xs|], ys + [f(x).value]) else Picks(f, xs + [x], at, ys)
  {
  }

  /** The defined results come from every element that has one, each once, in order. */
  lemma {:induction false} ChosenIndices<A, B>(f: A -> Option<B>, xs: seq<A>) returns (at: seq<nat>)
    ensures Picks(f, xs, at, Chosen(f, xs))
  {
    hide Picks, Chosen;
    at := [];
    if xs == [] {
      NothingPicked(f);
    } else {
      var front, last := xs[..|xs| - 1], xs[|xs| - 1];
      at := ChosenIndices(f, front);
      PicksSnoc(f, front, at, Chosen(f, front), last);
      ChosenSnoc(f, front, last);
      assert xs == front + [last];
      if f(last).Some? {
        at := at + [|front|];
      }
    }
  }

  /** The concatenation of a list of lists. */
  function Flatten<T>(xss: seq<seq<T>>): seq<T> {
    if xss == [] then [] else Flatten(xss[..|xss| - 1]) + xss[|xss| - 1]
  }

  lemma FlattenSnoc<T>(xss: seq<seq<T>>, xs: seq<T>)
    ensures Flatten(xss + [xs]) == Flatten(xss) + xs
  {
    assert (xss + [xs])[..|xss|] == xss;
  }
}
